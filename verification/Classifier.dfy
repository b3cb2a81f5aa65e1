/**
 Classifying one process: the automata first, then the looser sources, which must stand down once any
 automaton has seen a declared name that did not name the process.
 */
module Classifier {
  import opened Presence
  import opened Text
  import opened Bundle
  import opened Matcher

  datatype Source = DirectPath | CwdJoined | SteamAppId | ProtonAutomaton | SteamLibrary | NameOrFolder {
    /** Sources that guess from where a file lies or what it is called. */
    predicate Guesses() { SteamLibrary? || NameOrFolder? }
  }

  /** What the operating system and the other tables would answer about the process. */
  datatype Answers = Answers(
    skipped: bool,                    // excluded, or one of Steam's helpers
    cwd: Option<string>,
    steamId: bool,                    // its store id resolves to an entry
    shortcut: bool,                   // that id is in Steam's non-Steam range
    library: bool,                    // it runs under a known install directory
    byName: bool,                     // its stem or a folder is a game's name
    survives: (bool, Ref) -> bool)    // arguments match and the process is not suspended

  /** Separators folded, absolute. */
  function ProcessPath(raw: string): (path: string)
    ensures StartsWith(path, '/')
  {
    var s := Slashed(raw);
    if StartsWith(s, '/') then s else "/" + s
  }

  /** The file name of an `argv[0]` without directories. */
  function BareExe(path: string): Option<string> {
    var trimmed := if StartsWith(path, '/') then path[1..] else path;
    if trimmed == [] || '/' in trimmed then None else Some(trimmed)
  }

  /** The path rebuilt from the working directory, for bare names. */
  function Joined(path: string, cwd: Option<string>): Option<string> {
    if BareExe(path).Some? && cwd.Some? then Some(cwd.value + "/" + BareExe(path).value) else None
  }

  /** Neither the platform's patterns nor the user's occur in any variant. */
  ghost predicate Silent(g: Generation, platform: Platform, path: string) {
    NoneCarried(g, platform, Native, path) && NoneCarried(g, platform, Custom, path)
  }

  /** Silent on everything the native probes look at. */
  ghost predicate NativeSilence(g: Generation, platform: Platform, path: string, cwd: Option<string>) {
    Silent(g, platform, path) && (Joined(path, cwd).Some? ==> Silent(g, platform, Joined(path, cwd).value))
  }

  function ProtonPath(path: string, cwd: Option<string>): string {
    if Joined(path, cwd).Some? then Joined(path, cwd).value else path
  }

  ghost predicate ProtonSilence(g: Generation, platform: Platform, path: string, cwd: Option<string>) {
    NoneCarried(g, platform, Proton, ProtonPath(path, cwd))
  }

  /** Some variant of the path is named by an executable the tier's automata see: the platform's, then the user's. */
  ghost predicate Named(g: Generation, platform: Platform, path: string, proton: bool) {
    if proton then !NoneNamed(g, platform, Proton, path)
    else !(NoneNamed(g, platform, Native, path) && NoneNamed(g, platform, Custom, path))
  }

  ghost predicate NamedJoined(g: Generation, platform: Platform, path: string, cwd: Option<string>) {
    Joined(path, cwd).Some? && Named(g, platform, Joined(path, cwd).value, false)
  }

  /** Nothing the native probes look at is named. */
  ghost predicate Unnamed(g: Generation, platform: Platform, path: string, cwd: Option<string>) {
    !Named(g, platform, path, false) && !NamedJoined(g, platform, path, cwd)
  }

  /** A winner of the tier decides: its source answers if it survives, and otherwise nothing does. */
  ghost predicate AnsweredBy(g: Generation, platform: Platform, path: string, proton: bool, source: Source,
                             ask: Answers, hit: Option<Source>)
  {
    exists custom, r ::
      && ProbeResult(g, platform, path, proton, Corroborated(custom, r))
      && hit == if ask.survives(custom, r) then Some(source) else None
  }

  /** So where every winner survives the source answers, and where none does nothing answers. */
  lemma AnsweredIfSurvives(g: Generation, platform: Platform, path: string, proton: bool, source: Source, ask: Answers,
                           hit: Option<Source>)
    requires AnsweredBy(g, platform, path, proton, source, ask, hit)
    ensures hit in {None, Some(source)}
    ensures (forall custom, r :: ProbeResult(g, platform, path, proton, Corroborated(custom, r)) ==>
               ask.survives(custom, r)) ==> hit == Some(source)
    ensures (forall custom, r :: ProbeResult(g, platform, path, proton, Corroborated(custom, r)) ==>
               !ask.survives(custom, r)) ==> hit == None
  {
    hide ProbeResult;
    var custom, r :|
      && ProbeResult(g, platform, path, proton, Corroborated(custom, r))
      && hit == if ask.survives(custom, r) then Some(source) else None;
  }

  /**
   Exactly what answers for a process. A path that is named, or else the path rebuilt from the working directory,
   is answered for by its winner. Otherwise a store id answers. Otherwise, over silence of the native patterns, the
   name of a shortcut. Otherwise Proton's winner. Otherwise only over silence of all patterns do the install
   directory and then the name answer.
   */
  method MatchProcess(raw: string, out: array<string>, g: Generation, ask: Answers, search: Searcher,
                      ghost platform: Platform)
    returns (hit: Option<Source>)
    requires Searches(search) && WellBuilt(g, platform) && out.Length == 5
    modifies out
    ensures ask.skipped ==> hit == None
    ensures !ask.skipped && Named(g, platform, ProcessPath(raw), false) ==>
              AnsweredBy(g, platform, ProcessPath(raw), false, DirectPath, ask, hit)
    ensures !ask.skipped && !Named(g, platform, ProcessPath(raw), false)
            && NamedJoined(g, platform, ProcessPath(raw), ask.cwd) ==>
              AnsweredBy(g, platform, Joined(ProcessPath(raw), ask.cwd).value, false, CwdJoined, ask, hit)
    ensures !ask.skipped && Unnamed(g, platform, ProcessPath(raw), ask.cwd) && ask.steamId ==> hit == Some(SteamAppId)
    ensures !ask.skipped && Unnamed(g, platform, ProcessPath(raw), ask.cwd) && !ask.steamId ==>
            var quiet := NativeSilence(g, platform, ProcessPath(raw), ask.cwd);
            var proton := ProtonPath(ProcessPath(raw), ask.cwd);
            if quiet && ask.shortcut && ask.byName then hit == Some(NameOrFolder)
            else if Named(g, platform, proton, true) then
              AnsweredBy(g, platform, proton, true, ProtonAutomaton, ask, hit)
            else if !quiet || !ProtonSilence(g, platform, ProcessPath(raw), ask.cwd) then hit == None
            else if ask.library then hit == Some(SteamLibrary)
            else hit == if ask.byName && !ask.shortcut then Some(NameOrFolder) else None
    ensures hit.Some? && hit.value.Guesses() ==>
              && NativeSilence(g, platform, ProcessPath(raw), ask.cwd)
              && (ProtonSilence(g, platform, ProcessPath(raw), ask.cwd) || (ask.shortcut && hit.value.NameOrFolder?))
  {
    hide ProbeResult, Named, NativeSilence, ProtonSilence, ProtonPath, ProcessPath, Joined, WellBuilt, Searches;
    if ask.skipped { return None; }
    var path := ProcessPath(raw);
    var found, joined, refused := NativeProbes(path, out, g, ask.cwd, search, platform);
    if found.Corroborated? {
      return if ask.survives(found.custom, found.r) then Some(if joined then CwdJoined else DirectPath) else None;
    }
    if ask.steamId { return Some(SteamAppId); }
    if !refused && ask.shortcut && ask.byName { return Some(NameOrFolder); }
    hit := PastTheStoreId(path, out, g, ask, refused, search, platform);
  }

  /** The path, then for bare names the path rebuilt from the working directory. */
  method NativeProbes(path: string, out: array<string>, g: Generation, cwd: Option<string>, search: Searcher,
                      ghost platform: Platform)
    returns (found: Outcome, joined: bool, refused: bool)
    requires Searches(search) && WellBuilt(g, platform) && out.Length == 5
    modifies out
    ensures Named(g, platform, path, false) ==>
              found.Corroborated? && !joined && ProbeResult(g, platform, path, false, found)
    ensures !Named(g, platform, path, false) && NamedJoined(g, platform, path, cwd) ==>
              found.Corroborated? && joined && ProbeResult(g, platform, Joined(path, cwd).value, false, found)
    ensures found.Corroborated? <==> !Unnamed(g, platform, path, cwd)
    ensures !found.Corroborated? ==> (refused <==> !NativeSilence(g, platform, path, cwd))
  {
    joined := false;
    found := ProbeVariants(path, out, g, false, search, platform);
    HitsCarryPatterns(g, platform, path, false, found);
    refused := found.Refused?;
    hide ProbeResult, NoneCarried, NoneNamed, Named, Silent;
    if !found.Corroborated? && Joined(path, cwd).Some? {
      var candidate := Joined(path, cwd).value;
      joined := true;
      found := ProbeVariants(candidate, out, g, false, search, platform);
      HitsCarryPatterns(g, platform, candidate, false, found);
      refused := refused || found.Refused?;
    }
  }

  method PastTheStoreId(path: string, out: array<string>, g: Generation, ask: Answers, refusedBefore: bool,
                        search: Searcher, ghost platform: Platform)
    returns (hit: Option<Source>)
    requires Searches(search) && WellBuilt(g, platform) && out.Length == 5
    modifies out
    ensures Named(g, platform, ProtonPath(path, ask.cwd), true) ==>
              AnsweredBy(g, platform, ProtonPath(path, ask.cwd), true, ProtonAutomaton, ask, hit)
    ensures !Named(g, platform, ProtonPath(path, ask.cwd), true) ==>
            hit == if refusedBefore || !ProtonSilence(g, platform, path, ask.cwd) then None
                   else if ask.library then Some(SteamLibrary)
                   else if !ask.shortcut && ask.byName then Some(NameOrFolder) else None
  {
    var proton := ProbeVariants(ProtonPath(path, ask.cwd), out, g, true, search, platform);
    HitsCarryPatterns(g, platform, ProtonPath(path, ask.cwd), true, proton);
    hide ProbeResult, NoneCarried, NoneNamed;
    if proton.Corroborated? {
      return if ask.survives(proton.custom, proton.r) then Some(ProtonAutomaton) else None;
    }
    if refusedBefore || proton.Refused? { return None; }
    if ask.library { return Some(SteamLibrary); }
    if ask.shortcut { return None; }
    return if ask.byName then Some(NameOrFolder) else None;
  }

  /** Corroborated exactly when named, a miss exactly over silence. */
  lemma HitsCarryPatterns(g: Generation, platform: Platform, path: string, proton: bool, outcome: Outcome)
    requires ProbeResult(g, platform, path, proton, outcome)
    ensures outcome.NoMatch? <==>
            if proton then NoneCarried(g, platform, Proton, path) else Silent(g, platform, path)
    ensures outcome.Corroborated? <==> Named(g, platform, path, proton)
  {
    var first := if proton then Proton else Native;
    hide NoneCarried, NoneNamed, ShownBy;
    match outcome
    case Corroborated(custom, r) =>
      var tier := if custom then Custom else first;
      HitIsNamed(g, platform, tier, path, r);
      if NoneCarried(g, platform, tier, path) { UncarriedIsUnnamed(g, platform, tier, path); }
    case Refused =>
    case NoMatch =>
      UncarriedIsUnnamed(g, platform, first, path);
      if !proton { UncarriedIsUnnamed(g, platform, Custom, path); }
  }

  // ---------------------------------------------------------------- the paths that are probed

  /** A file name: not empty, and of one component. */
  predicate IsFileName(name: string) { name != [] && '/' !in name && '\\' !in name }

  /** An absolute path in `/` is probed as it is; a relative one behind a `/`; separators of either kind alike. */
  lemma ProbedPath(raw: string)
    ensures ProcessPath(raw) == ProcessPath(Slashed(raw))
    ensures '\\' !in raw ==> ProcessPath(raw) == if StartsWith(raw, '/') then raw else "/" + raw
  {
    assert Slashed(Slashed(raw)) == Slashed(raw);
    if '\\' !in raw { assert Slashed(raw) == raw; }
  }

  /** A bare file name is looked for in the working directory too, and nothing else is. */
  lemma JoinedPath(name: string, cwd: string, dir: string)
    requires IsFileName(name)
    ensures Joined(ProcessPath(name), Some(cwd)) == Some(cwd + "/" + name)
    ensures Joined(ProcessPath("/" + name), Some(cwd)) == Some(cwd + "/" + name)
    ensures Joined(ProcessPath(name), None) == None
    ensures dir != [] && dir != "/" && '\\' !in dir ==> Joined(ProcessPath(dir + "/" + name), Some(cwd)) == None
  {
    ProbedPath(name);
    ProbedPath("/" + name);
    assert ("/" + name)[1..] == name;
    if dir != [] && dir != "/" && '\\' !in dir {
      var path := dir + "/" + name;
      ProbedPath(path);
      var trimmed := if StartsWith(ProcessPath(path), '/') then ProcessPath(path)[1..] else ProcessPath(path);
      if StartsWith(path, '/') {
        assert trimmed == path[1..] && trimmed[|dir| - 1] == '/';
      } else {
        assert trimmed == path && trimmed[|dir|] == '/';
      }
    }
  }
}
