/**
 Whole runs of the bridge beside runs, on the same inputs and answers, of one that broadcasts every command:
 exactly when consumers can tell the two apart.
 */
module SkipRuns {
  import opened Presence
  import opened Replay
  import opened CacheContents
  import opened Bridge
  import opened TrackedCards
  import opened SkippedPublishes
  import opened Reaping
  import opened EagerBridge
  import Text

  /** A payload up to the spelling of an absent pid. */
  function Spelled(payload: Payload): Payload {
    match payload
    case Sdk(activity, app, None) => Sdk(activity, app, Some(0))
    case _ => payload
  }

  ghost predicate SameUpToSpelling(v: map<SocketId, Payload>, w: map<SocketId, Payload>) {
    v.Keys == w.Keys && forall s :: s in v ==> Spelled(v[s]) == Spelled(w[s])
  }

  // ---------------------------------------------------------------- one step of both

  /** A clear for a card on display that has been crowded out of the skipping bridge's cache. */
  ghost predicate Swallows(messages: seq<Message>, input: Input) {
    && Arrives(input) && input.command.args.value.activity.None?
    && input.command.Socket() in View(messages) && Crowded(messages, input.command.Socket())
  }

  /**
   A dead process's card, not cleared otherwise, that has been crowded out of exactly one of the two caches: the
   two have sent `a` and `p`.
   */
  ghost predicate ReapedByOne(a: seq<Message>, p: seq<Message>, answers: Answers, s: SocketId) {
    && s in View(a) && s !in Sockets(answers.cards) && IsGhost(s, View(a)[s], answers.alive)
    && (Crowded(a, s) <==> !Crowded(p, s))
  }

  /** The input tells the two bridges apart: a swallowed clear, or an empty table on which they reap differently. */
  ghost predicate TellsApart(a: seq<Message>, p: seq<Message>, input: Input, answers: Answers) {
    || Swallows(a, input)
    || (input == Scan(Cleared) && exists s :: ReapedByOne(a, p, answers, s))
  }

  lemma {:induction false} SameAfter(a: seq<Message>, b: seq<Message>, more: seq<Message>)
    requires SameUpToSpelling(View(a), View(b))
    ensures SameUpToSpelling(View(a + more), View(b + more))
    decreases |more|
  {
    if more == [] {
      assert a + more == a && b + more == b;
    } else {
      var n := |more| - 1;
      hide View, SameUpToSpelling;
      SameAfter(a, b, more[..n]);
      assert more == more[..n] + [more[n]];
      Text.Regroup(a, more[..n], [more[n]]);
      Text.Regroup(b, more[..n], [more[n]]);
      SameNext(a + more[..n], b + more[..n], more[n]);
    }
  }

  lemma SameNext(a: seq<Message>, b: seq<Message>, message: Message)
    requires SameUpToSpelling(View(a), View(b))
    ensures SameUpToSpelling(View(a + [message]), View(b + [message]))
  {
    ViewNext(a, message);
    ViewNext(b, message);
    hide View;
  }

  /** Adding a message changes nothing but, at most, a spelling, exactly when the card says the same. */
  lemma AddedBack(v: map<SocketId, Payload>, w: map<SocketId, Payload>, own: Message)
    requires SameUpToSpelling(v, w)
    ensures SameUpToSpelling(v, Shown(w, own)) <==>
            if own.payload.IsClear() then own.socket !in v
            else own.socket in v && Spelled(v[own.socket]) == Spelled(own.payload)
  {
    var shown := Shown(w, own);
    if own.payload.IsClear() {
      assert own.socket !in shown;
      if own.socket !in v { assert shown == w; }
    } else {
      assert own.socket in shown && shown[own.socket] == own.payload;
      if own.socket in v { assert shown.Keys == w.Keys; }
    }
  }

  /** Game cards sit on their own pid's socket, and, where asked for, spell that pid. */
  ghost predicate Proper(messages: seq<Message>, explicit: bool) {
    forall i :: 0 <= i < |messages| && messages[i].payload.Sdk? ==>
      && messages[i].socket == PidSocket(messages[i].payload.OwnerPid())
      && (explicit ==> messages[i].payload.pid.Some?)
  }

  ghost predicate ProperAt(s: SocketId, payload: Payload, explicit: bool) {
    payload.Sdk? ==> s == PidSocket(payload.OwnerPid()) && (explicit ==> payload.pid.Some?)
  }

  lemma {:induction false} ProperView(messages: seq<Message>, explicit: bool, s: SocketId)
    requires Proper(messages, explicit) && s in View(messages)
    ensures ProperAt(s, View(messages)[s], explicit)
  {
    var n := |messages| - 1;
    if messages[n].socket != s { ProperView(messages[..n], explicit, s); }
  }

  /** Messages about detected cards, none of them on a connection's socket. */
  ghost predicate OnAppSockets(cards: seq<Message>) {
    forall i :: 0 <= i < |cards| ==> cards[i].socket.AppSocket? && !cards[i].payload.Sdk?
  }

  lemma CardsOnAppSockets(b: State, input: Input, answers: Answers, b': State)
    requires TablesMove(b, input, answers, b')
    ensures OnAppSockets(answers.cards)
    ensures input == Scan(Cleared) ==> AllClears(answers.cards)
  {
  }

  /** An unchanged command, broadcast by one bridge only, after the same detected cards. */
  lemma UnchangedStep(a: seq<Message>, p: seq<Message>, command: Command, cards: seq<Message>)
    requires command.args.Some? && !Changes(a, command) && OnAppSockets(cards) && Proper(a, false)
    requires SameUpToSpelling(View(a), View(p))
    ensures SameUpToSpelling(View(a + cards), View(p + (cards + [command.Own()]))) <==>
            !(command.args.value.activity.None? && command.Socket() in View(a) && Crowded(a, command.Socket()))
  {
    hide View, SameUpToSpelling, Proper, Crowded;
    var s := command.Socket();
    SameAfter(a, p, cards);
    OthersKeepCard(a, cards, s);
    Text.Regroup(p, cards, [command.Own()]);
    ViewNext(p + cards, command.Own());
    AddedBack(View(a + cards), View(p + cards), command.Own());
    if s in View(a) { ProperView(a, false, s); }
  }

  lemma CommandStep(a: seq<Message>, p: seq<Message>, input: Input, answers: Answers, feed: Feed, sent: seq<Message>,
                    feed': Feed, other: Feed, plain: seq<Message>, other': Feed)
    requires Delivers(EmptyFeed, a, feed) && OnAppSockets(answers.cards) && Proper(a, false)
    requires SameUpToSpelling(View(a), View(p)) && input != Scan(Cleared)
    requires Sends(feed, input, answers, true, sent, feed') && Sends(other, input, answers, false, plain, other')
    ensures SameUpToSpelling(View(a + sent), View(p + plain)) <==> !Swallows(a, input)
  {
    hide View, SameUpToSpelling, Proper, Crowded, Delivers, OnAppSockets, ActivityChanged;
    if Arrives(input) {
      ChangedIffChanges(a, feed, input.command);
      if Changes(a, input.command) {
        SameAfter(a, p, sent);
      } else {
        assert answers.cards + [] == answers.cards;
        UnchangedStep(a, p, input.command, answers.cards);
      }
    } else {
      SameAfter(a, p, sent);
    }
  }

  lemma GhostIgnoresSpelling(s: SocketId, x: Payload, y: Payload, alive: Pid -> bool)
    requires Spelled(x) == Spelled(y)
    ensures IsGhost(s, x, alive) <==> IsGhost(s, y, alive)
  {
    assert x.OwnerPid() == y.OwnerPid();
  }

  /** What the reaping of a bridge that has sent `messages` leaves of a card. */
  ghost predicate Stays(messages: seq<Message>, answers: Answers, s: SocketId) {
    && s in View(messages) && s !in Sockets(answers.cards)
    && (IsGhost(s, View(messages)[s], answers.alive) ==> Crowded(messages, s))
  }

  lemma ReapLeaves(messages: seq<Message>, feed: Feed, answers: Answers, sent: seq<Message>, feed': Feed, s: SocketId)
    requires Delivers(EmptyFeed, messages, feed) && AllClears(answers.cards) && SendsReaping(feed, answers, sent, feed')
    ensures s in View(messages + sent) <==> Stays(messages, answers, s)
    ensures s in View(messages + sent) ==> View(messages + sent)[s] == View(messages)[s]
  {
    hide View, Crowded, Delivers, IsReaping, Sockets, IsGhost;
    var mid: Feed, reaped :|
      && Delivers(feed, answers.cards, mid) && IsReaping(mid.cache, answers.alive, reaped)
      && Delivers(mid, reaped, feed') && sent == answers.cards + reaped;
    ReapShows(messages, feed, answers.cards, answers.alive, mid, reaped, feed', s);
  }

  /** The same card stays with both bridges unless exactly one of them reaps it. */
  lemma StaysIff(a: seq<Message>, p: seq<Message>, answers: Answers, s: SocketId)
    requires SameUpToSpelling(View(a), View(p))
    ensures (Stays(a, answers, s) <==> Stays(p, answers, s)) <==> !ReapedByOne(a, p, answers, s)
  {
    hide View, Crowded, Sockets, IsGhost, Spelled;
    if s in View(a) { GhostIgnoresSpelling(s, View(a)[s], View(p)[s], answers.alive); }
  }

  lemma ClearedStepApart(a: seq<Message>, p: seq<Message>, answers: Answers, feed: Feed, sent: seq<Message>,
                         feed': Feed, other: Feed, plain: seq<Message>, other': Feed)
    requires Delivers(EmptyFeed, a, feed) && Delivers(EmptyFeed, p, other) && AllClears(answers.cards)
    requires SameUpToSpelling(View(a), View(p))
    requires SendsReaping(feed, answers, sent, feed') && SendsReaping(other, answers, plain, other')
    ensures SameUpToSpelling(View(a + sent), View(p + plain)) <==> !exists s :: ReapedByOne(a, p, answers, s)
  {
    var v, w := View(a + sent), View(p + plain);
    forall s
      ensures (s in v <==> s in w) <==> !ReapedByOne(a, p, answers, s)
      ensures s in v && s in w ==> Spelled(v[s]) == Spelled(w[s])
    {
      hide View, Delivers, AllClears, SendsReaping, Stays, ReapedByOne;
      ReapLeaves(a, feed, answers, sent, feed', s);
      ReapLeaves(p, other, answers, plain, other', s);
      StaysIff(a, p, answers, s);
    }
    hide View, Delivers, AllClears, SendsReaping, ReapedByOne, Spelled;
    assert v.Keys == w.Keys <==> forall s :: s in v <==> s in w;
  }

  /** One input: the two stay indistinguishable exactly when it does not tell them apart. */
  lemma TwinStep(a: seq<Message>, p: seq<Message>, b: State, e: State, input: Input, answers: Answers,
                 sent: seq<Message>, b': State, plain: seq<Message>, e': State)
    requires Delivers(EmptyFeed, a, b.feed) && Delivers(EmptyFeed, p, e.feed) && Proper(a, false)
    requires SameUpToSpelling(View(a), View(p))
    requires BridgeStep(b, input, answers, true, sent, b') && BridgeStep(e, input, answers, false, plain, e')
    ensures SameUpToSpelling(View(a + sent), View(p + plain)) <==> !TellsApart(a, p, input, answers)
  {
    hide View, Delivers, Proper, SameUpToSpelling, TablesMove, SendsReaping, Swallows, ReapedByOne, OnAppSockets;
    CardsOnAppSockets(b, input, answers, b');
    if input == Scan(Cleared) {
      NeverSwallowed(a, input);
      ClearedStepApart(a, p, answers, b.feed, sent, b'.feed, e.feed, plain, e'.feed);
    } else {
      CommandStep(a, p, input, answers, b.feed, sent, b'.feed, e.feed, plain, e'.feed);
    }
  }

  lemma NeverSwallowed(a: seq<Message>, input: Input)
    requires input.Scan?
    ensures !Swallows(a, input)
  {
  }

  // ---------------------------------------------------------------- whole runs

  /** A run of the bridge and, beside it, one without the skip: what they were given, and what each of them sent. */
  datatype Twins = Twins(inputs: seq<Input>, answers: seq<Answers>, states: seq<State>, sents: seq<seq<Message>>,
                         eagers: seq<State>, plains: seq<seq<Message>>)

  ghost predicate Shaped(t: Twins) {
    && |t.states| == |t.eagers| == |t.inputs| + 1
    && |t.answers| == |t.sents| == |t.plains| == |t.inputs|
  }

  /** Both bridges' steps at input `i`, with the same answers and the same entries evicted from full tables. */
  ghost predicate StepsBoth(t: Twins, i: nat)
    requires Shaped(t) && i < |t.inputs|
  {
    && BridgeStep(t.states[i], t.inputs[i], t.answers[i], true, t.sents[i], t.states[i + 1])
    && BridgeStep(t.eagers[i], t.inputs[i], t.answers[i], false, t.plains[i], t.eagers[i + 1])
    && SameTables(t.states[i + 1], t.eagers[i + 1])
  }

  ghost predicate IsTwinRun(t: Twins) {
    && Shaped(t) && t.states[0] == t.eagers[0] == Initial
    && forall i :: 0 <= i < |t.inputs| ==> StepsBoth(t, i)
  }

  lemma SendsDelivers(feed: Feed, input: Input, answers: Answers, skips: bool, sent: seq<Message>, feed': Feed)
    requires Sends(feed, input, answers, skips, sent, feed')
    ensures Delivers(feed, sent, feed')
  {
    hide Delivers, IsReaping;
    if input == Scan(Cleared) {
      var mid: Feed, reaped :|
        && Delivers(feed, answers.cards, mid) && IsReaping(mid.cache, answers.alive, reaped)
        && Delivers(mid, reaped, feed') && sent == answers.cards + reaped;
      DeliveryJoins(feed, answers.cards, mid, reaped, feed');
    }
  }

  lemma DeliveredNext(sents: seq<seq<Message>>, i: nat, feed: Feed, input: Input, answers: Answers, skips: bool,
                      feed': Feed)
    requires i < |sents| && Delivers(EmptyFeed, Flat(sents[..i]), feed)
    requires Sends(feed, input, answers, skips, sents[i], feed')
    ensures Delivers(EmptyFeed, Flat(sents[..i + 1]), feed')
  {
    hide Delivers, Sends, Flat;
    SendsDelivers(feed, input, answers, skips, sents[i], feed');
    DeliveryJoins(EmptyFeed, Flat(sents[..i]), feed, sents[i], feed');
    FlatNext(sents, i);
  }

  lemma TwinsDeliver(t: Twins, n: nat)
    requires IsTwinRun(t) && n <= |t.inputs|
    ensures Delivers(EmptyFeed, Flat(t.sents[..n]), t.states[n].feed)
    ensures Delivers(EmptyFeed, Flat(t.plains[..n]), t.eagers[n].feed)
  {
    DeliversNothing(EmptyFeed, EmptyFeed);
    assert Flat(t.sents[..0]) == [] && Flat(t.plains[..0]) == [];
    hide Delivers, Sends, Flat, TablesMove;
    for i := 0 to n
      invariant Delivers(EmptyFeed, Flat(t.sents[..i]), t.states[i].feed)
      invariant Delivers(EmptyFeed, Flat(t.plains[..i]), t.eagers[i].feed)
    {
      var input := t.inputs[i];
      assert StepsBoth(t, i);
      DeliveredNext(t.sents, i, t.states[i].feed, input, t.answers[i], true, t.states[i + 1].feed);
      DeliveredNext(t.plains, i, t.eagers[i].feed, input, t.answers[i], false, t.eagers[i + 1].feed);
    }
  }

  /** Every publish of the run spells its pid. */
  ghost predicate PidsSpelled(inputs: seq<Input>) {
    forall i :: 0 <= i < |inputs| && Arrives(inputs[i]) && inputs[i].command.Publishes() ==>
      inputs[i].command.args.value.pid.Some?
  }

  lemma StepIsProper(b: State, input: Input, answers: Answers, skips: bool, sent: seq<Message>, b': State,
                     explicit: bool)
    requires BridgeStep(b, input, answers, skips, sent, b')
    requires explicit && Arrives(input) && input.command.Publishes() ==> input.command.args.value.pid.Some?
    ensures Proper(sent, explicit)
  {
    CardsOnAppSockets(b, input, answers, b');
    hide TablesMove, Delivers;
  }

  lemma ProperJoins(first: seq<Message>, second: seq<Message>, explicit: bool)
    requires Proper(first, explicit) && Proper(second, explicit)
    ensures Proper(first + second, explicit)
  {
  }

  lemma RunIsProper(t: Twins, n: nat, explicit: bool)
    requires IsTwinRun(t) && n <= |t.inputs| && (explicit ==> PidsSpelled(t.inputs))
    ensures Proper(Flat(t.sents[..n]), explicit) && Proper(Flat(t.plains[..n]), explicit)
  {
    assert Flat(t.sents[..0]) == [] && Flat(t.plains[..0]) == [];
    assert Proper(Flat(t.sents[..0]), explicit) && Proper(Flat(t.plains[..0]), explicit);
    hide Flat, BridgeStep, Proper;
    for i := 0 to n
      invariant Proper(Flat(t.sents[..i]), explicit) && Proper(Flat(t.plains[..i]), explicit)
    {
      assert StepsBoth(t, i);
      StepIsProper(t.states[i], t.inputs[i], t.answers[i], true, t.sents[i], t.states[i + 1], explicit);
      StepIsProper(t.eagers[i], t.inputs[i], t.answers[i], false, t.plains[i], t.eagers[i + 1], explicit);
      FlatNext(t.sents, i);
      FlatNext(t.plains, i);
      ProperJoins(Flat(t.sents[..i]), t.sents[i], explicit);
      ProperJoins(Flat(t.plains[..i]), t.plains[i], explicit);
    }
  }

  /** After `n` inputs, consumers of the two bridges show the same, up to the spelling of an absent pid. */
  ghost predicate SameAfterInputs(t: Twins, n: nat)
    requires Shaped(t) && n <= |t.inputs|
  {
    SameUpToSpelling(View(Flat(t.sents[..n])), View(Flat(t.plains[..n])))
  }

  ghost predicate ToldApartAt(t: Twins, i: nat)
    requires Shaped(t) && i < |t.inputs|
  {
    TellsApart(Flat(t.sents[..i]), Flat(t.plains[..i]), t.inputs[i], t.answers[i])
  }

  lemma SameAtStart(t: Twins)
    requires Shaped(t)
    ensures SameAfterInputs(t, 0)
  {
    assert Flat(t.sents[..0]) == [] && Flat(t.plains[..0]) == [];
  }

  lemma RunStep(t: Twins, i: nat)
    requires IsTwinRun(t) && i < |t.inputs| && SameAfterInputs(t, i)
    ensures SameAfterInputs(t, i + 1) <==> !ToldApartAt(t, i)
  {
    hide Flat, View, BridgeStep, Delivers, SameUpToSpelling, TellsApart, Proper;
    TwinsDeliver(t, i);
    RunIsProper(t, i, false);
    FlatNext(t.sents, i);
    FlatNext(t.plains, i);
    assert StepsBoth(t, i);
    TwinStep(Flat(t.sents[..i]), Flat(t.plains[..i]), t.states[i], t.eagers[i], t.inputs[i], t.answers[i],
             t.sents[i], t.states[i + 1], t.plains[i], t.eagers[i + 1]);
  }

  lemma {:induction false} SameSoFar(t: Twins, n: nat)
    requires IsTwinRun(t) && n <= |t.inputs| && forall i :: 0 <= i < n ==> !ToldApartAt(t, i)
    ensures SameAfterInputs(t, n)
  {
    hide SameAfterInputs, ToldApartAt, BridgeStep;
    if n == 0 {
      SameAtStart(t);
    } else {
      SameSoFar(t, n - 1);
      RunStep(t, n - 1);
    }
  }

  /**
   Exactly when skipping unchanged commands is invisible, over every run, any flood-guard verdicts and any answers
   of the operating system: consumers show throughout what consumers of a bridge that broadcasts every command
   show, up to the spelling of an absent pid, if and only if no clear comes for a card that has been crowded out of
   the cache, and no empty table finds a dead process's card crowded out of exactly one of the two caches.
   */
  lemma SkipsAreInvisibleIff(t: Twins)
    requires IsTwinRun(t)
    ensures (forall n :: 0 <= n <= |t.inputs| ==> SameAfterInputs(t, n)) <==>
            (forall i :: 0 <= i < |t.inputs| ==> !ToldApartAt(t, i))
  {
    hide SameAfterInputs, ToldApartAt, BridgeStep;
    if forall n :: 0 <= n <= |t.inputs| ==> SameAfterInputs(t, n) {
      forall i | 0 <= i < |t.inputs| ensures !ToldApartAt(t, i) { RunStep(t, i); }
    }
    if forall i :: 0 <= i < |t.inputs| ==> !ToldApartAt(t, i) {
      forall n | 0 <= n <= |t.inputs| ensures SameAfterInputs(t, n) { SameSoFar(t, n); }
    }
  }

  // ---------------------------------------------------------------- never more than fifty cards

  lemma FitsPrefix(messages: seq<Message>, prefix: seq<Message>)
    requires AlwaysFits(messages) && prefix <= messages
    ensures AlwaysFits(prefix)
  {
    hide View;
    forall k | 0 <= k <= |prefix| ensures |View(prefix[..k])| <= MAX_CACHED_ACTIVITIES {
      assert prefix[..k] == messages[..k];
    }
  }

  lemma FitsNext(messages: seq<Message>, message: Message)
    requires AlwaysFits(messages) && |View(messages + [message])| <= MAX_CACHED_ACTIVITIES
    ensures AlwaysFits(messages + [message])
  {
    hide View;
    var all := messages + [message];
    forall k | 0 <= k <= |all| ensures |View(all[..k])| <= MAX_CACHED_ACTIVITIES {
      if k <= |messages| { assert all[..k] == messages[..k]; } else { assert all[..k] == all; }
    }
  }

  lemma SameSize(v: map<SocketId, Payload>, w: map<SocketId, Payload>)
    requires v.Keys == w.Keys
    ensures |v| == |w|
  {
    assert |v.Keys| == |v| && |w.Keys| == |w|;
  }

  /** What fits after one log fits after another that shows the same. */
  lemma {:induction false} FitsToo(a: seq<Message>, p: seq<Message>, more: seq<Message>)
    requires AlwaysFits(a + more) && AlwaysFits(p) && SameUpToSpelling(View(a), View(p))
    ensures AlwaysFits(p + more)
    decreases |more|
  {
    hide View, AlwaysFits;
    if more == [] {
      assert p + more == p;
    } else {
      var n := |more| - 1;
      assert more == more[..n] + [more[n]];
      Text.Regroup(a, more[..n], [more[n]]);
      Text.Regroup(p, more[..n], [more[n]]);
      FitsPrefix(a + more, a + more[..n]);
      FitsToo(a, p, more[..n]);
      SameAfter(a, p, more);
      SameSize(View(a + more), View(p + more));
      WholeFits(a + more);
      FitsNext(p + more[..n], more[n]);
    }
  }

  lemma WholeFits(messages: seq<Message>)
    requires AlwaysFits(messages)
    ensures |View(messages)| <= MAX_CACHED_ACTIVITIES
  {
    hide View;
    assert messages[..|messages|] == messages;
  }

  lemma ShownFits(view: map<SocketId, Payload>, message: Message)
    requires message.payload.IsClear() || message.socket in view
    ensures |Shown(view, message)| <= |view|
  {
    SubmapSize(view - {message.socket}, view);
    if !message.payload.IsClear() { SameSize(Shown(view, message), view); }
  }

  lemma {:induction false} FitsClears(messages: seq<Message>, clears: seq<Message>)
    requires AlwaysFits(messages) && AllClears(clears)
    ensures AlwaysFits(messages + clears)
    decreases |clears|
  {
    hide View, AlwaysFits;
    if clears == [] {
      assert messages + clears == messages;
    } else {
      var n := |clears| - 1;
      var before := messages + clears[..n];
      FitsClears(messages, clears[..n]);
      assert clears == clears[..n] + [clears[n]];
      Text.Regroup(messages, clears[..n], [clears[n]]);
      ViewNext(before, clears[n]);
      ShownFits(View(before), clears[n]);
      WholeFits(before);
      FitsNext(before, clears[n]);
    }
  }

  lemma FitsUnchanged(a: seq<Message>, p: seq<Message>, command: Command, cards: seq<Message>)
    requires command.args.Some? && !Changes(a, command) && OnAppSockets(cards)
    requires AlwaysFits(p + cards) && SameUpToSpelling(View(a), View(p))
    ensures AlwaysFits(p + (cards + [command.Own()]))
  {
    hide View, AlwaysFits, Crowded;
    var own := command.Own();
    OthersKeepCard(a, cards, own.socket);
    SameAfter(a, p, cards);
    Text.Regroup(p, cards, [own]);
    ViewNext(p + cards, own);
    ShownFits(View(p + cards), own);
    WholeFits(p + cards);
    FitsNext(p + cards, own);
  }

  /** With never more than fifty cards on display, the bridge without the skip shows no more than fifty either. */
  lemma FitsStep(a: seq<Message>, p: seq<Message>, b: State, e: State, input: Input, answers: Answers,
                 sent: seq<Message>, b': State, plain: seq<Message>, e': State)
    requires Delivers(EmptyFeed, a, b.feed) && SameUpToSpelling(View(a), View(p))
    requires AlwaysFits(a + sent) && AlwaysFits(p)
    requires BridgeStep(b, input, answers, true, sent, b') && BridgeStep(e, input, answers, false, plain, e')
    ensures AlwaysFits(p + plain)
  {
    hide View, AlwaysFits, Delivers, SameUpToSpelling, TablesMove, OnAppSockets, ActivityChanged, Changes;
    var cards := answers.cards;
    CardsOnAppSockets(b, input, answers, b');
    assert a + cards <= a + sent;
    FitsPrefix(a + sent, a + cards);
    FitsToo(a, p, cards);
    if input == Scan(Cleared) {
      var mid: Feed, reaped :|
        && Delivers(e.feed, cards, mid) && IsReaping(mid.cache, answers.alive, reaped)
        && Delivers(mid, reaped, e'.feed) && plain == cards + reaped;
      Text.Regroup(p, cards, reaped);
      FitsClears(p + cards, reaped);
    } else if Arrives(input) {
      ChangedIffChanges(a, b.feed, input.command);
      if Changes(a, input.command) { FitsToo(a, p, sent); } else { FitsUnchanged(a, p, input.command, cards); }
    } else {
      FitsToo(a, p, sent);
    }
  }

  lemma NotCrowded(messages: seq<Message>, feed: Feed, s: SocketId)
    requires Delivers(EmptyFeed, messages, feed) && AlwaysFits(messages)
    ensures !Crowded(messages, s)
  {
    var feeds: seq<Feed> :| IsFeedPath(feeds, messages) && feeds[0] == EmptyFeed && feeds[|messages|] == feed;
    FittingIsNotCrowded(feeds, messages, s);
  }

  lemma FittingTellsNothing(a: seq<Message>, p: seq<Message>, feed: Feed, other: Feed, input: Input, answers: Answers)
    requires Delivers(EmptyFeed, a, feed) && Delivers(EmptyFeed, p, other) && AlwaysFits(a) && AlwaysFits(p)
    ensures !TellsApart(a, p, input, answers)
  {
    hide View, Delivers, AlwaysFits, Crowded;
    forall s ensures !Crowded(a, s) && !Crowded(p, s) {
      NotCrowded(a, feed, s);
      NotCrowded(p, other, s);
    }
  }

  lemma {:induction false} FlatPrefix(sents: seq<seq<Message>>, n: nat)
    requires n <= |sents|
    ensures Flat(sents[..n]) <= Flat(sents)
    decreases |sents| - n
  {
    if n == |sents| {
      assert sents[..n] == sents;
    } else {
      FlatPrefix(sents, n + 1);
      FlatNext(sents, n);
    }
  }

  lemma FittingStep(t: Twins, i: nat)
    requires IsTwinRun(t) && i < |t.inputs| && AlwaysFits(Flat(t.sents))
    requires SameAfterInputs(t, i) && AlwaysFits(Flat(t.plains[..i]))
    ensures SameAfterInputs(t, i + 1) && AlwaysFits(Flat(t.plains[..i + 1]))
  {
    hide Flat, View, BridgeStep, Delivers, SameUpToSpelling, TellsApart, AlwaysFits;
    TwinsDeliver(t, i);
    FlatPrefix(t.sents, i);
    FlatPrefix(t.sents, i + 1);
    FitsPrefix(Flat(t.sents), Flat(t.sents[..i]));
    FitsPrefix(Flat(t.sents), Flat(t.sents[..i + 1]));
    FittingTellsNothing(Flat(t.sents[..i]), Flat(t.plains[..i]), t.states[i].feed, t.eagers[i].feed, t.inputs[i],
                        t.answers[i]);
    RunStep(t, i);
    FlatNext(t.sents, i);
    FlatNext(t.plains, i);
    assert StepsBoth(t, i);
    FitsStep(Flat(t.sents[..i]), Flat(t.plains[..i]), t.states[i], t.eagers[i], t.inputs[i], t.answers[i],
             t.sents[i], t.states[i + 1], t.plains[i], t.eagers[i + 1]);
  }

  lemma NothingFits()
    ensures AlwaysFits([])
  {
  }

  /** With never more than fifty cards on display, the skip is invisible in every run, empty tables included. */
  lemma SkipsAreInvisible(t: Twins, n: nat)
    requires IsTwinRun(t) && n <= |t.inputs| && AlwaysFits(Flat(t.sents))
    ensures SameAfterInputs(t, n)
  {
    SameAtStart(t);
    NothingFits();
    assert Flat(t.plains[..0]) == [];
    hide SameAfterInputs, AlwaysFits, Flat, BridgeStep;
    for i := 0 to n
      invariant SameAfterInputs(t, i) && AlwaysFits(Flat(t.plains[..i]))
    {
      FittingStep(t, i);
    }
  }

  /** Where every publish spells its pid, what consumers see is the same to the letter. */
  lemma SkipsAreInvisibleExactly(t: Twins, n: nat)
    requires IsTwinRun(t) && n <= |t.inputs| && AlwaysFits(Flat(t.sents)) && PidsSpelled(t.inputs)
    ensures View(Flat(t.sents[..n])) == View(Flat(t.plains[..n]))
  {
    SkipsAreInvisible(t, n);
    RunIsProper(t, n, true);
    var a, b := Flat(t.sents[..n]), Flat(t.plains[..n]);
    hide View, Flat, IsTwinRun, AlwaysFits, Proper, PidsSpelled;
    forall s | s in View(a) ensures View(a)[s] == View(b)[s] {
      ProperView(a, true, s);
      ProperView(b, true, s);
    }
  }
}
