/**
 What each input does to an application's slot, its card and its memory, in the terms of the input itself: which
 cards come back when a game connection clears, and what publishes, detections and removals leave.
 */
module Slots {
  import opened Presence
  import opened Handoff
  import opened Replay
  import opened CacheContents
  import opened Bridge
  import opened TrackedCards
  import opened SkippedPublishes
  import Text

  // ---------------------------------------------------------------- cards put back

  /** Every game of this application among them is this one. */
  ghost predicate OnlyGame(games: seq<Game>, a: AppId, game: Game) {
    forall g :: g in games && g.id == a ==> g == game
  }

  /** What some detected cards leave on an application's socket. */
  lemma {:induction false} CardsShow(messages: seq<Message>, games: seq<Game>, a: AppId, game: Game)
    requires OnlyGame(games, a, game) && game.id == a
    ensures var s, after := AppSocket(a), View(messages + GenericCards(games));
            if game in games then s in after && after[s] == Generic(game) else SameAt(after, View(messages), s)
    decreases |games|
  {
    if games == [] {
      assert messages + GenericCards(games) == messages;
    } else {
      var n := |games| - 1;
      var front, last := games[..n], games[n];
      assert games == front + [last] && last in games;
      assert GenericCards(games) == GenericCards(front) + [GenericCard(last)];
      hide View, GenericCards;
      CardsShow(messages, front, a, game);
      Text.Regroup(messages, GenericCards(front), [GenericCard(last)]);
      ViewNext(messages + GenericCards(front), GenericCard(last));
    }
  }

  /** What they leave in the table of tracked pids, with room. */
  lemma {:induction false} CardsTrack(table: map<AppId, Pid>, games: seq<Game>, table': map<AppId, Pid>, a: AppId,
                                      game: Game, ids: set<AppId>)
    requires TracksTo(table, games, table') && OnlyGame(games, a, game) && game.id == a
    requires table.Keys <= ids && |ids| < 64 && forall g :: g in games ==> g.id in ids
    ensures table'.Keys <= ids
    ensures if game in games then a in table' && table'[a] == game.pid
            else (a in table' <==> a in table) && (a in table ==> table'[a] == table[a])
    decreases |games|
  {
    if games != [] {
      var n := |games| - 1;
      var front, last := games[..n], games[n];
      assert games == front + [last] && last in games;
      var mid :| TracksTo(table, front, mid) && Stored(mid, last.id, last.pid, table');
      CardsTrack(table, front, mid, a, game, ids);
      StoredWithin(mid, last.id, last.pid, table', ids);
      hide TracksTo, Stored;
    }
  }

  lemma OwnLeavesApps(messages: seq<Message>, own: seq<Message>, a: AppId)
    requires forall i :: 0 <= i < |own| ==> own[i].socket.PidSocket?
    ensures SameAt(View(messages + own), View(messages), AppSocket(a))
  {
    OthersKeepCard(messages, own, AppSocket(a));
  }

  /** A command's cards put back, and its own message, on an application's socket. */
  lemma CommandOnApp(messages: seq<Message>, games: seq<Game>, own: seq<Message>, a: AppId, game: Game)
    requires OnlyGame(games, a, game) && game.id == a
    requires forall i :: 0 <= i < |own| ==> own[i].socket.PidSocket?
    ensures var s, after := AppSocket(a), View(messages + (GenericCards(games) + own));
            if game in games then s in after && after[s] == Generic(game) else SameAt(after, View(messages), s)
  {
    hide View, GenericCards, OnlyGame;
    CardsShow(messages, games, a, game);
    OwnLeavesApps(messages + GenericCards(games), own, a);
    Text.Regroup(messages, GenericCards(games), own);
  }

  // ---------------------------------------------------------------- a game connection clears

  /** A clear from a connection that named its process: of one application, or of all it has. */
  predicate ClearsAs(command: Command, pid: Pid) {
    command.args == Some(Args(Some(pid), None)) && pid != 0
  }

  lemma ReleasedIs(owners: map<AppId, Pid>, command: Command, pid: Pid, a: AppId)
    requires ClearsAs(command, pid)
    ensures a in Released(owners, command) <==>
            a in owners && owners[a] == pid && (command.app == None || command.app == Some(a))
  {
  }

  /** The slots it was about are free, and no others. */
  lemma OwnersAfterClear(owners: map<AppId, Pid>, command: Command, pid: Pid, owners': map<AppId, Pid>, a: AppId)
    requires ClearsAs(command, pid) && OwnersAfter(owners, command, owners')
    ensures a in owners' <==>
            a in owners && !(owners[a] == pid && (command.app == None || command.app == Some(a)))
    ensures a in owners' ==> owners'[a] == owners[a]
  {
    ReleasedIs(owners, command, pid, a);
  }

  /** The game put back for an application is the remembered one, if its slot was released and it still runs. */
  lemma ResumedIs(b: State, command: Command, pid: Pid, alive: Pid -> bool, games: seq<Game>, a: AppId)
    requires ClearsAs(command, pid) && Remembered(b.scans) && IsResumption(b, command, alive, games)
    ensures a in b.scans ==> OnlyGame(games, a, b.scans[a])
    ensures a in b.scans ==>
              (b.scans[a] in games <==>
               && a in b.owners && b.owners[a] == pid && (command.app == None || command.app == Some(a))
               && alive(b.scans[a].pid))
    ensures a !in b.scans ==> forall g :: g in games ==> g.id != a
    ensures forall g :: g in games ==> g.id in b.scans
  {
    ReleasedIs(b.owners, command, pid, a);
    hide Released;
  }

  /**
   A detected card comes back. After a clear from the connection that owned an application's slot, by the probe's own
   answers: the slot is free; if the scanner remembers a running game for the application, its card is on display
   again and tracked under its pid; every other application's slot, card and tracked pid are as they were.
   */
  lemma ClearGivesBack(messages: seq<Message>, b: State, command: Command, pid: Pid, alive: Pid -> bool,
                       sent: seq<Message>, b': State, a: AppId)
    requires Remembered(b.scans)
    requires ClearsAs(command, pid) && CommandStep(b, command, alive, sent, b')
    requires |b.lastProcess.Keys + b.scans.Keys| < 64
    ensures var freed := a in b.owners && b.owners[a] == pid && (command.app == None || command.app == Some(a));
            var s, after := AppSocket(a), View(messages + sent);
            && (freed ==> a !in b'.owners)
            && (!freed ==> (a in b'.owners <==> a in b.owners) && (a in b.owners ==> b'.owners[a] == b.owners[a]))
            && if freed && a in b.scans && alive(b.scans[a].pid) then
                 && a in b'.lastProcess && b'.lastProcess[a] == b.scans[a].pid
                 && s in after && after[s] == Generic(b.scans[a])
               else
                 && (a in b'.lastProcess <==> a in b.lastProcess)
                 && (a in b.lastProcess ==> b'.lastProcess[a] == b.lastProcess[a])
                 && SameAt(after, View(messages), s)
  {
    OwnersAfterClear(b.owners, command, pid, b'.owners, a);
    var games, own := SentFor(b, command, alive, sent, b');
    ResumedIs(b, command, pid, alive, games, a);
    hide CommandStep, IsResumption, View, Delivers, TracksTo, ActivityChanged, Released, OwnersAfter;
    var ids := b.lastProcess.Keys + b.scans.Keys;
    var game := if a in b.scans then b.scans[a] else Game(a, 0, 0);
    CommandOnApp(messages, games, own, a, game);
    CardsTrack(b.lastProcess, games, b'.lastProcess, a, game, ids);
  }

  // ---------------------------------------------------------------- a game connection publishes

  /** A publish, or a clear from a connection without a process, puts no detected card back. */
  lemma NothingPutBack(b: State, command: Command, alive: Pid -> bool, sent: seq<Message>, b': State)
    returns (own: seq<Message>)
    requires command.args.Some? && CommandStep(b, command, alive, sent, b')
    requires command.args.value.activity.Some? || command.args.value.pid in {None, Some(0)}
    ensures sent == own == if ActivityChanged(b.feed.cache, command) then [command.Own()] else []
    ensures b'.lastProcess == b.lastProcess && b'.scans == b.scans
  {
    var games;
    games, own := SentFor(b, command, alive, sent, b');
    assert Released(b.owners, command) == {};
    FirstOf(games);
    hide CommandStep, Released, ActivityChanged, OwnersAfter;
    assert games == [];
    assert |GenericCards(games)| == 0;
    assert GenericCards(games) + own == own;
  }

  lemma FirstOf<T>(s: seq<T>)
    ensures s == [] || s[0] in s
  {
  }

  lemma OwnersAfterPublish(b: State, command: Command, alive: Pid -> bool, sent: seq<Message>, b': State, a: AppId)
    requires command.args.Some? && command.args.value.activity.Some? && CommandStep(b, command, alive, sent, b')
    ensures command.app == Some(a) && |b.owners| < 64 ==> b'.owners == b.owners[a := command.Pid()]
    ensures command.app == None ==> b'.owners == b.owners
  {
  }

  /**
   A publish that names an application takes its slot, with room; it leaves every detected card as it was, and its
   own card, with this content, is on display.
   */
  lemma PublishTakesSlot(messages: seq<Message>, b: State, command: Command, alive: Pid -> bool, sent: seq<Message>,
                         b': State, activity: Activity, a: AppId)
    requires Delivers(EmptyFeed, messages, b.feed)
    requires command.args.Some? && command.args.value.activity == Some(activity)
    requires CommandStep(b, command, alive, sent, b')
    ensures command.app == Some(a) && |b.owners| < 64 ==> b'.owners == b.owners[a := command.Pid()]
    ensures command.app == None ==> b'.owners == b.owners
    ensures b'.lastProcess == b.lastProcess && b'.scans == b.scans
    ensures SameAt(View(messages + sent), View(messages), AppSocket(a))
    ensures var s, after := PidSocket(command.Pid()), View(messages + sent);
            && s in after && after[s].Sdk? && after[s].activity == activity && after[s].app == command.app
            && (sent != [] ==> after[s] == Sdk(activity, command.app, command.args.value.pid))
  {
    hide View, Delivers, Crowded, ActivityChanged, CommandStep;
    OwnersAfterPublish(b, command, alive, sent, b', a);
    var own := NothingPutBack(b, command, alive, sent, b');
    ChangedIffChanges(messages, b.feed, command);
    OwnLeavesApps(messages, own, a);
    if own == [] {
      assert messages + own == messages;
    } else {
      ViewNext(messages, command.Own());
    }
  }

  // ---------------------------------------------------------------- the scanner

  /** One message, or none, and what it leaves on a socket. */
  lemma OneCard(messages: seq<Message>, sent: seq<Message>, s: SocketId)
    requires |sent| <= 1
    ensures var after := View(messages + sent);
            if sent == [] || sent[0].socket != s then SameAt(after, View(messages), s)
            else if sent[0].payload.IsClear() then s !in after
            else s in after && after[s] == sent[0].payload
  {
    hide View;
    if sent == [] {
      assert messages + sent == messages;
    } else {
      assert sent == [sent[0]];
      ViewNext(messages, sent[0]);
    }
  }

  /**
   A detection: an application without a game connection and without a card gets this game's card; one that a game
   connection owns loses its detected card; every other card stays. The game is remembered, with room.
   */
  lemma DetectionShows(messages: seq<Message>, b: State, game: Game, sent: seq<Message>, b': State, s: SocketId)
    requires DetectedStep(b, game, sent, b')
    ensures var after := View(messages + sent);
            if s == AppSocket(game.id) && game.id !in b.owners && game.id !in b.lastProcess then
              s in after && after[s] == Generic(game)
            else if s == AppSocket(game.id) && game.id in b.owners && game.id in b.lastProcess then s !in after
            else SameAt(after, View(messages), s)
    ensures b'.owners == b.owners
    ensures |b.scans| < 64 ==> b'.scans == b.scans[game.id := game]
    ensures |b.lastProcess| < 64 ==>
            b'.lastProcess == if game.id in b.owners then b.lastProcess - {game.id}
                              else if game.id in b.lastProcess then b.lastProcess
                              else b.lastProcess[game.id := game.pid]
  {
    OneCard(messages, sent, s);
    hide View, Delivers;
  }

  /** A removal: the card goes, and the memory, only where that very pid is tracked, or remembered. */
  lemma RemovalShows(messages: seq<Message>, b: State, id: AppId, pid: Pid, sent: seq<Message>, b': State, s: SocketId)
    requires RemovedStep(b, id, pid, sent, b')
    ensures var after := View(messages + sent);
            if s == AppSocket(id) && id in b.lastProcess && b.lastProcess[id] == pid then s !in after
            else SameAt(after, View(messages), s)
    ensures b'.owners == b.owners
    ensures forall a :: a in b'.scans <==> a in b.scans && !(a == id && b.scans[a].pid == pid)
    ensures forall a :: a in b'.scans ==> b'.scans[a] == b.scans[a]
    ensures forall a :: a in b'.lastProcess <==> a in b.lastProcess && !(a == id && b.lastProcess[a] == pid)
    ensures forall a :: a in b'.lastProcess ==> b'.lastProcess[a] == b.lastProcess[a]
  {
    OneCard(messages, sent, s);
    hide View, Delivers;
  }
}
