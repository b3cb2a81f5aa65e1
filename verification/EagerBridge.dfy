/**
 The bridge next to one that broadcasts every command: one step of either, taken apart into what moves its tables,
 which the two share, and what it sends, which depends on its own cache.
 */
module EagerBridge {
  import opened Presence
  import opened Handoff
  import opened Replay
  import opened Bridge

  /** A command that reaches the bridge past the flood guard. */
  predicate Arrives(input: Input) { input.Request? && !input.dropped && input.command.args.Some? }

  /** What the world answers at one input: which processes live, and in which order detected cards come and go. */
  datatype Answers = Answers(alive: Pid -> bool, cards: seq<Message>)

  ghost predicate SameTables(b: State, c: State) {
    b.lastProcess == c.lastProcess && b.owners == c.owners && b.scans == c.scans
  }

  ghost predicate DetectedTables(b: State, game: Game, cards: seq<Message>, b': State) {
    && Stored(b.scans, game.id, game, b'.scans) && b'.owners == b.owners
    && if game.id in b.owners then
         && b'.lastProcess == b.lastProcess - {game.id}
         && cards == if game.id in b.lastProcess then [ClearCard(game.id, b.lastProcess[game.id])] else []
       else if game.id in b.lastProcess then b'.lastProcess == b.lastProcess && cards == []
       else Stored(b.lastProcess, game.id, game.pid, b'.lastProcess) && cards == [GenericCard(game)]
  }

  ghost predicate RemovedTables(b: State, id: AppId, pid: Pid, cards: seq<Message>, b': State) {
    && b'.scans == Forget(b.scans, id, pid) && b'.owners == b.owners
    && if id in b.lastProcess && b.lastProcess[id] == pid
       then b'.lastProcess == b.lastProcess - {id} && cards == [ClearCard(id, pid)]
       else b'.lastProcess == b.lastProcess && cards == []
  }

  ghost predicate ClearedTables(b: State, cards: seq<Message>, b': State) {
    && b'.scans == map[] && b'.lastProcess == map[] && b'.owners == b.owners
    && exists order: seq<AppId> ::
         (forall id :: id in order <==> id in b.lastProcess) && cards == ClearAll(b.lastProcess, order)
  }

  ghost predicate CommandTables(b: State, command: Command, alive: Pid -> bool, cards: seq<Message>, b': State) {
    && OwnersAfter(b.owners, command, b'.owners) && b'.scans == b.scans
    && exists games ::
         && IsResumption(b, command, alive, games) && TracksTo(b.lastProcess, games, b'.lastProcess)
         && cards == GenericCards(games)
  }

  /** How the tables move, and the messages about detected cards that go with it. No cache involved. */
  ghost predicate TablesMove(b: State, input: Input, answers: Answers, b': State) {
    match input
    case Scan(Detected(game)) => DetectedTables(b, game, answers.cards, b')
    case Scan(Removed(id, pid)) => RemovedTables(b, id, pid, answers.cards, b')
    case Scan(Cleared) => ClearedTables(b, answers.cards, b')
    case Request(command, _) =>
      if Arrives(input) then CommandTables(b, command, answers.alive, answers.cards, b')
      else SameTables(b', b) && answers.cards == []
  }

  /** The detected cards' messages, then the reaping of an empty table. */
  ghost predicate SendsReaping(feed: Feed, answers: Answers, sent: seq<Message>, feed': Feed) {
    exists mid: Feed, reaped ::
      && Delivers(feed, answers.cards, mid) && IsReaping(mid.cache, answers.alive, reaped)
      && Delivers(mid, reaped, feed') && sent == answers.cards + reaped
  }

  /** The command's own message: always without the skip, and with it unless the cache says it is unchanged. */
  ghost function OwnMessage(feed: Feed, input: Input, skips: bool): seq<Message> {
    if Arrives(input) && (!skips || ActivityChanged(feed.cache, input.command)) then [input.command.Own()] else []
  }

  /** What is broadcast, by a bridge that skips unchanged commands or by one that does not. */
  ghost predicate Sends(feed: Feed, input: Input, answers: Answers, skips: bool, sent: seq<Message>, feed': Feed) {
    if input == Scan(Cleared) then SendsReaping(feed, answers, sent, feed')
    else sent == answers.cards + OwnMessage(feed, input, skips) && Delivers(feed, sent, feed')
  }

  /** One step of a bridge that skips, or of one that does not. */
  ghost predicate BridgeStep(b: State, input: Input, answers: Answers, skips: bool, sent: seq<Message>, b': State) {
    TablesMove(b, input, answers, b') && Sends(b.feed, input, answers, skips, sent, b'.feed)
  }

  lemma ScanFactors(b: State, event: Event, sent: seq<Message>, b': State)
    requires !event.Cleared?
    ensures EventStep(b, event, sent, b') <==>
            exists answers :: BridgeStep(b, Scan(event), answers, true, sent, b')
  {
    hide Delivers, Stored;
    var own := Answers(_ => true, sent);
    assert sent + [] == sent;
    if EventStep(b, event, sent, b') { assert BridgeStep(b, Scan(event), own, true, sent, b'); }
    if answers :| BridgeStep(b, Scan(event), answers, true, sent, b') { assert answers.cards + [] == answers.cards; }
  }

  lemma ClearedFactors(b: State, sent: seq<Message>, b': State)
    ensures EventStep(b, Cleared, sent, b') <==>
            exists answers :: BridgeStep(b, Scan(Cleared), answers, true, sent, b')
  {
    hide Delivers, IsReaping, ClearAll;
    if EventStep(b, Cleared, sent, b') {
      var alive :| ClearedStep(b, alive, sent, b');
      var order: seq<AppId>, mid: Feed, reaped :|
        && (forall id :: id in order <==> id in b.lastProcess)
        && Delivers(b.feed, ClearAll(b.lastProcess, order), mid)
        && IsReaping(mid.cache, alive, reaped)
        && Delivers(mid, reaped, b'.feed)
        && sent == ClearAll(b.lastProcess, order) + reaped;
      assert BridgeStep(b, Scan(Cleared), Answers(alive, ClearAll(b.lastProcess, order)), true, sent, b');
    }
    if answers :| BridgeStep(b, Scan(Cleared), answers, true, sent, b') {
      assert ClearedStep(b, answers.alive, sent, b');
    }
  }

  lemma ArrivedFactors(b: State, command: Command, alive: Pid -> bool, sent: seq<Message>, b': State)
    requires command.args.Some?
    ensures CommandStep(b, command, alive, sent, b') <==>
            exists cards :: BridgeStep(b, Request(command, false), Answers(alive, cards), true, sent, b')
  {
    var input := Request(command, false);
    hide Delivers, IsResumption, TracksTo, OwnersAfter, ActivityChanged, GenericCards;
    if CommandStep(b, command, alive, sent, b') {
      var games, own := SentFor(b, command, alive, sent, b');
      assert BridgeStep(b, input, Answers(alive, GenericCards(games)), true, sent, b');
    }
  }

  lemma LostFactors(b: State, command: Command, dropped: bool, sent: seq<Message>, b': State)
    requires dropped || command.args.None?
    ensures b' == b && sent == [] <==>
            exists answers :: BridgeStep(b, Request(command, dropped), answers, true, sent, b')
  {
    var input := Request(command, dropped);
    DeliversNothing(b.feed, b'.feed);
    hide Delivers;
    assert [] + OwnMessage(b.feed, input, true) == [];
    if b' == b && sent == [] {
      assert BridgeStep(b, input, Answers(_ => true, []), true, sent, b');
    }
  }

  lemma CommandFactors(b: State, command: Command, dropped: bool, sent: seq<Message>, b': State)
    ensures SdkStep(b, command, dropped, sent, b') <==>
            exists answers :: BridgeStep(b, Request(command, dropped), answers, true, sent, b')
  {
    hide BridgeStep, CommandStep;
    if dropped || command.args.None? {
      LostFactors(b, command, dropped, sent, b');
    } else {
      if SdkStep(b, command, dropped, sent, b') {
        var alive :| CommandStep(b, command, alive, sent, b');
        ArrivedFactors(b, command, alive, sent, b');
      }
      if answers :| BridgeStep(b, Request(command, dropped), answers, true, sent, b') {
        assert answers == Answers(answers.alive, answers.cards);
        ArrivedFactors(b, command, answers.alive, sent, b');
      }
    }
  }

  /** Steps of the bridge are exactly these steps with the skip. */
  lemma StepFactors(b: State, input: Input, sent: seq<Message>, b': State)
    ensures Step(b, input, sent, b') <==> exists answers :: BridgeStep(b, input, answers, true, sent, b')
  {
    hide BridgeStep, EventStep, SdkStep;
    match input
    case Scan(event) =>
      if event.Cleared? { ClearedFactors(b, sent, b'); } else { ScanFactors(b, event, sent, b'); }
    case Request(command, dropped) => CommandFactors(b, command, dropped, sent, b');
  }

  // ---------------------------------------------------------------- no bridge is ever stuck

  lemma {:induction false} SeqOf<T>(s: set<T>) returns (q: seq<T>)
    ensures forall x :: x in q <==> x in s
    decreases |s|
  {
    q := [];
    if s != {} {
      var x :| x in s;
      var rest := SeqOf(s - {x});
      q := rest + [x];
    }
  }

  lemma StoredExists<V>(table: map<AppId, V>, key: AppId, value: V) returns (table': map<AppId, V>)
    ensures Stored(table, key, value, table')
  {
    if |table| < MAX_HANDOFF_ENTRIES {
      table' := table[key := value];
      assert table'.Keys == table.Keys + {key};
      assert |table'.Keys| == |table'| && |table.Keys| == |table|;
    } else {
      table' := map[];
    }
  }

  lemma {:induction false} TracksExists(table: map<AppId, Pid>, games: seq<Game>) returns (table': map<AppId, Pid>)
    ensures TracksTo(table, games, table')
    decreases |games|
  {
    table' := table;
    if games != [] {
      var n := |games| - 1;
      var mid := TracksExists(table, games[..n]);
      table' := StoredExists(mid, games[n].id, games[n].pid);
    }
  }

  lemma {:induction false} OldestExists(cache: map<SocketId, Stamped>) returns (d: SocketId)
    requires cache != map[]
    ensures d in cache && forall s :: s in cache ==> cache[d].stamp <= cache[s].stamp
    decreases |cache|
  {
    d :| d in cache;
    var rest := cache - {d};
    assert forall s :: s in cache && s != d ==> s in rest && rest[s] == cache[s];
    if rest != map[] {
      assert cache.Keys == rest.Keys + {d} && |rest.Keys| == |rest| && |cache.Keys| == |cache|;
      var e := OldestExists(rest);
      if cache[e].stamp < cache[d].stamp { d := e; }
    }
  }

  lemma {:induction false} PrunedExists(full: map<SocketId, Stamped>) returns (kept: map<SocketId, Stamped>)
    ensures Pruned(full, kept)
    decreases |full|
  {
    kept := full;
    if |full| > MAX_CACHED_ACTIVITIES {
      var d := OldestExists(full);
      var rest := full - {d};
      assert full.Keys == rest.Keys + {d} && |rest.Keys| == |rest| && |full.Keys| == |full|;
      kept := PrunedExists(rest);
    }
  }

  lemma BroadcastExists(feed: Feed, message: Message) returns (next: Feed)
    ensures Broadcasted(feed, message, next)
  {
    var s := message.socket;
    if message.payload.IsClear() {
      next := Feed(feed.cache - {s}, feed.stamp, feed.live - {s});
    } else {
      var stamped := Stamped(message.payload, feed.stamp + 1);
      var kept := PrunedExists(feed.cache[s := stamped]);
      next := Feed(kept, feed.stamp + 1, feed.live[s := stamped]);
    }
  }

  lemma {:induction false} DeliveryExists(feed: Feed, messages: seq<Message>) returns (next: Feed)
    ensures Delivers(feed, messages, next)
    decreases |messages|
  {
    hide Delivers, Broadcasted;
    if messages == [] {
      DeliversNothing(feed, feed);
      next := feed;
    } else {
      var n := |messages| - 1;
      var mid := DeliveryExists(feed, messages[..n]);
      next := BroadcastExists(mid, messages[n]);
      DeliversOneMore(feed, messages[..n], mid, messages[n], next);
      assert messages[..n] + [messages[n]] == messages;
    }
  }

  lemma {:induction false} ReapingExists(cache: map<SocketId, Stamped>, alive: Pid -> bool)
    returns (reaped: seq<Message>)
    ensures IsReaping(cache, alive, reaped)
  {
    var order := SeqOf(set s | s in cache && IsGhost(s, cache[s].payload, alive));
    reaped := seq(|order|, i requires 0 <= i < |order| => Message(order[i], Payload.Clear(0)));
    forall s ensures s in Sockets(reaped) <==> s in cache && IsGhost(s, cache[s].payload, alive) {
      SocketsAre(reaped, s);
      if s in order {
        var i :| 0 <= i < |order| && order[i] == s;
        assert reaped[i].socket == s;
      }
      assert forall i :: 0 <= i < |reaped| ==> reaped[i].socket == order[i];
    }
  }

  lemma SendsExists(feed: Feed, input: Input, answers: Answers, skips: bool) returns (sent: seq<Message>, feed': Feed)
    ensures Sends(feed, input, answers, skips, sent, feed')
  {
    hide Delivers, IsReaping;
    if input == Scan(Cleared) {
      var mid := DeliveryExists(feed, answers.cards);
      var reaped := ReapingExists(mid.cache, answers.alive);
      feed' := DeliveryExists(mid, reaped);
      sent := answers.cards + reaped;
    } else {
      sent := answers.cards + OwnMessage(feed, input, skips);
      feed' := DeliveryExists(feed, sent);
    }
  }

  lemma OwnersExist(owners: map<AppId, Pid>, command: Command) returns (owners': map<AppId, Pid>)
    ensures OwnersAfter(owners, command, owners')
  {
    if command.Publishes() && command.app.Some? {
      owners' := StoredExists(owners, command.app.value, command.Pid());
    } else {
      owners' := owners - Released(owners, command);
    }
  }

  lemma ResumptionExists(b: State, command: Command, alive: Pid -> bool) returns (games: seq<Game>)
    ensures IsResumption(b, command, alive, games)
  {
    games := SeqOf(set a | a in Released(b.owners, command) && a in b.scans && alive(b.scans[a].pid) :: b.scans[a]);
  }

  lemma CommandTablesExist(b: State, command: Command, alive: Pid -> bool) returns (cards: seq<Message>, b': State)
    ensures CommandTables(b, command, alive, cards, b')
  {
    hide OwnersAfter, IsResumption, TracksTo;
    var owners := OwnersExist(b.owners, command);
    var games := ResumptionExists(b, command, alive);
    var table := TracksExists(b.lastProcess, games);
    cards, b' := GenericCards(games), State(table, owners, b.scans, b.feed);
  }

  lemma ClearedTablesExist(b: State) returns (cards: seq<Message>, b': State)
    ensures ClearedTables(b, cards, b')
  {
    var order := SeqOf(b.lastProcess.Keys);
    cards, b' := ClearAll(b.lastProcess, order), State(map[], b.owners, map[], b.feed);
  }

  lemma DetectedTablesExist(b: State, game: Game) returns (cards: seq<Message>, b': State)
    ensures DetectedTables(b, game, cards, b')
  {
    hide Stored;
    var scans := StoredExists(b.scans, game.id, game);
    var table := StoredExists(b.lastProcess, game.id, game.pid);
    if game.id in b.owners {
      cards := if game.id in b.lastProcess then [ClearCard(game.id, b.lastProcess[game.id])] else [];
      b' := State(b.lastProcess - {game.id}, b.owners, scans, b.feed);
    } else if game.id in b.lastProcess {
      cards, b' := [], State(b.lastProcess, b.owners, scans, b.feed);
    } else {
      cards, b' := [GenericCard(game)], State(table, b.owners, scans, b.feed);
    }
  }

  /** Whatever the probe says, the tables can move. */
  lemma TablesCanMove(b: State, input: Input, alive: Pid -> bool) returns (answers: Answers, b': State)
    ensures TablesMove(b, input, answers, b') && answers.alive == alive
  {
    hide DetectedTables, ClearedTables, CommandTables;
    var cards: seq<Message> := [];
    b' := b;
    match input {
      case Scan(Detected(game)) => cards, b' := DetectedTablesExist(b, game);
      case Scan(Removed(id, pid)) =>
        b' := b.(scans := Forget(b.scans, id, pid));
        if id in b.lastProcess && b.lastProcess[id] == pid {
          cards, b' := [ClearCard(id, pid)], b'.(lastProcess := b.lastProcess - {id});
        }
      case Scan(Cleared) => cards, b' := ClearedTablesExist(b);
      case Request(command, _) => if Arrives(input) { cards, b' := CommandTablesExist(b, command, alive); }
    }
    answers := Answers(alive, cards);
  }

  /** Tables do not depend on the feed. */
  lemma TablesIgnoreFeed(b: State, input: Input, answers: Answers, b': State, c: State, c': State)
    requires TablesMove(b, input, answers, b') && SameTables(b, c) && SameTables(b', c')
    ensures TablesMove(c, input, answers, c')
  {
    hide Stored, OwnersAfter, TracksTo, ClearAll;
    if input.Request? && Arrives(input) {
      var games :| IsResumption(b, input.command, answers.alive, games) &&
                   TracksTo(b.lastProcess, games, b'.lastProcess) && answers.cards == GenericCards(games);
      assert IsResumption(c, input.command, answers.alive, games);
    }
  }
}
