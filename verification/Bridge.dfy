/**
 The bridge between detected cards and cards published by games: one step per scanner event or
 game command, the tables it moves and the messages it broadcasts.
 */
module Bridge {
  import opened Presence
  import opened Handoff
  import opened Replay

  datatype State = State(lastProcess: map<AppId, Pid>, owners: map<AppId, Pid>, scans: map<AppId, Game>, feed: Feed)

  const Initial := State(map[], map[], map[], EmptyFeed)

  datatype Args = Args(pid: Option<Pid>, activity: Option<Activity>)

  /** A `SET_ACTIVITY` command; the activity is published under the command's application id. */
  datatype Command = Command(args: Option<Args>, app: Option<AppId>) {
    function Pid(): Pid {
      if args.Some? && args.value.pid.Some? then args.value.pid.value else 0
    }

    predicate Publishes() { args.Some? && args.value.activity.Some? }

    /** A null activity from a connection that named a process. */
    predicate GenuineClear() { args.Some? && args.value.activity.None? && Pid() != 0 }

    function Socket(): SocketId { PidSocket(Pid()) }

    function Payload(): Payload
      requires args.Some?
    {
      match args.value.activity
      case None => Replay.Clear(Pid())
      case Some(activity) => Sdk(activity, app, args.value.pid)
    }

    function Own(): Message
      requires args.Some?
    {
      Message(Socket(), Payload())
    }
  }

  datatype Input =
    | Scan(event: Event)
    | Request(command: Command, dropped: bool)   // `dropped` is the flood guard's verdict

  // ---------------------------------------------------------------- step relations

  function GenericCard(game: Game): Message {
    Message(AppSocket(game.id), Generic(game))
  }

  function ClearCard(id: AppId, pid: Pid): Message {
    Message(AppSocket(id), Replay.Clear(pid))
  }

  ghost predicate DetectedStep(b: State, game: Game, sent: seq<Message>, b': State) {
    && Stored(b.scans, game.id, game, b'.scans)
    && b'.owners == b.owners
    && Delivers(b.feed, sent, b'.feed)
    && if game.id in b.owners then
         // A live game connection owns the slot: withdraw the detected card and stay out.
         && b'.lastProcess == b.lastProcess - {game.id}
         && sent == if game.id in b.lastProcess then [ClearCard(game.id, b.lastProcess[game.id])] else []
       else if game.id in b.lastProcess then
         b'.lastProcess == b.lastProcess && sent == []
       else
         Stored(b.lastProcess, game.id, game.pid, b'.lastProcess) && sent == [GenericCard(game)]
  }

  ghost predicate RemovedStep(b: State, id: AppId, pid: Pid, sent: seq<Message>, b': State) {
    && b'.scans == Forget(b.scans, id, pid)
    && b'.owners == b.owners
    && Delivers(b.feed, sent, b'.feed)
    && if id in b.lastProcess && b.lastProcess[id] == pid then
         b'.lastProcess == b.lastProcess - {id} && sent == [ClearCard(id, pid)]
       else
         b'.lastProcess == b.lastProcess && sent == []
  }

  /** Whether a cached card belongs to a process the probe calls dead. */
  predicate IsGhost(socket: SocketId, payload: Payload, alive: Pid -> bool) {
    var pid := CacheEntryPid(socket, payload);
    pid.Some? && !alive(pid.value)
  }

  function ClearAll(table: map<AppId, Pid>, order: seq<AppId>): seq<Message>
    requires forall id :: id in order ==> id in table
  {
    seq(|order|, i requires 0 <= i < |order| => ClearCard(order[i], table[order[i]]))
  }

  ghost predicate IsReaping(cache: map<SocketId, Stamped>, alive: Pid -> bool, reaped: seq<Message>) {
    && AllClears(reaped)
    && forall s :: s in Sockets(reaped) <==> s in cache && IsGhost(s, cache[s].payload, alive)
  }

  /** An empty table: every outstanding detected card is cleared, then every cached card of a dead process. */
  ghost predicate ClearedStep(b: State, alive: Pid -> bool, sent: seq<Message>, b': State) {
    && b'.scans == map[] && b'.lastProcess == map[] && b'.owners == b.owners
    && exists order: seq<AppId>, mid: Feed, reaped ::
         && (forall id :: id in order <==> id in b.lastProcess)
         && Delivers(b.feed, ClearAll(b.lastProcess, order), mid)
         && IsReaping(mid.cache, alive, reaped)
         && Delivers(mid, reaped, b'.feed)
         && sent == ClearAll(b.lastProcess, order) + reaped
  }

  ghost predicate EventStep(b: State, event: Event, sent: seq<Message>, b': State) {
    match event
    case Detected(game) => DetectedStep(b, game, sent, b')
    case Removed(id, pid) => RemovedStep(b, id, pid, sent, b')
    case Cleared => exists alive :: ClearedStep(b, alive, sent, b')
  }

  /** Identical republishes, and clears of sockets the cache does not hold, are not broadcast. */
  predicate ActivityChanged(cache: map<SocketId, Stamped>, command: Command)
    requires command.args.Some?
  {
    var s := command.Socket();
    match command.args.value.activity
    case None => s in cache && !cache[s].payload.IsClear()
    case Some(activity) =>
      s !in cache || match cache[s].payload
        case Sdk(stored, app, _) => stored != activity || app != command.app
        case _ => true
  }

  /** The slots a genuine clear gives back: its application's, or all of its pid's when it names none. */
  ghost function Released(owners: map<AppId, Pid>, command: Command): set<AppId> {
    if !command.GenuineClear() then {}
    else match command.app
      case Some(app) => if app in owners && owners[app] == command.Pid() then {app} else {}
      case None => set a | a in owners && owners[a] == command.Pid()
  }

  ghost predicate OwnersAfter(owners: map<AppId, Pid>, command: Command, owners': map<AppId, Pid>) {
    if command.Publishes() && command.app.Some? then Stored(owners, command.app.value, command.Pid(), owners')
    else owners' == owners - Released(owners, command)
  }

  /** The games put back: what the scanner remembers for the released slots, where the process still runs. */
  ghost predicate IsResumption(b: State, command: Command, alive: Pid -> bool, games: seq<Game>) {
    && (forall g :: g in games ==>
          alive(g.pid) && exists a :: a in Released(b.owners, command) && a in b.scans && b.scans[a] == g)
    && (forall a :: a in Released(b.owners, command) && a in b.scans && alive(b.scans[a].pid) ==> b.scans[a] in games)
  }

  ghost predicate TracksTo(table: map<AppId, Pid>, games: seq<Game>, table': map<AppId, Pid>)
    decreases |games|
  {
    if games == [] then table' == table
    else
      var n := |games| - 1;
      exists mid :: TracksTo(table, games[..n], mid) && Stored(mid, games[n].id, games[n].pid, table')
  }

  function GenericCards(games: seq<Game>): seq<Message> {
    seq(|games|, i requires 0 <= i < |games| => GenericCard(games[i]))
  }

  /** A command past the guard, for these answers of the liveness probe. */
  ghost predicate CommandStep(b: State, command: Command, alive: Pid -> bool, sent: seq<Message>, b': State)
    requires command.args.Some?
  {
    && OwnersAfter(b.owners, command, b'.owners)
    && b'.scans == b.scans
    && Delivers(b.feed, sent, b'.feed)
    && exists games ::
         && IsResumption(b, command, alive, games)
         && TracksTo(b.lastProcess, games, b'.lastProcess)
         && sent == GenericCards(games) + if ActivityChanged(b.feed.cache, command) then [command.Own()] else []
  }

  ghost predicate SdkStep(b: State, command: Command, dropped: bool, sent: seq<Message>, b': State) {
    if dropped || command.args.None? then b' == b && sent == []
    else exists alive :: CommandStep(b, command, alive, sent, b')
  }

  /** What a command past the guard sends: detected games put back, then its own message unless unchanged. */
  lemma SentFor(b: State, command: Command, alive: Pid -> bool, sent: seq<Message>, b': State)
    returns (games: seq<Game>, own: seq<Message>)
    requires command.args.Some? && CommandStep(b, command, alive, sent, b')
    ensures IsResumption(b, command, alive, games) && TracksTo(b.lastProcess, games, b'.lastProcess)
    ensures own == if ActivityChanged(b.feed.cache, command) then [command.Own()] else []
    ensures sent == GenericCards(games) + own
  {
    var resumed: seq<Game> :|
      && IsResumption(b, command, alive, resumed)
      && TracksTo(b.lastProcess, resumed, b'.lastProcess)
      && sent == GenericCards(resumed) + if ActivityChanged(b.feed.cache, command) then [command.Own()] else [];
    games, own := resumed, if ActivityChanged(b.feed.cache, command) then [command.Own()] else [];
  }

  lemma SentByCommand(b: State, command: Command, sent: seq<Message>, b': State)
    returns (games: seq<Game>, alive: Pid -> bool, own: seq<Message>)
    requires SdkStep(b, command, false, sent, b') && command.args.Some?
    ensures OwnersAfter(b.owners, command, b'.owners) && b'.scans == b.scans && Delivers(b.feed, sent, b'.feed)
    ensures IsResumption(b, command, alive, games) && TracksTo(b.lastProcess, games, b'.lastProcess)
    ensures own == if ActivityChanged(b.feed.cache, command) then [command.Own()] else []
    ensures sent == GenericCards(games) + own
  {
    var probe :| CommandStep(b, command, probe, sent, b');
    alive := probe;
    games, own := SentFor(b, command, alive, sent, b');
  }

  ghost predicate Step(b: State, input: Input, sent: seq<Message>, b': State) {
    match input
    case Scan(event) => EventStep(b, event, sent, b')
    case Request(command, dropped) => SdkStep(b, command, dropped, sent, b')
  }

  // ---------------------------------------------------------------- the bridge in place

  class Shared {
    const handoff: HandoffState
    var lastProcess: map<AppId, Pid>
    var cache: map<SocketId, Stamped>
    var activitySeq: nat
    ghost var live: map<SocketId, Stamped>

    ghost function Abs(): State
      reads this, handoff
    {
      State(lastProcess, handoff.liveIpc, handoff.lastScans, FeedNow())
    }

    ghost function FeedNow(): Feed
      reads this
    {
      Feed(cache, activitySeq, live)
    }

    constructor ()
      ensures Abs() == Initial && fresh(handoff)
    {
      handoff := new HandoffState();
      lastProcess, cache, activitySeq, live := map[], map[], 0, map[];
    }

    method BroadcastActivity(message: Message)
      modifies this`cache, this`activitySeq, this`live
      ensures Broadcasted(old(FeedNow()), message, FeedNow())
    {
      var s := message.socket;
      if message.payload.IsClear() {
        cache := cache - {s};
        live := live - {s};
      } else {
        activitySeq := activitySeq + 1;
        var stamped := Stamped(message.payload, activitySeq);
        cache := PruneCache(cache[s := stamped]);
        live := live[s := stamped];
      }
    }

    /** One message, as a delivery. */
    method Send(message: Message)
      modifies this`cache, this`activitySeq, this`live
      ensures Delivers(old(FeedNow()), [message], FeedNow())
    {
      BroadcastActivity(message);
      DeliversNothing(old(FeedNow()), old(FeedNow()));
      DeliversOneMore(old(FeedNow()), [], old(FeedNow()), message, FeedNow());
      assert [] + [message] == [message];
    }

    method OnDetected(game: Game, alive: Pid -> bool) returns (ghost sent: seq<Message>)
      modifies this, handoff
      ensures DetectedStep(old(Abs()), game, sent, Abs())
    {
      handoff.NoteScan(Some(game), alive);
      sent := [];
      DeliversNothing(FeedNow(), FeedNow());
      if game.id in handoff.liveIpc {
        if game.id in lastProcess {
          var pid := lastProcess[game.id];
          lastProcess := lastProcess - {game.id};
          sent := [ClearCard(game.id, pid)];
          Send(ClearCard(game.id, pid));
        }
        return;
      }
      if game.id in lastProcess {
        return;
      }
      lastProcess := InsertBounded(lastProcess, game.id, game.pid, alive);
      sent := [GenericCard(game)];
      Send(GenericCard(game));
    }

    method OnRemoved(id: AppId, pid: Pid) returns (ghost sent: seq<Message>)
      modifies this, handoff
      ensures RemovedStep(old(Abs()), id, pid, sent, Abs())
    {
      var _ := handoff.NoteRemove(id, pid);
      sent := [];
      DeliversNothing(FeedNow(), FeedNow());
      if id in lastProcess && lastProcess[id] == pid {
        lastProcess := lastProcess - {id};
        sent := [ClearCard(id, pid)];
        Send(ClearCard(id, pid));
      }
    }

    /** Clears `table`'s cards one by one, in some order. */
    method ClearOutstanding(table: map<AppId, Pid>) returns (ghost order: seq<AppId>)
      modifies this`cache, this`activitySeq, this`live
      ensures forall id :: id in order <==> id in table
      ensures Delivers(old(FeedNow()), ClearAll(table, order), FeedNow())
    {
      order := [];
      var rest := table.Keys;
      DeliversNothing(FeedNow(), FeedNow());
      while rest != {}
        invariant rest <= table.Keys
        invariant forall id :: id in order <==> id in table && id !in rest
        invariant Delivers(old(FeedNow()), ClearAll(table, order), FeedNow())
        decreases rest
      {
        var id :| id in rest;
        rest := rest - {id};
        ghost var before := FeedNow();
        BroadcastActivity(ClearCard(id, table[id]));
        DeliversOneMore(old(FeedNow()), ClearAll(table, order), before, ClearCard(id, table[id]), FeedNow());
        assert ClearAll(table, order) + [ClearCard(id, table[id])] == ClearAll(table, order + [id]);
        order := order + [id];
      }
    }

    /** Clears every cached card of a dead process, collected before the first of them is sent. */
    method ReapGhosts(alive: Pid -> bool) returns (ghost reaped: seq<Message>)
      modifies this`cache, this`activitySeq, this`live
      ensures IsReaping(old(cache), alive, reaped)
      ensures Delivers(old(FeedNow()), reaped, FeedNow())
    {
      reaped := [];
      var ghosts := set s | s in cache && IsGhost(s, cache[s].payload, alive);
      ghost var all := ghosts;
      var cards := cache;
      DeliversNothing(FeedNow(), FeedNow());
      while ghosts != {}
        invariant ghosts <= all
        invariant AllClears(reaped) && Sockets(reaped) == all - ghosts
        invariant Delivers(old(FeedNow()), reaped, FeedNow())
        decreases ghosts
      {
        var s :| s in ghosts;
        ghosts := ghosts - {s};
        var message := Message(s, Replay.Clear(CacheEntryPid(s, cards[s].payload).value));
        ghost var before := FeedNow();
        BroadcastActivity(message);
        DeliversOneMore(old(FeedNow()), reaped, before, message, FeedNow());
        OneMoreClear(reaped, message);
        reaped := reaped + [message];
      }
    }

    method OnCleared(alive: Pid -> bool) returns (ghost sent: seq<Message>)
      modifies this, handoff
      ensures ClearedStep(old(Abs()), alive, sent, Abs())
    {
      handoff.NoteScan(None, alive);
      var outstanding := lastProcess;
      lastProcess := map[];
      ghost var order := ClearOutstanding(outstanding);
      ghost var mid := FeedNow();
      ghost var reaped := ReapGhosts(alive);
      sent := ClearAll(outstanding, order) + reaped;
      assert IsReaping(mid.cache, alive, reaped);
    }

    /** Re-asserts one detected card after its slot was given back. */
    method ResumeGeneric(game: Game, alive: Pid -> bool)
      modifies this
      ensures Stored(old(lastProcess), game.id, game.pid, lastProcess)
      ensures Broadcasted(old(FeedNow()), GenericCard(game), FeedNow())
    {
      lastProcess := InsertBounded(lastProcess, game.id, game.pid, alive);
      BroadcastActivity(GenericCard(game));
    }

    method ResumeAll(games: seq<Game>, alive: Pid -> bool)
      modifies this
      ensures TracksTo(old(lastProcess), games, lastProcess)
      ensures Delivers(old(FeedNow()), GenericCards(games), FeedNow())
    {
      DeliversNothing(FeedNow(), FeedNow());
      for i := 0 to |games|
        invariant TracksTo(old(lastProcess), games[..i], lastProcess)
        invariant Delivers(old(FeedNow()), GenericCards(games[..i]), FeedNow())
      {
        ghost var before, table := FeedNow(), lastProcess;
        ResumeGeneric(games[i], alive);
        ResumedOneMore(old(FeedNow()), old(lastProcess), games, i, before, table, FeedNow(), lastProcess);
      }
      assert games[..|games|] == games;
    }

    /** The ownership half of a command: publish, or release what a genuine clear gives back. */
    method MoveOwnership(command: Command, alive: Pid -> bool) returns (apps: seq<AppId>)
      requires command.args.Some?
      modifies handoff`liveIpc
      ensures OwnersAfter(old(handoff.liveIpc), command, handoff.liveIpc)
      ensures forall a :: a in apps <==> a in Released(old(handoff.liveIpc), command)
    {
      apps := [];
      if command.Publishes() {
        if command.app.Some? {
          handoff.NotePublish(command.app.value, command.Pid(), alive);
        }
      } else if command.GenuineClear() {
        apps := ReleaseOwnership(command);
      }
    }

    method ReleaseOwnership(command: Command) returns (apps: seq<AppId>)
      requires command.GenuineClear()
      modifies handoff`liveIpc
      ensures handoff.liveIpc == old(handoff.liveIpc) - Released(old(handoff.liveIpc), command)
      ensures forall a :: a in apps <==> a in Released(old(handoff.liveIpc), command)
    {
      apps := [];
      match command.app {
        case Some(app) =>
          var released := handoff.NoteClear(app, command.Pid());
          if released { apps := [app]; }
        case None =>
          apps := handoff.NoteClearPid(command.Pid());
      }
    }

    method HandleSetActivity(command: Command, dropped: bool, alive: Pid -> bool) returns (ghost sent: seq<Message>)
      modifies this, handoff
      ensures SdkStep(old(Abs()), command, dropped, sent, Abs())
      ensures !dropped && command.args.Some? ==> CommandStep(old(Abs()), command, alive, sent, Abs())
    {
      sent := [];
      if dropped || command.args.None? {
        return;
      }
      var changed := ActivityChanged(cache, command);
      var apps := MoveOwnership(command, alive);
      var games := Resumable(apps, handoff.lastScans, alive);
      assert IsResumption(old(Abs()), command, alive, games);
      ResumeAll(games, alive);
      sent := GenericCards(games);
      if changed {
        ghost var before := FeedNow();
        BroadcastActivity(command.Own());
        DeliversOneMore(old(FeedNow()), sent, before, command.Own(), FeedNow());
        sent := sent + [command.Own()];
      }
      assert sent == GenericCards(games) + if changed then [command.Own()] else [];
      assert CommandStep(old(Abs()), command, alive, sent, Abs());
    }
  }

  lemma OneMoreClear(clears: seq<Message>, message: Message)
    requires AllClears(clears) && message.payload.IsClear()
    ensures AllClears(clears + [message]) && Sockets(clears + [message]) == Sockets(clears) + {message.socket}
  {
    assert (clears + [message])[..|clears|] == clears;
  }

  lemma ResumedOneMore(feed: Feed, table: map<AppId, Pid>, games: seq<Game>, i: nat, mid: Feed,
                       midTable: map<AppId, Pid>, next: Feed, after: map<AppId, Pid>)
    requires i < |games|
    requires Delivers(feed, GenericCards(games[..i]), mid) && Broadcasted(mid, GenericCard(games[i]), next)
    requires TracksTo(table, games[..i], midTable) && Stored(midTable, games[i].id, games[i].pid, after)
    ensures Delivers(feed, GenericCards(games[..i + 1]), next)
    ensures TracksTo(table, games[..i + 1], after)
  {
    hide Delivers, Broadcasted, Stored;
    assert games[..i + 1][..i] == games[..i];
    DeliversOneMore(feed, GenericCards(games[..i]), mid, GenericCard(games[i]), next);
    assert GenericCards(games[..i]) + [GenericCard(games[i])] == GenericCards(games[..i + 1]);
  }

  /** What the scanner remembers for `apps`, where the process still runs. */
  method Resumable(apps: seq<AppId>, scans: map<AppId, Game>, alive: Pid -> bool) returns (games: seq<Game>)
    ensures forall g :: g in games ==> alive(g.pid) && exists a :: a in apps && a in scans && scans[a] == g
    ensures forall a :: a in apps && a in scans && alive(scans[a].pid) ==> scans[a] in games
  {
    games := [];
    for i := 0 to |apps|
      invariant forall g :: g in games ==> alive(g.pid) && exists a :: a in apps && a in scans && scans[a] == g
      invariant forall a :: a in apps[..i] && a in scans && alive(scans[a].pid) ==> scans[a] in games
    {
      if apps[i] in scans && alive(scans[apps[i]].pid) {
        games := games + [scans[apps[i]]];
      }
    }
    assert apps[..|apps|] == apps;
  }
}
