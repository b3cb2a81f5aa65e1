/** Skipping the broadcast of unchanged activities: exactly when no consumer can tell. */
module SkippedPublishes {
  import opened Presence
  import opened Replay
  import opened CacheContents
  import opened Bridge
  import Text

  // ---------------------------------------------------------------- one command

  /** The card carries this content, whatever pid it spells. */
  predicate SameContent(payload: Payload, activity: Activity, app: Option<AppId>) {
    payload.Sdk? && payload.activity == activity && payload.app == app
  }

  /** Whether the command counts as a change, told from the messages sent alone. */
  ghost predicate Changes(messages: seq<Message>, command: Command)
    requires command.args.Some?
  {
    var s := command.Socket();
    match command.args.value.activity
    case None => Held(messages, s)
    case Some(activity) => !(Held(messages, s) && SameContent(View(messages)[s], activity, command.app))
  }

  /** The bridge's test against its cache is that reference. */
  lemma ChangedIffChanges(messages: seq<Message>, feed: Feed, command: Command)
    requires Delivers(EmptyFeed, messages, feed) && command.args.Some?
    ensures ActivityChanged(feed.cache, command) <==> Changes(messages, command)
  {
    hide Crowded, View;
    CachedIffHeld(messages, feed, command.Socket());
  }

  /** What is sent of a command's own message. */
  ghost function OwnSent(messages: seq<Message>, command: Command): seq<Message>
    requires command.args.Some?
  {
    if Changes(messages, command) then [command.Own()] else []
  }

  /**
   A consumer can tell: a clear whose card has been crowded out of the cache; or a republish, still held,
   that spells its pid differently (absent or 0).
   */
  ghost predicate Noticed(messages: seq<Message>, command: Command)
    requires command.args.Some?
  {
    var s := command.Socket();
    && s in View(messages)
    && match command.args.value.activity
       case None => Crowded(messages, s)
       case Some(activity) =>
         && !Crowded(messages, s)
         && SameContent(View(messages)[s], activity, command.app) && View(messages)[s].pid != command.args.value.pid
  }

  /** Exactly when leaving out what the bridge leaves out changes what consumers show. */
  lemma SkipIsInvisibleIff(messages: seq<Message>, command: Command)
    requires command.args.Some?
    ensures View(messages + OwnSent(messages, command)) == View(messages + [command.Own()]) <==>
            !Noticed(messages, command)
  {
    var s, view := command.Socket(), View(messages);
    ViewNext(messages, command.Own());
    hide View, Crowded;
    if !Changes(messages, command) {
      assert messages + [] == messages;
      if s in view {
        assert s in Shown(view, command.Own()) ==> Shown(view, command.Own())[s] == command.Payload();
        assert command.Publishes() && view[s] == command.Payload() ==> Shown(view, command.Own()) == view;
      } else {
        assert view - {s} == view;
      }
    }
  }

  /** A connection that first omits its pid and then repeats itself with pid 0 is noticed. */
  lemma RespellingIsNoticed(activity: Activity, app: Option<AppId>)
    ensures var first := Command(Some(Args(None, Some(activity))), app);
            Noticed([first.Own()], Command(Some(Args(Some(0), Some(activity))), app))
  {
    var first := Command(Some(Args(None, Some(activity))), app).Own();
    ViewNext([], first);
    LedgerSnoc([], first);
    assert [] + [first] == [first];
    NewCardIsAlone([], first);
  }

  // ---------------------------------------------------------------- crowding by fresh publishers

  /** Publishes on sockets all different. */
  ghost predicate AllFresh(messages: seq<Message>) {
    && (forall i :: 0 <= i < |messages| ==> !messages[i].payload.IsClear())
    && (forall i, j :: 0 <= i < j < |messages| ==> messages[i].socket != messages[j].socket)
  }

  /** The sockets published after the `i`th, among the first `m`. */
  function Later(messages: seq<Message>, i: nat, m: nat): set<SocketId>
    requires i < m <= |messages|
  {
    if m == i + 1 then {} else Later(messages, i, m - 1) + {messages[m - 1].socket}
  }

  lemma {:induction false} LaterCount(messages: seq<Message>, i: nat, m: nat)
    requires i < m <= |messages| && AllFresh(messages)
    ensures |Later(messages, i, m)| == m - 1 - i
    ensures forall k :: m <= k < |messages| ==> messages[k].socket !in Later(messages, i, m)
  {
    if m > i + 1 { LaterCount(messages, i, m - 1); }
  }

  /** The `i`th publisher's card, with the later ones newer than it. */
  ghost predicate FreshAt(ledger: Ledger, messages: seq<Message>, i: nat, m: nat)
    requires i < m <= |messages|
  {
    var s := messages[i].socket;
    && Numbered(ledger)
    && s in ledger.live && ledger.live[s] == Stamped(messages[i].payload, i + 1)
    && ledger.published == m && Newer(ledger.live, s) == Later(messages, i, m)
  }

  lemma {:induction false} FreshCount(messages: seq<Message>, m: nat)
    requires m <= |messages| && AllFresh(messages)
    ensures LedgerOf(messages[..m]).published == m
  {
    if m > 0 {
      FreshCount(messages, m - 1);
      OneLonger(messages, m - 1);
      LedgerSnoc(messages[..m - 1], messages[m - 1]);
    }
  }

  lemma {:induction false} FreshLedger(messages: seq<Message>, i: nat, m: nat)
    requires i < m <= |messages| && AllFresh(messages)
    ensures FreshAt(LedgerOf(messages[..m]), messages, i, m)
  {
    var before, message := messages[..m - 1], messages[m - 1];
    OneLonger(messages, m - 1);
    LedgerSnoc(before, message);
    LedgerNumbers(before);
    LedgerNumbers(messages[..m]);
    FreshCount(messages, m - 1);
    if m > i + 1 { FreshLedger(messages, i, m - 1); }
    hide LedgerOf;
    FreshNext(LedgerOf(before), messages, i, m);
  }

  lemma FreshNext(ledger: Ledger, messages: seq<Message>, i: nat, m: nat)
    requires i < m <= |messages| && AllFresh(messages) && Numbered(ledger) && ledger.published == m - 1
    requires m > i + 1 ==> FreshAt(ledger, messages, i, m - 1)
    ensures FreshAt(Entered(ledger, messages[m - 1]), messages, i, m)
  {
    var next, s := Entered(ledger, messages[m - 1]), messages[i].socket;
    assert next.live == ledger.live[messages[m - 1].socket := Stamped(messages[m - 1].payload, m)];
    if m > i + 1 {
      assert Newer(next.live, s) == Newer(ledger.live, s) + {messages[m - 1].socket};
    } else {
      assert Newer(next.live, s) == {};
    }
  }

  /** Among publishers on fresh sockets, a card is crowded out exactly when fifty have followed it. */
  lemma FreshCrowdedIff(messages: seq<Message>, i: nat)
    requires AllFresh(messages) && i < |messages|
    ensures Crowded(messages, messages[i].socket) <==> |messages| > i + MAX_CACHED_ACTIVITIES
  {
    var n, s := |messages|, messages[i].socket;
    assert messages[..n] == messages;
    FreshLedger(messages, i, n);
    forall m | 0 <= m <= n ensures CrowdedAt(messages, s, m) <==> m > i + MAX_CACHED_ACTIVITIES {
      if m > i {
        FreshLedger(messages, i, m);
        LaterCount(messages, i, m);
        hide LedgerOf;
      } else {
        FreshCount(messages, m);
        LedgerNumbers(messages[..m]);
        hide LedgerOf;
      }
    }
    hide CrowdedAt, LedgerOf;
    if n > i + MAX_CACHED_ACTIVITIES { assert CrowdedAt(messages, s, n); }
  }

  /** So among publishers on fresh sockets the last fifty are cached, and the fifty-first evicts the first. */
  lemma {:induction false} LastFiftyAreCached(messages: seq<Message>, feed: Feed, i: nat)
    requires AllFresh(messages) && i < |messages| && Delivers(EmptyFeed, messages, feed)
    ensures messages[i].socket in View(messages)
    ensures messages[i].socket in feed.cache <==> |messages| <= i + MAX_CACHED_ACTIVITIES
  {
    hide LedgerOf, View, Crowded, Later, AllFresh, Delivers;
    FreshCrowdedIff(messages, i);
    CachedIffHeld(messages, feed, messages[i].socket);
    FreshIsShown(messages, i, |messages|);
    assert messages[..|messages|] == messages;
  }

  lemma {:induction false} FreshIsShown(messages: seq<Message>, i: nat, m: nat)
    requires AllFresh(messages) && i < m <= |messages|
    ensures messages[i].socket in View(messages[..m]) && View(messages[..m])[messages[i].socket] == messages[i].payload
  {
    OneLonger(messages, m - 1);
    ViewNext(messages[..m - 1], messages[m - 1]);
    hide View;
    if m > i + 1 { FreshIsShown(messages, i, m - 1); }
  }

  // ---------------------------------------------------------------- one step of the bridge

  /** Messages on other sockets leave a card alone. */
  ghost predicate SameAt(v: map<SocketId, Payload>, w: map<SocketId, Payload>, s: SocketId) {
    (s in v <==> s in w) && (s in v ==> v[s] == w[s])
  }

  lemma {:induction false} OthersKeepCard(messages: seq<Message>, more: seq<Message>, s: SocketId)
    requires forall i :: 0 <= i < |more| ==> more[i].socket != s
    ensures SameAt(View(messages + more), View(messages), s)
    decreases |more|
  {
    if more == [] {
      assert messages + more == messages;
    } else {
      var n := |more| - 1;
      hide View;
      OthersKeepCard(messages, more[..n], s);
      assert more == more[..n] + [more[n]];
      Text.Regroup(messages, more[..n], [more[n]]);
      ViewNext(messages + more[..n], more[n]);
    }
  }

  /** Detected cards and then the command's own message, on the command's socket. */
  lemma CardsThenOwn(messages: seq<Message>, games: seq<Game>, command: Command)
    requires command.args.Some?
    ensures SameAt(View(messages + (GenericCards(games) + [])), View(messages), command.Socket())
    ensures command.Socket() in View(messages + (GenericCards(games) + [command.Own()])) <==> command.Publishes()
  {
    var cards := GenericCards(games);
    OthersKeepCard(messages, cards, command.Socket());
    hide View, GenericCards;
    assert cards + [] == cards;
    Text.Regroup(messages, cards, [command.Own()]);
    ViewNext(messages + cards, command.Own());
  }

  /** What a command's step leaves of its own socket's card. */
  lemma CommandShows(messages: seq<Message>, b: State, command: Command, sent: seq<Message>, b': State)
    requires Delivers(EmptyFeed, messages, b.feed) && SdkStep(b, command, false, sent, b') && command.args.Some?
    ensures var s, shown := command.Socket(), View(messages + sent);
            if Changes(messages, command) then s in shown <==> command.Publishes()
            else SameAt(shown, View(messages), s)
  {
    hide View, Changes, ActivityChanged, SdkStep, Delivers, IsResumption, TracksTo, OwnersAfter, GenericCards, SameAt;
    var games, alive, own := SentByCommand(b, command, sent, b');
    ChangedIffChanges(messages, b.feed, command);
    CardsThenOwn(messages, games, command);
  }

  /**
   Exactly when a clear is swallowed, in any run of the bridge: the card it is for stays on display if and only
   if at some moment since its publish fifty newer cards were on display at once.
   */
  lemma ClearIsSwallowedIff(messages: seq<Message>, b: State, command: Command, sent: seq<Message>, b': State)
    requires Delivers(EmptyFeed, messages, b.feed) && SdkStep(b, command, false, sent, b')
    requires command.args.Some? && command.args.value.activity.None? && command.Socket() in View(messages)
    ensures command.Socket() in View(messages + sent) <==> Crowded(messages, command.Socket())
  {
    CommandShows(messages, b, command, sent, b');
  }
}
