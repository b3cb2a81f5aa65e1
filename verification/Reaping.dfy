/** What an empty process table leaves on display: the exact effect of the clears and of the reaping. */
module Reaping {
  import opened Presence
  import opened Replay
  import opened CacheContents
  import opened Bridge
  import opened TrackedCards
  import Text

  /** After a delivery of clears, exactly the sockets they name are gone. */
  lemma ClearsShow(messages: seq<Message>, feed: Feed, clears: seq<Message>, next: Feed)
    requires Delivers(EmptyFeed, messages, feed) && Delivers(feed, clears, next) && AllClears(clears)
    ensures Delivers(EmptyFeed, messages + clears, next)
    ensures View(messages + clears) == View(messages) - Sockets(clears)
    ensures next.cache == feed.cache - Sockets(clears)
  {
    hide Delivers, View, AllClears, Sockets;
    DeliveryJoins(EmptyFeed, messages, feed, clears, next);
    ClearsRemove(feed, clears, next);
    DeliveredView(messages, feed);
    DeliveredView(messages + clears, next);
    assert Payloads(feed.live - Sockets(clears)) == Payloads(feed.live) - Sockets(clears);
  }

  /** The card of a process the probe calls dead, still on display but out of the cache's reach. */
  ghost predicate Unreaped(messages: seq<Message>, alive: Pid -> bool, s: SocketId)
    requires s in View(messages)
  {
    IsGhost(s, View(messages)[s], alive) && Crowded(messages, s)
  }

  /** What some clears and the reaping behind them leave of a card. */
  lemma ReapShows(messages: seq<Message>, feed: Feed, cards: seq<Message>, alive: Pid -> bool, mid: Feed,
                  reaped: seq<Message>, feed': Feed, s: SocketId)
    requires Delivers(EmptyFeed, messages, feed) && Delivers(feed, cards, mid) && AllClears(cards)
    requires IsReaping(mid.cache, alive, reaped) && Delivers(mid, reaped, feed')
    ensures var after := View(messages + (cards + reaped));
            && (s in after <==>
                && s in View(messages) && s !in Sockets(cards)
                && (IsGhost(s, View(messages)[s], alive) ==> Unreaped(messages, alive, s)))
            && (s in after ==> after[s] == View(messages)[s])
  {
    hide Delivers, View, Crowded, Sockets, IsGhost;
    ClearsShow(messages, feed, cards, mid);
    ClearsShow(messages + cards, mid, reaped, feed');
    Text.Regroup(messages, cards, reaped);
    CachedIffHeld(messages, feed, s);
  }

  /** The detected card of an application the bridge tracks. */
  predicate IsTracked(b: State, s: SocketId) { s.AppSocket? && s.app in b.lastProcess }

  lemma ClearAllSockets(table: map<AppId, Pid>, order: seq<AppId>, s: SocketId)
    requires forall id :: id in order <==> id in table
    ensures AllClears(ClearAll(table, order))
    ensures s in Sockets(ClearAll(table, order)) <==> s.AppSocket? && s.app in table
  {
    var clears := ClearAll(table, order);
    SocketsAre(clears, s);
    hide Sockets;
    if s.AppSocket? && s.app in table {
      var i :| 0 <= i < |order| && order[i] == s.app;
      assert clears[i].socket == s;
    }
  }

  /**
   The exact effect of an empty table on what consumers show: tracked cards go, and of all others exactly the
   cards of dead processes that have not been crowded out of the cache.
   */
  lemma ClearedShows(messages: seq<Message>, b: State, alive: Pid -> bool, sent: seq<Message>, b': State, s: SocketId)
    requires Delivers(EmptyFeed, messages, b.feed) && ClearedStep(b, alive, sent, b')
    ensures var after := View(messages + sent);
            && (s in after <==>
                && s in View(messages) && !IsTracked(b, s)
                && (IsGhost(s, View(messages)[s], alive) ==> Crowded(messages, s)))
            && (s in after ==> after[s] == View(messages)[s])
  {
    var order: seq<AppId>, mid: Feed, reaped :|
      && (forall id :: id in order <==> id in b.lastProcess)
      && Delivers(b.feed, ClearAll(b.lastProcess, order), mid)
      && IsReaping(mid.cache, alive, reaped)
      && Delivers(mid, reaped, b'.feed)
      && sent == ClearAll(b.lastProcess, order) + reaped;
    hide Delivers, View, Crowded, Sockets, IsGhost, ClearedStep, IsReaping, ClearAll;
    ClearAllSockets(b.lastProcess, order, s);
    ReapShows(messages, b.feed, ClearAll(b.lastProcess, order), alive, mid, reaped, b'.feed, s);
  }

  /** So a dead process's card outlives an empty table if and only if it was crowded out. */
  lemma GhostStaysIff(messages: seq<Message>, b: State, alive: Pid -> bool, sent: seq<Message>, b': State, s: SocketId)
    requires Delivers(EmptyFeed, messages, b.feed) && ClearedStep(b, alive, sent, b')
    requires s in View(messages) && !IsTracked(b, s) && IsGhost(s, View(messages)[s], alive)
    ensures s in View(messages + sent) <==> Crowded(messages, s)
  {
    hide Delivers, View, Crowded, IsGhost, ClearedStep;
    ClearedShows(messages, b, alive, sent, b', s);
  }
}
