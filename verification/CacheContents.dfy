/**
 Exactly what the replay cache holds, from the messages sent alone, and what a late joiner therefore shows.
 */
module CacheContents {
  import opened Presence
  import opened Replay

  // ---------------------------------------------------------------- exactly what is cached

  /** What has been published and not cleared, each with the number of its publish; no cache involved. */
  datatype Ledger = Ledger(live: map<SocketId, Stamped>, published: nat)

  function Entered(ledger: Ledger, message: Message): Ledger {
    if message.payload.IsClear() then ledger.(live := ledger.live - {message.socket})
    else Ledger(ledger.live[message.socket := Stamped(message.payload, ledger.published + 1)], ledger.published + 1)
  }

  function LedgerOf(messages: seq<Message>): Ledger {
    if messages == [] then Ledger(map[], 0) else Entered(LedgerOf(messages[..|messages| - 1]), messages[|messages| - 1])
  }

  /** The live cards published after the socket's own. */
  function Newer(live: map<SocketId, Stamped>, s: SocketId): set<SocketId>
    requires s in live
  {
    set t | t in live && live[t].stamp > live[s].stamp
  }

  /**
   At some moment since the socket's card was published (the card being the same ever since), fifty newer
   cards were on display at once.
   */
  ghost predicate Crowded(messages: seq<Message>, s: SocketId) {
    exists m :: 0 <= m <= |messages| && CrowdedAt(messages, s, m)
  }

  ghost predicate CrowdedAt(messages: seq<Message>, s: SocketId, m: nat)
    requires m <= |messages|
  {
    var past, now := LedgerOf(messages[..m]).live, LedgerOf(messages).live;
    s in past && s in now && past[s] == now[s] && |Newer(past, s)| >= MAX_CACHED_ACTIVITIES
  }

  /** Everything newer than a cached entry is cached, so there are fewer than fifty. */
  lemma CachedHasRoom(feed: Feed, s: SocketId)
    requires FeedInv(feed) && s in feed.cache
    ensures s in feed.live && |Newer(feed.live, s)| < MAX_CACHED_ACTIVITIES
  {
    var newer := Newer(feed.live, s);
    assert newer + {s} <= feed.cache.Keys;
    SubsetSize(newer + {s}, feed.cache.Keys);
    assert |feed.cache.Keys| == |feed.cache|;
  }

  /** A pruned entry leaves fifty newer ones behind. */
  lemma PrunedHasFifty(full: map<SocketId, Stamped>, kept: map<SocketId, Stamped>, s: SocketId)
    requires Pruned(full, kept) && s in full && s !in kept
    requires forall t :: t in full && t != s ==> full[t].stamp != full[s].stamp
    ensures |Newer(full, s)| >= MAX_CACHED_ACTIVITIES
  {
    assert kept.Keys <= Newer(full, s);
    SubsetSize(kept.Keys, Newer(full, s));
    assert |kept.Keys| == |kept|;
    SubmapSize(kept, full);
  }

  /** A publish is cached at once. */
  lemma PublishIsCached(feed: Feed, message: Message, next: Feed)
    requires FeedInv(feed) && Broadcasted(feed, message, next) && message.socket in next.live
    ensures message.socket in next.cache
  {
    var s := message.socket;
    var full := feed.cache[s := Stamped(message.payload, feed.stamp + 1)];
    assert Newer(full, s) == {};
    if s !in next.cache { PrunedHasFifty(full, next.cache, s); }
  }

  /** Another message drops a cached entry only when fifty newer ones are live. */
  lemma StaysCachedIff(feed: Feed, message: Message, next: Feed, s: SocketId)
    requires FeedInv(feed) && FeedInv(next) && Broadcasted(feed, message, next)
    requires s in feed.cache && s != message.socket
    ensures s in next.live && next.live[s] == feed.live[s]
    ensures s in next.cache <==> |Newer(next.live, s)| < MAX_CACHED_ACTIVITIES
  {
    if s in next.cache {
      CachedHasRoom(next, s);
    } else {
      DroppedHasFifty(feed, message, next, s);
    }
  }

  lemma DroppedHasFifty(feed: Feed, message: Message, next: Feed, s: SocketId)
    requires LiveInv(feed.live, feed.stamp) && Submap(feed.cache, feed.live) && Broadcasted(feed, message, next)
    requires s in feed.cache && s != message.socket && s !in next.cache
    ensures s in next.live && |Newer(next.live, s)| >= MAX_CACHED_ACTIVITIES
  {
    hide Pruned, Newer;
    assert !message.payload.IsClear();
    var full := feed.cache[message.socket := Stamped(message.payload, feed.stamp + 1)];
    PrunedHasFifty(full, next.cache, s);
    hide LiveInv;
    NewerGrows(full, next.live, s);
  }

  lemma NewerGrows(small: map<SocketId, Stamped>, big: map<SocketId, Stamped>, s: SocketId)
    requires Submap(small, big) && s in small
    ensures |Newer(small, s)| <= |Newer(big, s)|
  {
    assert Newer(small, s) <= Newer(big, s);
    SubsetSize(Newer(small, s), Newer(big, s));
  }

  lemma LedgerSnoc(before: seq<Message>, message: Message)
    ensures LedgerOf(before + [message]) == Entered(LedgerOf(before), message)
  {
    assert (before + [message])[..|before|] == before;
  }

  /** A feed with the ledger's books. */
  ghost predicate Keeps(feed: Feed, ledger: Ledger) {
    feed.live == ledger.live && feed.stamp == ledger.published
  }

  lemma KeepsNext(feed: Feed, message: Message, next: Feed, ledger: Ledger)
    requires Keeps(feed, ledger) && Broadcasted(feed, message, next)
    ensures Keeps(next, Entered(ledger, message))
  {
  }

  lemma FeedsKeepLedger(feeds: seq<Feed>, messages: seq<Message>, n: nat)
    requires IsFeedRun(feeds, messages) && n <= |messages|
    ensures Keeps(feeds[n], LedgerOf(messages[..n]))
  {
    for i := 0 to n
      invariant Keeps(feeds[i], LedgerOf(messages[..i]))
    {
      KeepsStep(feeds[i], messages, i, feeds[i + 1]);
    }
  }

  lemma KeepsStep(feed: Feed, messages: seq<Message>, i: nat, next: Feed)
    requires i < |messages| && Broadcasted(feed, messages[i], next) && Keeps(feed, LedgerOf(messages[..i]))
    ensures Keeps(next, LedgerOf(messages[..i + 1]))
  {
    hide Broadcasted, Keeps, LedgerOf;
    OneLonger(messages, i);
    LedgerSnoc(messages[..i], messages[i]);
    KeepsNext(feed, messages[i], next, LedgerOf(messages[..i]));
  }

  ghost predicate Numbered(ledger: Ledger) {
    forall s :: s in ledger.live ==> ledger.live[s].stamp <= ledger.published
  }

  lemma {:induction false} LedgerNumbers(messages: seq<Message>)
    ensures Numbered(LedgerOf(messages))
  {
    if messages != [] { LedgerNumbers(messages[..|messages| - 1]); }
  }

  lemma {:induction false} LedgerGrows(messages: seq<Message>, m: nat)
    requires m <= |messages|
    ensures LedgerOf(messages[..m]).published <= LedgerOf(messages).published
  {
    if m == |messages| {
      assert messages[..m] == messages;
    } else {
      var before := messages[..|messages| - 1];
      LedgerGrows(before, m);
      assert before[..m] == messages[..m];
    }
  }

  /** A new card has nothing newer beside it. */
  lemma NewCardIsAlone(before: seq<Message>, message: Message)
    requires message.socket in LedgerOf(before + [message]).live
    ensures !Crowded(before + [message], message.socket)
  {
    var after, s := before + [message], message.socket;
    LedgerSnoc(before, message);
    LedgerNumbers(before);
    var now := LedgerOf(after).live;
    assert Newer(now, s) == {};
    forall m | 0 <= m <= |after| ensures !CrowdedAt(after, s, m) {
      if m == |after| {
        assert after[..m] == after;
      } else {
        assert after[..m] == before[..m];
        LedgerNumbers(before[..m]);
        LedgerGrows(before, m);
        hide LedgerOf;
      }
    }
  }

  /** Another socket's message leaves crowding as it was, or brings it about now. */
  lemma CrowdedNext(before: seq<Message>, message: Message, s: SocketId)
    requires s in LedgerOf(before + [message]).live && message.socket != s
    ensures s in LedgerOf(before).live
    ensures Crowded(before + [message], s) <==>
            Crowded(before, s) || |Newer(LedgerOf(before + [message]).live, s)| >= MAX_CACHED_ACTIVITIES
  {
    var after := before + [message];
    LedgerSnoc(before, message);
    hide LedgerOf;
    assert after[..|after|] == after;
    forall m | 0 <= m <= |before| ensures CrowdedAt(after, s, m) <==> CrowdedAt(before, s, m) {
      assert after[..m] == before[..m];
    }
    assert CrowdedAt(after, s, |after|) <==> |Newer(LedgerOf(after).live, s)| >= MAX_CACHED_ACTIVITIES;
    hide CrowdedAt;
    if Crowded(before, s) {
      var m :| 0 <= m <= |before| && CrowdedAt(before, s, m);
      assert CrowdedAt(after, s, m);
    }
  }

  /** A live socket is cached exactly when it has not been crowded out. */
  ghost predicate CachedRight(feed: Feed, messages: seq<Message>, s: SocketId) {
    s in feed.live ==> (s in feed.cache <==> !Crowded(messages, s))
  }

  /**
   Exactly what the cache holds, in every run: an uncleared card is cached if and only if at no moment since
   its publish were fifty newer cards on display at once.
   */
  lemma CachedIffNeverCrowded(feeds: seq<Feed>, messages: seq<Message>, n: nat, s: SocketId)
    requires IsFeedRun(feeds, messages) && n <= |messages| && s in feeds[n].live
    ensures s in feeds[n].cache <==> !Crowded(messages[..n], s)
  {
    hide Crowded;
    for i := 0 to n
      invariant CachedRight(feeds[i], messages[..i], s)
    {
      FeedsKeepLedger(feeds, messages, i);
      RunKeepsInv(feeds, messages, i);
      CachedStep(feeds[i], messages, i, feeds[i + 1], s);
    }
  }

  lemma CachedStep(feed: Feed, messages: seq<Message>, i: nat, next: Feed, s: SocketId)
    requires i < |messages| && Broadcasted(feed, messages[i], next) && FeedInv(feed)
    requires Keeps(feed, LedgerOf(messages[..i])) && CachedRight(feed, messages[..i], s)
    ensures CachedRight(next, messages[..i + 1], s)
  {
    var before, message := messages[..i], messages[i];
    OneLonger(messages, i);
    LedgerSnoc(before, message);
    KeepsNext(feed, message, next, LedgerOf(before));
    BroadcastKeepsInv(feed, message, next);
    hide FeedInv, LedgerOf, Crowded, Newer, Broadcasted;
    if s in next.live {
      if message.socket == s {
        NewCardIsAlone(before, message);
        PublishIsCached(feed, message, next);
      } else {
        CrowdedNext(before, message, s);
        CachedNext(feed, message, next, s);
      }
    }
  }

  lemma CachedNext(feed: Feed, message: Message, next: Feed, s: SocketId)
    requires FeedInv(feed) && FeedInv(next) && Broadcasted(feed, message, next) && s != message.socket && s in feed.live
    ensures s in next.live
    ensures s in next.cache <==> s in feed.cache && |Newer(next.live, s)| < MAX_CACHED_ACTIVITIES
  {
    if s in feed.cache {
      StaysCachedIff(feed, message, next, s);
    }
  }

  /** The socket's card is on display and has not been crowded out of the cache. */
  ghost predicate Held(messages: seq<Message>, s: SocketId) {
    s in View(messages) && !Crowded(messages, s)
  }

  /** The cache told from the messages sent alone. */
  lemma CachedIffHeld(messages: seq<Message>, feed: Feed, s: SocketId)
    requires Delivers(EmptyFeed, messages, feed)
    ensures s in feed.cache <==> Held(messages, s)
    ensures s in feed.cache ==> feed.cache[s].payload == View(messages)[s] && !feed.cache[s].payload.IsClear()
  {
    var feeds: seq<Feed> :| IsFeedPath(feeds, messages) && feeds[0] == EmptyFeed && feeds[|messages|] == feed;
    var n := |messages|;
    CacheRefinesView(feeds, messages, n);
    assert messages[..n] == messages;
    hide Crowded, View;
    if s in feed.live { CachedIffNeverCrowded(feeds, messages, n, s); }
    assert s in feed.live <==> s in Payloads(feed.live);
  }

  /** Cached entries are never crowded: with at most fifty cards on display at any time, everything is cached. */
  ghost predicate AlwaysFits(messages: seq<Message>) {
    forall k :: 0 <= k <= |messages| ==> |View(messages[..k])| <= MAX_CACHED_ACTIVITIES
  }

  lemma NewerIsSmaller(live: map<SocketId, Stamped>, s: SocketId)
    requires s in live
    ensures |Newer(live, s)| < |live|
  {
    assert Newer(live, s) <= live.Keys - {s};
    SubsetSize(Newer(live, s), live.Keys - {s});
    assert |live.Keys| == |live|;
  }

  lemma FittingIsNotCrowded(feeds: seq<Feed>, messages: seq<Message>, s: SocketId)
    requires IsFeedRun(feeds, messages) && AlwaysFits(messages)
    ensures !Crowded(messages, s)
  {
    forall m | 0 <= m <= |messages| ensures !CrowdedAt(messages, s, m) {
      FeedsKeepLedger(feeds, messages, m);
      LiveIsView(feeds, messages, m);
      if s in feeds[m].live {
        NewerIsSmaller(feeds[m].live, s);
        assert Payloads(feeds[m].live).Keys == feeds[m].live.Keys;
        assert |feeds[m].live| == |View(messages[..m])|;
      }
    }
  }

  /** With never more than fifty cards on display nothing is dropped. */
  lemma CacheIsComplete(feeds: seq<Feed>, messages: seq<Message>)
    requires IsFeedRun(feeds, messages) && AlwaysFits(messages)
    ensures feeds[|messages|].cache == feeds[|messages|].live
  {
    var n := |messages|;
    RunKeepsInv(feeds, messages, n);
    assert messages[..n] == messages;
    forall s | s in feeds[n].live ensures s in feeds[n].cache {
      CachedIffNeverCrowded(feeds, messages, n, s);
      FittingIsNotCrowded(feeds, messages, s);
    }
  }

  // ---------------------------------------------------------------- late joiners

  /** The cards sent to a consumer that connects, in whatever order the map yields them. */
  function ReplayOf(cache: map<SocketId, Stamped>, order: seq<SocketId>): seq<Message>
    requires forall s :: s in order ==> s in cache
  {
    seq(|order|, i requires 0 <= i < |order| => Message(order[i], cache[order[i]].payload))
  }

  lemma {:induction false} ReplayView(cache: map<SocketId, Stamped>, order: seq<SocketId>, k: nat)
    requires forall s :: s in order ==> s in cache && !cache[s].payload.IsClear()
    requires k <= |order|
    ensures View(ReplayOf(cache, order)[..k]) == map s | s in order[..k] :: cache[s].payload
  {
    var messages := ReplayOf(cache, order);
    if k > 0 {
      ReplayView(cache, order, k - 1);
      assert messages[..k][..k - 1] == messages[..k - 1];
      assert order[..k] == order[..k - 1] + [order[k - 1]];
    }
  }

  lemma ReplayShowsCache(feeds: seq<Feed>, messages: seq<Message>, order: seq<SocketId>)
    requires IsFeedRun(feeds, messages) && forall s :: s in order <==> s in feeds[|messages|].cache
    ensures View(ReplayOf(feeds[|messages|].cache, order)) == Payloads(feeds[|messages|].cache)
  {
    var cache := feeds[|messages|].cache;
    RunKeepsInv(feeds, messages, |messages|);
    forall s | s in order ensures !cache[s].payload.IsClear() { assert s in feeds[|messages|].live; }
    ReplayView(cache, order, |order|);
    assert order[..|order|] == order && ReplayOf(cache, order)[..|order|] == ReplayOf(cache, order);
  }

  /**
   Exactly when a late joiner's replay, in any order, shows what a continuous consumer shows: when no card
   on display has ever been crowded out.
   */
  lemma LateJoinerCatchesUpIff(feeds: seq<Feed>, messages: seq<Message>, order: seq<SocketId>)
    requires IsFeedRun(feeds, messages) && forall s :: s in order <==> s in feeds[|messages|].cache
    ensures View(ReplayOf(feeds[|messages|].cache, order)) == View(messages) <==>
            forall s :: s in View(messages) ==> !Crowded(messages, s)
  {
    var n := |messages|;
    ReplayShowsCache(feeds, messages, order);
    CacheRefinesView(feeds, messages, n);
    assert messages[..n] == messages;
    forall s | s in View(messages) ensures s in feeds[n].live && (s in feeds[n].cache <==> !Crowded(messages, s)) {
      assert s in Payloads(feeds[n].live);
      CachedIffNeverCrowded(feeds, messages, n, s);
    }
    SameIffAllCached(feeds[n].cache, feeds[n].live);
  }

  lemma SameIffAllCached(cache: map<SocketId, Stamped>, live: map<SocketId, Stamped>)
    requires Submap(cache, live)
    ensures Payloads(cache) == Payloads(live) <==> forall s :: s in Payloads(live) ==> s in cache
  {
    if Payloads(cache) == Payloads(live) {
      forall s | s in Payloads(live) ensures s in cache { assert s in Payloads(cache); }
    }
  }

  /** So it does with never more than fifty cards on display. */
  lemma LateJoinerCatchesUp(feeds: seq<Feed>, messages: seq<Message>, order: seq<SocketId>)
    requires IsFeedRun(feeds, messages) && AlwaysFits(messages)
    requires forall s :: s in order <==> s in feeds[|messages|].cache
    ensures View(ReplayOf(feeds[|messages|].cache, order)) == View(messages)
  {
    forall s | s in View(messages) ensures !Crowded(messages, s) { FittingIsNotCrowded(feeds, messages, s); }
    LateJoinerCatchesUpIff(feeds, messages, order);
  }
}
