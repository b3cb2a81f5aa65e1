/**
 The replay cache: the last payload per socket, bounded, replayed to late joiners. Its reference is
 the unbounded map of payloads that were published and not cleared since.
 */
module Replay {
  import opened Presence

  const MAX_CACHED_ACTIVITIES: nat := 50

  /** Detected cards live under the application id, game connections under their pid; the two never meet. */
  datatype SocketId = AppSocket(app: AppId) | PidSocket(pid: Pid)

  /** Activity content a game sends; opaque to the bridge. */
  type Activity = nat

  datatype Payload =
    | Generic(game: Game)
    | Sdk(activity: Activity, app: Option<AppId>, pid: Option<Pid>)
    | Clear(owner: Pid)
  {
    predicate IsClear() { Clear? }

    /** The pid a builder records on the payload (absent reads as 0). */
    function OwnerPid(): Pid {
      match this
      case Generic(game) => game.pid
      case Sdk(_, _, pid) => if pid.Some? then pid.value else 0
      case Clear(owner) => owner
    }
  }

  datatype Stamped = Stamped(payload: Payload, stamp: nat)

  datatype Message = Message(socket: SocketId, payload: Payload)

  /** `live` is bookkeeping of the model: everything published and not cleared, with its stamp. */
  datatype Feed = Feed(cache: map<SocketId, Stamped>, stamp: nat, live: map<SocketId, Stamped>)

  const EmptyFeed := Feed(map[], 0, map[])

  // ---------------------------------------------------------------- pruning

  /** The newest `MAX_CACHED_ACTIVITIES` entries survive; everything dropped is at most as new as anything kept. */
  ghost predicate Pruned(before: map<SocketId, Stamped>, after: map<SocketId, Stamped>) {
    && Submap(after, before)
    && |after| == Min(|before|, MAX_CACHED_ACTIVITIES)
    && forall d, k :: d in before && d !in after && k in after ==> before[d].stamp <= before[k].stamp
  }

  method Oldest(cache: map<SocketId, Stamped>) returns (oldest: SocketId)
    requires cache != map[]
    ensures oldest in cache && forall k :: k in cache ==> cache[oldest].stamp <= cache[k].stamp
  {
    oldest :| oldest in cache;
    var rest := cache.Keys - {oldest};
    while rest != {}
      invariant oldest in cache && rest <= cache.Keys
      invariant forall k :: k in cache && k !in rest ==> cache[oldest].stamp <= cache[k].stamp
      decreases rest
    {
      var k :| k in rest;
      rest := rest - {k};
      if cache[k].stamp < cache[oldest].stamp {
        oldest := k;
      }
    }
  }

  method PruneCache(cache: map<SocketId, Stamped>) returns (pruned: map<SocketId, Stamped>)
    ensures Pruned(cache, pruned)
  {
    pruned := cache;
    while |pruned| > MAX_CACHED_ACTIVITIES
      invariant Submap(pruned, cache)
      invariant |pruned| >= Min(|cache|, MAX_CACHED_ACTIVITIES)
      invariant forall d, k :: d in cache && d !in pruned && k in pruned ==> cache[d].stamp <= cache[k].stamp
      decreases |pruned|
    {
      var oldest := Oldest(pruned);
      ghost var keys := pruned.Keys;
      pruned := pruned - {oldest};
      assert pruned.Keys == keys - {oldest};
    }
    SubmapSize(pruned, cache);
  }

  /** Digits (one leading `+` allowed) below 2^64, as `str::parse::<u64>` reads them. */
  function ParseU64(text: string): Option<nat> {
    var digits := if text != [] && text[0] == '+' then text[1..] else text;
    if digits == [] || exists i :: 0 <= i < |digits| && !('0' <= digits[i] <= '9') then None
    else if Decimal(digits) < TWO_64 then Some(Decimal(digits)) else None
  }

  function Decimal(digits: string): nat
    requires forall i :: 0 <= i < |digits| ==> '0' <= digits[i] <= '9'
  {
    if digits == [] then 0
    else 10 * Decimal(digits[..|digits| - 1]) + (digits[|digits| - 1] as int - '0' as int)
  }

  /** A number in decimal. */
  function Printed(n: nat): (text: string)
    ensures text != [] && forall i :: 0 <= i < |text| ==> '0' <= text[i] <= '9'
  {
    var digit := ['0' + (n % 10) as char];
    if n < 10 then digit else Printed(n / 10) + digit
  }

  lemma {:induction false} DecimalReads(n: nat)
    ensures Decimal(Printed(n)) == n
  {
    var text := Printed(n);
    if n < 10 {
      assert Decimal(text[..0]) == 0;
    } else {
      assert text[..|text| - 1] == Printed(n / 10);
      DecimalReads(n / 10);
    }
  }

  /** A printed number is read back exactly if it fits 64 bits. */
  lemma PrintedIsParsed(n: nat)
    ensures ParseU64(Printed(n)) == if n < 0x1_0000_0000_0000_0000 then Some(n) else None
  {
    DecimalReads(n);
    assert Printed(n)[0] != '+';
  }

  /** The pid whose death would make a cached card a ghost: the recorded one, else a numeric socket id. */
  function CacheEntryPid(socket: SocketId, payload: Payload): (pid: Option<Pid>)
    ensures pid.Some? ==> pid.value != 0
    ensures payload.OwnerPid() != 0 ==> pid == Some(payload.OwnerPid())
  {
    if payload.OwnerPid() != 0 then Some(payload.OwnerPid())
    else
      var parsed := match socket case PidSocket(pid) => Some(pid) case AppSocket(app) => ParseU64(app);
      if parsed.Some? && parsed.value != 0 then parsed else None
  }

  // ---------------------------------------------------------------- one broadcast

  ghost predicate Broadcasted(feed: Feed, message: Message, next: Feed) {
    var s := message.socket;
    if message.payload.IsClear() then
      next == Feed(feed.cache - {s}, feed.stamp, feed.live - {s})
    else
      var stamped := Stamped(message.payload, feed.stamp + 1);
      && next.stamp == feed.stamp + 1
      && next.live == feed.live[s := stamped]
      && Pruned(feed.cache[s := stamped], next.cache)
  }

  /** Live payloads are no clears and carry distinct stamps. */
  ghost predicate LiveInv(live: map<SocketId, Stamped>, stamp: nat) {
    && (forall s :: s in live ==> !live[s].payload.IsClear() && live[s].stamp <= stamp)
    && (forall s, t :: s in live && t in live && s != t ==> live[s].stamp != live[t].stamp)
  }

  /** Every live socket the cache lacks is older than every entry it holds. */
  ghost predicate NewestPart(cache: map<SocketId, Stamped>, live: map<SocketId, Stamped>) {
    && Submap(cache, live)
    && forall s, t :: s in live && s !in cache && t in cache ==> live[s].stamp < live[t].stamp
  }

  /**
   The cache holds no clear, at most fifty entries and no stamp twice; it is part of the live map, and
   every live socket it has dropped is older than every entry it still holds.
   */
  ghost predicate FeedInv(feed: Feed) {
    LiveInv(feed.live, feed.stamp) && NewestPart(feed.cache, feed.live) && |feed.cache| <= MAX_CACHED_ACTIVITIES
  }

  lemma PublishKeepsNewest(cache: map<SocketId, Stamped>, live: map<SocketId, Stamped>, stamp: nat, s: SocketId,
                           payload: Payload, next: map<SocketId, Stamped>)
    requires LiveInv(live, stamp) && NewestPart(cache, live)
    requires Pruned(cache[s := Stamped(payload, stamp + 1)], next)
    ensures NewestPart(next, live[s := Stamped(payload, stamp + 1)]) && |next| <= MAX_CACHED_ACTIVITIES
  {
    var full, live' := cache[s := Stamped(payload, stamp + 1)], live[s := Stamped(payload, stamp + 1)];
    assert Submap(full, live');
    forall d, t | d in live' && d !in next && t in next ensures live'[d].stamp < live'[t].stamp {
      assert t in full && full[t] == live'[t];
      if d in full {
        assert full[d].stamp <= full[t].stamp;
        if d != s && t != s {
          assert live[d].stamp != live[t].stamp;
        }
      } else if t != s {
        assert live[d].stamp < live[t].stamp;
      }
    }
  }

  lemma PublishKeepsLive(live: map<SocketId, Stamped>, stamp: nat, s: SocketId, payload: Payload)
    requires LiveInv(live, stamp) && !payload.IsClear()
    ensures LiveInv(live[s := Stamped(payload, stamp + 1)], stamp + 1)
  {
  }

  lemma ClearKeepsParts(cache: map<SocketId, Stamped>, live: map<SocketId, Stamped>, stamp: nat, gone: set<SocketId>)
    requires LiveInv(live, stamp) && NewestPart(cache, live)
    ensures LiveInv(live - gone, stamp) && NewestPart(cache - gone, live - gone)
    ensures |cache - gone| <= |cache|
  {
    SubmapSize(cache - gone, cache);
  }

  lemma PublishKeepsInv(feed: Feed, s: SocketId, payload: Payload, cache: map<SocketId, Stamped>)
    requires FeedInv(feed) && !payload.IsClear() && Pruned(feed.cache[s := Stamped(payload, feed.stamp + 1)], cache)
    ensures FeedInv(Feed(cache, feed.stamp + 1, feed.live[s := Stamped(payload, feed.stamp + 1)]))
  {
    hide LiveInv, NewestPart, Pruned;
    PublishKeepsLive(feed.live, feed.stamp, s, payload);
    PublishKeepsNewest(feed.cache, feed.live, feed.stamp, s, payload, cache);
  }

  lemma BroadcastKeepsInv(feed: Feed, message: Message, next: Feed)
    requires FeedInv(feed) && Broadcasted(feed, message, next)
    ensures FeedInv(next)
  {
    if message.payload.IsClear() {
      ClearKeepsParts(feed.cache, feed.live, feed.stamp, {message.socket});
    } else {
      PublishKeepsInv(feed, message.socket, message.payload, next.cache);
    }
  }

  // ---------------------------------------------------------------- whole runs

  /** A consumer's table after one more message. */
  function Shown(view: map<SocketId, Payload>, message: Message): map<SocketId, Payload> {
    if message.payload.IsClear() then view - {message.socket} else view[message.socket := message.payload]
  }

  /** What a consumer shows after receiving `messages`. */
  function View(messages: seq<Message>): map<SocketId, Payload> {
    if messages == [] then map[] else Shown(View(messages[..|messages| - 1]), messages[|messages| - 1])
  }

  function Payloads(table: map<SocketId, Stamped>): map<SocketId, Payload> {
    map s | s in table :: table[s].payload
  }

  /** `feeds` are the states that broadcasting `messages` leads through. */
  ghost predicate IsFeedPath(feeds: seq<Feed>, messages: seq<Message>) {
    && |feeds| == |messages| + 1
    && forall i {:trigger messages[i]} :: 0 <= i < |messages| ==> Broadcasted(feeds[i], messages[i], feeds[i + 1])
  }

  ghost predicate Delivers(feed: Feed, messages: seq<Message>, next: Feed) {
    exists feeds :: IsFeedPath(feeds, messages) && feeds[0] == feed && feeds[|messages|] == next
  }

  lemma DeliversNothing(feed: Feed, next: Feed)
    ensures Delivers(feed, [], next) <==> next == feed
  {
    assert IsFeedPath([feed], []);
  }

  lemma DeliversOneMore(feed: Feed, messages: seq<Message>, mid: Feed, message: Message, next: Feed)
    requires Delivers(feed, messages, mid) && Broadcasted(mid, message, next)
    ensures Delivers(feed, messages + [message], next)
  {
    var feeds :| IsFeedPath(feeds, messages) && feeds[0] == feed && feeds[|messages|] == mid;
    assert IsFeedPath(feeds + [next], messages + [message]);
  }

  /** The state before the last of several messages. */
  lemma BeforeLast(feed: Feed, messages: seq<Message>, next: Feed) returns (mid: Feed)
    requires Delivers(feed, messages, next) && messages != []
    ensures Delivers(feed, messages[..|messages| - 1], mid)
    ensures Broadcasted(mid, messages[|messages| - 1], next)
  {
    var feeds :| IsFeedPath(feeds, messages) && feeds[0] == feed && feeds[|messages|] == next;
    var n := |messages| - 1;
    mid := feeds[n];
    assert Broadcasted(feeds[n], messages[n], feeds[n + 1]);
    PathPrefix(feeds, messages, n);
  }

  lemma PathPrefix(feeds: seq<Feed>, messages: seq<Message>, n: nat)
    requires IsFeedPath(feeds, messages) && n <= |messages|
    ensures IsFeedPath(feeds[..n + 1], messages[..n])
  {
    forall i | 0 <= i < n ensures Broadcasted(feeds[..n + 1][i], messages[..n][i], feeds[..n + 1][i + 1]) {
      assert Broadcasted(feeds[i], messages[i], feeds[i + 1]);
    }
  }

  lemma {:induction false} DeliverySplits(feed: Feed, first: seq<Message>, second: seq<Message>,
                                          next: Feed) returns (mid: Feed)
    requires Delivers(feed, first + second, next)
    ensures Delivers(feed, first, mid) && Delivers(mid, second, next)
  {
    var all := first + second;
    var feeds :| IsFeedPath(feeds, all) && feeds[0] == feed && feeds[|all|] == next;
    var n := |first|;
    mid := feeds[n];
    forall i | 0 <= i < |second| ensures Broadcasted(feeds[n..][i], second[i], feeds[n..][i + 1]) {
      assert all[n + i] == second[i];
      assert Broadcasted(feeds[n + i], all[n + i], feeds[n + i + 1]);
    }
    PathPrefix(feeds, all, n);
    assert all[..n] == first;
    assert IsFeedPath(feeds[n..], second);
  }

  lemma DeliveryJoins(feed: Feed, first: seq<Message>, mid: Feed, second: seq<Message>, next: Feed)
    requires Delivers(feed, first, mid) && Delivers(mid, second, next)
    ensures Delivers(feed, first + second, next)
  {
    var feeds :| IsFeedPath(feeds, first) && feeds[0] == feed && feeds[|first|] == mid;
    var more :| IsFeedPath(more, second) && more[0] == mid && more[|second|] == next;
    var all, path := first + second, feeds + more[1..];
    forall i | 0 <= i < |all| ensures Broadcasted(path[i], all[i], path[i + 1]) {
      if i < |first| {
        assert Broadcasted(feeds[i], first[i], feeds[i + 1]);
      } else {
        assert all[i] == second[i - |first|];
        assert Broadcasted(more[i - |first|], second[i - |first|], more[i - |first| + 1]);
      }
    }
    assert IsFeedPath(path, all);
  }

  ghost predicate IsFeedRun(feeds: seq<Feed>, messages: seq<Message>) {
    IsFeedPath(feeds, messages) && feeds[0] == EmptyFeed
  }

  lemma BroadcastMovesView(feed: Feed, message: Message, next: Feed, seen: seq<Message>)
    requires Broadcasted(feed, message, next) && Payloads(feed.live) == View(seen)
    ensures Payloads(next.live) == View(seen + [message])
  {
    ViewNext(seen, message);
    hide View, Pruned;
  }

  lemma ViewNext(messages: seq<Message>, message: Message)
    ensures View(messages + [message]) == Shown(View(messages), message)
  {
    assert (messages + [message])[..|messages|] == messages;
  }

  lemma LiveIsView(feeds: seq<Feed>, messages: seq<Message>, n: nat)
    requires IsFeedRun(feeds, messages) && n <= |messages|
    ensures Payloads(feeds[n].live) == View(messages[..n])
  {
    for i := 0 to n
      invariant Payloads(feeds[i].live) == View(messages[..i])
    {
      ViewStep(feeds[i], messages, i, feeds[i + 1]);
    }
  }

  lemma ViewStep(feed: Feed, messages: seq<Message>, i: nat, next: Feed)
    requires i < |messages| && Broadcasted(feed, messages[i], next) && Payloads(feed.live) == View(messages[..i])
    ensures Payloads(next.live) == View(messages[..i + 1])
  {
    hide View, Payloads, Broadcasted;
    OneLonger(messages, i);
    BroadcastMovesView(feed, messages[i], next, messages[..i]);
  }

  lemma RunKeepsInv(feeds: seq<Feed>, messages: seq<Message>, n: nat)
    requires IsFeedRun(feeds, messages) && n <= |messages|
    ensures FeedInv(feeds[n])
  {
    for i := 0 to n
      invariant FeedInv(feeds[i])
    {
      hide FeedInv, Broadcasted;
      assert Broadcasted(feeds[i], messages[i], feeds[i + 1]);
      BroadcastKeepsInv(feeds[i], messages[i], feeds[i + 1]);
    }
  }

  /**
   The replay cache refines the unbounded map of uncleared publications in every run: that map is
   what a continuously connected consumer shows, and the cache is its newest part.
   */
  lemma CacheRefinesView(feeds: seq<Feed>, messages: seq<Message>, n: nat)
    requires IsFeedRun(feeds, messages) && n <= |messages|
    ensures FeedInv(feeds[n])
    ensures Payloads(feeds[n].live) == View(messages[..n])
    ensures Submap(Payloads(feeds[n].cache), View(messages[..n]))
  {
    RunKeepsInv(feeds, messages, n);
    LiveIsView(feeds, messages, n);
  }

  lemma {:induction false} DeliveryKeepsInv(feed: Feed, messages: seq<Message>, next: Feed)
    requires FeedInv(feed) && Delivers(feed, messages, next)
    ensures FeedInv(next)
    decreases |messages|
  {
    if messages == [] {
      DeliversNothing(feed, next);
    } else {
      var mid := BeforeLast(feed, messages, next);
      DeliveryKeepsInv(feed, messages[..|messages| - 1], mid);
      BroadcastKeepsInv(mid, messages[|messages| - 1], next);
    }
  }

  /** A delivery of clears takes exactly the named sockets off display. */
  lemma {:induction false} ClearsRemove(feed: Feed, messages: seq<Message>, next: Feed)
    requires Delivers(feed, messages, next) && AllClears(messages)
    ensures next.cache == feed.cache - Sockets(messages) && next.live == feed.live - Sockets(messages)
    decreases |messages|
  {
    if messages == [] {
      DeliversNothing(feed, next);
      assert feed.cache - {} == feed.cache && feed.live - {} == feed.live;
    } else {
      var n := |messages| - 1;
      var mid := BeforeLast(feed, messages, next);
      ClearsRemove(feed, messages[..n], mid);
      MapMinusMinus(feed.cache, Sockets(messages[..n]), messages[n].socket);
      MapMinusMinus(feed.live, Sockets(messages[..n]), messages[n].socket);
    }
  }

  lemma MapMinusMinus<K, V>(m: map<K, V>, gone: set<K>, k: K)
    ensures (m - gone) - {k} == m - (gone + {k})
  {
  }

  predicate AllClears(messages: seq<Message>) {
    forall i :: 0 <= i < |messages| ==> messages[i].payload.IsClear()
  }

  function Sockets(messages: seq<Message>): set<SocketId> {
    if messages == [] then {} else Sockets(messages[..|messages| - 1]) + {messages[|messages| - 1].socket}
  }

  lemma SocketsAre(messages: seq<Message>, s: SocketId)
    ensures s in Sockets(messages) <==> exists i :: 0 <= i < |messages| && messages[i].socket == s
  {
    if messages != [] {
      var n := |messages| - 1;
      SocketsAre(messages[..n], s);
      if i :| 0 <= i < |messages| && messages[i].socket == s {
        assert i == n || messages[..n][i].socket == s;
      }
      if i :| 0 <= i < n && messages[..n][i].socket == s {
        assert messages[i].socket == s;
      }
    }
  }
}
