/** One IPC connection: framing, handshake, pid admission and the clears at its end. */
module IpcPump {
  import opened Presence
  import opened Bytes

  const MAX_IPC_PAYLOAD: nat := 1024 * 1024
  const MAX_TRACKED_PIDS: nat := 16

  // ---------------------------------------------------------------- frames

  datatype PacketType = Handshake | Frame | Close | Ping | Pong {
    function Code(): nat {
      match this case Handshake => 0 case Frame => 1 case Close => 2 case Ping => 3 case Pong => 4
    }
  }

  function TypeOf(code: nat): Option<PacketType> {
    match code
    case 0 => Some(Handshake)
    case 1 => Some(Frame)
    case 2 => Some(Close)
    case 3 => Some(Ping)
    case 4 => Some(Pong)
    case _ => None
  }

  function Encode(t: PacketType, body: seq<Byte>): seq<Byte>
    requires |body| < 0x1_0000_0000
  {
    ToLe(t.Code()) + ToLe(|body|) + body
  }

  /** What the connection delivers: bytes, then end of file or an error. */
  datatype Stream = Stream(bytes: seq<Byte>, broken: bool)

  datatype Received =
    | Packet(t: PacketType, body: seq<Byte>, next: nat)
    | Unreadable        // header cut off, read error, invalid UTF-8
    | TooLarge
    | UnknownType

  /** One turn of the read loop. A body cut off by end of file is handed on short. */
  function Receive(s: Stream, at: nat, utf8: seq<Byte> -> bool): (r: Received)
    requires at <= |s.bytes|
    ensures r.Packet? ==> at < r.next <= |s.bytes|
  {
    if |s.bytes| < at + 8 then Unreadable
    else
      var size := FromLe(s.bytes[at + 4..at + 8]);
      if size > MAX_IPC_PAYLOAD then TooLarge
      else if |s.bytes| < at + 8 + size && s.broken then Unreadable
      else
        var end := Min(at + 8 + size, |s.bytes|);
        var body := s.bytes[at + 8..end];
        if !utf8(body) then Unreadable
        else match TypeOf(FromLe(s.bytes[at..at + 4]))
          case Some(t) => Packet(t, body, end)
          case None => UnknownType
  }

  /** A frame read back is the frame that was encoded, wherever it stands in the stream. */
  lemma FrameRoundTrip(before: seq<Byte>, t: PacketType, body: seq<Byte>, after: seq<Byte>, broken: bool,
                       utf8: seq<Byte> -> bool)
    requires |body| <= MAX_IPC_PAYLOAD && utf8(body)
    ensures Receive(Stream(before + Encode(t, body) + after, broken), |before|, utf8) ==
            Packet(t, body, |before| + 8 + |body|)
  {
    var bytes, at := before + Encode(t, body) + after, |before|;
    assert bytes[at..at + 4] == ToLe(t.Code());
    assert bytes[at + 4..at + 8] == ToLe(|body|);
    assert bytes[at + 8..at + 8 + |body|] == body;
  }

  /** What a header spells byte by byte: a type and a size, each in four bytes with the lowest first. */
  lemma WireIsReceived(before: seq<Byte>, h: seq<Byte>, body: seq<Byte>, after: seq<Byte>, broken: bool,
                       utf8: seq<Byte> -> bool)
    requires |h| == 8 && utf8(body)
    requires |body| == h[4] as int + 256 * h[5] as int + 65536 * h[6] as int + 16777216 * h[7] as int
    ensures Receive(Stream(before + h + body + after, broken), |before|, utf8) ==
            if |body| > 1048576 then TooLarge
            else if h[..4] == [0, 0, 0, 0] then Packet(Handshake, body, |before| + 8 + |body|)
            else if h[..4] == [1, 0, 0, 0] then Packet(Frame, body, |before| + 8 + |body|)
            else if h[..4] == [2, 0, 0, 0] then Packet(Close, body, |before| + 8 + |body|)
            else if h[..4] == [3, 0, 0, 0] then Packet(Ping, body, |before| + 8 + |body|)
            else if h[..4] == [4, 0, 0, 0] then Packet(Pong, body, |before| + 8 + |body|)
            else UnknownType
  {
    var bytes, at := before + h + body + after, |before|;
    assert bytes[at..at + 4] == h[..4] && bytes[at + 4..at + 8] == h[4..8];
    assert bytes[at + 8..at + 8 + |body|] == body;
    SmallCodes(h[..4]);
  }

  lemma SmallCodes(b: seq<Byte>)
    requires |b| == 4
    ensures FromLe(b) < 256 ==> b == [FromLe(b) as Byte, 0, 0, 0]
  {
  }

  // ---------------------------------------------------------------- tracked pids

  ghost predicate Distinct(pids: seq<Pid>) {
    forall i, j :: 0 <= i < j < |pids| ==> pids[i] != pids[j]
  }

  lemma NotBefore(pids: seq<Pid>, k: nat)
    requires Distinct(pids) && k < |pids|
    ensures pids[..k + 1] == pids[..k] + [pids[k]] && pids[k] !in pids[..k]
  {
  }

  /** Position of the pid, or the length. */
  method Position(history: seq<Pid>, pid: Pid) returns (at: nat)
    ensures at <= |history| && (at < |history| ==> history[at] == pid) && (at == |history| <==> pid !in history)
  {
    at := 0;
    while at < |history| && history[at] != pid
      invariant at <= |history| && pid !in history[..at]
    {
      at := at + 1;
    }
    assert history[..|history|] == history;
  }

  /** A known pid becomes the newest; a new one fits only with room. */
  method AdmitPid(history: seq<Pid>, pid: Pid) returns (ok: bool, after: seq<Pid>)
    requires Distinct(history)
    ensures ok <==> pid in history || |history| < MAX_TRACKED_PIDS
    ensures ok ==> Distinct(after) && after != [] && after[|after| - 1] == pid
    ensures ok ==> forall p :: p in after <==> p in history || p == pid
    ensures ok ==> |after| == if pid in history then |history| else |history| + 1
    ensures !ok ==> after == history
  {
    var at := Position(history, pid);
    if at < |history| {
      ok, after := true, history[..at] + history[at + 1..] + [pid];
      assert history == history[..at] + [pid] + history[at + 1..];
    } else if |history| >= MAX_TRACKED_PIDS {
      ok, after := false, history;
    } else {
      ok, after := true, history + [pid];
    }
  }

  /** The legacy tracker drops the oldest when full; behind a successful admission it drops nothing. */
  method TrackPid(history: seq<Pid>, pid: Pid) returns (after: seq<Pid>)
    requires Distinct(history) && |history| <= MAX_TRACKED_PIDS
    ensures Distinct(after) && |after| <= MAX_TRACKED_PIDS && pid in after
    ensures pid in history ==> |after| == |history|
    ensures pid in history || |history| < MAX_TRACKED_PIDS ==> forall p :: p in after <==> p in history || p == pid
    ensures pid !in history && |history| == MAX_TRACKED_PIDS ==> after == history[1..] + [pid]
  {
    var ok;
    ok, after := AdmitPid(history, pid);
    if !ok {
      after := history[1..] + [pid];
    }
  }

  /** The pids admitted for a sequence of publishes: the first sixteen distinct ones. */
  function Admitted(requested: seq<Pid>): set<Pid> {
    if requested == [] then {}
    else
      var before, pid := Admitted(requested[..|requested| - 1]), requested[|requested| - 1];
      if |before| < MAX_TRACKED_PIDS then before + {pid} else before
  }

  lemma AdmittedNext(requested: seq<Pid>, pid: Pid)
    ensures var before, after := Admitted(requested), Admitted(requested + [pid]);
            if pid in before then after == before
            else if |before| < MAX_TRACKED_PIDS then after == before + {pid} && |after| == |before| + 1
            else after == before
  {
    assert (requested + [pid])[..|requested|] == requested;
    if pid in Admitted(requested) { assert Admitted(requested) + {pid} == Admitted(requested); }
  }

  lemma {:induction false} AdmittedStays(requested: seq<Pid>, k: nat)
    requires k <= |requested|
    ensures Admitted(requested[..k]) <= Admitted(requested)
  {
    if k == |requested| {
      assert requested[..k] == requested;
    } else {
      var n := |requested| - 1;
      AdmittedStays(requested[..n], k);
      assert requested[..n][..k] == requested[..k];
    }
  }

  // ---------------------------------------------------------------- what the sink receives

  datatype Command =
    | SetActivity(pid: Option<Option<Pid>>)     // no arguments at all, or a pid that may be missing
    | Secondary                                 // forwarded without touching presence
    | Unforwarded                               // answered locally

  datatype HandshakeBody = HandshakeBody(version: nat, clientId: string)

  /** The decoders of the message bodies. */
  datatype Decoder = Decoder(utf8: seq<Byte> -> bool, handshake: seq<Byte> -> Option<HandshakeBody>,
                             command: seq<Byte> -> Option<Command>)

  datatype Emitted = Publish(pid: Pid, app: string) | Other(app: string) | Clear(cleared: Pid, owner: Option<string>)

  function NamedPid(pid: Option<Pid>): Pid { if pid.Some? then pid.value else 0 }

  /** The pids published, in order. */
  function Published(log: seq<Emitted>): seq<Pid> {
    if log == [] then []
    else
      var last := log[|log| - 1];
      Published(log[..|log| - 1]) + if last.Publish? then [last.pid] else []
  }

  lemma PublishedNext(log: seq<Emitted>, e: Emitted)
    ensures Published(log + [e]) == Published(log) + if e.Publish? then [e.pid] else []
  {
    assert (log + [e])[..|log|] == log;
  }

  /** Of the publishes asked for, those whose pid is admitted. */
  function Forwarded(requested: seq<Pid>): seq<Pid> {
    if requested == [] then []
    else
      var n := |requested| - 1;
      Forwarded(requested[..n]) + if requested[n] in Admitted(requested) then [requested[n]] else []
  }

  lemma ForwardedNext(requested: seq<Pid>, pid: Pid)
    ensures Forwarded(requested + [pid]) ==
            Forwarded(requested) + if pid in Admitted(requested + [pid]) then [pid] else []
  {
    assert (requested + [pid])[..|requested|] == requested;
  }

  lemma {:induction false} ForwardedIsAdmitted(requested: seq<Pid>, pid: Pid)
    requires pid in Forwarded(requested)
    ensures pid in Admitted(requested)
  {
    var n := |requested| - 1;
    if pid in Forwarded(requested[..n]) {
      ForwardedIsAdmitted(requested[..n], pid);
      AdmittedStays(requested, n);
    }
  }

  /** The history is the admitted pids, each once. */
  ghost predicate Tracks(history: seq<Pid>, requested: seq<Pid>) {
    && Distinct(history) && |history| == |Admitted(requested)| <= MAX_TRACKED_PIDS
    && (forall p :: p in history <==> p in Admitted(requested))
  }

  /** The log holds the forwarded publishes and no clear. */
  ghost predicate Logs(log: seq<Emitted>, requested: seq<Pid>) {
    NoClears(log) && Published(log) == Forwarded(requested)
  }

  lemma LogsNext(log: seq<Emitted>, requested: seq<Pid>, pid: Pid, app: string)
    requires Logs(log, requested)
    ensures Logs(if pid in Admitted(requested + [pid]) then log + [Publish(pid, app)] else log, requested + [pid])
  {
    ForwardedNext(requested, pid);
    PublishedNext(log, Publish(pid, app));
  }

  lemma LogsOther(log: seq<Emitted>, requested: seq<Pid>, app: string)
    requires Logs(log, requested)
    ensures Logs(log + [Other(app)], requested)
  {
    PublishedNext(log, Other(app));
  }

  ghost predicate NoClears(log: seq<Emitted>) {
    forall e :: e in log ==> !e.Clear?
  }

  /** Clears are for exactly these pids, once each. */
  ghost predicate ClearsOnce(clears: seq<Emitted>, pids: seq<Pid>) {
    && |clears| == |pids| && Distinct(pids)
    && forall i :: 0 <= i < |pids| ==> clears[i].Clear? && clears[i].cleared == pids[i]
  }

  lemma ClearsNext(clears: seq<Emitted>, pids: seq<Pid>, pid: Pid, owner: Option<string>)
    requires ClearsOnce(clears, pids) && pid !in pids
    ensures ClearsOnce(clears + [Clear(pid, owner)], pids + [pid])
  {
  }

  class Facilitator {
    var handshake: bool
    var clientId: string
    var pid: Pid
    var history: seq<Pid>
    var log: seq<Emitted>
    ghost var requested: seq<Pid>     // pids of all publishes that were past the handshake and well formed

    constructor ()
      ensures Valid() && log == [] && requested == []
    {
      handshake, clientId, pid, history, log, requested := false, "", 0, [], [], [];
    }

    /** Nothing cleared yet, and everything published is in the history, which never forgets. */
    ghost predicate Valid()
      reads this
    {
      Tracks(history, requested) && Logs(log, requested)
    }

    /** The tracked pids, oldest first, and the current one. */
    method ClearPids(current: Pid) returns (pids: seq<Pid>)
      requires Distinct(history)
      modifies this`history
      ensures Distinct(pids) && forall p :: p in pids <==> p in old(history) || p == current
      ensures history == []
    {
      pids := history;
      history := [];
      if current !in pids {
        pids := pids + [current];
      }
    }

    method SendClears(pids: seq<Pid>)
      requires Distinct(pids)
      modifies this`log
      ensures |log| == |old(log)| + |pids| && log[..|old(log)|] == old(log)
      ensures ClearsOnce(log[|old(log)|..], pids)
    {
      ghost var sent := [];
      for k := 0 to |pids|
        invariant log == old(log) + sent && |sent| == k
        invariant forall i :: 0 <= i < k ==> sent[i] == Clear(pids[i], None)
      {
        log, sent := log + [Clear(pids[k], None)], sent + [Clear(pids[k], None)];
      }
      assert log[|old(log)|..] == sent;
    }

    /** Every way of losing the connection. */
    method LoseConnection(current: Pid) returns (ghost pids: seq<Pid>)
      requires Valid()
      modifies this`history, this`log
      ensures |old(log)| <= |log| && log[..|old(log)|] == old(log) && ClearsOnce(log[|old(log)|..], pids)
      ensures forall p :: p in pids <==> p in Admitted(requested) || p == current
    {
      var cleared := ClearPids(current);
      pids := cleared;
      SendClears(cleared);
    }

    method OnHandshake(body: Option<HandshakeBody>) returns (refused: bool)
      requires Valid()
      modifies this`handshake, this`clientId
      ensures Valid()
      ensures refused <==> body.Some? && (body.value.version != 1 || body.value.clientId == "")
      ensures handshake == (old(handshake) || (body.Some? && !refused))
      ensures clientId == if body.Some? && !refused then body.value.clientId else old(clientId)
    {
      if body.None? { return false; }
      if body.value.version != 1 { return true; }
      if body.value.clientId == "" { return true; }
      handshake, clientId := true, body.value.clientId;
      return false;
    }

    method HandleSetActivity(published: Pid)
      requires Valid()
      modifies this`pid, this`history, this`log, this`requested
      ensures Valid() && pid == published && requested == old(requested) + [published]
      ensures log == if published in Admitted(requested) then old(log) + [Publish(published, clientId)] else old(log)
    {
      pid := published;
      AdmittedNext(requested, published);
      LogsNext(log, requested, published, clientId);
      var ok;
      ok, history := AdmitPid(history, published);
      if ok {
        history := TrackPid(history, published);
        log := log + [Publish(published, clientId)];
      }
      requested := requested + [published];
    }

    method OnFrame(command: Option<Command>)
      requires Valid()
      modifies this`pid, this`history, this`log, this`requested
      ensures Valid() && old(log) <= log && old(requested) <= requested
      ensures if handshake && command.Some? && command.value.SetActivity? && command.value.pid.Some?
              then requested == old(requested) + [pid] && pid == NamedPid(command.value.pid.value)
              else requested == old(requested) && pid == old(pid)
    {
      if !handshake || command.None? { return; }
      match command.value {
        case SetActivity(None) =>
        case SetActivity(Some(published)) => HandleSetActivity(NamedPid(published));
        case Secondary =>
          LogsOther(log, requested, clientId);
          log := log + [Other(clientId)];
        case Unforwarded =>
      }
    }

    /** A clean close: the current pid with its identity, then the other tracked ones. */
    method OnClose() returns (ghost pids: seq<Pid>)
      requires Valid()
      modifies this
      ensures |old(log)| <= |log| && log[..|old(log)|] == old(log) && ClearsOnce(log[|old(log)|..], pids)
      ensures forall p :: p in pids <==> p in Admitted(requested) || p == old(pid)
      ensures requested == old(requested)
      ensures !handshake && clientId == "" && pid == 0 && history == []
    {
      hide Logs, Admitted;
      log := log + [Clear(pid, Some(clientId))];
      ghost var sent := [Clear(pid, Some(clientId))];
      pids := [pid];
      var published := history;
      history := [];
      for k := 0 to |published|
        invariant log == old(log) + sent && ClearsOnce(sent, pids)
        invariant forall p :: p in pids <==> p in published[..k] || p == pid
        invariant pid == old(pid) && requested == old(requested) && history == [] && published == old(history)
      {
        NotBefore(published, k);
        if published[k] != pid {
          ClearsNext(sent, pids, published[k], None);
          log, sent := log + [Clear(published[k], None)], sent + [Clear(published[k], None)];
          pids := pids + [published[k]];
        }
      }
      assert published[..|published|] == published && log[|old(log)|..] == sent;
      handshake, clientId, pid := false, "", 0;
    }
  }

  // ---------------------------------------------------------------- the connection as a whole

  datatype End = Lost | Closed | RefusedHandshake

  /** What a connection asked for until it ended: its publishes, the last pid it named, and how it ended. */
  datatype Trace = Trace(requested: seq<Pid>, current: Pid, end: End)

  predicate Refuses(body: Option<HandshakeBody>) {
    body.Some? && (body.value.version != 1 || body.value.clientId == "")
  }

  datatype Turn = GoesOn(next: nat, shaken: bool, so: Trace) | Ends(trace: Trace)

  /** What one received packet does to the conversation so far. */
  function TurnOf(r: Received, d: Decoder, shaken: bool, so: Trace): Turn {
    match r
    case Packet(Handshake, body, next) =>
      if Refuses(d.handshake(body)) then Ends(so.(end := RefusedHandshake))
      else GoesOn(next, shaken || d.handshake(body).Some?, so)
    case Packet(Frame, body, next) =>
      (match d.command(body)
       case Some(SetActivity(Some(pid))) =>
         if !shaken then GoesOn(next, shaken, so)
         else GoesOn(next, shaken, so.(requested := so.requested + [NamedPid(pid)], current := NamedPid(pid)))
       case _ => GoesOn(next, shaken, so))
    case Packet(Close, _, _) => Ends(so.(end := Closed))
    case Packet(_, _, next) => GoesOn(next, shaken, so)
    case _ => Ends(so.(end := Lost))
  }

  function Reads(s: Stream, at: nat, d: Decoder, shaken: bool, so: Trace): Trace
    requires at <= |s.bytes|
    decreases |s.bytes| - at
  {
    match TurnOf(Receive(s, at, d.utf8), d, shaken, so)
    case GoesOn(next, shaken', so') => Reads(s, next, d, shaken', so')
    case Ends(trace) => trace
  }

  function Conversation(s: Stream, d: Decoder): Trace {
    Reads(s, 0, d, false, Trace([], 0, Lost))
  }

  /** Everything sent: publishes (and other commands) first, then the clears of the end. */
  ghost predicate Disconnected(log: seq<Emitted>, t: Trace) {
    exists k: nat, pids: seq<Pid> :: EndsWithClears(log, t, k, pids)
  }

  ghost predicate EndsWithClears(log: seq<Emitted>, t: Trace, k: nat, pids: seq<Pid>) {
    && k <= |log| && Logs(log[..k], t.requested)
    && ClearsOnce(log[k..], pids)
    && if t.end.RefusedHandshake? then pids == []
       else forall p :: p in pids <==> p in Admitted(t.requested) || p == t.current
  }

  /** One packet: either the connection goes on, or its clears have been sent. */
  method HandlePacket(r: Received, d: Decoder, ipc: Facilitator) returns (stop: bool)
    requires ipc.Valid()
    modifies ipc
    ensures var turn := TurnOf(r, d, old(ipc.handshake), Trace(old(ipc.requested), old(ipc.pid), Lost));
            && stop == turn.Ends?
            && (stop ==> Disconnected(ipc.log, turn.trace))
            && (!stop ==>
                  && ipc.Valid() && turn.shaken == ipc.handshake && turn.so == Trace(ipc.requested, ipc.pid, Lost)
                  && r.Packet? && turn.next == r.next)
  {
    hide Tracks, Logs, Admitted, ClearsOnce, Disconnected;
    ghost var before, current := ipc.log, ipc.pid;
    stop := true;
    match r {
      case Packet(Handshake, body, _) =>
        stop := ipc.OnHandshake(d.handshake(body));
        if stop { EndsSo(before, ipc.log, [], Trace(ipc.requested, current, RefusedHandshake)); }
      case Packet(Frame, body, _) =>
        ipc.OnFrame(d.command(body));
        stop := false;
      case Packet(Close, _, _) =>
        ghost var pids := ipc.OnClose();
        EndsSo(before, ipc.log, pids, Trace(ipc.requested, current, Closed));
      case Packet(_, _, _) =>
        stop := false;
      case _ =>
        ghost var pids := ipc.LoseConnection(ipc.pid);
        EndsSo(before, ipc.log, pids, Trace(ipc.requested, current, Lost));
    }
  }

  lemma EndsSo(before: seq<Emitted>, log: seq<Emitted>, pids: seq<Pid>, t: Trace)
    requires |before| <= |log| && log[..|before|] == before && Logs(before, t.requested)
    requires ClearsOnce(log[|before|..], pids)
    requires if t.end.RefusedHandshake? then pids == []
             else forall p :: p in pids <==> p in Admitted(t.requested) || p == t.current
    ensures Disconnected(log, t)
  {
    assert EndsWithClears(log, t, |before|, pids);
  }

  /**
   The pump. Disconnect completeness: for every byte stream, each pid forwarded on the connection gets exactly
   one clear if the connection does not end in a refused handshake, and none if it does.
   */
  method HandleStream(s: Stream, d: Decoder, ipc: Facilitator)
    requires ipc.Valid() && ipc.log == [] && ipc.requested == [] && !ipc.handshake && ipc.pid == 0
    modifies ipc
    ensures Disconnected(ipc.log, Conversation(s, d))
    ensures AllCleared(ipc.log, Conversation(s, d))
  {
    var at := 0;
    while true
      invariant ipc.Valid() && at <= |s.bytes|
      invariant Conversation(s, d) == Reads(s, at, d, ipc.handshake, Trace(ipc.requested, ipc.pid, Lost))
      decreases |s.bytes| - at
    {
      var received := Receive(s, at, d.utf8);
      var stop := HandlePacket(received, d, ipc);
      if stop {
        ForwardedPidsAreCleared(ipc.log, Conversation(s, d));
        return;
      }
      at := received.next;
    }
  }

  /** How many clears a log holds for a pid. */
  function ClearCount(log: seq<Emitted>, pid: Pid): nat {
    if log == [] then 0
    else
      var last := log[|log| - 1];
      ClearCount(log[..|log| - 1], pid) + if last.Clear? && last.cleared == pid then 1 else 0
  }

  lemma {:induction false} ClearCountJoins(a: seq<Emitted>, b: seq<Emitted>, pid: Pid)
    ensures ClearCount(a + b, pid) == ClearCount(a, pid) + ClearCount(b, pid)
    decreases |b|
  {
    if b == [] {
      assert a + b == a;
    } else {
      var n := |b| - 1;
      ClearCountJoins(a, b[..n], pid);
      assert (a + b)[..|a + b| - 1] == a + b[..n];
    }
  }

  lemma {:induction false} NoClearsCount(log: seq<Emitted>, pid: Pid)
    requires NoClears(log)
    ensures ClearCount(log, pid) == 0
  {
    if log != [] {
      NoClearsCount(log[..|log| - 1], pid);
      assert log[|log| - 1] in log;
    }
  }

  lemma {:induction false} ClearsOnceCount(clears: seq<Emitted>, pids: seq<Pid>, pid: Pid)
    requires ClearsOnce(clears, pids)
    ensures ClearCount(clears, pid) == if pid in pids then 1 else 0
  {
    if pids != [] {
      var n := |pids| - 1;
      ClearsOnceCount(clears[..n], pids[..n], pid);
      assert pids == pids[..n] + [pids[n]];
    }
  }

  /** Each pid forwarded on the connection is cleared once, unless the connection ended in a refused handshake. */
  ghost predicate AllCleared(log: seq<Emitted>, t: Trace) {
    forall pid :: pid in Forwarded(t.requested) ==> ClearCount(log, pid) == if t.end.RefusedHandshake? then 0 else 1
  }

  lemma ForwardedPidsAreCleared(log: seq<Emitted>, t: Trace)
    requires Disconnected(log, t)
    ensures AllCleared(log, t)
  {
    var k: nat, pids: seq<Pid> :| EndsWithClears(log, t, k, pids);
    forall pid | pid in Forwarded(t.requested)
      ensures ClearCount(log, pid) == if t.end.RefusedHandshake? then 0 else 1
    {
      hide ClearCount, Forwarded, Admitted, ClearsOnce;
      ForwardedIsAdmitted(t.requested, pid);
      ClearsSplit(log, k, pid);
      NoClearsCount(log[..k], pid);
      ClearsOnceCount(log[k..], pids, pid);
    }
  }

  lemma ClearsSplit(log: seq<Emitted>, k: nat, pid: Pid)
    requires k <= |log|
    ensures ClearCount(log, pid) == ClearCount(log[..k], pid) + ClearCount(log[k..], pid)
  {
    ClearCountJoins(log[..k], log[k..], pid);
    assert log == log[..k] + log[k..];
  }

  // ---------------------------------------------------------------- a card no one clears

  predicate Sendable(body: seq<Byte>, d: Decoder) { |body| <= MAX_IPC_PAYLOAD && d.utf8(body) }

  /** A handshake, a publish, another handshake, and whatever else. */
  function Talk(hello: seq<Byte>, publish: seq<Byte>, again: seq<Byte>, rest: seq<Byte>): seq<Byte>
    requires |hello| <= MAX_IPC_PAYLOAD && |publish| <= MAX_IPC_PAYLOAD && |again| <= MAX_IPC_PAYLOAD
  {
    Encode(Handshake, hello) + Encode(Frame, publish) + Encode(Handshake, again) + rest
  }

  lemma Parts(one: seq<Byte>, two: seq<Byte>, three: seq<Byte>, rest: seq<Byte>)
    ensures one + two + three + rest == [] + one + (two + three + rest)
    ensures one + two + three + rest == one + two + (three + rest)
  {
  }

  lemma TalkIsReceived(hello: seq<Byte>, publish: seq<Byte>, again: seq<Byte>, rest: seq<Byte>, broken: bool,
                       d: Decoder)
    requires Sendable(hello, d) && Sendable(publish, d) && Sendable(again, d)
    ensures var s := Stream(Talk(hello, publish, again, rest), broken);
            var first, second := 8 + |hello|, 16 + |hello| + |publish|;
            && second <= |s.bytes| && Receive(s, 0, d.utf8) == Packet(Handshake, hello, first)
            && Receive(s, first, d.utf8) == Packet(Frame, publish, second)
            && Receive(s, second, d.utf8) == Packet(Handshake, again, second + 8 + |again|)
  {
    hide Receive, Encode;
    var one, two, three := Encode(Handshake, hello), Encode(Frame, publish), Encode(Handshake, again);
    EncodeLength(Handshake, hello);
    EncodeLength(Frame, publish);
    EncodeLength(Handshake, again);
    Parts(one, two, three, rest);
    FrameRoundTrip([], Handshake, hello, two + three + rest, broken, d.utf8);
    FrameRoundTrip(one, Frame, publish, three + rest, broken, d.utf8);
    FrameRoundTrip(one + two, Handshake, again, rest, broken, d.utf8);
  }

  lemma EncodeLength(t: PacketType, body: seq<Byte>)
    requires |body| < 0x1_0000_0000
    ensures |Encode(t, body)| == 8 + |body|
  {
  }

  lemma ReadsThree(s: Stream, d: Decoder, a: nat, b: nat, hello: seq<Byte>, publish: seq<Byte>, again: seq<Byte>,
                   c: nat, pid: Pid)
    requires a <= |s.bytes| && b <= |s.bytes| && Receive(s, 0, d.utf8) == Packet(Handshake, hello, a)
    requires Receive(s, a, d.utf8) == Packet(Frame, publish, b) && Receive(s, b, d.utf8) == Packet(Handshake, again, c)
    requires d.handshake(hello).Some? && !Refuses(d.handshake(hello)) && Refuses(d.handshake(again))
    requires d.command(publish) == Some(SetActivity(Some(Some(pid))))
    ensures Conversation(s, d) == Trace([pid], pid, RefusedHandshake)
  {
    hide Receive;
    var so, more := Trace([], 0, Lost), Trace([pid], pid, Lost);
    assert Reads(s, b, d, true, more) == Trace([pid], pid, RefusedHandshake);
    assert Reads(s, a, d, true, so) == Reads(s, b, d, true, more);
    assert Reads(s, 0, d, false, so) == Reads(s, a, d, true, so);
  }

  predicate BadSecondHandshake(hello: seq<Byte>, publish: seq<Byte>, again: seq<Byte>, d: Decoder, pid: Pid) {
    && Sendable(hello, d) && Sendable(publish, d) && Sendable(again, d)
    && d.handshake(hello).Some? && !Refuses(d.handshake(hello)) && Refuses(d.handshake(again))
    && d.command(publish) == Some(SetActivity(Some(Some(pid))))
  }

  lemma TalkEndsRefused(hello: seq<Byte>, publish: seq<Byte>, again: seq<Byte>, rest: seq<Byte>, broken: bool,
                        d: Decoder, pid: Pid)
    requires BadSecondHandshake(hello, publish, again, d, pid)
    ensures Conversation(Stream(Talk(hello, publish, again, rest), broken), d) == Trace([pid], pid, RefusedHandshake)
  {
    hide Receive, Talk, Reads, Conversation;
    var s := Stream(Talk(hello, publish, again, rest), broken);
    var first, second := 8 + |hello|, 16 + |hello| + |publish|;
    TalkIsReceived(hello, publish, again, rest, broken, d);
    ReadsThree(s, d, first, second, hello, publish, again, second + 8 + |again|, pid);
  }

  lemma RefusedKeepsCard(log: seq<Emitted>, pid: Pid)
    requires Disconnected(log, Trace([pid], pid, RefusedHandshake))
    ensures Forwarded([pid]) == [pid] && ClearCount(log, pid) == 0
  {
    hide Disconnected, ClearCount;
    OnlyOne(pid);
    ForwardedPidsAreCleared(log, Trace([pid], pid, RefusedHandshake));
    assert pid in [pid];
  }

  /**
   A client that shakes hands, publishes and then offers a bad handshake keeps its card: whatever bytes follow,
   its publish was forwarded and the pump sends no clear for it.
   */
  lemma RefusedRehandshakeKeepsCard(hello: seq<Byte>, publish: seq<Byte>, again: seq<Byte>, rest: seq<Byte>,
                                    broken: bool, d: Decoder, pid: Pid, log: seq<Emitted>)
    requires BadSecondHandshake(hello, publish, again, d, pid)
    requires Disconnected(log, Conversation(Stream(Talk(hello, publish, again, rest), broken), d))
    ensures Conversation(Stream(Talk(hello, publish, again, rest), broken), d).requested == [pid]
    ensures Forwarded([pid]) == [pid] && ClearCount(log, pid) == 0
  {
    hide Talk, Conversation, Disconnected, ClearCount, Forwarded;
    TalkEndsRefused(hello, publish, again, rest, broken, d, pid);
    RefusedKeepsCard(log, pid);
  }

  lemma OnlyOne(pid: Pid)
    ensures Forwarded([pid]) == [pid]
  {
    assert [pid][..0] == [];
    assert Admitted([pid]) == {pid};
  }
}
