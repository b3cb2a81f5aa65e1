/**
 Netlink datagrams as the kernel writes them, byte by byte, and what the watcher makes of each kind of message.
 The header layout is that of section 2.3.2 of RFC 3549.
 */
module ProcWire {
  import opened Presence
  import opened Bytes
  import opened ProcEvents
  import Text

  // ---------------------------------------------------------------- what the kernel writes

  /** What happened to a process, as the kernel tells it. */
  datatype Kind = Started | Ended | Unwatched(what: nat)
  {
    predicate Fits() { Unwatched? ==> what < 0x1_0000_0000 && what != 0x2 && what != 0x8000_0000 }

    function Wire(): (b: seq<Byte>)
      requires Fits()
      ensures |b| == 4
    {
      match this
      case Started => [0x02, 0x00, 0x00, 0x00]
      case Ended => [0x00, 0x00, 0x00, 0x80]
      case Unwatched(what) => ToLe(what)
    }
  }

  /** A process event; fields the watcher does not read are arbitrary bytes. */
  datatype Notice = Notice(sequence: nat, header: seq<Byte>, kind: Kind, cpu: nat, stamp: seq<Byte>, pid: nat,
                           others: seq<Byte>)
  {
    predicate Fits() {
      && sequence < 0x1_0000_0000 && kind.Fits() && cpu < 0x1_0000_0000 && pid < 0x1_0000_0000
      && |header| == 8 && |stamp| == 8 && 56 + |others| < 0x1_0000_0000
    }

    /** Connector index 1 and value 1, sequence, acknowledgement and length; then what, cpu, time stamp and pid. */
    function Body(): (b: seq<Byte>)
      requires Fits()
      ensures |b| == 40 + |others|
    {
      [1, 0, 0, 0] + [1, 0, 0, 0] + ToLe(sequence) + header + kind.Wire() + ToLe(cpu) + stamp + ToLe(pid) + others
    }

    /** The event a watcher is to see. */
    function Event(): Option<ProcEvent> {
      match kind
      case Started => Some(Exec(pid))
      case Ended => Some(Exit(pid))
      case Unwatched(_) => None
    }
  }

  /** A netlink message: its type, ten header bytes nobody reads, and a body. */
  datatype Message =
    | Control(kind: nat, filler: seq<Byte>, bytes: seq<Byte>)          // no-op, overrun, or an error of code 0
    | Proc(kind: nat, filler: seq<Byte>, notice: Notice)
    | Cut(kind: nat, filler: seq<Byte>, notice: Notice, keep: nat)     // a notice without its pid
    | Foreign(kind: nat, filler: seq<Byte>, bytes: seq<Byte>)          // another connector, or too short
  {
    predicate WellFormed() {
      && kind < 0x1_0000 && |filler| == 10
      && match this
         case Control(_, _, bytes) =>
           && kind in {1, 2, 4} && 16 + |bytes| < 0x1_0000_0000
           && (kind == 2 && |bytes| >= 4 ==> bytes[..4] == [0, 0, 0, 0])
         case Proc(_, _, notice) => kind !in {1, 2, 4} && notice.Fits()
         case Cut(_, _, notice, keep) => kind !in {1, 2, 4} && notice.Fits() && 28 <= keep < 40
         case Foreign(_, _, bytes) =>
           && kind !in {1, 2, 4} && 16 + |bytes| < 0x1_0000_0000
           && (|bytes| >= 28 ==> bytes[..4] != [1, 0, 0, 0] || bytes[4..8] != [1, 0, 0, 0])
    }

    function Body(): seq<Byte>
      requires WellFormed()
    {
      match this
      case Control(_, _, bytes) => bytes
      case Proc(_, _, notice) => notice.Body()
      case Cut(_, _, notice, keep) => notice.Body()[..keep]
      case Foreign(_, _, bytes) => bytes
    }

    /** What a watcher is to see of it. */
    function Seen(): seq<Visit> {
      match this
      case Proc(_, _, notice) => [Visit(notice.cpu, notice.sequence, notice.Event())]
      case Cut(_, _, notice, _) => [Visit(notice.cpu, notice.sequence, None)]
      case _ => []
    }

    function Events(): seq<ProcEvent> {
      if Proc? && notice.Event().Some? then [notice.Event().value] else []
    }
  }

  function Frame(kind: nat, filler: seq<Byte>, body: seq<Byte>): (b: seq<Byte>)
    requires kind < 0x1_0000 && |filler| == 10 && 16 + |body| < 0x1_0000_0000
    ensures |b| == 16 + |body|
  {
    ToLe(16 + |body|) + [(kind % 256) as Byte, (kind / 256) as Byte] + filler + body
  }

  function Encoded(m: Message): (b: seq<Byte>)
    requires m.WellFormed()
    ensures |b| == 16 + |m.Body()|
  {
    Frame(m.kind, m.filler, m.Body())
  }

  function Datagram(messages: seq<Message>): seq<Byte>
    requires forall i :: 0 <= i < |messages| ==> messages[i].WellFormed()
  {
    if messages == [] then [] else Encoded(messages[0]) + Datagram(messages[1..])
  }

  function AllSeen(messages: seq<Message>): seq<Visit> {
    if messages == [] then [] else messages[0].Seen() + AllSeen(messages[1..])
  }

  function AllEvents(messages: seq<Message>): seq<ProcEvent> {
    if messages == [] then [] else messages[0].Events() + AllEvents(messages[1..])
  }

  // ---------------------------------------------------------------- reading a message

  lemma FieldsOf(n: Notice)
    requires n.Fits()
    ensures var b := n.Body();
            && b[0..4] == [1, 0, 0, 0] && b[4..8] == [1, 0, 0, 0] && b[8..12] == ToLe(n.sequence)
            && b[20..24] == n.kind.Wire() && b[24..28] == ToLe(n.cpu) && b[36..40] == ToLe(n.pid)
  {
    hide ToLe;
    var one: seq<Byte> := [1, 0, 0, 0];
    var front := one + one + ToLe(n.sequence) + n.header;
    var what := n.kind.Wire();
    var back := what + ToLe(n.cpu) + n.stamp + ToLe(n.pid);
    assert n.Body() == front + back + n.others;
    FourFields(one, one, ToLe(n.sequence), n.header);
    FourFields(what, ToLe(n.cpu), n.stamp, ToLe(n.pid));
    Halves(front, back, n.others);
  }

  lemma FourFields(a: seq<Byte>, b: seq<Byte>, c: seq<Byte>, d: seq<Byte>)
    requires |a| == |b| == 4
    ensures var all := a + b + c + d;
            all[0..4] == a && all[4..8] == b && all[8..8 + |c|] == c && all[8 + |c|..] == d
  {
  }

  lemma Halves(front: seq<Byte>, back: seq<Byte>, others: seq<Byte>)
    ensures var all := front + back + others;
            forall i, j :: (0 <= i <= j <= |front| ==> all[i..j] == front[i..j]) &&
                           (0 <= i <= j <= |back| ==> all[|front| + i..|front| + j] == back[i..j])
  {
  }

  lemma ReadsKind(kind: Kind, pid: nat)
    requires kind.Fits()
    ensures EventOf(FromLe(kind.Wire()), pid) ==
            match kind case Started => Some(Exec(pid)) case Ended => Some(Exit(pid)) case Unwatched(_) => None
  {
  }

  lemma ProcIsSeen(kind: nat, n: Notice)
    requires n.Fits() && kind !in {1, 2, 4}
    ensures VisitsOf(kind, n.Body()) == [Visit(n.cpu, n.sequence, n.Event())]
  {
    FieldsOf(n);
    ReadsKind(n.kind, n.pid);
    hide EventOf, ToLe;
  }

  lemma CutIsSeen(kind: nat, n: Notice, keep: nat)
    requires n.Fits() && kind !in {1, 2, 4} && 28 <= keep < 40
    ensures VisitsOf(kind, n.Body()[..keep]) == [Visit(n.cpu, n.sequence, None)]
  {
    var b := n.Body()[..keep];
    FieldsOf(n);
    hide EventOf, ToLe;
    assert b[0..4] == n.Body()[0..4] && b[4..8] == n.Body()[4..8] && b[8..12] == n.Body()[8..12];
    assert b[24..28] == n.Body()[24..28];
  }

  lemma WordIs(b: seq<Byte>, n: nat)
    requires |b| == 4 && n < 256
    ensures FromLe(b) == n <==> b == [n as Byte, 0, 0, 0]
  {
  }

  lemma ForeignIsUnseen(kind: nat, bytes: seq<Byte>)
    requires |bytes| >= 28 ==> bytes[..4] != [1, 0, 0, 0] || bytes[4..8] != [1, 0, 0, 0]
    ensures VisitsOf(kind, bytes) == []
  {
    if |bytes| >= 28 {
      assert bytes[0..4] == bytes[..4];
      WordIs(bytes[0..4], 1);
      WordIs(bytes[4..8], 1);
      hide FromLe;
    }
  }

  lemma MessageIsSeen(m: Message)
    requires m.WellFormed()
    ensures VisitsOf(m.kind, m.Body()) == m.Seen()
  {
    match m
    case Control(_, _, _) =>
    case Proc(kind, _, notice) => ProcIsSeen(kind, notice);
    case Cut(kind, _, notice, keep) => CutIsSeen(kind, notice, keep);
    case Foreign(kind, _, bytes) => ForeignIsUnseen(kind, bytes);
  }

  lemma HeaderOf(kind: nat, filler: seq<Byte>, body: seq<Byte>)
    requires kind < 0x1_0000 && |filler| == 10 && 16 + |body| < 0x1_0000_0000
    ensures var b := Frame(kind, filler, body);
            && b[0..4] == ToLe(16 + |body|) && b[16..] == body
            && b[4] == (kind % 256) as Byte && b[5] == (kind / 256) as Byte
  {
    var size := ToLe(16 + |body|);
    assert Frame(kind, filler, body) == size + [(kind % 256) as Byte, (kind / 256) as Byte] + filler + body;
    hide Frame;
    Layout(size, (kind % 256) as Byte, (kind / 256) as Byte, filler, body);
  }

  lemma Layout(size: seq<Byte>, low: Byte, high: Byte, filler: seq<Byte>, body: seq<Byte>)
    requires |size| == 4 && |filler| == 10
    ensures var b := size + [low, high] + filler + body;
            b[0..4] == size && b[4] == low && b[5] == high && b[16..] == body
  {
  }

  /** A slice of the middle part. */
  lemma Inside(before: seq<Byte>, mid: seq<Byte>, after: seq<Byte>, from: nat, to: nat)
    requires from <= to <= |mid|
    ensures (before + (mid + after))[|before| + from..|before| + to] == mid[from..to]
  {
  }

  /** What the walk finds where a message was written: the message, or its end if it is an error with a code. */
  lemma ReadsFramed(before: seq<Byte>, kind: nat, filler: seq<Byte>, body: seq<Byte>, after: seq<Byte>)
    requires kind < 0x1_0000 && |filler| == 10 && 16 + |body| < 0x1_0000_0000
    ensures MessageAt(before + (Frame(kind, filler, body) + after), |before|) ==
            if kind == 2 && |body| >= 4 && body[..4] != [0, 0, 0, 0] then None
            else Some(Framed(kind, body, |before| + 16 + |body|))
  {
    var b := Frame(kind, filler, body);
    var buf, at := before + (b + after), |before|;
    HeaderOf(kind, filler, body);
    Inside(before, b, after, 0, 4);
    Inside(before, b, after, 16, |b|);
    assert buf[at + 4] == b[4] && buf[at + 5] == b[5] && b[16..|b|] == b[16..];
    hide Frame;
    ReadsAs(buf, at, kind, body);
  }

  lemma ReadsAs(buf: seq<Byte>, at: nat, kind: nat, body: seq<Byte>)
    requires kind < 0x1_0000 && 16 + |body| < 0x1_0000_0000 && at + 16 + |body| <= |buf|
    requires buf[at..at + 4] == ToLe(16 + |body|)
    requires buf[at + 4] == (kind % 256) as Byte && buf[at + 5] == (kind / 256) as Byte
    requires buf[at + 16..at + 16 + |body|] == body
    ensures MessageAt(buf, at) ==
            if kind == 2 && |body| >= 4 && body[..4] != [0, 0, 0, 0] then None
            else Some(Framed(kind, body, at + 16 + |body|))
  {
    assert U32At(buf, at) == 16 + |body| && U16At(buf, at + 4) == kind;
    if |body| >= 4 {
      assert body[0..4] == body[..4];
      WordIs(body[0..4], 0);
    }
    hide FromLe, ToLe;
  }

  lemma MessageReadsBack(before: seq<Byte>, m: Message, after: seq<Byte>)
    requires m.WellFormed()
    ensures MessageAt(before + (Encoded(m) + after), |before|) ==
            Some(Framed(m.kind, m.Body(), |before + Encoded(m)|))
  {
    ReadsFramed(before, m.kind, m.filler, m.Body(), after);
  }

  // ---------------------------------------------------------------- walking a datagram

  lemma WalkFirst(before: seq<Byte>, m: Message, others: seq<Byte>)
    requires m.WellFormed()
    ensures Visits(before + (Encoded(m) + others), |before|) ==
            m.Seen() + Visits((before + Encoded(m)) + others, |before + Encoded(m)|)
  {
    MessageReadsBack(before, m, others);
    MessageIsSeen(m);
    Text.Regroup(before, Encoded(m), others);
    hide Encoded, VisitsOf, MessageAt;
  }

  /** Well-formed messages are walked one by one, up to whatever stands behind them. */
  lemma {:induction false} DatagramIsWalked(before: seq<Byte>, messages: seq<Message>, tail: seq<Byte>)
    requires forall i :: 0 <= i < |messages| ==> messages[i].WellFormed()
    ensures var start := before + Datagram(messages);
            Visits(start + tail, |before|) == AllSeen(messages) + Visits(start + tail, |start|)
    decreases |messages|
  {
    hide Visits, Encoded;
    if messages == [] {
      assert before + Datagram(messages) == before && AllSeen(messages) == [];
    } else {
      var first, others := Encoded(messages[0]), Datagram(messages[1..]);
      Text.Regroup(before, first, others);
      Text.Regroup(before, first, others + tail);
      Text.Regroup(before + first, others, tail);
      WalkFirst(before, messages[0], others + tail);
      DatagramIsWalked(before + first, messages[1..], tail);
      Text.Regroup(messages[0].Seen(), AllSeen(messages[1..]), Visits(((before + first) + others) + tail,
                   |(before + first) + others|));
    }
  }

  /** A stop: an error with a code, whatever follows it; or too few bytes for a header; or nothing. */
  datatype Stop = Failure(filler: seq<Byte>, bytes: seq<Byte>, rest: seq<Byte>) | Scrap(bytes: seq<Byte>)
  {
    predicate WellFormed() {
      match this
      case Failure(filler, bytes, _) =>
        |filler| == 10 && 4 <= |bytes| && 16 + |bytes| < 0x1_0000_0000 && bytes[..4] != [0, 0, 0, 0]
      case Scrap(bytes) => |bytes| < 16
    }

    function Wire(): seq<Byte>
      requires WellFormed()
    {
      match this
      case Failure(filler, bytes, rest) => Frame(2, filler, bytes) + rest
      case Scrap(bytes) => bytes
    }
  }

  lemma StopsThere(before: seq<Byte>, stop: Stop)
    requires stop.WellFormed()
    ensures Visits(before + stop.Wire(), |before|) == []
  {
    if stop.Failure? { ReadsFramed(before, 2, stop.filler, stop.bytes, stop.rest); }
  }

  /**
   Exactly the starts and the ends among a datagram's messages are forwarded, in order and under their pids, up to
   the end of the datagram or the error in it; every notice is seen with its cpu and its sequence.
   */
  lemma LifecycleEventsAreForwarded(messages: seq<Message>, stop: Stop)
    requires (forall i :: 0 <= i < |messages| ==> messages[i].WellFormed()) && stop.WellFormed()
    ensures Visits(Datagram(messages) + stop.Wire(), 0) == AllSeen(messages)
    ensures Lifecycle(Visits(Datagram(messages) + stop.Wire(), 0)) == AllEvents(messages)
  {
    hide Visits, Datagram, AllSeen, AllEvents;
    DatagramIsWalked([], messages, stop.Wire());
    assert [] + Datagram(messages) == Datagram(messages);
    StopsThere(Datagram(messages), stop);
    assert AllSeen(messages) + [] == AllSeen(messages);
    EventsOfSeen(messages);
  }

  lemma {:induction false} EventsOfSeen(messages: seq<Message>)
    ensures Lifecycle(AllSeen(messages)) == AllEvents(messages)
  {
    if messages != [] {
      EventsOfSeen(messages[1..]);
      LifecycleJoins(messages[0].Seen(), AllSeen(messages[1..]));
      OneLifecycle(messages[0]);
    }
  }

  lemma OneLifecycle(m: Message)
    ensures Lifecycle(m.Seen()) == m.Events()
  {
    if m.Seen() != [] {
      LifecycleNext([], m.Seen()[0]);
      assert [] + m.Seen() == m.Seen();
    }
  }

  /** One notice: a start is exactly its `Exec`, an end exactly its `Exit`, anything else nothing. */
  lemma NoticeIsForwarded(notice: Notice, filler: seq<Byte>)
    requires notice.Fits() && |filler| == 10
    ensures Lifecycle(Visits(Frame(3, filler, notice.Body()), 0)) ==
            match notice.kind
            case Started => [Exec(notice.pid)]
            case Ended => [Exit(notice.pid)]
            case Unwatched(_) => []
  {
    var m := Proc(3, filler, notice);
    LifecycleEventsAreForwarded([m], Scrap([]));
    assert [m][1..] == [] && Datagram([]) == [] && AllEvents([]) == [];
    assert Datagram([m]) + [] == Encoded(m);
    assert AllEvents([m]) == m.Events();
  }
}
