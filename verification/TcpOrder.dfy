/** The order of the queue from the SYN on, for every port and every run: strictly increasing in serial order, and
    only its head partly sent; and when that head ends at remote_seq. */
module TcpOrder {
  import opened Words
  import opened Serial
  import opened Lists
  import opened Reassembly
  import opened Windows
  import opened Tcp
  import opened TcpSafety
  import opened TcpRuns
  import opened TcpTunnel

  /** What is queued may start this far ahead of remote_seq, or less. */
  const FAR := AHEAD - 2

  /** The head starts at most back numbers further behind pos than a segment is long, and a partly sent one does not
      reach beyond pos; behind it untouched segments rise. */
  ghost predicate Ordered(q: Queue, start: u32, offs: List<int>, pos: int, back: nat) {
    && q.Cons? == offs.Cons?
    && (q.Cons? ==>
          && pos - 0xFFFF - back <= offs.head < pos + FAR && q.head.seqNo == At(start, offs.head)
          && (q.head.sent > 0 ==> offs.head + q.head.sent <= pos)
          && Rising(q.tail, start, offs.tail, offs.head, pos + FAR))
  }

  /** Only the head can be partly sent. */
  predicate Partly(q: Queue) {
    q.Cons? && q.head.sent > 0
  }

  /** A partly sent head ends where the next byte is expected. */
  predicate Aligned(q: Queue, remoteSeq: u32) {
    Partly(q) ==> Plus(q.head.seqNo, q.head.sent) == remoteSeq
  }

  lemma OrderedSerial(q: Queue, start: u32, offs: List<int>, pos: int, back: nat)
    requires Ordered(q, start, offs, pos, back) && back <= 2
    ensures SerialOrder(q)
  {
    if q.Cons? {
      RisingSerial(q.head, offs.head, q.tail, start, offs.tail, pos + FAR);
    }
  }

  lemma InsertOrdered(q: Queue, start: u32, offs: List<int>, pos: int, back: nat, off: int, data: Payload, psh: bool)
    requires Ordered(q, start, offs, pos, back) && back <= 2 && pos <= off < pos + FAR
    ensures Ordered(Insert(q, At(start, off), data, psh), start, InsertOffset(offs, off), pos, back)
    ensures Partly(q) ==> Insert(q, At(start, off), data, psh).head == q.head
    ensures Partly(Insert(q, At(start, off), data, psh)) ==> Partly(q)
  {
    if q.Cons? {
      CompareOffsets(start, offs.head, off);
      if offs.head < off {
        InsertRising(q.tail, start, offs.tail, offs.head, pos + FAR, off, data, psh);
      }
    }
  }

  /** A session that is counted on while its queue stays. */
  lemma Counting(q: Queue, start: u32, offs: List<int>, pos: int, back: nat)
    requires Ordered(q, start, offs, pos, back)
    ensures Ordered(q, start, offs, pos + 1, back + 1)
  {
    if q.Cons? {
      RisingWiden(q.tail, start, offs.tail, offs.head, pos + FAR, pos + 1 + FAR);
    }
  }

  lemma ReadyEndsAt(q: Queue, start: u32, offs: List<int>, pos: int, back: nat, room: int, k: nat)
    requires Ordered(q, start, offs, pos, back) && back <= 2 && Ready(q, At(start, pos), room) && k <= Unsent(q.head)
    ensures offs.head + q.head.sent == pos && Plus(q.head.seqNo, q.head.sent + k) == At(start, pos + k)
  {
    AtPlus(start, offs.head, q.head.sent);
    AtInjective(start, offs.head + q.head.sent, pos);
    AtPlus(start, offs.head, q.head.sent + k);
    assert offs.head + (q.head.sent + k) == pos + k;
  }

  lemma SentAllOrdered(q: Queue, start: u32, offs: List<int>, pos: int, back: nat)
    requires Ordered(q, start, offs, pos, back) && q.Cons? && offs.head + q.head.sent == pos
    ensures Ordered(q.tail, start, offs.tail, pos + Unsent(q.head), back) && !Partly(q.tail)
  {
    RisingWiden(q.tail, start, offs.tail, offs.head, pos + FAR, pos + Unsent(q.head) + FAR);
  }

  lemma SentPartOrdered(q: Queue, start: u32, offs: List<int>, pos: int, back: nat, k: nat)
    requires Ordered(q, start, offs, pos, back) && q.Cons? && offs.head + q.head.sent == pos && k <= Unsent(q.head)
    ensures Ordered(Cons(q.head.(sent := q.head.sent + k), q.tail), start, offs, pos + k, back)
  {
    RisingWiden(q.tail, start, offs.tail, offs.head, pos + FAR, pos + k + FAR);
  }

  /** A pass keeps the order, and a head that it leaves partly sent ends at the new remote_seq. */
  lemma {:induction false} ForwardOrdered(q: Queue, start: u32, offs: List<int>, pos: int, back: nat,
                                          remoteSeq: u32, room: int, sends: seq<int>)
    returns (p: Pass, offs': List<int>, end: int)
    requires Ordered(q, start, offs, pos, back) && back <= 2 && remoteSeq == At(start, pos)
    ensures p == Forward(q, remoteSeq, room, sends) && end == pos + |p.accepted|
    ensures p.remoteSeq == At(start, end) && Ordered(p.queue, start, offs', end, back)
    ensures Aligned(q, remoteSeq) ==> Aligned(p.queue, p.remoteSeq)
    decreases q
  {
    p, offs', end := Forward(q, remoteSeq, room, sends), offs, pos;
    if Ready(q, remoteSeq, room) {
      var k := Counted(Next(sends), Unsent(q.head));
      ReadyEndsAt(q, start, offs, pos, back, room, k);
      if k == Unsent(q.head) {
        ForwardTurn(q, offs, remoteSeq, room, sends);
        SentAllOrdered(q, start, offs, pos, back);
        var more, offs1, end1 :=
          ForwardOrdered(q.tail, start, offs.tail, pos + k, back, At(start, pos + k), room - k, Rest(sends));
        offs', end := offs1, end1;
        assert |p.accepted| == k + |more.accepted|;
      } else {
        SentPartOrdered(q, start, offs, pos, back, k);
        end := pos + k;
      }
    }
  }

  // ----- sessions

  /** How often LISTEN can have been left by now: once before the tunnel was asked for, and once after. */
  function Exits(t: Tcb): nat {
    (if t.connect == NotSent then 0 else 1) + (if t.state == Listen then 0 else 1)
  }

  /** pos is the position of remote_seq behind the number of the SYN. */
  ghost predicate Arranged(t: Tcb, offs: List<int>, pos: int) {
    t.remoteSeq == At(t.remoteStart, pos) && Ordered(t.forward, t.remoteStart, offs, pos, Exits(t))
  }

  /** Neither too far ahead of remote_seq nor half the serial numbers behind it. */
  predicate Nearby(remoteSeq: u32, seqNo: u32) {
    Minus(seqNo, remoteSeq) < FAR || Minus(remoteSeq, seqNo) < 0x7FFF_FFFE
  }

  predicate AllNearby(t: Tcb, evs: seq<Event>)
    decreases |evs|
  {
    evs != [] ==>
      && (evs[0].FromTun? && Queues(t, evs[0].p) ==> Nearby(t.remoteSeq, evs[0].p.seqNo))
      && AllNearby(Step(t, evs[0]), evs[1..])
  }

  /** The queue stays, and remote_seq moves by one at most: on leaving LISTEN, or with nothing queued. */
  ghost predicate Holds(t: Tcb, t': Tcb) {
    && t'.forward == t.forward && t'.remoteStart == t.remoteStart && t'.accepted == t.accepted
    && if t'.remoteSeq == t.remoteSeq then Exits(t) <= Exits(t')
       else t'.remoteSeq == Plus(t.remoteSeq, 1) && (t.forward.Nil? || (t.state == Listen && Exits(t) < Exits(t')))
  }

  lemma HoldsArranged(t: Tcb, t': Tcb, offs: List<int>, pos: int) returns (pos': int)
    requires Arranged(t, offs, pos) && Holds(t, t')
    ensures Arranged(t', offs, pos') && pos' == if t'.remoteSeq == t.remoteSeq then pos else pos + 1
  {
    pos' := pos;
    if t'.remoteSeq != t.remoteSeq {
      AtPlus(t.remoteStart, pos, 1);
      Counting(t.forward, t.remoteStart, offs, pos, Exits(t));
      pos' := pos + 1;
    }
  }

  lemma RstHolds(t: Tcb)
    ensures Holds(t, WriteRst(t))
  {
  }

  lemma FlagsHold(t: Tcb, p: Packet, e: PacketEnv)
    requires Sound(t)
    ensures Holds(t, HandleFlags(t, p, e))
  {
  }

  /** What compare_u32 does not take for already forwarded lies ahead. */
  lemma NotBehind(seqNo: u32, remoteSeq: u32) returns (d: u32)
    requires Minus(seqNo, remoteSeq) < FAR || Minus(remoteSeq, seqNo) <= 0x7FFF_FFFE
    requires CompareU32(seqNo, remoteSeq) >= 0
    ensures d == Minus(seqNo, remoteSeq) < FAR && Plus(remoteSeq, d) == seqNo
  {
    d := Minus(seqNo, remoteSeq);
    CompareByDistance(seqNo, remoteSeq);
  }

  lemma QueueArranged(t: Tcb, p: Packet, offs: List<int>, pos: int) returns (offs': List<int>)
    requires Arranged(t, offs, pos)
    requires Minus(p.seqNo, t.remoteSeq) < FAR || Minus(t.remoteSeq, p.seqNo) <= 0x7FFF_FFFE
    ensures Arranged(QueueTcp(t, p), offs', pos)
    ensures Partly(t.forward) ==> QueueTcp(t, p).forward.Cons? && QueueTcp(t, p).forward.head == t.forward.head
    ensures Partly(QueueTcp(t, p).forward) ==> Partly(t.forward)
  {
    offs' := offs;
    if CompareU32(p.seqNo, t.remoteSeq) >= 0 {
      var d := NotBehind(p.seqNo, t.remoteSeq);
      AtPlus(t.remoteStart, pos, d);
      InsertOrdered(t.forward, t.remoteStart, offs, pos, Exits(t), pos + d, p.data, p.psh);
      offs' := InsertOffset(offs, pos + d);
    }
  }

  /** A session as it may be after a packet or a quiet step, compared with the one before: a partly sent head stays
      what it is, and only a session in LISTEN, or one with an empty queue, is counted on. */
  ghost predicate Rests(t: Tcb, t': Tcb) {
    && (Partly(t.forward) ==> t'.forward.Cons? && t'.forward.head == t.forward.head)
    && (Partly(t'.forward) ==> Partly(t.forward))
    && (t'.remoteSeq == t.remoteSeq ||
        (t'.remoteSeq == Plus(t.remoteSeq, 1) && (t.state == Listen || !Partly(t.forward))))
  }

  lemma RequestHolds(t: Tcb, e: PacketEnv)
    ensures Holds(t, RequestTunnel(t, e)) && (t.state != Listen ==> RequestTunnel(t, e).remoteSeq == t.remoteSeq)
  {
    RstHolds(t);
  }

  lemma SegmentArranged(t: Tcb, p: Packet, e: PacketEnv, offs: List<int>, pos: int)
    returns (offs': List<int>, pos': int)
    requires Arranged(t, offs, pos) && Sound(t) && (p.data != [] ==> Nearby(t.remoteSeq, p.seqNo))
    ensures Arranged(HandleSegment(t, p, e), offs', pos') && Rests(t, HandleSegment(t, p, e))
  {
    var t1 := t.(time := e.now, sendWindow := ScaledWindow(p.window, t.sendScale));
    offs' := offs;
    if p.data == [] {
      FlagsHold(t1, p, e);
      pos' := HoldsArranged(t1, HandleFlags(t1, p, e), offs, pos);
    } else if t1.socket < 0 || t1.state == CloseWait {
      RstHolds(t1);
      pos' := HoldsArranged(t1, WriteRst(t1), offs, pos);
    } else {
      offs' := QueueArranged(t1, p, offs, pos);
      FlagsHold(QueueTcp(t1, p), p, e);
      pos' := HoldsArranged(QueueTcp(t1, p), HandleFlags(QueueTcp(t1, p), p, e), offs', pos);
    }
  }

  lemma PacketArranged(t: Tcb, p: Packet, e: PacketEnv, offs: List<int>, pos: int) returns (offs': List<int>, pos': int)
    requires Arranged(t, offs, pos) && Sound(t) && (Queues(t, p) ==> Nearby(t.remoteSeq, p.seqNo))
    ensures Arranged(HandleTcp(t, p, e), offs', pos') && Rests(t, HandleTcp(t, p, e))
  {
    offs', pos' := offs, pos;
    if !p.urg {
      var t1 := RequestTunnel(t, e);
      if t1.dport == HTTPS && t1.connect != Tunnelled {
        RequestHolds(t, e);
        pos' := HoldsArranged(t, t1, offs, pos);
        offs' := QueueArranged(t1, p, offs, pos');
      } else if t.state in {Closing, Close} {
        RstHolds(t);
        pos' := HoldsArranged(t, WriteRst(t), offs, pos);
      } else {
        offs', pos' := SegmentArranged(t, p, e, offs, pos);
      }
    }
  }

  lemma AfterForwardHolds(t: Tcb, fwd: bool, e: SocketEvent)
    requires t.state != Listen
    ensures Holds(t, AfterForward(t, fwd, e))
  {
    AnnounceLeaves(t, fwd, e);
    var t1 := Announce(t, fwd, e);
    assert Holds(t, t1);
    if DataState(t1) {
      ReadHolds(t1, e);
    }
  }

  lemma ReadHolds(t: Tcb, e: SocketEvent)
    requires DataState(t)
    ensures Holds(t, ReadSocket(t, e)) && ReadSocket(t, e).remoteSeq == t.remoteSeq
  {
  }

  lemma ForwardArranged(t: Tcb, e: SocketEvent, offs: List<int>, pos: int) returns (offs': List<int>, pos': int)
    requires Arranged(t, offs, pos)
    ensures var t1 := TryForward(t, e).0;
            && Arranged(t1, offs', pos')
            && (Aligned(t.forward, t.remoteSeq) ==> Aligned(t1.forward, t1.remoteSeq))
            && (!Aligned(t.forward, t.remoteSeq) ==> t1 == t)
  {
    offs', pos' := offs, pos;
    ForwardLeaves(t, e);
    if e.output {
      var room := ReceiveBuffer(t, e.room);
      var p;
      p, offs', pos' := ForwardOrdered(t.forward, t.remoteStart, offs, pos, Exits(t), t.remoteSeq, room, e.sends);
    }
  }

  lemma SocketArranged(t: Tcb, e: SocketEvent, offs: List<int>, pos: int) returns (offs': List<int>, pos': int)
    requires Arranged(t, offs, pos)
    ensures Arranged(CheckSocket(t, e), offs', pos')
    ensures e.error || t.state == Listen || !Aligned(t.forward, t.remoteSeq) ==> Rests(t, CheckSocket(t, e))
    ensures !e.error && t.state != Listen && Aligned(t.forward, t.remoteSeq) ==>
              Aligned(CheckSocket(t, e).forward, CheckSocket(t, e).remoteSeq)
  {
    offs', pos' := offs, pos;
    if e.error {
      RstHolds(t.(time := e.now));
      pos' := HoldsArranged(t, CheckSocket(t, e), offs, pos);
    } else if t.state == Listen {
      assert Holds(t, Connected(t, e));
      pos' := HoldsArranged(t, Connected(t, e), offs, pos);
    } else {
      var (t1, fwd) := TryForward(t, e);
      ForwardLeaves(t, e);
      offs', pos' := ForwardArranged(t, e, offs, pos);
      AfterForwardHolds(t1, fwd, e);
      pos' := HoldsArranged(t1, AfterForward(t1, fwd, e), offs', pos');
    }
  }

  lemma QuietHolds(t: Tcb, ev: Event)
    requires ev.Poll? || ev.Timer? || ev.Terminate?
    ensures Holds(t, Step(t, ev)) && Rests(t, Step(t, ev))
  {
  }

  lemma StepArranged(t: Tcb, ev: Event, offs: List<int>, pos: int) returns (offs': List<int>, pos': int)
    requires Arranged(t, offs, pos) && Sound(t)
    requires ev.FromTun? && Queues(t, ev.p) ==> Nearby(t.remoteSeq, ev.p.seqNo)
    ensures Arranged(Step(t, ev), offs', pos')
    ensures t.state == Listen || !Aligned(t.forward, t.remoteSeq) ==> Rests(t, Step(t, ev))
    ensures t.state != Listen && Aligned(t.forward, t.remoteSeq) ==> Aligned(Step(t, ev).forward, Step(t, ev).remoteSeq)
  {
    match ev
    case FromTun(p, pe) =>
      offs', pos' := PacketArranged(t, p, pe, offs, pos);
    case FromSocket(se) =>
      offs', pos' := SocketArranged(t, se, offs, pos);
    case _ =>
      QuietHolds(t, ev);
      offs' := offs;
      pos' := HoldsArranged(t, Step(t, ev), offs, pos);
  }

  lemma {:induction false} RunArranged(t: Tcb, evs: seq<Event>, offs: List<int>, pos: int)
    returns (offs': List<int>, pos': int)
    requires Arranged(t, offs, pos) && Sound(t) && AllNearby(t, evs)
    ensures Arranged(Run(t, evs), offs', pos')
    decreases |evs|
  {
    offs', pos' := offs, pos;
    if evs != [] {
      offs', pos' := StepArranged(t, evs[0], offs, pos);
      StepSound(t, evs[0]);
      offs', pos' := RunArranged(Step(t, evs[0]), evs[1..], offs', pos');
    }
  }

  function StartOffs(p: Packet): List<int> {
    if p.data == [] then Nil else Cons(0, Nil)
  }

  lemma NewArranged(p: Packet, dport: u16, mss: u16, scale: Scale, isn: u32, socket: nat, room: u32, now: int)
    ensures Arranged(NewSession(p, dport, mss, scale, isn, socket, room, now), StartOffs(p), 0)
  {
  }

  /** For every port, HTTPS before, with and without its tunnel included, every SYN, with data or not, and every run
      whose segments arrive near remote_seq. */
  lemma OrderFromSyn(p: Packet, dport: u16, mss: u16, scale: Scale, isn: u32, socket: nat, room: u32, now: int,
                     evs: seq<Event>)
    requires AllNearby(NewSession(p, dport, mss, scale, isn, socket, room, now), evs)
    ensures SerialOrder(Run(NewSession(p, dport, mss, scale, isn, socket, room, now), evs).forward)
  {
    var t := NewSession(p, dport, mss, scale, isn, socket, room, now);
    NewArranged(p, dport, mss, scale, isn, socket, room, now);
    var offs, pos := RunArranged(t, evs, StartOffs(p), 0);
    OrderedSerial(Run(t, evs).forward, t.remoteStart, offs, pos, Exits(Run(t, evs))) by {
      RunPort(t, evs);
    }
  }

  lemma {:induction false} RunPort(t: Tcb, evs: seq<Event>)
    ensures SamePort(t, Run(t, evs))
    decreases |evs|
  {
    if evs != [] {
      StepPort(t, evs[0]);
      RunPort(Step(t, evs[0]), evs[1..]);
    }
  }

  // ----- where a partly sent head ends

  /** A session in LISTEN that is told of an error, answers a finished connect, fails to ask for its tunnel, gets
      an acknowledgement of something never sent, or is ended, counts the SYN. */
  predicate CountsSyn(t: Tcb, ev: Event) {
    t.state == Listen &&
      match ev
      case FromSocket(e) => e.error || !e.input || !(e.recv.Bytes? && t.connect == Requested)
      case FromTun(p, e) =>
        !p.urg &&
        if t.dport == HTTPS && t.connect != Tunnelled then t.connect == NotSent && e.hostKnown && !e.sendOk
        else !p.rst && p.ack && AcksFuture(p.ackSeq, t.localSeq)
      case Terminate => true
      case _ => false
  }

  predicate AcksFuture(ackSeq: u32, localSeq: u32) {
    ackSeq != localSeq && Plus(ackSeq, 1) != localSeq && CompareU32(ackSeq, localSeq) > 0
  }

  /** In LISTEN remote_seq moves exactly then, and LISTEN is left with it. */
  lemma CountsSynIff(t: Tcb, ev: Event)
    requires Sound(t) && t.state == Listen
    ensures Step(t, ev).remoteSeq == if CountsSyn(t, ev) then Plus(t.remoteSeq, 1) else t.remoteSeq
    ensures CountsSyn(t, ev) ==> Step(t, ev).state != Listen && Step(t, ev).connect == t.connect
  {
    match ev
    case FromTun(p, e) =>
      var t1 := t.(time := e.now, sendWindow := ScaledWindow(p.window, t.sendScale));
      FlagsCount(t1, p, e);
      FlagsCount(QueueTcp(t1, p), p, e);
    case _ =>
  }

  lemma FlagsCount(t: Tcb, p: Packet, e: PacketEnv)
    requires t.state == Listen
    ensures var t', counts := HandleFlags(t, p, e), !p.rst && p.ack && AcksFuture(p.ackSeq, t.localSeq);
            && t'.remoteSeq == (if counts then Plus(t.remoteSeq, 1) else t.remoteSeq)
            && (counts ==> t'.state != Listen) && t'.connect == t.connect
  {
  }

  /** The SYN is counted although part of the head has been sent: only once it had been counted before. */
  predicate Overtakes(t: Tcb, ev: Event) {
    CountsSyn(t, ev) && Partly(t.forward)
  }

  predicate EverOvertakes(t: Tcb, evs: seq<Event>)
    decreases |evs|
  {
    evs != [] && (Overtakes(t, evs[0]) || EverOvertakes(Step(t, evs[0]), evs[1..]))
  }

  /** A partly sent head ends at remote_seq, and before a tunnel is asked for nothing is sent in LISTEN. */
  predicate Fits(t: Tcb) {
    && Aligned(t.forward, t.remoteSeq)
    && (t.state == Listen && !(t.dport == HTTPS && t.connect == Requested) ==> !Partly(t.forward))
  }

  /** A session that was asked for a tunnel it will not get, whose head ends elsewhere. */
  predicate Overtaken(t: Tcb) {
    Stranded(t) && t.connect == Requested && !Aligned(t.forward, t.remoteSeq)
  }

  lemma FlagsNeverToListen(t: Tcb, p: Packet, e: PacketEnv)
    ensures HandleFlags(t, p, e).state == Listen ==> t.state == Listen
    ensures HandleFlags(t, p, e).connect == t.connect && HandleFlags(t, p, e).dport == t.dport
  {
  }

  lemma StepsToListen(t: Tcb, ev: Event)
    requires Sound(t) && Step(t, ev).state == Listen
    ensures t.state == Listen || (Step(t, ev).dport == HTTPS && Step(t, ev).connect == Requested)
    ensures t.dport == HTTPS && t.connect == Requested ==> t.state == Listen && Step(t, ev).connect == Requested
  {
    if Stranded(t) {
      StepStranded(t, ev);
    }
    match ev
    case FromTun(p, pe) =>
      var t1 := t.(time := pe.now, sendWindow := ScaledWindow(p.window, t.sendScale));
      FlagsNeverToListen(t1, p, pe);
      FlagsNeverToListen(QueueTcp(t1, p), p, pe);
    case FromSocket(se) =>
      SocketLeavesListen(t, se);
    case _ =>
  }

  lemma StepFits(t: Tcb, ev: Event, offs: List<int>, pos: int)
    requires Fits(t) && Arranged(t, offs, pos) && Sound(t)
    requires ev.FromTun? && Queues(t, ev.p) ==> Nearby(t.remoteSeq, ev.p.seqNo)
    ensures if Overtakes(t, ev) then Overtaken(Step(t, ev)) else Fits(Step(t, ev))
  {
    var _, _ := StepArranged(t, ev, offs, pos);
    StepPort(t, ev);
    if t.state == Listen {
      CountsSynIff(t, ev);
    }
    if Step(t, ev).state == Listen {
      StepsToListen(t, ev);
    }
  }

  lemma StepOvertaken(t: Tcb, ev: Event, offs: List<int>, pos: int)
    requires Overtaken(t) && Arranged(t, offs, pos) && Sound(t)
    requires ev.FromTun? && Queues(t, ev.p) ==> Nearby(t.remoteSeq, ev.p.seqNo)
    ensures Overtaken(Step(t, ev))
  {
    var _, _ := StepArranged(t, ev, offs, pos);
    StepStranded(t, ev);
    StepAdvances(t, ev);
  }

  lemma {:induction false} RunOvertaken(t: Tcb, evs: seq<Event>, offs: List<int>, pos: int)
    requires Overtaken(t) && Arranged(t, offs, pos) && Sound(t) && AllNearby(t, evs)
    ensures !Aligned(Run(t, evs).forward, Run(t, evs).remoteSeq)
    decreases |evs|
  {
    if evs != [] {
      var offs', pos' := StepArranged(t, evs[0], offs, pos);
      StepOvertaken(t, evs[0], offs, pos);
      StepSound(t, evs[0]);
      RunOvertaken(Step(t, evs[0]), evs[1..], offs', pos');
    }
  }

  lemma {:induction false} RunAlignedIff(t: Tcb, evs: seq<Event>, offs: List<int>, pos: int)
    requires Fits(t) && Arranged(t, offs, pos) && Sound(t) && AllNearby(t, evs)
    ensures Aligned(Run(t, evs).forward, Run(t, evs).remoteSeq) <==> !EverOvertakes(t, evs)
    ensures t.dport != HTTPS ==> !EverOvertakes(t, evs)
    decreases |evs|
  {
    if evs != [] {
      var offs', pos' := StepArranged(t, evs[0], offs, pos);
      StepFits(t, evs[0], offs, pos);
      StepSound(t, evs[0]);
      StepPort(t, evs[0]);
      if Overtakes(t, evs[0]) {
        RunOvertaken(Step(t, evs[0]), evs[1..], offs', pos');
      } else {
        RunAlignedIff(Step(t, evs[0]), evs[1..], offs', pos');
      }
    }
  }

  /** From the SYN on a partly sent head ends at remote_seq, on every port but that of HTTPS always, and there
      exactly if the SYN was never counted while the head was partly sent. */
  lemma AlignedFromSynIff(p: Packet, dport: u16, mss: u16, scale: Scale, isn: u32, socket: nat, room: u32, now: int,
                          evs: seq<Event>)
    requires AllNearby(NewSession(p, dport, mss, scale, isn, socket, room, now), evs)
    ensures var t := NewSession(p, dport, mss, scale, isn, socket, room, now);
            var t' := Run(t, evs);
            && (Aligned(t'.forward, t'.remoteSeq) <==> !EverOvertakes(t, evs))
            && (dport != HTTPS ==> Aligned(t'.forward, t'.remoteSeq))
  {
    NewArranged(p, dport, mss, scale, isn, socket, room, now);
    RunAlignedIff(NewSession(p, dport, mss, scale, isn, socket, room, now), evs, StartOffs(p), 0);
  }

  /** A partly sent segment is never replaced, shortened or lengthened by what arrives. */
  lemma PartlySentStays(t: Tcb, p: Packet, e: PacketEnv, offs: List<int>, pos: int)
    requires Arranged(t, offs, pos) && Sound(t) && (Queues(t, p) ==> Nearby(t.remoteSeq, p.seqNo)) && Partly(t.forward)
    ensures HandleTcp(t, p, e).forward.Cons? && HandleTcp(t, p, e).forward.head == t.forward.head
  {
    var _, _ := PacketArranged(t, p, e, offs, pos);
  }

  /** The send of the CONNECT request fails, a piece of the queue is sent all the same, the next packet does ask
      for the tunnel, and then the socket fails: the reset counts the SYN a second time. */
  lemma OvertakenBySecondSyn(syn: Packet, p: Packet, q: Packet, mss: u16, scale: Scale, isn: u32, socket: nat,
                             room: u32, now: int,
                             refused: PacketEnv, sent: PacketEnv, out: SocketEvent, err: SocketEvent)
    requires syn.data == [] && !p.urg && !q.urg && p.seqNo == Plus(syn.seqNo, 1) && 1 < |p.data| < out.room &&
             q.seqNo == syn.seqNo
    requires refused.hostKnown && !refused.sendOk && sent.hostKnown && sent.sendOk
    requires !out.error && out.output && !out.input && out.sends == [1] && err.error
    ensures var t := Run(NewSession(syn, HTTPS, mss, scale, isn, socket, room, now),
                         [FromTun(p, refused), FromSocket(out), FromTun(q, sent), FromSocket(err)]);
            !Aligned(t.forward, t.remoteSeq)
  {
    var t0 := NewSession(syn, HTTPS, mss, scale, isn, socket, room, now);
    var evs := [FromTun(p, refused), FromSocket(out), FromTun(q, sent), FromSocket(err)];
    var t1 := Step(t0, evs[0]);
    assert t1.forward == Cons(Segment(p.seqNo, p.data, 0, p.psh), Nil) && t1.remoteSeq == p.seqNo &&
           t1.state == Closing;
    var t2 := Step(t1, evs[1]);
    FirstByteSent(t1, out);
    var t3 := Step(t2, evs[2]);
    TunnelAskedFor(t2, q, sent);
    var t4 := Step(t3, evs[3]);
    assert evs[1..][0] == evs[1] && evs[1..][1..] == [evs[2], evs[3]] && [evs[2], evs[3]][1..] == [evs[3]] &&
           [evs[3]][1..] == [];
    assert Run(t3, [evs[3]]) == Run(t4, []) == t4;
    assert Run(t2, [evs[2], evs[3]]) == t4;
    assert Run(t0, evs) == Run(t1, evs[1..]);
  }

  lemma TunnelAskedFor(t: Tcb, q: Packet, e: PacketEnv)
    requires t.dport == HTTPS && t.connect == NotSent && t.socket >= 0 && !q.urg && e.hostKnown && e.sendOk
    requires t.remoteSeq == Plus(Plus(q.seqNo, 1), 1)
    ensures var t' := HandleTcp(t, q, e);
            t'.state == Listen && t'.forward == t.forward && t'.remoteSeq == t.remoteSeq
  {
    CompareByDistance(q.seqNo, t.remoteSeq);
  }

  lemma FirstByteSent(t: Tcb, e: SocketEvent)
    requires t.state == Closing && t.socket >= 0 && !e.error && e.output && e.sends == [1]
    requires t.forward.Cons? && t.forward.tail.Nil? && t.forward.head.sent == 0
    requires t.forward.head.seqNo == t.remoteSeq && 1 < |t.forward.head.data| < e.room
    ensures var t' := CheckSocket(t, e);
            && Partly(t'.forward) && t'.forward.head.seqNo == t.remoteSeq && t'.forward.head.sent == 1
            && t'.remoteSeq == Plus(t.remoteSeq, 1)
            && t'.state == Closing && t'.socket == t.socket && t'.connect == t.connect && t'.dport == t.dport
  {
    var (t1, fwd) := TryForward(t, e);
    ForwardLeaves(t, e);
    AnnounceLeaves(t1, fwd, e);
    AfterForwardHolds(t1, fwd, e);
  }
}
