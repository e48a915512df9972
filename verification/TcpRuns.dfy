/** Whole runs of one session: what reaches the socket, in which order it is queued, and when a run loses data. */
module TcpRuns {
  import opened Words
  import opened Serial
  import opened Lists
  import opened Reassembly
  import opened Windows
  import opened Tcp
  import opened TcpSafety
  import opened TcpBooks
  import opened TcpDelivery

  // ----- one step of a session that does not wait for a tunnel

  lemma StepLined(t: Tcb, offs: List<int>, ev: Event, off: int) returns (offs': List<int>)
    requires Lined(t, offs) && KeptIn(t) && Sound(t)
    requires ev.FromTun? && ev.p.data != [] ==> ArrivesAt(t, ev.p, off)
    ensures !(ResetInListen(t, ev) && offs'.Cons? && offs'.head < 0) ==> Lined(Step(t, ev), offs')
    ensures match ev
            case FromTun(p, _) => QueueStep(t, offs, p, off, Step(t, ev), offs')
            case FromSocket(e) => offs' == if e.error || t.state == Listen then offs else LeftAfter(t, offs, e)
            case _ => offs' == offs
  {
    offs' := offs;
    match ev
    case FromTun(p, pe) =>
      offs' := PacketLined(t, offs, p, pe, off);
    case FromSocket(se) =>
      offs' := SocketLined(t, offs, se);
    case Poll(m) =>
      PollLined(t, offs, m);
    case Timer(sessions, maxsessions, now) =>
      if maxsessions > 0 {
        TimerLined(t, offs, sessions, maxsessions, now);
      }
    case Terminate =>
      TerminateLined(t, offs);
  }

  lemma ReadLeaves(t: Tcb, e: SocketEvent)
    ensures var t' := ReadSocket(t, e);
            t'.forward == t.forward && t'.accepted == t.accepted && t'.wire == t.wire && t'.remoteStart == t.remoteStart
  {
  }

  /** After the forwarding pass an event leaves queue and stream alone. */
  lemma SocketQueue(t: Tcb, e: SocketEvent)
    ensures var t', t1 := CheckSocket(t, e), if e.error || t.state == Listen then t else TryForward(t, e).0;
            t'.forward == t1.forward && t'.accepted == t1.accepted && t'.wire == t1.wire &&
              t'.remoteStart == t.remoteStart
  {
    if !e.error && t.state != Listen {
      var (t1, fwd) := TryForward(t, e);
      ForwardLeaves(t, e);
      AnnounceLeaves(t1, fwd, e);
      ReadLeaves(Announce(t1, fwd, e), e);
    }
  }

  lemma QuietQueue(t: Tcb, ev: Event)
    requires ev.Poll? || ev.Timer? || ev.Terminate?
    ensures var t' := Step(t, ev);
            t'.forward == t.forward && t'.accepted == t.accepted && t'.wire == t.wire && t'.remoteStart == t.remoteStart
  {
  }

  // ----- the stream on its way through the queue

  /** What is queued and what was handed on are slices of one stream of the peer. */
  ghost predicate Sliced(t: Tcb, offs: List<int>, stream: seq<byte>) {
    IsSlice(t.accepted, 0, stream) && Slices(t.forward, offs, stream)
  }

  lemma QueueSliced(t: Tcb, offs: List<int>, p: Packet, off: int, stream: seq<byte>)
    requires Early(t, offs) || (InStep(t, offs) && t.remoteSeq == At(First(t), |t.accepted|))
    requires Sliced(t, offs, stream) && ArrivesAt(t, p, off) && InStream(p.data, off, stream)
    ensures Sliced(QueueTcp(t, p), OffsAfter(t, offs, p, off), stream)
  {
    if Early(t, offs) {
      assert t.remoteSeq == At(First(t), -1);
      CompareOffsets(First(t), off, -1);
      InsertRisingSlices(t.forward, First(t), offs, -2, AHEAD, off, p.data, p.psh, stream);
    } else {
      CompareOffsets(First(t), off, |t.accepted|);
      if off >= |t.accepted| {
        InsertSlices(t.forward, First(t), offs, |t.accepted|, off, p.data, p.psh, stream);
      }
    }
  }

  lemma ForwardSliced(t: Tcb, offs: List<int>, e: SocketEvent, stream: seq<byte>)
    requires InStep(t, offs) || Stuck(t, offs)
    requires Sliced(t, offs, stream)
    ensures Sliced(TryForward(t, e).0, LeftAfter(t, offs, e), stream)
  {
    if !InStep(t, offs) {
      ForwardStuck(t, offs, e);
    } else if e.output && t.forward.Cons? {
      var room := ReceiveBuffer(t, e.room);
      PassContiguous(t.forward, First(t), offs, |t.accepted|, t.remoteSeq, room, e.sends);
      LeftSlices(t.forward, offs, |t.accepted|, t.remoteSeq, room, e.sends, stream);
      ForwardSlices(t.forward, offs, |t.accepted|, t.remoteSeq, room, e.sends, stream);
      SliceConcat(t.accepted, Forward(t.forward, t.remoteSeq, room, e.sends).accepted, 0, stream);
    }
  }

  lemma StepSliced(t: Tcb, offs: List<int>, ev: Event, off: int, stream: seq<byte>) returns (offs': List<int>)
    requires Lined(t, offs) && KeptIn(t) && Sound(t) && Sliced(t, offs, stream)
    requires ev.FromTun? && ev.p.data != [] ==> ArrivesAt(t, ev.p, off) && InStream(ev.p.data, off, stream)
    ensures !(ResetInListen(t, ev) && offs'.Cons? && offs'.head < 0) ==> Lined(Step(t, ev), offs')
    ensures Sliced(Step(t, ev), offs', stream)
    ensures ev.FromTun? ==> QueueStep(t, offs, ev.p, off, Step(t, ev), offs')
    ensures !ev.FromTun? && t.state == Listen ==> offs' == offs
  {
    offs' := StepLined(t, offs, ev, off);
    match ev
    case FromTun(p, _) =>
      if p.data != [] && t.state in {Listen, SynRecv, Established} {
        QueueSliced(t, offs, p, off, stream);
      }
    case FromSocket(se) =>
      SocketQueue(t, se);
      if !se.error && t.state != Listen {
        ForwardSliced(t, offs, se, stream);
      }
    case _ =>
      QuietQueue(t, ev);
  }

  // ----- runs

  /** Whether the packet is queued; while a session waits for its tunnel even one without data is. */
  predicate Queues(t: Tcb, p: Packet) {
    p.data != [] || (t.dport == HTTPS && t.connect != Tunnelled)
  }

  /** What is queued starts near the next expected byte, at lo or behind. */
  ghost predicate Near(t: Tcb, ev: Event, lo: int) {
    ev.FromTun? && Queues(t, ev.p) ==> exists off :: lo <= off && ArrivesAt(t, ev.p, off)
  }

  /** And it is a slice of the stream. */
  ghost predicate FromStream(t: Tcb, ev: Event, lo: int, stream: seq<byte>) {
    ev.FromTun? && Queues(t, ev.p) ==>
      exists off :: lo <= off && ArrivesAt(t, ev.p, off) && InStream(ev.p.data, off, stream)
  }

  ghost predicate AllNear(t: Tcb, evs: seq<Event>, lo: int)
    decreases |evs|
  {
    evs != [] ==> Near(t, evs[0], lo) && AllNear(Step(t, evs[0]), evs[1..], lo)
  }

  ghost predicate AllFromStream(t: Tcb, evs: seq<Event>, lo: int, stream: seq<byte>)
    decreases |evs|
  {
    evs != [] ==> FromStream(t, evs[0], lo, stream) && AllFromStream(Step(t, evs[0]), evs[1..], lo, stream)
  }

  /** A reset comes before the first socket event and before the session is told to end. */
  predicate ResetFirst(evs: seq<Event>) {
    evs != [] &&
      match evs[0]
      case FromTun(p, _) => (!p.urg && p.rst) || ResetFirst(evs[1..])
      case FromSocket(_) => false
      case Terminate => false
      case _ => ResetFirst(evs[1..])
  }

  /** Nothing is queued at the number of the SYN, or no reset meets it there, or the session is not closing. */
  predicate Sure(t': Tcb, evs: seq<Event>, lo: int) {
    lo == 0 || !ResetFirst(evs) || Active(t')
  }

  /** A closed session to another port than that of HTTPS is never opened again. */
  lemma {:induction false} ClosingStays(t: Tcb, evs: seq<Event>)
    requires KeptIn(t) && Sound(t) && !Active(t) && t.dport != HTTPS
    ensures !Active(Run(t, evs))
    decreases |evs|
  {
    if evs != [] {
      StepKeptIn(t, evs[0]);
      StepSound(t, evs[0]);
      StepAdvances(t, evs[0]);
      assert Step(t, evs[0]).dport == t.dport by { StepPort(t, evs[0]); }
      ClosingStays(Step(t, evs[0]), evs[1..]);
    }
  }

  predicate SamePort(t: Tcb, t': Tcb) {
    t'.dport == t.dport && t'.remoteStart == t.remoteStart && t'.localStart == t.localStart
  }

  lemma FlagsPort(t: Tcb, p: Packet, e: PacketEnv)
    ensures SamePort(t, HandleFlags(t, p, e))
  {
  }

  lemma PacketPort(t: Tcb, p: Packet, e: PacketEnv)
    ensures SamePort(t, HandleTcp(t, p, e))
  {
    var t1 := RequestTunnel(t, e);
    var t2 := t1.(time := e.now, sendWindow := ScaledWindow(p.window, t1.sendScale));
    FlagsPort(t2, p, e);
    FlagsPort(QueueTcp(t2, p), p, e);
  }

  lemma ReadPort(t: Tcb, e: SocketEvent)
    ensures SamePort(t, ReadSocket(t, e))
  {
  }

  lemma SocketPort(t: Tcb, e: SocketEvent)
    ensures SamePort(t, CheckSocket(t, e))
  {
    if !e.error && t.state != Listen {
      var (t1, fwd) := TryForward(t, e);
      ForwardLeaves(t, e);
      AnnounceLeaves(t1, fwd, e);
      ReadPort(Announce(t1, fwd, e), e);
    }
  }

  lemma StepPort(t: Tcb, ev: Event)
    ensures SamePort(t, Step(t, ev))
  {
    match ev
    case FromTun(p, pe) => PacketPort(t, p, pe);
    case FromSocket(se) => SocketPort(t, se);
    case _ =>
  }

  // ----- leaving LISTEN

  lemma FlagsStayListen(t: Tcb, p: Packet, e: PacketEnv)
    ensures HandleFlags(t, p, e).state == Listen ==> t.state == Listen && !p.rst
    ensures HandleFlags(t, p, e).connect == t.connect
    ensures p.rst ==> HandleFlags(t, p, e).state == Closing
  {
  }

  lemma PacketStaysListen(t: Tcb, p: Packet, e: PacketEnv)
    requires Direct(t)
    ensures HandleTcp(t, p, e).state == Listen ==> t.state == Listen && !(p.rst && !p.urg)
    ensures t.state == Listen && p.rst && !p.urg ==> !Active(HandleTcp(t, p, e))
  {
    assert RequestTunnel(t, e) == t;
    var t1 := t.(time := e.now, sendWindow := ScaledWindow(p.window, t.sendScale));
    FlagsStayListen(t1, p, e);
    FlagsStayListen(QueueTcp(t1, p), p, e);
  }

  lemma SocketLeavesListen(t: Tcb, e: SocketEvent)
    ensures CheckSocket(t, e).state != Listen
  {
    if !e.error && t.state != Listen {
      var (t1, fwd) := TryForward(t, e);
      ForwardLeaves(t, e);
      AnnounceLeaves(t1, fwd, e);
    }
  }

  /** Only a session in LISTEN that met neither a socket event, nor its end, nor a reset is still there. */
  lemma StaysListen(t: Tcb, ev: Event)
    requires KeptIn(t) && Sound(t)
    ensures Step(t, ev).state == Listen ==>
            t.state == Listen && !ev.FromSocket? && !ev.Terminate? && !ResetInListen(t, ev)
    ensures ResetInListen(t, ev) ==> !Active(Step(t, ev))
  {
    match ev
    case FromTun(p, pe) => PacketStaysListen(t, p, pe);
    case FromSocket(se) => SocketLeavesListen(t, se);
    case _ =>
  }

  /** What makes a run sure makes the rest of it sure. */
  lemma SureRest(t: Tcb, evs: seq<Event>, lo: int)
    requires KeptIn(t) && Sound(t) && evs != [] && t.state == Listen && Sure(Run(t, evs), evs, lo)
    ensures Step(t, evs[0]).state == Listen ==> Sure(Run(t, evs), evs[1..], lo)
    ensures ResetInListen(t, evs[0]) ==> lo == 0 || Active(Run(t, evs))
  {
    StaysListen(t, evs[0]);
  }

  // ----- queue order and delivery over whole runs

  lemma InsertedHead(offs: List<int>, off: int)
    ensures InsertOffset(offs, off).Cons?
    ensures InsertOffset(offs, off).head == if offs.Cons? && offs.head <= off then offs.head else off
  {
  }

  /** Where one step leaves the queue, or it stops mattering. */
  lemma StepSure(t: Tcb, offs: List<int>, evs: seq<Event>, lo: int, off: int, offs1: List<int>)
    requires evs != [] && Lined(t, offs) && KeptIn(t) && Sound(t)
    requires t.state == Listen && lo == 0 && offs.Cons? ==> offs.head >= 0
    requires evs[0].FromTun? && evs[0].p.data != [] ==> off >= lo
    requires evs[0].FromTun? ==> QueueStep(t, offs, evs[0].p, off, Step(t, evs[0]), offs1)
    requires !evs[0].FromTun? && t.state == Listen ==> offs1 == offs
    requires t.state == Listen ==> Sure(Run(t, evs), evs, lo)
    requires !(ResetInListen(t, evs[0]) && offs1.Cons? && offs1.head < 0) ==> Lined(Step(t, evs[0]), offs1)
    ensures Lined(Step(t, evs[0]), offs1)
    ensures Step(t, evs[0]).state == Listen ==> Sure(Run(t, evs), evs[1..], lo)
    ensures Step(t, evs[0]).state == Listen && lo == 0 && offs1.Cons? ==> offs1.head >= 0
  {
    StaysListen(t, evs[0]);
    InsertedHead(offs, off);
    if t.state == Listen {
      SureRest(t, evs, lo);
      if ResetInListen(t, evs[0]) {
        StepKeptIn(t, evs[0]);
        StepSound(t, evs[0]);
        StepPort(t, evs[0]);
        ClosingStays(Step(t, evs[0]), evs[1..]);
      }
    }
  }

  lemma {:induction false} RunLined(t: Tcb, offs: List<int>, evs: seq<Event>, lo: int) returns (offs': List<int>)
    requires Lined(t, offs) && KeptIn(t) && Sound(t) && AllNear(t, evs, lo)
    requires t.state == Listen && lo == 0 && offs.Cons? ==> offs.head >= 0
    requires t.state == Listen ==> Sure(Run(t, evs), evs, lo)
    ensures Lined(Run(t, evs), offs')
    decreases |evs|
  {
    if evs == [] {
      return offs;
    }
    var ev := evs[0];
    assert Near(t, ev, lo);
    var off :| ev.FromTun? && Queues(t, ev.p) ==> lo <= off && ArrivesAt(t, ev.p, off);
    offs' := StepLined(t, offs, ev, off);
    StepSure(t, offs, evs, lo, off, offs');
    StepKeptIn(t, ev);
    StepSound(t, ev);
    offs' := RunLined(Step(t, ev), offs', evs[1..], lo);
  }

  lemma {:induction false} RunSliced(t: Tcb, offs: List<int>, evs: seq<Event>, lo: int, stream: seq<byte>)
    returns (offs': List<int>)
    requires Lined(t, offs) && KeptIn(t) && Sound(t) && Sliced(t, offs, stream) && AllFromStream(t, evs, lo, stream)
    requires t.state == Listen && lo == 0 && offs.Cons? ==> offs.head >= 0
    requires t.state == Listen ==> Sure(Run(t, evs), evs, lo)
    ensures Lined(Run(t, evs), offs') && Sliced(Run(t, evs), offs', stream)
    decreases |evs|
  {
    if evs == [] {
      return offs;
    }
    var ev := evs[0];
    assert FromStream(t, ev, lo, stream);
    var off :| ev.FromTun? && Queues(t, ev.p) ==>
      lo <= off && ArrivesAt(t, ev.p, off) && InStream(ev.p.data, off, stream);
    offs' := StepSliced(t, offs, ev, off, stream);
    StepSure(t, offs, evs, lo, off, offs');
    StepKeptIn(t, ev);
    StepSound(t, ev);
    offs' := RunSliced(Step(t, ev), offs', evs[1..], lo, stream);
  }

  // ----- what the socket really took

  /** In this step a send() fails although it was given data. */
  predicate LosesAt(t: Tcb, ev: Event) {
    && ev.FromSocket? && !ev.se.error && t.state != Listen && ev.se.output
    && LosesData(t.forward, t.remoteSeq, ReceiveBuffer(t, ev.se.room), ev.se.sends)
  }

  predicate Loses(t: Tcb, evs: seq<Event>)
    decreases |evs|
  {
    evs != [] && (LosesAt(t, evs[0]) || Loses(Step(t, evs[0]), evs[1..]))
  }

  lemma FlagsHistory(t: Tcb, p: Packet, e: PacketEnv)
    ensures HandleFlags(t, p, e).accepted == t.accepted && HandleFlags(t, p, e).wire == t.wire
  {
  }

  lemma PacketHistory(t: Tcb, p: Packet, e: PacketEnv)
    ensures HandleTcp(t, p, e).accepted == t.accepted && HandleTcp(t, p, e).wire == t.wire
  {
    var t1 := RequestTunnel(t, e);
    var t2 := t1.(time := e.now, sendWindow := ScaledWindow(p.window, t1.sendScale));
    FlagsHistory(t2, p, e);
    FlagsHistory(QueueTcp(t2, p), p, e);
  }

  lemma SocketWire(t: Tcb, e: SocketEvent)
    ensures var t' := CheckSocket(t, e);
            && |t'.wire| - |t.wire| <= |t'.accepted| - |t.accepted|
            && (LosesAt(t, FromSocket(e)) ==> |t'.wire| - |t.wire| < |t'.accepted| - |t.accepted|)
            && (!LosesAt(t, FromSocket(e)) && t.wire == t.accepted ==> t'.wire == t'.accepted)
  {
    SocketQueue(t, e);
    WireIffNoLoss(t.forward, t.remoteSeq, ReceiveBuffer(t, e.room), e.sends);
  }

  lemma StepWire(t: Tcb, ev: Event)
    ensures var t' := Step(t, ev);
            && |t'.wire| - |t.wire| <= |t'.accepted| - |t.accepted|
            && (LosesAt(t, ev) ==> |t'.wire| - |t.wire| < |t'.accepted| - |t.accepted|)
            && (!LosesAt(t, ev) && t.wire == t.accepted ==> t'.wire == t'.accepted)
  {
    match ev
    case FromTun(p, pe) => PacketHistory(t, p, pe);
    case FromSocket(se) => SocketWire(t, se);
    case _ =>
  }

  lemma {:induction false} RunWire(t: Tcb, evs: seq<Event>)
    requires |t.wire| < |t.accepted| || t.wire == t.accepted
    ensures var t' := Run(t, evs);
            && (|t'.wire| < |t'.accepted| || t'.wire == t'.accepted)
            && (t'.wire == t'.accepted <==> t.wire == t.accepted && !Loses(t, evs))
    decreases |evs|
  {
    if evs != [] {
      StepWire(t, evs[0]);
      RunWire(Step(t, evs[0]), evs[1..]);
    }
  }

  // ----- the theorems

  /** Delivery safety. However segments are cut, reordered, repeated and overlapped, the bytes the relay
      counts and acknowledges are a prefix of the peer's stream; and the socket got exactly these bytes if and
      only if no send() on the way failed while it had data. */
  lemma Delivery(t: Tcb, offs: List<int>, evs: seq<Event>, lo: int, stream: seq<byte>)
    requires Lined(t, offs) && KeptIn(t) && Sound(t) && Sliced(t, offs, stream) && AllFromStream(t, evs, lo, stream)
    requires t.state == Listen && lo == 0 && offs.Cons? ==> offs.head >= 0
    requires t.state == Listen ==> Sure(Run(t, evs), evs, lo)
    requires t.wire == t.accepted
    ensures Run(t, evs).accepted <= stream
    ensures Run(t, evs).wire == Run(t, evs).accepted <==> !Loses(t, evs)
  {
    var _ := RunSliced(t, offs, evs, lo, stream);
    RunWire(t, evs);
  }

  /** The positions of what a SYN leaves queued. */
  function SynOffs(p: Packet): List<int> {
    if p.data == [] then Nil else Cons(-1, Nil)
  }

  lemma NewLined(p: Packet, dport: u16, mss: u16, scale: Scale, isn: u32, socket: nat, room: u32, now: int)
    ensures Early(NewSession(p, dport, mss, scale, isn, socket, room, now), SynOffs(p))
  {
    var t := NewSession(p, dport, mss, scale, isn, socket, room, now);
    assert p.seqNo == At(First(t), -1);
  }

  /** Delivery from the SYN on, for every port but that of HTTPS. Data that comes with a SYN is queued at the
      number of the SYN, lo is then -1. */
  lemma DeliveryFromSyn(p: Packet, dport: u16, mss: u16, scale: Scale, isn: u32, socket: nat, room: u32, now: int,
                        evs: seq<Event>, lo: int, stream: seq<byte>)
    requires dport != HTTPS && (p.data == [] || lo < 0)
    requires AllFromStream(NewSession(p, dport, mss, scale, isn, socket, room, now), evs, lo, stream)
    ensures var t := NewSession(p, dport, mss, scale, isn, socket, room, now);
            var t' := Run(t, evs);
            && (Sure(t', evs, lo) ==> t'.accepted <= stream)
            && (t'.wire == t'.accepted <==> !Loses(t, evs))
  {
    var t := NewSession(p, dport, mss, scale, isn, socket, room, now);
    NewLined(p, dport, mss, scale, isn, socket, room, now);
    RunWire(t, evs);
    if Sure(Run(t, evs), evs, lo) {
      assert Kept(t, 0, 0);
      Delivery(t, SynOffs(p), evs, lo, stream);
    }
  }

  // ----- what fails

  /** The socket refuses the data, and yet the segment leaves the queue as acknowledged. */
  lemma FailedSendIsAcknowledged(g: Seg, room: int)
    requires 0 < Unsent(g) < room
    ensures var p := Forward(Cons(g, Nil), Plus(g.seqNo, g.sent), room, [-1]);
            p.queue == Nil && p.remoteSeq == Plus(g.seqNo, |g.data|) && p.accepted == g.data[g.sent..] && p.wire == []
  {
    assert g.sent + Unsent(g) == |g.data|;
    assert g.data[g.sent..] == g.data[g.sent..|g.data|];
  }
}
