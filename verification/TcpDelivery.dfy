/** Where the queue of a session stands in the peer's byte stream, for every step of a session whose segments
    arrive near the next expected byte. */
module TcpDelivery {
  import opened Words
  import opened Serial
  import opened Lists
  import opened Reassembly
  import opened Windows
  import opened Tcp
  import opened TcpSafety
  import opened TcpBooks

  /** The segment starts at position off of the peer's stream, near the next expected byte; position -1 is the
      number of the SYN itself, where data sent with a SYN is queued. */
  ghost predicate ArrivesAt(t: Tcb, p: Packet, off: int) {
    && off >= -1
    && p.seqNo == At(First(t), off)
    && |t.accepted| - AHEAD <= off < |t.accepted| + AHEAD
  }

  ghost function OffsAfter(t: Tcb, offs: List<int>, p: Packet, off: int): List<int> {
    if CompareU32(p.seqNo, t.remoteSeq) < 0 then offs else InsertOffset(offs, off)
  }

  // ----- the queue and the stream

  /** The queue goes on where the bytes handed on end. */
  ghost predicate InStep(t: Tcb, offs: List<int>) {
    && Placed(t.forward, First(t), offs, |t.accepted|)
    && (t.forward.Cons? ==> t.remoteSeq == At(First(t), |t.accepted|))
  }

  /** Before the SYN is counted what is queued waits untouched. */
  ghost predicate Early(t: Tcb, offs: List<int>) {
    && Rising(t.forward, First(t), offs, -2, AHEAD)
    && t.accepted == [] && t.remoteSeq == t.remoteStart
  }

  /** Nothing queued matches the uncounted SYN, or there is no socket left to send to. */
  ghost predicate Stuck(t: Tcb, offs: List<int>) {
    Early(t, offs) && (t.socket < 0 || (offs.Cons? ==> offs.head >= 0))
  }

  ghost predicate Lined(t: Tcb, offs: List<int>) {
    match t.state
    case Listen => Early(t, offs)
    case Closing | Close => InStep(t, offs) || Stuck(t, offs)
    case _ => InStep(t, offs)
  }

  lemma EarlyCounted(t: Tcb, offs: List<int>)
    requires Early(t, offs)
    ensures InStep(t.(remoteSeq := Plus(t.remoteSeq, 1)), offs)
  {
    assert Plus(t.remoteSeq, 1) == At(First(t), 0);
  }

  lemma QueueInStep(t: Tcb, offs: List<int>, p: Packet, off: int)
    requires InStep(t, offs) && t.remoteSeq == At(First(t), |t.accepted|) && ArrivesAt(t, p, off)
    ensures InStep(QueueTcp(t, p), OffsAfter(t, offs, p, off))
    ensures OffsAfter(t, offs, p, off) == if off < |t.accepted| then offs else InsertOffset(offs, off)
  {
    CompareOffsets(First(t), off, |t.accepted|);
    if off >= |t.accepted| {
      InsertPlaced(t.forward, First(t), offs, |t.accepted|, off, p.data, p.psh);
    }
  }

  lemma QueueEarly(t: Tcb, offs: List<int>, p: Packet, off: int)
    requires Early(t, offs) && ArrivesAt(t, p, off)
    ensures Early(QueueTcp(t, p), OffsAfter(t, offs, p, off))
    ensures OffsAfter(t, offs, p, off) == InsertOffset(offs, off)
  {
    assert t.remoteSeq == At(First(t), -1);
    CompareOffsets(First(t), off, -1);
    InsertRising(t.forward, First(t), offs, -2, AHEAD, off, p.data, p.psh);
  }

  ghost function LeftAfter(t: Tcb, offs: List<int>, e: SocketEvent): List<int> {
    if e.output then Left(t.forward, offs, t.remoteSeq, ReceiveBuffer(t, e.room), e.sends) else offs
  }

  lemma ForwardInStep(t: Tcb, offs: List<int>, e: SocketEvent)
    requires InStep(t, offs)
    ensures InStep(TryForward(t, e).0, LeftAfter(t, offs, e))
  {
    if e.output && t.forward.Cons? {
      var room := ReceiveBuffer(t, e.room);
      PassContiguous(t.forward, First(t), offs, |t.accepted|, t.remoteSeq, room, e.sends);
      var _, _, _ := ForwardPlaced(t.forward, First(t), offs, |t.accepted|, t.remoteSeq, room, e.sends);
      ForwardCounts(t.forward, First(t), |t.accepted|, t.remoteSeq, room, e.sends);
    }
  }

  lemma ForwardStuck(t: Tcb, offs: List<int>, e: SocketEvent)
    requires Stuck(t, offs)
    ensures TryForward(t, e).0 == t && LeftAfter(t, offs, e) == offs
  {
    if e.output && t.socket >= 0 {
      assert t.remoteSeq == At(First(t), -1);
      ForwardBeforeSyn(t.forward, First(t), offs, ReceiveBuffer(t, e.room), e.sends);
    }
  }

  lemma ForwardLined(t: Tcb, offs: List<int>, e: SocketEvent)
    requires Lined(t, offs) && t.state != Listen
    ensures var t1 := TryForward(t, e).0; Lined(t1.(state := t.state), LeftAfter(t, offs, e))
  {
    ForwardLeaves(t, e);
    if InStep(t, offs) {
      ForwardInStep(t, offs, e);
    } else {
      ForwardStuck(t, offs, e);
    }
  }

  // ----- what the rest of a step leaves alone

  /** The queue stays; remote_seq moves only for a FIN that finds it empty, and a session in LISTEN is left
      with its SYN counted, without a socket, or by a reset. */
  ghost predicate Leaves(t: Tcb, t': Tcb) {
    && t'.forward == t.forward && t'.accepted == t.accepted && t'.wire == t.wire && t'.remoteStart == t.remoteStart
    && (t.state == Listen ==> if t'.state == Listen then t'.remoteSeq == t.remoteSeq
                              else t'.remoteSeq == Plus(t.remoteSeq, 1) || (t'.state == Close && t'.socket == -1
                                                                            && t'.remoteSeq == t.remoteSeq))
    && (t.state != Listen ==> t'.state != Listen && (t'.remoteSeq == t.remoteSeq || t.forward.Nil?))
    && (t.state in {Closing, Close} ==> t'.state in {Closing, Close} && t'.remoteSeq == t.remoteSeq)
    && (t.socket < 0 ==> t'.socket < 0)
  }

  lemma LeavesLined(t: Tcb, t': Tcb, offs: List<int>)
    requires Lined(t, offs) && Leaves(t, t')
    ensures Lined(t', offs)
  {
    if t.state == Listen {
      EarlyCounted(t, offs);
    }
  }

  lemma FlagsLeave(t: Tcb, p: Packet, e: PacketEnv)
    requires Sound(t) && !(t.state == Listen && p.rst)
    ensures Leaves(t, HandleFlags(t, p, e))
  {
  }

  /** A packet leaves the queue as it is or queues its data. */
  ghost predicate QueueStep(t: Tcb, offs: List<int>, p: Packet, off: int, t': Tcb, offs': List<int>) {
    && t'.accepted == t.accepted && t'.wire == t.wire && First(t') == First(t)
    && ((t'.forward == t.forward && offs' == offs) ||
        (&& p.data != [] && t.state in {Listen, SynRecv, Established}
         && t'.forward == QueueTcp(t, p).forward && offs' == OffsAfter(t, offs, p, off)))
  }

  /** A reset that finds the session in LISTEN leaves it with its SYN uncounted. */
  predicate ResetInListen(t: Tcb, ev: Event) {
    t.state == Listen && ev.FromTun? && !ev.p.urg && ev.p.rst
  }

  lemma ResetLined(t: Tcb, offs: List<int>)
    requires Early(t, offs) && (offs.Cons? ==> offs.head >= 0)
    ensures Lined(t.(state := Closing), offs)
  {
  }

  lemma SegmentLined(t: Tcb, offs: List<int>, p: Packet, e: PacketEnv, off: int) returns (offs': List<int>)
    requires Lined(t, offs) && KeptIn(t) && Sound(t) && Active(t)
    requires p.data != [] ==> ArrivesAt(t, p, off)
    ensures QueueStep(t, offs, p, off, HandleSegment(t, p, e), offs')
    ensures !(t.state == Listen && p.rst && offs'.Cons? && offs'.head < 0) ==> Lined(HandleSegment(t, p, e), offs')
  {
    var t1 := t.(time := e.now, sendWindow := ScaledWindow(p.window, t.sendScale));
    offs' := offs;
    if p.data == [] {
      FlagsLined(t1, offs, p, e);
    } else if t1.socket < 0 || t1.state == CloseWait {
      LeavesLined(t1, WriteRst(t1), offs);
    } else {
      offs' := OffsAfter(t, offs, p, off);
      if t.state == Listen {
        QueueEarly(t1, offs, p, off);
      } else {
        QueueInStep(t1, offs, p, off);
      }
      FlagsLined(QueueTcp(t1, p), offs', p, e);
    }
  }

  lemma FlagsLined(t: Tcb, offs: List<int>, p: Packet, e: PacketEnv)
    requires Lined(t, offs) && Sound(t)
    ensures var t' := HandleFlags(t, p, e);
            && t'.forward == t.forward && t'.accepted == t.accepted && t'.wire == t.wire &&
               t'.remoteStart == t.remoteStart
            && (!(t.state == Listen && p.rst && offs.Cons? && offs.head < 0) ==> Lined(t', offs))
  {
    if t.state == Listen && p.rst {
      if offs.Cons? ==> offs.head >= 0 {
        ResetLined(t, offs);
      }
    } else {
      FlagsLeave(t, p, e);
      LeavesLined(t, HandleFlags(t, p, e), offs);
    }
  }

  lemma PacketLined(t: Tcb, offs: List<int>, p: Packet, e: PacketEnv, off: int) returns (offs': List<int>)
    requires Lined(t, offs) && KeptIn(t) && Sound(t)
    requires p.data != [] ==> ArrivesAt(t, p, off)
    ensures QueueStep(t, offs, p, off, HandleTcp(t, p, e), offs')
    ensures !(ResetInListen(t, FromTun(p, e)) && offs'.Cons? && offs'.head < 0) ==> Lined(HandleTcp(t, p, e), offs')
  {
    offs' := offs;
    if !p.urg {
      assert RequestTunnel(t, e) == t;
      if Active(t) {
        offs' := SegmentLined(t, offs, p, e, off);
      } else {
        LeavesLined(t, WriteRst(t), offs);
      }
    }
  }

  lemma AnnounceLeavesQueue(t: Tcb, fwd: bool, e: SocketEvent)
    requires t.state != Listen
    ensures Leaves(t, Announce(t, fwd, e))
  {
  }

  lemma ReadLeavesQueue(t: Tcb, e: SocketEvent)
    requires DataState(t)
    ensures Leaves(t, ReadSocket(t, e))
  {
  }

  lemma SocketLined(t: Tcb, offs: List<int>, e: SocketEvent) returns (offs': List<int>)
    requires Lined(t, offs) && Direct(t)
    ensures Lined(CheckSocket(t, e), offs')
    ensures offs' == if e.error || t.state == Listen then offs else LeftAfter(t, offs, e)
  {
    offs' := offs;
    if e.error {
      LeavesLined(t, WriteRst(t.(time := e.now)), offs);
    } else if t.state == Listen {
      LeavesLined(t, Connected(t, e), offs);
    } else {
      offs' := LeftAfter(t, offs, e);
      var (t1, fwd) := TryForward(t, e);
      ForwardLeaves(t, e);
      ForwardLined(t, offs, e);
      AnnounceLeavesQueue(t1, fwd, e);
      var t2 := Announce(t1, fwd, e);
      LeavesLined(t1, t2, offs');
      if DataState(t2) {
        ReadLeavesQueue(t2, e);
        LeavesLined(t2, ReadSocket(t2, e), offs');
      }
    }
  }

  lemma PollLined(t: Tcb, offs: List<int>, m: MonitorEnv)
    requires Lined(t, offs) && KeptIn(t)
    ensures Lined(Monitor(t, m).0, offs)
  {
    LeavesLined(t, Monitor(t, m).0, offs);
  }

  lemma TimerLined(t: Tcb, offs: List<int>, sessions: nat, maxsessions: nat, now: int)
    requires Lined(t, offs) && Sound(t) && maxsessions > 0
    ensures Lined(CheckTimer(t, sessions, maxsessions, now), offs)
  {
    LeavesLined(t, CheckTimer(t, sessions, maxsessions, now), offs);
  }

  lemma TerminateLined(t: Tcb, offs: List<int>)
    requires Lined(t, offs)
    ensures Lined(Step(t, Terminate), offs)
  {
    LeavesLined(t, Step(t, Terminate), offs);
  }
}
