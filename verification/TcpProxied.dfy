/** What an HTTPS session relays: through its tunnel, and if it asked for the tunnel before it counted the SYN. */
module TcpProxied {
  import opened Words
  import opened Reassembly
  import opened Windows
  import opened Tcp
  import opened TcpSafety
  import opened TcpRuns
  import opened TcpTunnel
  import opened TcpOrder
  import opened TcpAcks

  // ----- a tunnel asked for first

  /** Nothing is sent, and what starts at the number is empty. */
  predicate Barren(q: Queue, number: u32) {
    q.Cons? ==> q.head.sent == 0 && (q.head.seqNo == number ==> q.head.data == []) && Barren(q.tail, number)
  }

  lemma {:induction false} InsertBarren(q: Queue, number: u32, seqNo: u32, data: Payload, psh: bool)
    requires Barren(q, number) && (seqNo == number ==> data == [])
    ensures Barren(Insert(q, seqNo, data, psh), number)
  {
    if q.Cons? {
      InsertBarren(q.tail, number, seqNo, data, psh);
    }
  }

  lemma {:induction false} ForwardBarren(q: Queue, number: u32, room: int, sends: seq<int>)
    requires Barren(q, number)
    ensures var p := Forward(q, number, room, sends);
            p.accepted == [] && p.remoteSeq == number && Barren(p.queue, number)
    decreases q
  {
    if Ready(q, number, room) {
      ForwardBarren(q.tail, number, room, Rest(sends));
    }
  }

  /** A session that asked for its tunnel first: it expects the number of the SYN, and nothing comes with that; or
      its peer has ended. Or else it will not get the tunnel. */
  predicate Idle(t: Tcb) {
    && t.dport == HTTPS && t.accepted == []
    && (t.connect == Requested ==> t.state == Listen)
    && if t.connect == Tunnelled && t.remoteSeq != t.remoteStart
       then t.forward.Nil? && t.state in {CloseWait, LastAck, Closing, Close}
       else t.connect != NotSent && t.remoteSeq == t.remoteStart && Barren(t.forward, t.remoteStart)
            && (t.connect == Tunnelled ==> t.state != Listen)
  }

  /** No data comes with the number of the SYN. */
  predicate NoDataAt(evs: seq<Event>, number: u32) {
    evs != [] ==> (evs[0].FromTun? ==> evs[0].p.seqNo == number ==> evs[0].p.data == []) && NoDataAt(evs[1..], number)
  }

  lemma FlagsIdle(t: Tcb, p: Packet, e: PacketEnv)
    requires Idle(t) && Sound(t) && t.connect == Tunnelled && t.remoteSeq == t.remoteStart
    ensures Idle(HandleFlags(t, p, e))
  {
  }

  lemma PacketIdle(t: Tcb, p: Packet, e: PacketEnv)
    requires Idle(t) && Sound(t) && (p.seqNo == t.remoteStart ==> p.data == [])
    ensures Idle(HandleTcp(t, p, e))
  {
    if !p.urg {
      InsertBarrenIn(t, p);
      if t.connect == Tunnelled && t.remoteSeq != t.remoteStart {
        PacketLasts(t, p, e);
        PacketPort(t, p, e);
        StepAdvances(t, FromTun(p, e));
      } else if t.connect == Tunnelled && Active(t) {
        var t1 := t.(time := e.now, sendWindow := ScaledWindow(p.window, t.sendScale));
        FlagsIdle(t1, p, e);
        InsertBarrenIn(t1, p);
        if t1.socket >= 0 {
          FlagsIdle(QueueTcp(t1, p), p, e);
        }
      }
    }
  }

  lemma InsertBarrenIn(t: Tcb, p: Packet)
    requires p.seqNo == t.remoteStart ==> p.data == []
    ensures Barren(t.forward, t.remoteStart) ==> Barren(QueueTcp(t, p).forward, t.remoteStart)
  {
    if Barren(t.forward, t.remoteStart) {
      InsertBarren(t.forward, t.remoteStart, p.seqNo, p.data, p.psh);
    }
  }

  lemma SocketIdle(t: Tcb, e: SocketEvent)
    requires Idle(t) && Sound(t)
    ensures Idle(CheckSocket(t, e)) || Stranded(CheckSocket(t, e))
  {
    if t.connect == Tunnelled {
      StepPort(t, FromSocket(e));
      StepAdvances(t, FromSocket(e));
      SocketLeavesListen(t, e);
      if t.remoteSeq != t.remoteStart {
        SocketLasts(t, e);
      } else if !e.error {
        ForwardIdle(t, e);
      }
    }
  }

  lemma ForwardIdle(t: Tcb, e: SocketEvent)
    requires Idle(t) && Sound(t) && t.connect == Tunnelled && t.remoteSeq == t.remoteStart && !e.error
    ensures var t' := CheckSocket(t, e);
            && t'.accepted == []
            && if t'.remoteSeq == t.remoteStart then Barren(t'.forward, t.remoteStart)
               else t'.forward.Nil? && t'.state in {CloseWait, LastAck, Closing, Close}
  {
    var (t1, fwd) := TryForward(t, e);
    ForwardLeaves(t, e);
    ForwardBarren(t.forward, t.remoteStart, ReceiveBuffer(t, e.room), e.sends);
    assert t1.accepted == [] && t1.remoteSeq == t.remoteStart && Barren(t1.forward, t.remoteStart);
    AfterForwardHolds(t1, fwd, e);
    AfterForwardAnswers(t1, fwd, e);
    if CountsFin(t, FromSocket(e)) {
      CountedAtDrain(t, e);
    }
  }

  lemma StepIdle(t: Tcb, ev: Event)
    requires Idle(t) && Sound(t)
    requires ev.FromTun? && ev.p.seqNo == t.remoteStart ==> ev.p.data == []
    ensures Idle(Step(t, ev)) || Stranded(Step(t, ev))
  {
    match ev
    case FromTun(p, e) => PacketIdle(t, p, e);
    case FromSocket(e) => SocketIdle(t, e);
    case _ => QuietQueue(t, ev);
  }

  lemma {:induction false} RunIdle(t: Tcb, evs: seq<Event>)
    requires Idle(t) && Sound(t) && NoDataAt(evs, t.remoteStart) && Run(t, evs).connect == Tunnelled
    ensures Run(t, evs).accepted == []
    decreases |evs|
  {
    if evs != [] {
      StepIdle(t, evs[0]);
      StepSound(t, evs[0]);
      StepPort(t, evs[0]);
      if Stranded(Step(t, evs[0])) {
        StrandedForEver(Step(t, evs[0]), evs[1..]);
      } else {
        RunIdle(Step(t, evs[0]), evs[1..]);
      }
    }
  }

  /** Until a session asks for its tunnel it waits in LISTEN. */
  predicate Fresh(t: Tcb) {
    && t.dport == HTTPS && t.connect == NotSent && t.state == Listen && t.accepted == []
    && t.remoteSeq == t.remoteStart && Barren(t.forward, t.remoteStart) && t.events == Events(false, true)
  }

  lemma StepFresh(t: Tcb, ev: Event)
    requires Fresh(t) && Sound(t) && (ev.FromTun? && ev.p.seqNo == t.remoteStart ==> ev.p.data == [])
    ensures Judge(ev) == Undecided ==> Fresh(Step(t, ev)) || Stranded(Step(t, ev))
    ensures Asks(ev) ==> Idle(Step(t, ev))
  {
    match ev
    case FromTun(p, e) => InsertBarrenIn(t, p);
    case _ =>
  }

  lemma {:induction false} RunFresh(t: Tcb, evs: seq<Event>)
    requires Fresh(t) && Sound(t) && NoDataAt(evs, t.remoteStart) && AskedFirst(evs) && Run(t, evs).connect == Tunnelled
    ensures Run(t, evs).accepted == []
    decreases |evs|
  {
    StepFresh(t, evs[0]);
    StepSound(t, evs[0]);
    StepPort(t, evs[0]);
    if Stranded(Step(t, evs[0])) {
      StrandedForEver(Step(t, evs[0]), evs[1..]);
    } else if Judge(evs[0]) == Undecided {
      RunFresh(Step(t, evs[0]), evs[1..]);
    } else {
      RunIdle(Step(t, evs[0]), evs[1..]);
    }
  }

  /** A session that asks for its tunnel before it counts the SYN relays nothing through it, whatever comes, as long
      as no data comes with the number of the SYN. */
  lemma NothingThroughTunnel(p: Packet, mss: u16, scale: Scale, isn: u32, socket: nat, room: u32, now: int,
                             evs: seq<Event>)
    requires p.data == [] && NoDataAt(evs, p.seqNo) && AskedFirst(evs)
    ensures var t' := Run(NewSession(p, HTTPS, mss, scale, isn, socket, room, now), evs);
            t'.connect == Tunnelled ==> t'.accepted == []
  {
    var t := NewSession(p, HTTPS, mss, scale, isn, socket, room, now);
    if Run(t, evs).connect == Tunnelled {
      RunFresh(t, evs);
    }
  }

  /** Delivery from the SYN on: what a session with a tunnel has handed on, before the tunnel opened and through it,
      is a prefix of the stream, if the tunnel was not asked for first or no data comes with the number of the SYN. */
  lemma TunnelDelivery(p: Packet, mss: u16, scale: Scale, isn: u32, socket: nat, room: u32, now: int,
                       evs: seq<Event>, stream: seq<byte>)
    requires AllFromStream(NewSession(p, HTTPS, mss, scale, isn, socket, room, now), evs, -1, stream)
    requires !AskedFirst(evs) || (p.data == [] && NoDataAt(evs, p.seqNo))
    ensures var t := NewSession(p, HTTPS, mss, scale, isn, socket, room, now);
            var t' := Run(t, evs);
            && (t'.connect == Tunnelled ==> t'.accepted <= stream)
            && (t'.wire == t'.accepted <==> !Loses(t, evs))
  {
    var t := NewSession(p, HTTPS, mss, scale, isn, socket, room, now);
    RunWire(t, evs);
    if Run(t, evs).connect == Tunnelled {
      if AskedFirst(evs) {
        NothingThroughTunnel(p, mss, scale, isn, socket, room, now, evs);
      } else {
        NewWaits(p, mss, scale, isn, socket, room, now);
        NewLined(p, HTTPS, mss, scale, isn, socket, room, now);
        var _ := TunnelSliced(t, Undecided, -1, SynOffs(p), evs, stream);
      }
    }
  }
}
