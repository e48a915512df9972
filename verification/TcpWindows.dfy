/** Both windows of a session over its runs: the send window is the one its peer advertised last, data stays within it,
    and what the relay announces of its receive window is honest when it is written. */
module TcpWindows {
  import opened Words
  import opened Serial
  import opened Lists
  import opened Reassembly
  import opened Windows
  import opened Tcp
  import opened TcpSafety
  import opened TcpAcks
  import opened TcpFlags
  import opened TcpReads

  function Pow2(n: nat): nat {
    if n == 0 then 1 else 2 * Pow2(n - 1)
  }

  lemma {:induction false} ShlIsProduct(x: nat, s: nat)
    ensures Shl(x, s) == x * Pow2(s)
  {
    if s > 0 {
      ShlIsProduct(x, s - 1);
      assert x * Pow2(s) == 2 * (x * Pow2(s - 1));
    }
  }

  // ----- the window the peer advertises

  /** The handler looks at the window of the packet. */
  predicate Heeds(t: Tcb, ev: Event) {
    ev.FromTun? && LooksAt(t, ev.p) && Active(t)
  }

  /** The window advertised last, w before the run: the field of the header times two to the scale of the SYN. */
  function Advertised(w: nat, scale: nat, t: Tcb, evs: seq<Event>): nat
    decreases |evs|
  {
    if evs == [] then w
    else Advertised(if Heeds(t, evs[0]) then evs[0].p.window * Pow2(scale) else w, scale, Step(t, evs[0]), evs[1..])
  }

  lemma FlagsWindow(t: Tcb, p: Packet, e: PacketEnv)
    ensures HandleFlags(t, p, e).sendWindow == t.sendWindow && HandleFlags(t, p, e).sendScale == t.sendScale
    ensures HandleFlags(t, p, e).mss == t.mss
  {
  }

  lemma PacketWindow(t: Tcb, p: Packet, e: PacketEnv)
    ensures var t' := HandleTcp(t, p, e);
            && t'.sendScale == t.sendScale && t'.mss == t.mss
            && t'.sendWindow == if LooksAt(t, p) && Active(t) then p.window * Pow2(t.sendScale) else t.sendWindow
  {
    ShlIsProduct(p.window, t.sendScale);
    var t1 := t.(time := e.now, sendWindow := ScaledWindow(p.window, t.sendScale));
    FlagsWindow(t1, p, e);
    FlagsWindow(QueueTcp(t1, p), p, e);
    if LooksAt(t, p) {
      assert RequestTunnel(t, e) == t;
    }
  }

  lemma SocketWindow(t: Tcb, e: SocketEvent)
    ensures CheckSocket(t, e).sendWindow == t.sendWindow && CheckSocket(t, e).sendScale == t.sendScale
    ensures CheckSocket(t, e).mss == t.mss
  {
    if !e.error && t.state != Listen {
      var (t1, fwd) := TryForward(t, e);
      ForwardLeaves(t, e);
      AnnounceLeaves(t1, fwd, e);
      ReadWindow(Announce(t1, fwd, e), e);
    }
  }

  lemma ReadWindow(t: Tcb, e: SocketEvent)
    ensures ReadSocket(t, e).sendWindow == t.sendWindow && ReadSocket(t, e).sendScale == t.sendScale
    ensures ReadSocket(t, e).mss == t.mss
  {
  }

  /** A step takes the window of the packet it looks at, and none else touches it. */
  lemma StepWindow(t: Tcb, ev: Event)
    ensures var t' := Step(t, ev);
            && t'.sendScale == t.sendScale && t'.mss == t.mss
            && t'.sendWindow == if Heeds(t, ev) then ev.p.window * Pow2(t.sendScale) else t.sendWindow
  {
    match ev
    case FromTun(p, e) => PacketWindow(t, p, e);
    case FromSocket(e) => SocketWindow(t, e);
    case _ =>
  }

  lemma {:induction false} RunWindow(t: Tcb, evs: seq<Event>)
    ensures Run(t, evs).sendWindow == Advertised(t.sendWindow, t.sendScale, t, evs) && Run(t, evs).mss == t.mss
    decreases |evs|
  {
    if evs != [] {
      StepWindow(t, evs[0]);
      RunWindow(Step(t, evs[0]), evs[1..]);
    }
  }

  /** From the SYN on the send window is the one its peer advertised last. */
  lemma AdvertisedFromSyn(p: Packet, dport: u16, mss: u16, scale: Scale, isn: u32, socket: nat, room: u32, now: int,
                          evs: seq<Event>)
    ensures var t := NewSession(p, dport, mss, scale, isn, socket, room, now);
            Run(t, evs).sendWindow == Advertised(p.window * Pow2(scale), scale, t, evs) && Run(t, evs).mss == mss
  {
    ShlIsProduct(p.window, scale);
    RunWindow(NewSession(p, dport, mss, scale, isn, socket, room, now), evs);
  }

  /** A socket that is read is read for what the window leaves and a packet holds. */
  lemma TakesWhatFits(t: Tcb, e: SocketEvent)
    requires Sound(t) && Paced(t) && t.sendWindow <= MAX_WINDOW && Taken(t, FromSocket(e)) != []
    ensures Behind(t) < t.sendWindow
    ensures |Taken(t, FromSocket(e))| == Min(|Answer(e)|, Min(t.sendWindow - Behind(t), t.mss))
    ensures Behind(CheckSocket(t, e)) <= t.sendWindow
  {
    SendWindowExact(t.acked, t.localSeq, t.sendWindow);
    var (t1, fwd) := TryForward(t, e);
    ForwardLeaves(t, e);
    AnnounceSpoke(t1, fwd, e);
    AnnounceLeaves(t1, fwd, e);
    ReadMoves(Announce(t1, fwd, e), e);
  }

  lemma ReadMoves(t: Tcb, e: SocketEvent)
    requires DataState(t)
    ensures var t' := ReadSocket(t, e);
            t'.acked == t.acked && (t'.received > t.received ==>
              t'.localSeq == t.localSeq || t'.localSeq == Plus(t.localSeq, Min(|Answer(e)|, Size(t))))
  {
  }

  /** If data is read, then as much as is there, fits the packet and is left of the window, and no more than the window
      is unacknowledged after it. */
  predicate Within(t: Tcb, e: SocketEvent, window: nat, mss: u16) {
    var t' := CheckSocket(t, e);
    t'.received > t.received ==>
      && Behind(t') <= window
      && t'.received - t.received == Min(|Answer(e)|, Min(window - Behind(t), mss))
  }

  lemma ReadsWithin(t: Tcb, e: SocketEvent)
    requires Sound(t) && Paced(t) && t.sendWindow <= MAX_WINDOW
    ensures Within(t, e, t.sendWindow, t.mss)
  {
    StepTakes(t, FromSocket(e));
    if Taken(t, FromSocket(e)) != [] {
      TakesWhatFits(t, e);
    }
  }

  /** Flow control from the SYN on, for every port: data stays within the window the peer advertised last, unless it
      sent the antipodal acknowledgement before. */
  lemma WithinAdvertised(p: Packet, dport: u16, mss: u16, scale: Scale, isn: u32, socket: nat, room: u32, now: int,
                         evs: seq<Event>, e: SocketEvent)
    requires AcksInRange(NewSession(p, dport, mss, scale, isn, socket, room, now), evs)
    ensures var t := NewSession(p, dport, mss, scale, isn, socket, room, now);
            Within(Run(t, evs), e, Advertised(p.window * Pow2(scale), scale, t, evs), mss)
  {
    var t := NewSession(p, dport, mss, scale, isn, socket, room, now);
    RunSound(t, evs);
    RunPaced(t, evs);
    AdvertisedFromSyn(p, dport, mss, scale, isn, socket, room, now, evs);
    ReadsWithin(Run(t, evs), e);
  }

  // ----- what an acknowledgement moves

  /** The packet acknowledges everything, or a part of what is unacknowledged but for its last byte, which stands for a
      keep-alive; and nothing else comes first. */
  predicate Moves(t: Tcb, p: Packet) {
    && p.ack && !p.rst && !(p.data != [] && t.state == CloseWait)
    && if p.ackSeq == t.localSeq then !p.syn && !p.fin
       else Plus(p.ackSeq, 1) != t.localSeq && 0 < Minus(p.ackSeq, t.acked) < Behind(t)
  }

  lemma OldAckTaken(t: Tcb, ack: u32)
    requires Behind(t) <= MAX_WINDOW && ack != t.localSeq && !Antipodal(t, ack)
    ensures HandleOldAck(t, ack).acked ==
            if Plus(ack, 1) != t.localSeq && 0 < Minus(ack, t.acked) < Behind(t) then ack else t.acked
  {
    CompareByDistance(ack, t.localSeq);
    CompareByDistance(ack, t.acked);
  }

  /** acked follows the acknowledgements of the peer. */
  lemma AckTaken(t: Tcb, p: Packet, e: PacketEnv)
    requires DataState(t) && Sound(t) && Behind(t) <= MAX_WINDOW && LooksAt(t, p) && !Antipodal(t, p.ackSeq)
    ensures HandleTcp(t, p, e).acked == if Moves(t, p) then p.ackSeq else t.acked
  {
    assert RequestTunnel(t, e) == t && t.socket >= 0;
    var t1 := t.(time := e.now, sendWindow := ScaledWindow(p.window, t.sendScale));
    FlagsTake(t1, p, e);
    FlagsTake(QueueTcp(t1, p), p, e);
  }

  lemma FlagsTake(t: Tcb, p: Packet, e: PacketEnv)
    requires DataState(t) && Behind(t) <= MAX_WINDOW && !Antipodal(t, p.ackSeq)
    ensures HandleFlags(t, p, e).acked ==
            if p.ack && !p.rst && (if p.ackSeq == t.localSeq then !p.syn && !p.fin
                                   else Plus(p.ackSeq, 1) != t.localSeq && 0 < Minus(p.ackSeq, t.acked) < Behind(t))
            then p.ackSeq else t.acked
  {
    if p.ackSeq != t.localSeq {
      OldAckTaken(t, p.ackSeq);
    }
  }

  // ----- the window announced

  /** Packets that announce this window. */
  ghost predicate Announcing(out: seq<Emitted>, out': seq<Emitted>, window: u32, s: Scale) {
    |out| <= |out'| && forall i :: |out| <= i < |out'| ==> out'[i].window == WindowField(window, s)
  }

  lemma FlagsAnnounce(t: Tcb, p: Packet, e: PacketEnv)
    ensures var t' := HandleFlags(t, p, e);
            && Announcing(t.out, t'.out, t.recvWindow, t.recvScale) && t'.recvWindow == t.recvWindow
            && t'.recvScale == t.recvScale
  {
  }

  lemma RstAnnounces(t: Tcb)
    ensures var t' := WriteRst(t);
            && Announcing(t.out, t'.out, t.recvWindow, t.recvScale) && t'.recvWindow == t.recvWindow
            && t'.recvScale == t.recvScale
  {
  }

  lemma SegmentAnnounces(t: Tcb, p: Packet, e: PacketEnv)
    ensures var t' := HandleSegment(t, p, e);
            && Announcing(t.out, t'.out, t.recvWindow, t.recvScale) && t'.recvWindow == t.recvWindow
            && t'.recvScale == t.recvScale
  {
    var t1 := t.(time := e.now, sendWindow := ScaledWindow(p.window, t.sendScale));
    RstAnnounces(t1);
    FlagsAnnounce(t1, p, e);
    FlagsAnnounce(QueueTcp(t1, p), p, e);
  }

  lemma PacketAnnounces(t: Tcb, p: Packet, e: PacketEnv)
    ensures var t' := HandleTcp(t, p, e);
            && Announcing(t.out, t'.out, t.recvWindow, t.recvScale) && t'.recvWindow == t.recvWindow
            && t'.recvScale == t.recvScale
  {
    RstAnnounces(t);
    if !p.urg && !(t.dport == HTTPS && t.connect != Tunnelled) {
      assert RequestTunnel(t, e) == t;
      SegmentAnnounces(t, p, e);
    }
  }

  lemma ReadAnnounces(t: Tcb, e: SocketEvent)
    requires DataState(t)
    ensures var t' := ReadSocket(t, e);
            && Announcing(t.out, t'.out, t.recvWindow, t.recvScale) && t'.recvWindow == t.recvWindow
            && t'.recvScale == t.recvScale && t.out <= t'.out && t'.forward == t.forward
  {
  }

  lemma AcknowledgeAnnounces(t: Tcb, fwd: bool, e: SocketEvent)
    ensures var t' := Announce(t, fwd, e);
            && t'.recvWindow == ReceiveWindow(t.forward, ReceiveBuffer(t, e.room2), t.recvScale)
            && Announcing(t.out, t'.out, t'.recvWindow, t.recvScale)
            && t'.recvScale == t.recvScale && t.out <= t'.out && t'.forward == t.forward
  {
  }

  /** What a socket event writes announces the receive window of the queue it leaves and the free socket buffer. */
  lemma ServeAnnounces(t: Tcb, e: SocketEvent)
    requires t.state != Listen && !e.error
    ensures var t' := CheckSocket(t, e);
            && t'.recvWindow == ReceiveWindow(t'.forward, ReceiveBuffer(t, e.room2), t.recvScale)
            && Announcing(t.out, t'.out, t'.recvWindow, t.recvScale) && t'.recvScale == t.recvScale
  {
    var (t1, fwd) := TryForward(t, e);
    ForwardLeaves(t, e);
    AcknowledgeAnnounces(t1, fwd, e);
    AnnounceLeaves(t1, fwd, e);
    var t2 := Announce(t1, fwd, e);
    if DataState(t2) {
      ReadAnnounces(t2, e);
      assert forall i :: |t.out| <= i < |t2.out| ==> CheckSocket(t, e).out[i] == t2.out[i];
    }
  }

  lemma ListenAnnounces(t: Tcb, e: SocketEvent)
    requires t.state == Listen || e.error
    ensures var t' := CheckSocket(t, e);
            && Announcing(t.out, t'.out, t.recvWindow, t.recvScale) && t'.recvWindow == t.recvWindow
            && t'.recvScale == t.recvScale
  {
  }

  lemma QuietAnnounces(t: Tcb, ev: Event)
    requires ev.Poll? || ev.Timer? || ev.Terminate?
    ensures var t' := Step(t, ev);
            && Announcing(t.out, t'.out, t.recvWindow, t.recvScale) && t'.recvWindow == t.recvWindow
            && t'.recvScale == t.recvScale
  {
  }

  /** The window of every packet is the one computed last. */
  lemma StepAnnounces(t: Tcb, ev: Event)
    ensures var t' := Step(t, ev);
            && Announcing(t.out, t'.out, t'.recvWindow, t.recvScale) && t'.recvScale == t.recvScale
            && (t'.recvWindow != t.recvWindow ==> ev.FromSocket? && !ev.se.error && t.state != Listen)
  {
    match ev
    case FromTun(p, e) => PacketAnnounces(t, p, e);
    case FromSocket(e) =>
      if !e.error && t.state != Listen {
        ServeAnnounces(t, e);
      } else {
        ListenAnnounces(t, e);
      }
    case _ => QuietAnnounces(t, ev);
  }

  /** A window that together with the queued bytes fits the socket buffer, and leaves out less than one unit of the
      scale of what is free and the header field can say. */
  predicate Tells(decoded: nat, queued: nat, room: nat, scale: nat) {
    && (decoded > 0 ==> decoded + queued <= room)
    && decoded + queued + Pow2(scale) > Min(room, 0xFFFF * Pow2(scale))
  }

  lemma WindowTells(q: Queue, room: u32, s: Scale)
    requires Queued(q) < 0x1_0000_0000
    ensures Tells(WindowField(ReceiveWindow(q, room, s), s) * Pow2(s), Queued(q), room, s)
  {
    WindowIsHonest(q, room, s);
    WindowIsGenerous(q, room, s);
    ShlIsProduct(WindowField(ReceiveWindow(q, room, s), s), s);
    ShlIsProduct(0xFFFF, s);
    ShlIsProduct(1, s);
    PowerPositive(WindowField(ReceiveWindow(q, room, s), s), s);
  }

  /** A packet written while a connected session is served announces what is free: with the bytes that stay queued it
      fits the socket buffer, and it leaves out less than one unit of the scale. */
  lemma AnnouncedIsHonest(t: Tcb, e: SocketEvent, i: nat)
    requires t.state != Listen && !e.error && |t.out| <= i < |CheckSocket(t, e).out|
    ensures var t' := CheckSocket(t, e);
            var decoded := t'.out[i].window * Pow2(t.recvScale);
            && (decoded > 0 ==> decoded + W(Queued(t'.forward)) <= ReceiveBuffer(t, e.room2))
            && (Queued(t'.forward) < 0x1_0000_0000 ==>
                  Tells(decoded, Queued(t'.forward), ReceiveBuffer(t, e.room2), t.recvScale))
            && (decoded == 0 <==> t'.recvWindow == 0)
  {
    var t' := CheckSocket(t, e);
    ServeAnnounces(t, e);
    WindowIsHonest(t'.forward, ReceiveBuffer(t, e.room2), t.recvScale);
    if Queued(t'.forward) < 0x1_0000_0000 {
      WindowTells(t'.forward, ReceiveBuffer(t, e.room2), t.recvScale);
    }
    ShlIsProduct(t'.out[i].window, t.recvScale);
    PowerPositive(t'.out[i].window, t.recvScale);
  }

  lemma {:induction false} PowerPositive(x: nat, n: nat)
    ensures Pow2(n) >= 1 && (x * Pow2(n) == 0 <==> x == 0)
  {
    if n > 0 {
      PowerPositive(x, n - 1);
    }
  }

  /** A window that opens again is announced at once. */
  lemma ReopeningIsTold(t: Tcb, e: SocketEvent) returns (i: nat)
    requires Sound(t) && t.recvWindow == 0 && CheckSocket(t, e).recvWindow > 0
    ensures |t.out| <= i < |CheckSocket(t, e).out|
    ensures CheckSocket(t, e).out[i].ack && CheckSocket(t, e).out[i].window > 0
  {
    i := |t.out|;
    StepAnnounces(t, FromSocket(e));
    ServeSpoke(t, e);
    ServeAnnounces(t, e);
    var t' := CheckSocket(t, e);
    var (t1, fwd) := TryForward(t, e);
    ForwardLeaves(t, e);
    AcknowledgeAnnounces(t1, fwd, e);
    ServeForward(t, e);
    assert Announces(t, e);
    assert SocketKinds(t, e)[0] == Ack && t'.out[|t.out|..][0] == t'.out[i];
    AnnouncedIsHonest(t, e, i);
  }

  lemma ServeForward(t: Tcb, e: SocketEvent)
    requires t.state != Listen && !e.error
    ensures CheckSocket(t, e).forward == TryForward(t, e).0.forward
  {
    var (t1, fwd) := TryForward(t, e);
    AnnounceLeaves(t1, fwd, e);
    if DataState(Announce(t1, fwd, e)) {
      ReadAnnounces(Announce(t1, fwd, e), e);
    }
  }

  /** The answer to the SYN announces what was free when the session was created, data on the SYN included. */
  lemma SynAckIsHonest(p: Packet, dport: u16, mss: u16, scale: Scale, isn: u32, socket: nat, room: u32, now: int,
                       connected: SocketEvent)
    requires !connected.error && !connected.input
    ensures var t := CheckSocket(NewSession(p, dport, mss, scale, isn, socket, room, now), connected);
            |t.out| == 1 && Tells(t.out[0].window * Pow2(scale), |p.data|, room, scale)
  {
    var queue := if p.data == [] then Nil else Cons(Segment(p.seqNo, p.data, 0, p.psh), Nil);
    assert Queued(queue) == |p.data|;
    WindowTells(queue, room, scale);
  }
}
