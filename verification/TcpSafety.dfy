/** What every step of the relay keeps, for every port and every interleaving: the coupling of socket,
    state and queue, the gating of HTTPS sessions, progress of the two state machines, flow control. */
module TcpSafety {
  import opened Words
  import opened Serial
  import opened Reassembly
  import opened Windows
  import opened Tcp

  // ----- socket, state and queue

  predicate Coupled(t: Tcb) {
    && t.socket >= -1
    && (t.state in {FinWait1, LastAck, Close} ==> t.socket == -1)
    && (t.socket == -1 ==> t.state in {FinWait1, LastAck, Closing, Close})
    && (t.state in {FinWait1, LastAck} ==> t.forward.Nil?)
  }

  /** Only an HTTPS session ever waits for a tunnel, and it is not established before it has one. Queued data may
      still be handed to the proxy before: after a request that failed, or while no host name is known. */
  predicate Gated(t: Tcb) {
    && (t.dport == HTTPS && t.state in {Established, CloseWait, FinWait1, LastAck} ==> t.connect == Tunnelled)
    && (t.dport != HTTPS ==> t.connect != Requested)
  }

  predicate Sound(t: Tcb) {
    Coupled(t) && Gated(t)
  }

  // What the parts of check_tcp_socket leave alone.

  lemma ForwardLeaves(t: Tcb, e: SocketEvent)
    ensures var (t1, fwd) := TryForward(t, e);
            && t1 == t.(forward := t1.forward, remoteSeq := t1.remoteSeq, sent := t1.sent, accepted := t1.accepted,
                        wire := t1.wire)
            && (t.forward.Nil? ==> t1.forward.Nil? && !fwd)
            && (t.socket < 0 ==> !fwd)
  {
    assert !Ready(t.forward, t.remoteSeq, 0);
  }

  lemma AnnounceLeaves(t: Tcb, fwd: bool, e: SocketEvent)
    ensures var t' := Announce(t, fwd, e);
            && t' == t.(recvWindow := t'.recvWindow, remoteSeq := t'.remoteSeq, out := t'.out, time := t'.time,
                        state := t'.state)
            && (t'.state == t.state || t'.state == Closing)
            && (t.socket < 0 && !fwd ==> t'.state == t.state)
  {
    assert t.socket < 0 ==> ReceiveWindow(t.forward, 0, t.recvScale) == 0;
  }

  lemma SegmentSound(t: Tcb, p: Packet, e: PacketEnv)
    requires Sound(t) && (t.dport == HTTPS ==> t.connect == Tunnelled)
    ensures Sound(HandleSegment(t, p, e))
  {
  }

  lemma PacketSound(t: Tcb, p: Packet, e: PacketEnv)
    requires Sound(t)
    ensures Sound(HandleTcp(t, p, e))
  {
    var t1 := RequestTunnel(t, e);
    assert Sound(t1);
    if t1.dport != HTTPS || t1.connect == Tunnelled {
      SegmentSound(t1, p, e);
    }
  }

  lemma ReadSound(t: Tcb, e: SocketEvent)
    requires Sound(t) && DataState(t)
    ensures Sound(ReadSocket(t, e))
  {
  }

  lemma SocketSound(t: Tcb, e: SocketEvent)
    requires Sound(t)
    ensures Sound(CheckSocket(t, e))
  {
    if !e.error && t.state != Listen {
      var (t1, fwd) := TryForward(t, e);
      var t2 := Announce(t1, fwd, e);
      ForwardLeaves(t, e);
      AnnounceLeaves(t1, fwd, e);
      assert Sound(t2);
      if DataState(t2) {
        ReadSound(t2, e);
      }
    }
  }

  lemma PollSound(t: Tcb, m: MonitorEnv)
    requires Sound(t)
    ensures Sound(Monitor(t, m).0)
  {
  }

  lemma StepSound(t: Tcb, ev: Event)
    requires Sound(t)
    ensures Sound(Step(t, ev))
  {
    match ev
    case FromTun(p, pe) => PacketSound(t, p, pe);
    case FromSocket(se) => SocketSound(t, se);
    case Poll(m) => PollSound(t, m);
    case _ =>
  }

  lemma {:induction false} RunSound(t: Tcb, evs: seq<Event>)
    requires Sound(t)
    ensures Sound(Run(t, evs))
    decreases |evs|
  {
    if evs != [] {
      StepSound(t, evs[0]);
      RunSound(Step(t, evs[0]), evs[1..]);
    }
  }

  /** In every reachable state of every session. */
  lemma ReachableSound(p: Packet, dport: u16, mss: u16, scale: Scale, isn: u32, socket: nat, room: u32, now: int,
                       evs: seq<Event>)
    ensures Sound(Run(NewSession(p, dport, mss, scale, isn, socket, room, now), evs))
  {
    RunSound(NewSession(p, dport, mss, scale, isn, socket, room, now), evs);
  }

  // ----- progress of the two coupled machines

  function ConnectRank(c: Connect): nat {
    match c case NotSent => 0 case Requested => 1 case Tunnelled => 2
  }

  function StateRank(s: State): nat {
    match s
    case Listen => 0
    case SynRecv => 1
    case Established => 2
    case CloseWait | FinWait1 => 3
    case LastAck => 4
    case Closing => 5
    case Close => 6
  }

  /** The pair (connect_sent, state) rises lexicographically, or both stay as they are. */
  predicate Advances(t: Tcb, t': Tcb) {
    || (t.connect == t'.connect && t.state == t'.state)
    || ConnectRank(t.connect) < ConnectRank(t'.connect)
    || (t.connect == t'.connect && StateRank(t.state) < StateRank(t'.state))
  }

  lemma SegmentAdvances(t: Tcb, p: Packet, e: PacketEnv)
    requires Sound(t) && Active(t)
    ensures Advances(t, HandleSegment(t, p, e))
  {
  }

  lemma PacketAdvances(t: Tcb, p: Packet, e: PacketEnv)
    requires Sound(t)
    ensures Advances(t, HandleTcp(t, p, e))
    ensures t.state == Close ==> HandleTcp(t, p, e).state == Close
  {
    var t1 := RequestTunnel(t, e);
    assert Advances(t, t1) && (t.state == Close ==> t1.state == Close) && Sound(t1);
    if Active(t1) {
      SegmentAdvances(t1, p, e);
    }
  }

  lemma ReadAdvances(t: Tcb, e: SocketEvent)
    requires DataState(t)
    ensures Advances(t, ReadSocket(t, e))
  {
  }

  lemma SocketAdvances(t: Tcb, e: SocketEvent)
    requires Sound(t)
    ensures Advances(t, CheckSocket(t, e))
    ensures t.state == Close ==> CheckSocket(t, e).state == Close
  {
    if !e.error && t.state != Listen {
      var (t1, fwd) := TryForward(t, e);
      var t2 := Announce(t1, fwd, e);
      ForwardLeaves(t, e);
      AnnounceLeaves(t1, fwd, e);
      if DataState(t2) {
        ReadAdvances(t2, e);
      }
    }
  }

  lemma PollAdvances(t: Tcb, m: MonitorEnv)
    requires t.state != Close
    ensures Advances(t, Monitor(t, m).0)
  {
  }

  lemma StepAdvances(t: Tcb, ev: Event)
    requires Sound(t)
    ensures Advances(t, Step(t, ev))
    ensures t.state == Close ==> Step(t, ev).state == Close
  {
    match ev
    case FromTun(p, pe) => PacketAdvances(t, p, pe);
    case FromSocket(se) => SocketAdvances(t, se);
    case Poll(m) =>
      if t.socket >= 0 {
        PollAdvances(t, m);
      }
    case _ =>
  }

  /** How often a run changes the state or the tunnel state of the session. */
  ghost function Changes(t: Tcb, evs: seq<Event>): nat
    decreases |evs|
  {
    if evs == [] then 0
    else
      var t' := Step(t, evs[0]);
      (if t'.state == t.state && t'.connect == t.connect then 0 else 1) + Changes(t', evs[1..])
  }

  /** At most twenty changes, whatever happens; and a closed session stays closed. */
  lemma {:induction false} BoundedChanges(t: Tcb, evs: seq<Event>)
    requires Sound(t)
    ensures Changes(t, evs) <= 20 - 7 * ConnectRank(t.connect) - StateRank(t.state)
    ensures t.state == Close ==> Run(t, evs).state == Close
    decreases |evs|
  {
    if evs != [] {
      StepSound(t, evs[0]);
      StepAdvances(t, evs[0]);
      BoundedChanges(Step(t, evs[0]), evs[1..]);
    }
  }

  // ----- flow control

  /** Sent and not yet acknowledged. */
  function Behind(t: Tcb): u32 {
    Minus(t.localSeq, t.acked)
  }

  predicate Paced(t: Tcb) {
    DataState(t) ==> Behind(t) <= MAX_WINDOW
  }

  /** The one acknowledgement that compare_u32 places both before local_seq and after acked although it
      lies half the serial circle back. */
  predicate Antipodal(t: Tcb, ackSeq: u32) {
    ackSeq == 0 && t.localSeq == 0x8000_0000 && t.acked == 0x7FFF_FFFF
  }

  /** An older acknowledgement moves acked forward, never past local_seq, unless it is the antipodal one. */
  lemma OldAckMovesForwardIff(t: Tcb, ackSeq: u32)
    requires Behind(t) <= MAX_WINDOW && ackSeq != t.localSeq
    ensures Minus(HandleOldAck(t, ackSeq).acked, t.acked) <= Behind(t) <==> !Antipodal(t, ackSeq)
  {
    CompareByDistance(ackSeq, t.localSeq);
    CompareByDistance(ackSeq, t.acked);
  }

  predicate AckInRange(t: Tcb, ev: Event) {
    ev.FromTun? ==> !Antipodal(t, ev.p.ackSeq)
  }

  /** acked only moves forward, and stays at or behind the old and the new local_seq. */
  predicate AckedForward(t: Tcb, t': Tcb) {
    DataState(t) && DataState(t') ==>
      && Minus(t'.acked, t.acked) <= Behind(t)
      && Behind(t') <= MAX_WINDOW
  }

  lemma FlagsPaced(t: Tcb, p: Packet, e: PacketEnv)
    requires Sound(t) && Paced(t) && !Antipodal(t, p.ackSeq)
    ensures Paced(HandleFlags(t, p, e)) && AckedForward(t, HandleFlags(t, p, e))
    ensures HandleFlags(t, p, e).sendWindow == t.sendWindow
  {
    if DataState(t) && p.ackSeq != t.localSeq {
      OldAckMovesForwardIff(t, p.ackSeq);
    }
  }

  lemma SegmentPaced(t: Tcb, p: Packet, e: PacketEnv)
    requires Sound(t) && Paced(t) && !Antipodal(t, p.ackSeq)
    ensures Paced(HandleSegment(t, p, e)) && AckedForward(t, HandleSegment(t, p, e))
    ensures HandleSegment(t, p, e).sendWindow <= MAX_WINDOW
  {
    var t1 := t.(time := e.now, sendWindow := ScaledWindow(p.window, t.sendScale));
    if p.data == [] {
      FlagsPaced(t1, p, e);
    } else if t1.socket >= 0 {
      FlagsPaced(QueueTcp(t1, p), p, e);
    }
  }

  lemma PacketPaced(t: Tcb, p: Packet, e: PacketEnv)
    requires Sound(t) && Paced(t) && t.sendWindow <= MAX_WINDOW && !Antipodal(t, p.ackSeq)
    ensures Paced(HandleTcp(t, p, e)) && AckedForward(t, HandleTcp(t, p, e))
    ensures HandleTcp(t, p, e).sendWindow <= MAX_WINDOW
  {
    var t1 := RequestTunnel(t, e);
    assert DataState(t1) ==> t1 == t;
    assert t1.acked == t.acked && t1.localSeq == t.localSeq && t1.sendWindow == t.sendWindow && Sound(t1);
    SegmentPaced(t1, p, e);
  }

  /** Reading from the socket never sends more than the advertised window leaves, and the window
      computed there is the exact one: the fallback of get_send_window is unreachable. */
  lemma ReadWithinWindow(t: Tcb, e: SocketEvent)
    requires DataState(t) && Paced(t) && t.sendWindow <= MAX_WINDOW
    ensures CompareU32(t.acked, t.localSeq) <= 0
    ensures var t' := ReadSocket(t, e);
            && Paced(t') && t'.acked == t.acked
            && (t'.received != t.received && t'.localSeq != t.localSeq ==> Behind(t') <= t.sendWindow)
  {
    SendWindowExact(t.acked, t.localSeq, t.sendWindow);
  }

  lemma SocketPaced(t: Tcb, e: SocketEvent)
    requires Sound(t) && Paced(t) && t.sendWindow <= MAX_WINDOW
    ensures Paced(CheckSocket(t, e)) && AckedForward(t, CheckSocket(t, e))
    ensures CheckSocket(t, e).sendWindow == t.sendWindow
    ensures DataState(t) && CheckSocket(t, e).received != t.received && CheckSocket(t, e).localSeq != t.localSeq ==>
              Behind(CheckSocket(t, e)) <= t.sendWindow
  {
    if !e.error && t.state != Listen {
      var (t1, fwd) := TryForward(t, e);
      var t2 := Announce(t1, fwd, e);
      ForwardLeaves(t, e);
      AnnounceLeaves(t1, fwd, e);
      if DataState(t2) {
        ReadWithinWindow(t2, e);
      }
    }
  }

  lemma PollPaced(t: Tcb, m: MonitorEnv)
    ensures var t' := Monitor(t, m).0;
            t'.acked == t.acked && t'.localSeq == t.localSeq && t'.sendWindow == t.sendWindow &&
              (DataState(t') ==> DataState(t))
  {
  }

  lemma StepPaced(t: Tcb, ev: Event)
    requires Sound(t) && Paced(t) && t.sendWindow <= MAX_WINDOW && AckInRange(t, ev)
    ensures Paced(Step(t, ev)) && Step(t, ev).sendWindow <= MAX_WINDOW
    ensures AckedForward(t, Step(t, ev))
  {
    match ev
    case FromTun(p, pe) =>
      PacketPaced(t, p, pe);
    case FromSocket(se) =>
      SocketPaced(t, se);
    case Poll(m) =>
      PollPaced(t, m);
    case _ =>
  }

  ghost predicate AcksInRange(t: Tcb, evs: seq<Event>)
    decreases |evs|
  {
    evs != [] ==> AckInRange(t, evs[0]) && AcksInRange(Step(t, evs[0]), evs[1..])
  }

  lemma {:induction false} RunPaced(t: Tcb, evs: seq<Event>)
    requires Sound(t) && Paced(t) && t.sendWindow <= MAX_WINDOW && AcksInRange(t, evs)
    ensures Paced(Run(t, evs)) && Run(t, evs).sendWindow <= MAX_WINDOW
    decreases |evs|
  {
    if evs != [] {
      StepSound(t, evs[0]);
      StepPaced(t, evs[0]);
      RunPaced(Step(t, evs[0]), evs[1..]);
    }
  }

  /** One antipodal acknowledgement does move acked back, by half the circle. */
  lemma AntipodalAckMovesBack(t: Tcb)
    requires t.state == Established && t.localSeq == 0x8000_0000 && t.acked == 0x7FFF_FFFF
    ensures HandleOldAck(t, 0).acked == 0 && Behind(HandleOldAck(t, 0)) == 0x8000_0000
  {
  }

  /** From the SYN on, for every port. */
  lemma PacedFromSyn(p: Packet, dport: u16, mss: u16, scale: Scale, isn: u32, socket: nat, room: u32, now: int,
                     evs: seq<Event>)
    requires AcksInRange(NewSession(p, dport, mss, scale, isn, socket, room, now), evs)
    ensures Paced(Run(NewSession(p, dport, mss, scale, isn, socket, room, now), evs))
  {
    RunPaced(NewSession(p, dport, mss, scale, isn, socket, room, now), evs);
  }

  // ----- flow control on a machine whose subtraction wraps

  function SendWindowOnMachine(acked: u32, localSeq: u32, window: u32): u32 {
    var behind := if CompareWrapped(acked, localSeq) <= 0 then Minus(localSeq, acked) else acked;
    if behind < window then window - behind else 0
  }

  function HandleOldAckOnMachine(t: Tcb, ack: u32): Tcb {
    if Plus(ack, 1) == t.localSeq then t
    else if CompareWrapped(ack, t.localSeq) < 0 then
      if CompareWrapped(ack, t.acked) <= 0 then t else t.(acked := ack)
    else WriteRst(t)
  }

  /** The unacknowledged bytes reach from the lower half of the sequence numbers into the upper. */
  predicate Crosses(acked: u32, localSeq: u32) {
    acked < 0x8000_0000 <= localSeq
  }

  /** There get_send_window takes its fallback, exactly while the unacknowledged bytes cross the middle. */
  lemma FallbackOnMachineIff(acked: u32, localSeq: u32, window: u32)
    requires Minus(localSeq, acked) <= MAX_WINDOW
    ensures CompareWrapped(acked, localSeq) > 0 <==> Crosses(acked, localSeq)
    ensures !Crosses(acked, localSeq) ==>
            SendWindowOnMachine(acked, localSeq, window) == SendWindow(acked, localSeq, window)
  {
  }

  /** And an acknowledgement of a part of what is unacknowledged is handled as it should be exactly if the
      unacknowledged bytes do not cross the middle: otherwise it is reset as a future one, or ignored. */
  lemma OldAckOnMachineIff(t: Tcb, ack: u32)
    requires Behind(t) <= MAX_WINDOW && Minus(ack, t.acked) < Behind(t) && Plus(ack, 1) != t.localSeq
    ensures HandleOldAckOnMachine(t, ack) == HandleOldAck(t, ack) <==> !Crosses(t.acked, t.localSeq)
    ensures Crosses(t.acked, t.localSeq) ==>
              HandleOldAckOnMachine(t, ack) == if ack < 0x8000_0000 then WriteRst(t) else t
  {
    assert WriteRst(t).out != t.out;
  }

  /** The acknowledgement that moves acked back there: the one INT_MAX before acked, if something is unacknowledged
      and does not cross the middle. */
  lemma OldAckOnMachineMovesForwardIff(t: Tcb, ack: u32)
    requires Behind(t) <= MAX_WINDOW && ack != t.localSeq
    ensures Minus(HandleOldAckOnMachine(t, ack).acked, t.acked) <= Behind(t) <==>
            !(Signed(t.acked) - Signed(ack) == 0x7FFF_FFFF && Signed(t.acked) < Signed(t.localSeq) &&
              Plus(ack, 1) != t.localSeq)
  {
  }

  /** The antipodal acknowledgement is reset there. */
  lemma AntipodalAckReset(t: Tcb, ack: u32)
    requires Antipodal(t, ack)
    ensures HandleOldAckOnMachine(t, ack) == WriteRst(t)
  {
  }
}
