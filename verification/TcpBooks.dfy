/** The books of a session: both sequence numbers in closed form and the data written to the tun device, for
    every run, whatever the segments contain and wherever they lie. */
module TcpBooks {
  import opened Words
  import opened Serial
  import opened Reassembly
  import opened Windows
  import opened Tcp
  import opened TcpSafety

  /** Sessions that do not wait for an HTTPS tunnel. */
  predicate Direct(t: Tcb) {
    t.connect == Tunnelled || (t.dport != HTTPS && t.connect == NotSent)
  }

  /** Sequence number of the first byte after the peer's SYN, and after ours. */
  function First(t: Tcb): u32 {
    Plus(t.remoteStart, 1)
  }

  function LocalFirst(t: Tcb): u32 {
    Plus(t.localStart, 1)
  }

  /** The peer's FIN is counted in remote_seq: once the queue has drained. */
  function FinIn(t: Tcb): nat {
    if t.state in {CloseWait, LastAck} && t.forward.Nil? then 1 else 0
  }

  /** Our FIN is counted in local_seq. */
  function FinOut(t: Tcb): nat {
    if t.state in {FinWait1, LastAck} then 1 else 0
  }

  // ----- data written to the tun device

  function DataOf(out: seq<Emitted>): seq<byte> {
    if out == [] then [] else DataOf(out[..|out| - 1]) + out[|out| - 1].data
  }

  /** Every data packet carries the sequence number of its place in the data written so far. */
  ghost predicate Tiled(out: seq<Emitted>, first: u32) {
    out != [] ==>
      var n := |out| - 1;
      Tiled(out[..n], first) && (out[n].data != [] ==> out[n].seqNo == At(first, |DataOf(out[..n])|))
  }

  lemma TiledAppend(out: seq<Emitted>, e: Emitted, first: u32)
    requires Tiled(out, first) && (e.data != [] ==> e.seqNo == At(first, |DataOf(out)|))
    ensures Tiled(out + [e], first) && DataOf(out + [e]) == DataOf(out) + e.data
  {
    assert (out + [e])[..|out|] == out;
  }

  // ----- the books

  predicate Open(t: Tcb) {
    t.state in {SynRecv, Established, CloseWait, FinWait1, LastAck}
  }

  /** Both sequence numbers in closed form: each SYN and each FIN is counted exactly once. */
  predicate ClosedForm(t: Tcb) {
    && t.remoteSeq == W(t.remoteStart + 1 + (t.sent + FinIn(t)))
    && t.localSeq == W(t.localStart + 1 + (t.received + FinOut(t)))
    && t.sent == |t.accepted| && t.received == |DataOf(t.out)|
  }

  /** Nothing has been counted or written yet. */
  predicate Blank(t: Tcb) {
    && t.remoteSeq == t.remoteStart && t.localSeq == t.localStart
    && t.accepted == [] && t.sent == 0 && t.received == 0 && DataOf(t.out) == []
  }

  /** Both numbers in an open state: a and b are 0 if the SYN of that side is counted and -1 if it is not, and
      fin tells whether the peer's FIN is. */
  ghost predicate Balanced(t: Tcb, a: int, b: int, fin: nat) {
    && t.remoteSeq == At(First(t), |t.accepted| + a + fin)
    && (fin > 0 ==> t.forward.Nil?)
    && t.localSeq == At(LocalFirst(t), t.received + b + FinOut(t))
    && t.sent == |t.accepted| && t.received == |DataOf(t.out)|
  }

  ghost predicate Kept(t: Tcb, a: int, b: int) {
    && Direct(t) && -1 <= b <= a <= 0
    && Tiled(t.out, At(LocalFirst(t), b))
    && match t.state
       case Listen => a == b == 0 && t.dport != HTTPS && Blank(t) && t.events == Events(false, true)
       case Closing | Close => true
       case _ => Balanced(t, a, b, FinIn(t))
  }

  lemma AtWord(start: u32, n: int)
    ensures At(Plus(start, 1), n) == W(start + 1 + n)
  {
    AtIsSum(Plus(start, 1), n);
    PlusWraps(start, 1);
    WrapAbsorbs(start + 1, n);
  }

  lemma AtAt(first: u32, b: int, n: int)
    ensures At(At(first, b), n) == At(first, b + n)
  {
    AtIsSum(first, b);
    AtIsSum(At(first, b), n);
    AtIsSum(first, b + n);
    WrapAbsorbs(first + b, n);
  }

  /** An open session has the closed form exactly if our SYN was counted. */
  lemma ClosedFormIff(t: Tcb, a: int, b: int)
    requires Kept(t, a, b) && Open(t) && (b == 0 ==> a == 0)
    ensures ClosedForm(t) <==> b == 0
  {
    AtWord(t.remoteStart, t.sent + a + FinIn(t));
    AtWord(t.localStart, t.received + b + FinOut(t));
    var n := t.localStart + 1 + t.received + FinOut(t);
    if b == -1 && W(n) == W(n - 1) {
      WrapInjective(0, n, n - 1);
    }
  }

  // ----- every step keeps the books

  lemma BlankAtSyn(t: Tcb)
    requires Blank(t)
    ensures t.remoteSeq == At(First(t), -1) && t.localSeq == At(LocalFirst(t), -1)
    ensures Plus(t.remoteSeq, 1) == At(First(t), 0) && Plus(t.localSeq, 1) == At(LocalFirst(t), 0)
  {
  }

  lemma EmitKept(t: Tcb, first: u32, syn: bool, ack: bool, fin: bool, rst: bool)
    requires Tiled(t.out, first)
    ensures Tiled(Emit(t, syn, ack, fin, rst, []).out, first)
    ensures DataOf(Emit(t, syn, ack, fin, rst, []).out) == DataOf(t.out)
  {
    var e := Emitted(t.localSeq, if ack then t.remoteSeq else 0, syn, ack, fin, rst,
                     WindowField(t.recvWindow, t.recvScale), []);
    TiledAppend(t.out, e, first);
  }

  /** The books do not look at windows, clocks or poll events. */
  lemma SameKept(t: Tcb, t': Tcb, a: int, b: int)
    requires Kept(t, a, b)
    requires t' == t.(acked := t'.acked, recvWindow := t'.recvWindow, sendWindow := t'.sendWindow,
                      time := t'.time, lastKeepAlive := t'.lastKeepAlive, events := t'.events)
    requires t.state == Listen ==> t'.events == t.events
    ensures Kept(t', a, b)
  {
  }

  lemma ClosingKept(t: Tcb, a: int, b: int)
    requires Kept(t, a, b)
    ensures Kept(t.(state := Closing), a, b)
  {
  }

  /** Writing a packet without data. */
  lemma WriteKept(t: Tcb, t': Tcb, a: int, b: int, ok: bool, e: Emitted)
    requires Kept(t, a, b) && e.data == []
    requires t' == t.(out := t.out + [e], state := if ok then t.state else Closing)
    ensures Kept(t', a, b)
  {
    TiledAppend(t.out, e, At(LocalFirst(t), b));
    ClosingKept(t, a, b);
  }

  lemma RstKept(t: Tcb, a: int, b: int)
    requires Kept(t, a, b)
    ensures Kept(WriteRst(t), a, b)
  {
    var first := At(LocalFirst(t), b);
    if t.state == Listen {
      EmitKept(t.(remoteSeq := Plus(t.remoteSeq, 1)), first, false, true, false, true);
    } else {
      EmitKept(t, first, false, false, false, true);
    }
  }

  /** The peer's FIN is counted with nothing queued: on the way to CLOSE_WAIT, or out of the open states. */
  lemma CountedFinKept(t: Tcb, a: int, b: int, state: State)
    requires Kept(t, a, b) && t.state in {Established, FinWait1} && t.forward.Nil?
    requires state in {Closing, Close} || (t.state == Established && state == CloseWait)
    ensures Kept(Emit(t.(remoteSeq := Plus(t.remoteSeq, 1)), false, true, false, false, []).(state := state), a, b)
  {
    var t1 := t.(remoteSeq := Plus(t.remoteSeq, 1));
    EmitKept(t1, At(LocalFirst(t), b), false, true, false, false);
    AtPlus(First(t), |t.accepted| + a, 1);
  }

  lemma FinKept(t: Tcb, a: int, b: int, ok: bool)
    requires Kept(t, a, b) && Sound(t)
    ensures Kept(HandleFin(t, ok), a, b)
  {
    if t.state in {Established, FinWait1} && t.forward.Nil? {
      CountedFinKept(t, a, b, Closing);
      CountedFinKept(t, a, b, if t.state == Established then CloseWait else Close);
    }
  }

  lemma AckKept(t: Tcb, a: int, b: int, ackSeq: u32)
    requires Kept(t, a, b) && Sound(t)
    ensures Kept(HandleAck(t, ackSeq), a, b)
    ensures Kept(HandleOldAck(t, ackSeq), a, b)
  {
    var t1 := t.(acked := ackSeq);
    SameKept(t, t1, a, b);
    ClosingKept(t1, a, b);
    RstKept(t, a, b);
    if t.state == SynRecv {
      assert Kept(t1.(state := Established), a, b);
    } else {
      assert HandleAck(t, ackSeq) == if t.state == LastAck then t1.(state := Closing) else t1;
    }
  }

  lemma FlagsKept(t: Tcb, a: int, b: int, p: Packet, e: PacketEnv)
    requires Kept(t, a, b) && Sound(t)
    ensures Kept(HandleFlags(t, p, e), a, b)
  {
    FinKept(t, a, b, e.writeOk);
    AckKept(t, a, b, p.ackSeq);
    ClosingKept(t, a, b);
  }

  lemma SegmentKept(t: Tcb, a: int, b: int, p: Packet, e: PacketEnv)
    requires Kept(t, a, b) && Sound(t)
    ensures Kept(HandleSegment(t, p, e), a, b)
  {
    var t1 := t.(time := e.now, sendWindow := ScaledWindow(p.window, t.sendScale));
    SameKept(t, t1, a, b);
    if p.data == [] {
      FlagsKept(t1, a, b, p, e);
    } else if t1.socket < 0 || t1.state == CloseWait {
      RstKept(t1, a, b);
    } else {
      assert Kept(QueueTcp(t1, p), a, b);
      FlagsKept(QueueTcp(t1, p), a, b, p, e);
    }
  }

  lemma PacketKept(t: Tcb, a: int, b: int, p: Packet, e: PacketEnv)
    requires Kept(t, a, b) && Sound(t)
    ensures Kept(HandleTcp(t, p, e), a, b)
  {
    if !p.urg {
      assert RequestTunnel(t, e) == t;
      RstKept(t, a, b);
      SegmentKept(t, a, b, p, e);
    }
  }

  lemma ConnectedKept(t: Tcb, a: int, b: int, e: SocketEvent)
    requires Kept(t, a, b) && t.state == Listen
    ensures Kept(Connected(t, e), a, b)
  {
    BlankAtSyn(t);
    RstKept(t, a, b);
    EmitKept(t.(remoteSeq := Plus(t.remoteSeq, 1)), LocalFirst(t), true, true, false, false);
  }

  lemma ForwardBalanced(t: Tcb, a: int, b: int, e: SocketEvent, fin: nat)
    requires Balanced(t, a, b, fin)
    ensures var (t1, fwd) := TryForward(t, e);
            Balanced(t1, a, b, if fwd then 0 else fin) && (!fwd ==> t1.forward == t.forward)
  {
    if e.output {
      ForwardCounts(t.forward, First(t), |t.accepted| + a + fin, t.remoteSeq, ReceiveBuffer(t, e.room), e.sends);
    }
  }

  /** The FIN that waited for the queue to drain is counted when the pass drains it. */
  lemma DrainedKept(t: Tcb, t1: Tcb, a: int, b: int)
    requires Direct(t) && Tiled(t.out, At(LocalFirst(t), b)) && -1 <= b <= a <= 0
    requires t.state in {SynRecv, Established, CloseWait, FinWait1} && Balanced(t, a, b, 0)
    requires t1 == if t.forward.Nil? && t.state == CloseWait then t.(remoteSeq := Plus(t.remoteSeq, 1)) else t
    ensures Kept(t1, a, b)
  {
    AtPlus(First(t), |t.accepted| + a, 1);
  }

  lemma AnnounceKept(t: Tcb, a: int, b: int, fwd: bool, e: SocketEvent)
    requires Direct(t) && Tiled(t.out, At(LocalFirst(t), b)) && t.state != Listen && -1 <= b <= a <= 0
    requires fwd && Active(t) ==> t.state != LastAck && Balanced(t, a, b, 0)
    requires !(fwd && Active(t)) ==> Kept(t, a, b)
    ensures Kept(Announce(t, fwd, e), a, b)
  {
    var window := ReceiveWindow(t.forward, ReceiveBuffer(t, e.room2), t.recvScale);
    var t1 := t.(recvWindow := window);
    if fwd && Active(t) {
      var t2 := if t1.forward.Nil? && t1.state == CloseWait then t1.(remoteSeq := Plus(t1.remoteSeq, 1)) else t1;
      assert Balanced(t1, a, b, 0);
      DrainedKept(t1, t2, a, b);
      AckWritten(t2, a, b, e);
      assert Announce(t, fwd, e) == Acknowledge(t1, fwd, e);
    } else {
      SameKept(t, t1, a, b);
      AckWritten(t1, a, b, e);
      assert !Active(t) || !fwd;
      assert Announce(t, fwd, e) == if fwd || (t.recvWindow == 0 && window > 0) then Acknowledge(t1, fwd, e) else t1;
    }
  }

  /** Writing the acknowledgement of a state that keeps its books. */
  lemma AckWritten(t: Tcb, a: int, b: int, e: SocketEvent)
    requires Kept(t, a, b) && t.state != Listen
    ensures var t1 := Write(t, false, false, [], e.ackOk); Kept(if e.ackOk then t1.(time := e.now) else t1, a, b)
  {
    var t1 := Write(t, false, false, [], e.ackOk);
    WriteKept(t, t1, a, b, e.ackOk, t1.out[|t.out|]);
    SameKept(t1, t1.(time := e.now), a, b);
  }

  lemma EofKept(t: Tcb, a: int, b: int, ok: bool)
    requires Kept(t, a, b) && DataState(t)
    ensures Kept(EndOfFile(t, ok), a, b)
  {
    if t.forward.Nil? {
      EmitKept(t, At(LocalFirst(t), b), false, true, true, false);
      AtPlus(LocalFirst(t), t.received + b, 1);
    } else {
      RstKept(t, a, b);
    }
  }

  /** The state after data has been read and written to the tun device. */
  function DataSent(t: Tcb, data: seq<byte>, ok: bool): Tcb
    requires |data| < 0x1_0000_0000
  {
    var t' := Write(t.(received := t.received + |data|), false, false, data, ok);
    if ok then t'.(localSeq := Plus(t.localSeq, |data|)) else t'
  }

  /** The packet written for data read from the socket. */
  function DataPacket(t: Tcb, data: seq<byte>): Emitted {
    Emitted(t.localSeq, t.remoteSeq, false, true, false, false, WindowField(t.recvWindow, t.recvScale), data)
  }

  lemma DataTiled(t: Tcb, a: int, b: int, data: seq<byte>)
    requires Kept(t, a, b) && DataState(t)
    ensures var out := t.out + [DataPacket(t, data)];
            Tiled(out, At(LocalFirst(t), b)) && |DataOf(out)| == t.received + |data|
  {
    AtAt(LocalFirst(t), b, t.received);
    TiledAppend(t.out, DataPacket(t, data), At(LocalFirst(t), b));
  }

  lemma DataKept(t: Tcb, a: int, b: int, data: seq<byte>, ok: bool)
    requires Kept(t, a, b) && DataState(t) && 0 < |data| < 0x1_0000_0000
    ensures Kept(DataSent(t, data, ok), a, b)
  {
    DataTiled(t, a, b, data);
    assert DataSent(t, data, ok).out == t.out + [DataPacket(t, data)];
    if ok {
      AtPlus(LocalFirst(t), t.received + b, |data|);
      assert t.received + b + |data| == (t.received + |data|) + b;
    }
  }

  lemma ReadKept(t: Tcb, a: int, b: int, e: SocketEvent)
    requires Kept(t, a, b) && DataState(t)
    ensures Kept(ReadSocket(t, e), a, b)
  {
    var window, t1 := SendWindow(t.acked, t.localSeq, t.sendWindow), t.(time := e.now);
    SameKept(t, t1, a, b);
    if e.input && window > 0 {
      match e.recv
      case Failed(retry) =>
        RstKept(t1, a, b);
        assert ReadSocket(t, e) == if retry then t1 else WriteRst(t1);
      case Bytes(data) =>
        var n := Min(|data|, Min(window, t.mss));
        if n == 0 {
          EofKept(t1, a, b, e.writeOk);
          assert ReadSocket(t, e) == EndOfFile(t1, e.writeOk);
        } else {
          DataKept(t1, a, b, data[..n], e.writeOk);
          assert ReadSocket(t, e) == DataSent(t1, data[..n], e.writeOk);
        }
    } else {
      assert ReadSocket(t, e) == t;
    }
  }

  lemma AfterForwardKept(t: Tcb, a: int, b: int, fwd: bool, e: SocketEvent)
    requires Direct(t) && Tiled(t.out, At(LocalFirst(t), b)) && t.state != Listen && -1 <= b <= a <= 0
    requires fwd && Active(t) ==> t.state != LastAck && Balanced(t, a, b, 0)
    requires !(fwd && Active(t)) ==> Kept(t, a, b)
    ensures Kept(AfterForward(t, fwd, e), a, b)
  {
    AnnounceKept(t, a, b, fwd, e);
    var t1 := Announce(t, fwd, e);
    if DataState(t1) {
      ReadKept(t1, a, b, e);
    }
  }

  lemma SocketKept(t: Tcb, a: int, b: int, e: SocketEvent)
    requires Kept(t, a, b) && Sound(t)
    ensures Kept(CheckSocket(t, e), a, b)
  {
    if e.error {
      RstKept(t.(time := e.now), a, b);
    } else if t.state == Listen {
      ConnectedKept(t, a, b, e);
    } else {
      var (t1, fwd) := TryForward(t, e);
      ForwardLeaves(t, e);
      if Active(t) {
        ForwardBalanced(t, a, b, e, FinIn(t));
      }
      AfterForwardKept(t1, a, b, fwd, e);
    }
  }

  lemma KeepAliveKept(t: Tcb, a: int, b: int, m: MonitorEnv)
    requires Kept(t, a, b)
    ensures Kept(KeepAlive(t, m), a, b)
  {
    if m.ms - t.lastKeepAlive > EPOLL_MIN_CHECK {
      var t1, t2 := t.(lastKeepAlive := m.ms), KeepAlive(t, m);
      SameKept(t, t1, a, b);
      WriteKept(t1, t2, a, b, m.writeOk, t2.out[|t.out|]);
    }
  }

  lemma PollKept(t: Tcb, a: int, b: int, m: MonitorEnv)
    requires Kept(t, a, b)
    ensures Kept(Monitor(t, m).0, a, b)
  {
    var wanted := Wanted(t, m.room);
    var t1 := if DataState(t) && !wanted.input then KeepAlive(t, m) else t;
    KeepAliveKept(t, a, b, m);
    SameKept(t1, t1.(events := wanted), a, b);
    ClosingKept(t1.(events := wanted), a, b);
  }

  lemma TimerKept(t: Tcb, a: int, b: int, sessions: nat, maxsessions: nat, now: int)
    requires Kept(t, a, b) && maxsessions > 0
    ensures Kept(CheckTimer(t, sessions, maxsessions, now), a, b)
  {
    var t1 := TimeOut(t, sessions, maxsessions, now);
    assert Kept(t1, a, b) by {
      RstKept(t, a, b);
      ClosingKept(t, a, b);
    }
    var t2 := CheckTimer(t, sessions, maxsessions, now);
    assert Active(t1) ==> t2 == t1;
    assert t2 == t1.(socket := t2.socket, time := t2.time, state := t2.state, sent := t2.sent, received := t2.received);
  }

  lemma EndKept(t: Tcb, a: int, b: int)
    requires Kept(t, a, b)
    ensures Kept(Step(t, Terminate), a, b)
  {
    RstKept(t, a, b);
  }

  lemma StepKept(t: Tcb, a: int, b: int, ev: Event)
    requires Kept(t, a, b) && Sound(t)
    ensures Kept(Step(t, ev), a, b)
  {
    match ev
    case FromTun(p, pe) => PacketKept(t, a, b, p, pe);
    case FromSocket(se) => SocketKept(t, a, b, se);
    case Poll(m) => PollKept(t, a, b, m);
    case Timer(sessions, maxsessions, now) =>
      if maxsessions > 0 {
        TimerKept(t, a, b, sessions, maxsessions, now);
      }
    case Terminate => EndKept(t, a, b);
  }

  /** The peer's SYN is counted, or nothing yet; ours may be missing. */
  ghost predicate KeptIn(t: Tcb) {
    exists b :: Kept(t, 0, b)
  }

  lemma StepKeptIn(t: Tcb, ev: Event)
    requires KeptIn(t) && Sound(t)
    ensures KeptIn(Step(t, ev))
  {
    var b :| Kept(t, 0, b);
    StepKept(t, 0, b, ev);
  }

  lemma {:induction false} RunKept(t: Tcb, a: int, b: int, evs: seq<Event>)
    requires Kept(t, a, b) && Sound(t)
    ensures Kept(Run(t, evs), a, b)
    decreases |evs|
  {
    if evs != [] {
      StepKept(t, a, b, evs[0]);
      StepSound(t, evs[0]);
      RunKept(Step(t, evs[0]), a, b, evs[1..]);
    }
  }

  /** From the SYN on, for every port but that of HTTPS and for all packets and events whatever: in every open
      state the sequence numbers have their closed form, and in every state the data packets tile the data. */
  lemma AccountsFromSyn(p: Packet, dport: u16, mss: u16, scale: Scale, isn: u32, socket: nat, room: u32, now: int,
                        evs: seq<Event>)
    requires dport != HTTPS
    ensures var t := Run(NewSession(p, dport, mss, scale, isn, socket, room, now), evs);
            Tiled(t.out, LocalFirst(t)) && (Open(t) ==> ClosedForm(t))
  {
    var t := NewSession(p, dport, mss, scale, isn, socket, room, now);
    RunKept(t, 0, 0, evs);
    if Open(Run(t, evs)) {
      ClosedFormIff(Run(t, evs), 0, 0);
    }
  }
}
