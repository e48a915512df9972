/** HTTPS sessions: from the SYN to the tunnel through the proxy, and what their books are worth after it. */
module TcpTunnel {
  import opened Words
  import opened Serial
  import opened Lists
  import opened Reassembly
  import opened Windows
  import opened Tcp
  import opened TcpSafety
  import opened TcpBooks
  import opened TcpDelivery
  import opened TcpRuns

  // ----- which comes first, the answer to the SYN or the request for a tunnel

  datatype Verdict = Undecided | Answered | Missed

  /** What takes a new session out of LISTEN, or asks for its tunnel: only a finished connect whose SYN-ACK is
      written answers the SYN. */
  function Judge(ev: Event): Verdict {
    match ev
    case FromSocket(e) => if !e.error && !e.input && e.ackOk then Answered else Missed
    case FromTun(p, e) => if !p.urg && e.hostKnown then Missed else Undecided
    case Terminate => Missed
    case _ => Undecided
  }

  function VerdictOf(evs: seq<Event>): Verdict {
    if evs == [] then Undecided
    else if Judge(evs[0]) == Undecided then VerdictOf(evs[1..])
    else Judge(evs[0])
  }

  function After(v: Verdict, evs: seq<Event>): Verdict {
    if v == Undecided then VerdictOf(evs) else v
  }

  /** The relay answers the SYN before a host name lets it ask for the tunnel, and before the session ends. */
  predicate AnsweredFirst(evs: seq<Event>) {
    VerdictOf(evs) == Answered
  }

  /** The request for the tunnel is sent. */
  predicate Asks(ev: Event) {
    ev.FromTun? && !ev.p.urg && ev.pe.hostKnown && ev.pe.sendOk
  }

  /** The tunnel is asked for while the SYN is neither answered nor otherwise counted. */
  predicate AskedFirst(evs: seq<Event>) {
    evs != [] && if Judge(evs[0]) == Undecided then AskedFirst(evs[1..]) else Asks(evs[0])
  }

  // ----- the session before its tunnel

  /** No data has been written to the tun device yet. */
  ghost predicate Silent(t: Tcb) {
    t.received == 0 && DataOf(t.out) == [] && Tiled(t.out, LocalFirst(t)) && Tiled(t.out, t.localStart)
  }

  /** A session that may still get its tunnel: a is 0 if the peer's SYN is counted and -1 if it is not. */
  ghost predicate Waits(t: Tcb, v: Verdict, a: int) {
    && t.dport == HTTPS && Silent(t) && t.sent == |t.accepted| && -1 <= a <= 0
    && t.remoteSeq == At(First(t), |t.accepted| + a)
    && match v
       case Undecided =>
         t.state == Listen && t.connect == NotSent && Blank(t) && a == -1 && t.events == Events(false, true)
       case Answered =>
         && a == 0 && t.localSeq == LocalFirst(t)
         && if t.connect == Requested then t.state == Listen else t.connect == NotSent && t.state in {SynRecv, Closing}
       case Missed =>
         && t.localSeq == t.localStart
         && if t.connect == Requested then t.state == Listen else t.connect == NotSent && t.state == Closing
  }

  /** Whether the SYN is counted after a step that neither strands the session nor opens its tunnel. */
  function Standing(v: Verdict, a: int, ev: Event): int {
    if v != Undecided then a else if Judge(ev) == Undecided || Asks(ev) then -1 else 0
  }

  /** A session that will never get its tunnel. */
  predicate Stranded(t: Tcb) {
    && t.dport == HTTPS
    && ((t.connect == NotSent && t.state == Close && t.socket == -1) || (t.connect == Requested && t.state != Listen))
  }

  /** The session got its tunnel, with books that tell whether our SYN was counted. */
  ghost predicate Opened(t: Tcb, v: Verdict, a: int) {
    v != Undecided && t.dport == HTTPS && t.connect == Tunnelled && Kept(t, a, if v == Answered then 0 else -1) &&
      (v == Answered ==> a == 0)
  }

  lemma EmitSilent(t: Tcb, syn: bool, ack: bool, fin: bool, rst: bool)
    requires Silent(t)
    ensures Silent(Emit(t, syn, ack, fin, rst, []))
  {
    EmitKept(t, LocalFirst(t), syn, ack, fin, rst);
    EmitKept(t, t.localStart, syn, ack, fin, rst);
  }

  /** A reset, of whatever cause, ends the wait: with the peer's SYN counted, but never ours. */
  lemma WaitingRst(t: Tcb, v: Verdict, a: int)
    requires Waits(t, v, a)
    ensures if v == Undecided then Waits(WriteRst(t), Missed, 0) else Waits(WriteRst(t), v, a) || Stranded(WriteRst(t))
  {
    if v == Undecided {
      var t1 := t.(remoteSeq := Plus(t.remoteSeq, 1));
      AtPlus(First(t), -1, 1);
      EmitSilent(t1, false, true, false, true);
      assert WriteRst(t) == Emit(t1, false, true, false, true, []).(state := Closing);
    } else if t.connect == Requested {
      assert Stranded(WriteRst(t));
    } else {
      EmitSilent(t, false, false, false, true);
      assert WriteRst(t) == Emit(t, false, false, false, true, []).(state := Closing);
    }
  }

  /** The packet that asks for the tunnel, or fails to. */
  lemma WaitingRequest(t: Tcb, v: Verdict, a: int, e: PacketEnv) returns (a': int)
    requires Waits(t, v, a) && Sound(t) && t.connect == NotSent && e.hostKnown
    ensures var t' := RequestTunnel(t, e);
            Waits(t', if v == Undecided then Missed else v, a') || Stranded(t')
    ensures a' == if v == Undecided && !e.sendOk then 0 else a
  {
    a' := if v == Undecided && !e.sendOk then 0 else a;
    if t.socket >= 0 && e.sendOk {
      assert RequestTunnel(t, e) == t.(connect := Requested, state := Listen);
    } else {
      WaitingRst(t, v, a);
      assert RequestTunnel(t, e) == WriteRst(t);
    }
  }

  /** Before its tunnel a session only queues. */
  lemma OnlyQueues(t: Tcb, p: Packet, e: PacketEnv)
    requires t.dport == HTTPS && t.connect != Tunnelled
    ensures HandleTcp(t, p, e) == if p.urg then t else QueueTcp(RequestTunnel(t, e), p)
  {
  }

  lemma QueueingWaits(t: Tcb, v: Verdict, a: int, p: Packet)
    ensures Waits(t, v, a) ==> Waits(QueueTcp(t, p), v, a)
    ensures Stranded(t) ==> Stranded(QueueTcp(t, p))
  {
  }

  lemma WaitingQueue(t: Tcb, v: Verdict, a: int, p: Packet, e: PacketEnv) returns (a': int)
    requires Waits(t, v, a) && Sound(t)
    ensures var t' := QueueTcp(RequestTunnel(t, e), p);
            Waits(t', if v == Undecided && e.hostKnown then Missed else v, a') || Stranded(t')
    ensures a' == if v == Undecided && e.hostKnown && !e.sendOk then 0 else a
  {
    a' := a;
    var v' := if v == Undecided && e.hostKnown then Missed else v;
    if t.connect == NotSent && e.hostKnown {
      a' := WaitingRequest(t, v, a, e);
    } else {
      assert RequestTunnel(t, e) == t;
    }
    QueueingWaits(RequestTunnel(t, e), v', a', p);
  }

  lemma WaitingPacket(t: Tcb, v: Verdict, a: int, p: Packet, e: PacketEnv) returns (a': int)
    requires Waits(t, v, a) && Sound(t)
    ensures Waits(HandleTcp(t, p, e), if v == Undecided then Judge(FromTun(p, e)) else v, a')
         || Stranded(HandleTcp(t, p, e))
    ensures a' == Standing(v, a, FromTun(p, e))
  {
    a' := a;
    OnlyQueues(t, p, e);
    if !p.urg {
      a' := WaitingQueue(t, v, a, p, e);
    }
  }

  /** A finished connect answers the SYN, or strands a session that was asked for its tunnel. */
  lemma WaitingAnswer(t: Tcb, v: Verdict, a: int, e: SocketEvent)
    requires Waits(t, v, a) && t.state == Listen && !e.error && !e.input
    ensures if v == Undecided then Waits(Connected(t, e), Judge(FromSocket(e)), 0) else Stranded(Connected(t, e))
  {
    if v == Undecided {
      AtPlus(First(t), -1, 1);
      EmitSilent(t.(remoteSeq := Plus(t.remoteSeq, 1)), true, true, false, false);
      var t1 := Emit(t.(remoteSeq := Plus(t.remoteSeq, 1)), true, true, false, false, []);
      assert t1.remoteSeq == At(First(t), 0) && Silent(t1);
      assert Connected(t, e) == if e.ackOk then t1.(time := e.now, localSeq := Plus(t.localSeq, 1), state := SynRecv)
                                else t1.(state := Closing);
    }
  }

  lemma WaitingConnect(t: Tcb, v: Verdict, a: int, e: SocketEvent) returns (a': int)
    requires Waits(t, v, a) && t.state == Listen && !e.error
    ensures var v' := if v == Undecided then Judge(FromSocket(e)) else v;
            Waits(Connected(t, e), v', a') || Stranded(Connected(t, e)) || Opened(Connected(t, e), v', a')
    ensures a' == Standing(v, a, FromSocket(e))
  {
    a' := if v == Undecided then 0 else a;
    if !e.input {
      WaitingAnswer(t, v, a, e);
    } else if e.recv.Bytes? && t.connect == Requested {
      TunnelOpens(t, v, a);
      assert Connected(t, e) == t.(connect := Tunnelled, state := SynRecv);
    } else {
      WaitingRst(t, v, a);
      assert Connected(t, e) == WriteRst(t);
    }
  }

  /** The proxy's reply opens the tunnel on the books as they are. */
  lemma TunnelOpens(t: Tcb, v: Verdict, a: int)
    requires Waits(t, v, a) && t.connect == Requested
    ensures Opened(t.(connect := Tunnelled, state := SynRecv), v, a)
  {
  }

  lemma WaitingForward(t: Tcb, v: Verdict, a: int, e: SocketEvent)
    requires Waits(t, v, a) && t.state != Listen
    ensures var t1 := TryForward(t, e).0;
            Waits(t1, v, a) && t1.state == t.state && t1.connect == t.connect
  {
    ForwardLeaves(t, e);
    if e.output {
      ForwardCounts(t.forward, First(t), |t.accepted| + a, t.remoteSeq, ReceiveBuffer(t, e.room), e.sends);
    }
  }

  lemma WaitingAnnounce(t: Tcb, v: Verdict, a: int, fwd: bool, e: SocketEvent)
    requires Waits(t, v, a) && t.state != Listen
    ensures Waits(Announce(t, fwd, e), v, a) && !DataState(Announce(t, fwd, e))
  {
    var window := ReceiveWindow(t.forward, ReceiveBuffer(t, e.room2), t.recvScale);
    var t1 := t.(recvWindow := window);
    assert Waits(t1, v, a);
    EmitSilent(t1, false, true, false, false);
    var t2 := Write(t1, false, false, [], e.ackOk);
    assert Waits(t2, v, a);
    assert Announce(t, fwd, e) == if !fwd && !(t.recvWindow == 0 && window > 0) then t1
                                  else if e.ackOk then t2.(time := e.now) else t2;
  }

  lemma WaitingTimer(t: Tcb, v: Verdict, a: int, sessions: nat, maxsessions: nat, now: int)
    requires Waits(t, v, a) && Sound(t) && maxsessions > 0
    ensures var t' := CheckTimer(t, sessions, maxsessions, now); t' == t || Stranded(t')
  {
  }

  lemma WaitingPoll(t: Tcb, v: Verdict, a: int, m: MonitorEnv)
    requires Waits(t, v, a)
    ensures Waits(Monitor(t, m).0, v, a) || Stranded(Monitor(t, m).0)
  {
  }

  lemma WaitingSocket(t: Tcb, v: Verdict, a: int, e: SocketEvent) returns (a': int)
    requires Waits(t, v, a)
    ensures var t', v' := CheckSocket(t, e), if v == Undecided then Judge(FromSocket(e)) else v;
            Waits(t', v', a') || Stranded(t') || Opened(t', v', a')
    ensures a' == Standing(v, a, FromSocket(e))
  {
    if e.error {
      WaitingRst(t.(time := e.now), v, a);
      a' := if v == Undecided then 0 else a;
    } else if t.state == Listen {
      a' := WaitingConnect(t, v, a, e);
    } else {
      var (t1, fwd) := TryForward(t, e);
      WaitingForward(t, v, a, e);
      WaitingAnnounce(t1, v, a, fwd, e);
      a' := a;
    }
  }

  lemma StepWaits(t: Tcb, v: Verdict, a: int, ev: Event) returns (a': int)
    requires Waits(t, v, a) && Sound(t)
    ensures var v' := if v == Undecided then Judge(ev) else v;
            Waits(Step(t, ev), v', a') || Stranded(Step(t, ev)) || Opened(Step(t, ev), v', a')
    ensures a' == Standing(v, a, ev)
  {
    match ev
    case FromTun(p, pe) =>
      a' := WaitingPacket(t, v, a, p, pe);
    case FromSocket(se) =>
      a' := WaitingSocket(t, v, a, se);
    case _ =>
      a' := WaitingQuiet(t, v, a, ev);
  }

  lemma WaitingEnd(t: Tcb, v: Verdict, a: int) returns (a': int)
    requires Waits(t, v, a)
    ensures Waits(Step(t, Terminate), if v == Undecided then Missed else v, a') || Stranded(Step(t, Terminate))
    ensures a' == Standing(v, a, Terminate)
  {
    a' := if v == Undecided then 0 else a;
    WaitingRst(t, v, a);
    assert Step(t, Terminate) == if Active(t) then WriteRst(t) else t;
  }

  lemma WaitingQuiet(t: Tcb, v: Verdict, a: int, ev: Event) returns (a': int)
    requires Waits(t, v, a) && Sound(t) && (ev.Poll? || ev.Timer? || ev.Terminate?)
    ensures Waits(Step(t, ev), if v == Undecided then Judge(ev) else v, a') || Stranded(Step(t, ev))
    ensures a' == Standing(v, a, ev)
  {
    a' := a;
    match ev
    case Poll(m) =>
      WaitingPoll(t, v, a, m);
    case Timer(sessions, maxsessions, now) =>
      if maxsessions > 0 {
        WaitingTimer(t, v, a, sessions, maxsessions, now);
      }
      assert Step(t, ev) == if maxsessions > 0 then CheckTimer(t, sessions, maxsessions, now) else t;
    case Terminate =>
      a' := WaitingEnd(t, v, a);
  }

  lemma StepStranded(t: Tcb, ev: Event)
    requires Stranded(t) && Sound(t)
    ensures Stranded(Step(t, ev))
  {
    match ev
    case FromSocket(e) =>
      if !e.error {
        var (t1, fwd) := TryForward(t, e);
        ForwardLeaves(t, e);
        AnnounceLeaves(t1, fwd, e);
      }
    case _ =>
  }

  /** A session that was asked for a tunnel in LISTEN and then answers its SYN, or that lost its socket before it
      asked, never gets one. */
  lemma {:induction false} StrandedForEver(t: Tcb, evs: seq<Event>)
    requires Stranded(t) && Sound(t)
    ensures Stranded(Run(t, evs)) && Run(t, evs).connect != Tunnelled
    decreases |evs|
  {
    if evs != [] {
      StepStranded(t, evs[0]);
      StepSound(t, evs[0]);
      StrandedForEver(Step(t, evs[0]), evs[1..]);
    }
  }

  lemma StepOpened(t: Tcb, v: Verdict, a: int, ev: Event)
    requires Opened(t, v, a) && Sound(t)
    ensures Opened(Step(t, ev), v, a)
  {
    StepKept(t, a, if v == Answered then 0 else -1, ev);
    StepPort(t, ev);
  }

  lemma {:induction false} RunOpened(t: Tcb, v: Verdict, a: int, evs: seq<Event>)
    requires Opened(t, v, a) && Sound(t)
    ensures Opened(Run(t, evs), v, a)
    decreases |evs|
  {
    if evs != [] {
      StepOpened(t, v, a, evs[0]);
      StepSound(t, evs[0]);
      RunOpened(Step(t, evs[0]), v, a, evs[1..]);
    }
  }

  lemma {:induction false} RunWaits(t: Tcb, v: Verdict, a: int, evs: seq<Event>) returns (a': int)
    requires Waits(t, v, a) && Sound(t)
    ensures var t' := Run(t, evs); Waits(t', After(v, evs), a') || Stranded(t') || Opened(t', After(v, evs), a')
    decreases |evs|
  {
    a' := a;
    if evs != [] {
      var ev, v1 := evs[0], if v == Undecided then Judge(evs[0]) else v;
      var a1 := StepWaits(t, v, a, ev);
      StepSound(t, ev);
      var t1 := Step(t, ev);
      if Waits(t1, v1, a1) {
        a' := RunWaits(t1, v1, a1, evs[1..]);
      } else if Stranded(t1) {
        StrandedForEver(t1, evs[1..]);
      } else {
        RunOpened(t1, v1, a1, evs[1..]);
        a' := a1;
      }
    }
  }

  /** The books of a tunnelled HTTPS session have their closed form exactly if the relay answered the SYN first:
      otherwise our SYN is never counted. */
  lemma TunnelAccountsIff(p: Packet, mss: u16, scale: Scale, isn: u32, socket: nat, room: u32, now: int,
                          evs: seq<Event>)
    ensures var t := Run(NewSession(p, HTTPS, mss, scale, isn, socket, room, now), evs);
            t.connect == Tunnelled ==>
              && (Open(t) ==> (ClosedForm(t) <==> AnsweredFirst(evs)))
              && (AnsweredFirst(evs) ==> Tiled(t.out, LocalFirst(t)))
  {
    var t := NewSession(p, HTTPS, mss, scale, isn, socket, room, now);
    var t' := Run(t, evs);
    NewWaits(p, mss, scale, isn, socket, room, now);
    var a := RunWaits(t, Undecided, -1, evs);
    if t'.connect == Tunnelled && Open(t') {
      ClosedFormIff(t', a, if VerdictOf(evs) == Answered then 0 else -1);
    }
  }

  lemma NewWaits(p: Packet, mss: u16, scale: Scale, isn: u32, socket: nat, room: u32, now: int)
    ensures Waits(NewSession(p, HTTPS, mss, scale, isn, socket, room, now), Undecided, -1)
  {
    BlankAtSyn(NewSession(p, HTTPS, mss, scale, isn, socket, room, now));
  }

  // ----- the queue from the SYN to the tunnel

  /** Where the queue of a session stands that has counted its SYN, or may still do so first. */
  ghost predicate InOrder(t: Tcb, a: int, offs: List<int>) {
    if a < 0 then Early(t, offs) else InStep(t, offs)
  }

  /** What is queued while a session waits. */
  lemma QueuedSliced(t: Tcb, a: int, offs: List<int>, p: Packet, off: int, stream: seq<byte>)
    requires InOrder(t, a, offs) && Sliced(t, offs, stream) && ArrivesAt(t, p, off) && InStream(p.data, off, stream)
    requires a >= 0 ==> t.remoteSeq == At(First(t), |t.accepted|)
    ensures InOrder(QueueTcp(t, p), a, OffsAfter(t, offs, p, off)) &&
            Sliced(QueueTcp(t, p), OffsAfter(t, offs, p, off), stream)
  {
    if a < 0 {
      QueueEarly(t, offs, p, off);
    } else {
      QueueInStep(t, offs, p, off);
    }
    QueueSliced(t, offs, p, off, stream);
  }

  /** The SYN is counted by a request that fails, else a packet leaves it as it is. */
  lemma WaitingPacketSliced(t: Tcb, v: Verdict, a: int, offs: List<int>, p: Packet, e: PacketEnv, off: int,
                            stream: seq<byte>)
    returns (offs': List<int>)
    requires Waits(t, v, a) && Sound(t) && InOrder(t, a, offs) && Sliced(t, offs, stream)
    requires ArrivesAt(t, p, off) && InStream(p.data, off, stream)
    requires a >= 0 || (v == Undecided && !Asks(FromTun(p, e)))
    ensures InOrder(HandleTcp(t, p, e), Standing(v, a, FromTun(p, e)), offs') &&
            Sliced(HandleTcp(t, p, e), offs', stream)
  {
    offs' := offs;
    if !p.urg {
      var t1 := RequestTunnel(t, e);
      if a < 0 && t1.state != Listen {
        EarlyCounted(t, offs);
        assert InStep(t1, offs) && t1.remoteSeq == At(First(t), 0);
      }
      offs' := OffsAfter(t1, offs, p, off);
      QueuedSliced(t1, Standing(v, a, FromTun(p, e)), offs, p, off, stream);
    }
  }

  lemma WaitingSocketSliced(t: Tcb, v: Verdict, a: int, offs: List<int>, e: SocketEvent, stream: seq<byte>)
    returns (offs': List<int>)
    requires Waits(t, v, a) && InOrder(t, a, offs) && Sliced(t, offs, stream)
    requires a >= 0 || v == Undecided
    requires !Stranded(CheckSocket(t, e))
    ensures InOrder(CheckSocket(t, e), Standing(v, a, FromSocket(e)), offs') && Sliced(CheckSocket(t, e), offs', stream)
  {
    offs' := offs;
    SocketQueue(t, e);
    if a < 0 {
      EarlyCounted(t, offs);
    } else if !e.error && t.state != Listen {
      offs' := LeftAfter(t, offs, e);
      var (t1, fwd) := TryForward(t, e);
      ForwardInStep(t, offs, e);
      ForwardSliced(t, offs, e, stream);
      ForwardLeaves(t, e);
      AnnounceLeavesQueue(t1, fwd, e);
      WaitingForward(t, v, a, e);
      WaitingAnnounce(t1, v, a, fwd, e);
    }
  }

  lemma WaitingQuietSliced(t: Tcb, v: Verdict, a: int, offs: List<int>, ev: Event, stream: seq<byte>)
    requires Waits(t, v, a) && Sound(t) && InOrder(t, a, offs) && Sliced(t, offs, stream)
    requires (ev.Poll? || ev.Timer? || ev.Terminate?) && (a >= 0 || v == Undecided)
    requires !Stranded(Step(t, ev))
    ensures InOrder(Step(t, ev), Standing(v, a, ev), offs) && Sliced(Step(t, ev), offs, stream)
  {
    QuietQueue(t, ev);
    if a < 0 && ev.Terminate? {
      EarlyCounted(t, offs);
    }
  }

  /** One step of the wait; off is the position of the packet. */
  lemma StepWaitsSliced(t: Tcb, v: Verdict, a: int, offs: List<int>, ev: Event, off: int, stream: seq<byte>)
    returns (offs': List<int>)
    requires Waits(t, v, a) && Sound(t) && InOrder(t, a, offs) && Sliced(t, offs, stream)
    requires ev.FromTun? ==> ArrivesAt(t, ev.p, off) && InStream(ev.p.data, off, stream)
    requires a >= 0 || (v == Undecided && !Asks(ev))
    requires !Stranded(Step(t, ev))
    ensures InOrder(Step(t, ev), Standing(v, a, ev), offs') && Sliced(Step(t, ev), offs', stream)
  {
    offs' := offs;
    match ev
    case FromTun(p, pe) =>
      offs' := WaitingPacketSliced(t, v, a, offs, p, pe, off, stream);
    case FromSocket(se) =>
      offs' := WaitingSocketSliced(t, v, a, offs, se, stream);
    case _ =>
      WaitingQuietSliced(t, v, a, offs, ev, stream);
  }

  /** Once the SYN is counted before the tunnel is asked for, the bytes handed on are the next ones of the stream,
      before the tunnel opens and through it. */
  lemma {:induction false} TunnelSliced(t: Tcb, v: Verdict, a: int, offs: List<int>, evs: seq<Event>, stream: seq<byte>)
    returns (offs': List<int>)
    requires Waits(t, v, a) && Sound(t) && InOrder(t, a, offs) && Sliced(t, offs, stream) &&
             AllFromStream(t, evs, -1, stream)
    requires a >= 0 || (v == Undecided && !AskedFirst(evs))
    requires Run(t, evs).connect == Tunnelled
    ensures Sliced(Run(t, evs), offs', stream)
    decreases |evs|
  {
    if evs == [] {
      return offs;
    }
    var ev, v1 := evs[0], if v == Undecided then Judge(evs[0]) else v;
    assert FromStream(t, ev, -1, stream);
    var off :| ev.FromTun? ==> ArrivesAt(t, ev.p, off) && InStream(ev.p.data, off, stream);
    var a1 := StepWaits(t, v, a, ev);
    StepSound(t, ev);
    var t1 := Step(t, ev);
    if Stranded(t1) {
      StrandedForEver(t1, evs[1..]);
      assert false;
    }
    offs' := StepWaitsSliced(t, v, a, offs, ev, off, stream);
    if Waits(t1, v1, a1) {
      offs' := TunnelSliced(t1, v1, a1, offs', evs[1..], stream);
    } else {
      assert KeptIn(t1);
      offs' := RunSliced(t1, offs', evs[1..], -1, stream);
    }
  }

  // ----- what goes wrong

  /** An HTTPS session whose SYN is repeated before the proxy connection is reported gets its tunnel
      without ever counting or answering the SYN. */
  lemma TunnelSkipsSyn(syn: Packet, p: Packet, mss: u16, scale: Scale, isn: u32, socket: nat, room: u32, now: int,
                       pe: PacketEnv, se: SocketEvent)
    requires !p.urg && pe.hostKnown && pe.sendOk && !se.error && se.input && se.recv.Bytes?
    ensures var t := Run(NewSession(syn, HTTPS, mss, scale, isn, socket, room, now), [FromTun(p, pe), FromSocket(se)]);
            t.state == SynRecv && t.connect == Tunnelled && t.out == []
            && t.remoteSeq == t.remoteStart && t.localSeq == t.localStart
  {
    var t0 := NewSession(syn, HTTPS, mss, scale, isn, socket, room, now);
    var t1 := Step(t0, FromTun(p, pe));
    var evs := [FromTun(p, pe), FromSocket(se)];
    assert Run(t0, evs) == Run(t1, evs[1..]);
    assert Run(t1, evs[1..]) == Run(Step(t1, evs[1..][0]), evs[1..][1..]);
  }

  /** A connect that finishes after the tunnel was asked for strands the session: it answers the SYN instead
      of waiting for the proxy. */
  lemma LateAnswerStrands(t: Tcb, e: SocketEvent)
    requires t.dport == HTTPS && t.connect == Requested && t.state == Listen && !e.error && !e.input
    ensures Stranded(CheckSocket(t, e))
  {
  }

  /** A closing HTTPS session goes back to LISTEN exactly if it has a socket and its tunnel is still to be asked for. */
  lemma ClosingReopensIff(t: Tcb, p: Packet, e: PacketEnv)
    requires t.state == Closing
    ensures HandleTcp(t, p, e).state == Listen <==>
            t.dport == HTTPS && t.connect == NotSent && t.socket >= 0 && !p.urg && e.hostKnown && e.sendOk
  {
  }
}
