/** What a session writes to the tun device: which step writes a SYN, a FIN, a reset, data or a bare acknowledgement,
    and in which order they come. */
module TcpFlags {
  import opened Words
  import opened Windows
  import opened Tcp
  import opened TcpSafety
  import opened TcpRuns
  import opened TcpOrder
  import opened TcpAcks

  datatype Kind = Syn | Fin | Rst | Data | Ack

  function KindOf(e: Emitted): Kind {
    if e.syn then Syn else if e.fin then Fin else if e.rst then Rst else if e.data != [] then Data else Ack
  }

  /** No packet has two of the flags SYN, FIN and RST, only one without them carries data, and all but a reset
      acknowledge. */
  predicate WellFormed(e: Emitted) {
    && (e.syn ==> !e.fin && !e.rst)
    && (e.fin ==> !e.rst)
    && (e.syn || e.fin || e.rst ==> e.data == [])
    && (!e.rst ==> e.ack)
  }

  // ----- what each step writes

  /** A packet is answered with a reset: no tunnel can be asked for, or the session is closed, or data comes that
      nothing can take, or something is acknowledged that was never sent. */
  predicate ResetsPacket(t: Tcb, p: Packet, e: PacketEnv) {
    && !p.urg
    && if t.dport == HTTPS && t.connect != Tunnelled
       then t.connect == NotSent && e.hostKnown && !(t.socket >= 0 && e.sendOk)
       else || !Active(t)
            || (p.data != [] && (t.socket < 0 || t.state == CloseWait))
            || (!p.rst && p.ack && AcksFuture(p.ackSeq, t.localSeq))
  }

  function PacketKinds(t: Tcb, p: Packet, e: PacketEnv): seq<Kind> {
    if ResetsPacket(t, p, e) then [Rst] else if CountsFin(t, FromTun(p, e)) then [Ack] else []
  }

  /** Something was forwarded, or the receive window opens again. */
  predicate Announces(t: Tcb, e: SocketEvent) {
    var (t1, fwd) := TryForward(t, e);
    fwd || (t.recvWindow == 0 && ReceiveWindow(t1.forward, ReceiveBuffer(t1, e.room2), t1.recvScale) > 0)
  }

  /** The socket is read: in a data state, with send window left, unless the acknowledgement before could not be
      written. */
  predicate Reads(t: Tcb, e: SocketEvent) {
    && DataState(t) && e.input && SendWindow(t.acked, t.localSeq, t.sendWindow) > 0
    && !(Announces(t, e) && !e.ackOk)
  }

  /** The bytes recv() is asked for. */
  function Size(t: Tcb): nat {
    Min(SendWindow(t.acked, t.localSeq, t.sendWindow), t.mss)
  }

  function ReadKinds(t: Tcb, e: SocketEvent): seq<Kind> {
    match e.recv
    case Failed(retry) => if retry then [] else [Rst]
    case Bytes(data) =>
      if data != [] && Size(t) > 0 then [Data]
      else if TryForward(t, e).0.forward.Nil? then [Fin]
      else [Rst]
  }

  function SocketKinds(t: Tcb, e: SocketEvent): seq<Kind> {
    if e.error then [Rst]
    else if t.state == Listen then
      if !e.input then [Syn] else if e.recv.Bytes? && t.connect == Requested then [] else [Rst]
    else (if Announces(t, e) then [Ack] else []) + (if Reads(t, e) then ReadKinds(t, e) else [])
  }

  /** A window that stays shut is asked for again. */
  predicate Probes(t: Tcb, m: MonitorEnv) {
    DataState(t) && SendWindow(t.acked, t.localSeq, t.sendWindow) == 0 && m.ms - t.lastKeepAlive > EPOLL_MIN_CHECK
  }

  function Kinds(t: Tcb, ev: Event): seq<Kind> {
    match ev
    case FromTun(p, e) => PacketKinds(t, p, e)
    case FromSocket(e) => SocketKinds(t, e)
    case Poll(m) => if t.socket >= 0 && Probes(t, m) then [Ack] else []
    case Timer(sessions, maxsessions, now) =>
      if maxsessions > 0 && t.state != Listen && Expired(t, sessions, maxsessions, now) then [Rst] else []
    case Terminate => if Active(t) then [Rst] else []
  }

  /** Well-formed packets of these kinds. */
  ghost predicate Suits(es: seq<Emitted>, ks: seq<Kind>) {
    |es| == |ks| && forall i :: 0 <= i < |es| ==> WellFormed(es[i]) && KindOf(es[i]) == ks[i]
  }

  /** out' continues out with well-formed packets of these kinds. */
  ghost predicate Spoke(out: seq<Emitted>, out': seq<Emitted>, ks: seq<Kind>) {
    |out| <= |out'| && out'[..|out|] == out && Suits(out'[|out|..], ks)
  }

  lemma SpokeTwice(out: seq<Emitted>, out1: seq<Emitted>, out2: seq<Emitted>, a: seq<Kind>, b: seq<Kind>)
    requires Spoke(out, out1, a) && Spoke(out1, out2, b)
    ensures Spoke(out, out2, a + b)
  {
    assert out2[..|out|] == out2[..|out1|][..|out|];
    assert out2[|out|..] == out1[|out|..] + out2[|out1|..];
  }

  lemma SpokeOnce(out: seq<Emitted>, e: Emitted)
    requires WellFormed(e)
    ensures Spoke(out, out + [e], [KindOf(e)])
  {
    assert (out + [e])[|out|..] == [e];
  }

  lemma SpokeNever(out: seq<Emitted>)
    ensures Spoke(out, out, [])
  {
    assert out[|out|..] == [];
  }

  /** Writing one packet. */
  lemma EmitSpoke(t: Tcb, syn: bool, ack: bool, fin: bool, rst: bool, data: seq<byte>)
    requires WellFormed(Emit(t, syn, ack, fin, rst, data).out[|t.out|])
    ensures Spoke(t.out, Emit(t, syn, ack, fin, rst, data).out,
                  [if syn then Syn else if fin then Fin else if rst then Rst else if data != [] then Data else Ack])
  {
    SpokeOnce(t.out, Emit(t, syn, ack, fin, rst, data).out[|t.out|]);
  }

  lemma RstSpoke(t: Tcb)
    ensures Spoke(t.out, WriteRst(t).out, [Rst])
  {
    var t1 := if t.state == Listen then t.(remoteSeq := Plus(t.remoteSeq, 1)) else t;
    EmitSpoke(t1, false, t.state == Listen, false, true, []);
  }

  lemma AckSpoke(t: Tcb)
    ensures Spoke(t.out, Emit(t, false, true, false, false, []).out, [Ack])
  {
    EmitSpoke(t, false, true, false, false, []);
  }

  lemma FlagsSpoke(t: Tcb, p: Packet, e: PacketEnv)
    ensures var t' := HandleFlags(t, p, e);
            if !p.rst && p.ack && AcksFuture(p.ackSeq, t.localSeq) then Spoke(t.out, t'.out, [Rst])
            else if && p.fin && !p.syn && !p.rst && (!p.ack || p.ackSeq == t.localSeq)
                    && (t.state == FinWait1 || (t.state == Established && t.forward.Nil?))
            then Spoke(t.out, t'.out, [Ack])
            else t'.out == t.out
  {
    RstSpoke(t);
    AckSpoke(t.(remoteSeq := Plus(t.remoteSeq, 1)));
  }

  lemma PacketSpoke(t: Tcb, p: Packet, e: PacketEnv)
    requires Sound(t)
    ensures Spoke(t.out, HandleTcp(t, p, e).out, PacketKinds(t, p, e))
  {
    RstSpoke(t);
    SpokeNever(t.out);
    if LooksAt(t, p) && Active(t) {
      assert RequestTunnel(t, e) == t;
      SegmentSpoke(t, p, e);
    }
  }

  lemma SegmentSpoke(t: Tcb, p: Packet, e: PacketEnv)
    requires Sound(t) && LooksAt(t, p) && Active(t)
    ensures Spoke(t.out, HandleSegment(t, p, e).out, PacketKinds(t, p, e))
  {
    var t1 := t.(time := e.now, sendWindow := ScaledWindow(p.window, t.sendScale));
    RstSpoke(t1);
    SpokeNever(t.out);
    FlagsSpoke(t1, p, e);
    FlagsSpoke(QueueTcp(t1, p), p, e);
  }

  lemma ReadSpoke(t: Tcb, e: SocketEvent)
    requires DataState(t)
    ensures var window := SendWindow(t.acked, t.localSeq, t.sendWindow);
            Spoke(t.out, ReadSocket(t, e).out,
                  if !e.input || window == 0 then []
                  else match e.recv
                       case Failed(retry) => if retry then [] else [Rst]
                       case Bytes(data) =>
                         if data != [] && Size(t) > 0 then [Data] else if t.forward.Nil? then [Fin] else [Rst])
  {
    var t1 := t.(time := e.now);
    SpokeNever(t.out);
    RstSpoke(t1);
    EmitSpoke(t1, false, true, true, false, []);
    if e.recv.Bytes? && e.recv.data != [] && Size(t) > 0 {
      var n := Min(|e.recv.data|, Size(t));
      EmitSpoke(t1.(received := t.received + n), false, true, false, false, e.recv.data[..n]);
    }
  }

  lemma AnnounceSpoke(t: Tcb, fwd: bool, e: SocketEvent)
    ensures var announces :=
              fwd || (t.recvWindow == 0 && ReceiveWindow(t.forward, ReceiveBuffer(t, e.room2), t.recvScale) > 0);
            && Spoke(t.out, Announce(t, fwd, e).out, if announces then [Ack] else [])
            && Announce(t, fwd, e).state == if announces && !e.ackOk then Closing else t.state
  {
    var t1 := t.(recvWindow := ReceiveWindow(t.forward, ReceiveBuffer(t, e.room2), t.recvScale));
    SpokeNever(t.out);
    AckSpoke(t1);
    AckSpoke(t1.(remoteSeq := Plus(t.remoteSeq, 1)));
  }

  lemma ConnectedSpoke(t: Tcb, e: SocketEvent)
    requires t.state == Listen
    ensures Spoke(t.out, Connected(t, e).out,
                  if !e.input then [Syn] else if e.recv.Bytes? && t.connect == Requested then [] else [Rst])
  {
    SpokeNever(t.out);
    RstSpoke(t);
    EmitSpoke(t.(remoteSeq := Plus(t.remoteSeq, 1)), true, true, false, false, []);
  }

  lemma ServeSpoke(t: Tcb, e: SocketEvent)
    requires t.state != Listen && !e.error
    ensures Spoke(t.out, CheckSocket(t, e).out, SocketKinds(t, e))
  {
    var (t1, fwd) := TryForward(t, e);
    ForwardLeaves(t, e);
    AnnounceSpoke(t1, fwd, e);
    AnnounceLeaves(t1, fwd, e);
    var t2 := Announce(t1, fwd, e);
    if DataState(t2) {
      ReadSpoke(t2, e);
      SpokeTwice(t.out, t2.out, CheckSocket(t, e).out, if Announces(t, e) then [Ack] else [],
                 if Reads(t, e) then ReadKinds(t, e) else []);
    }
  }

  lemma SocketSpoke(t: Tcb, e: SocketEvent)
    ensures Spoke(t.out, CheckSocket(t, e).out, SocketKinds(t, e))
  {
    if e.error {
      RstSpoke(t.(time := e.now));
    } else if t.state == Listen {
      ConnectedSpoke(t, e);
    } else {
      ServeSpoke(t, e);
    }
  }

  lemma PollSpoke(t: Tcb, m: MonitorEnv)
    ensures Spoke(t.out, Monitor(t, m).0.out, if Probes(t, m) then [Ack] else [])
  {
    SpokeNever(t.out);
    AckSpoke(t.(lastKeepAlive := m.ms, remoteSeq := Minus(t.remoteSeq, 1)));
  }

  /** A step writes exactly these packets, in this order. */
  lemma StepSpoke(t: Tcb, ev: Event)
    requires Sound(t)
    ensures Spoke(t.out, Step(t, ev).out, Kinds(t, ev))
  {
    SpokeNever(t.out);
    match ev
    case FromTun(p, e) => PacketSpoke(t, p, e);
    case FromSocket(e) => SocketSpoke(t, e);
    case Poll(m) => PollSpoke(t, m);
    case _ => RstSpoke(t);
  }

  // ----- the order over runs

  function Count(es: seq<Emitted>, k: Kind): nat {
    if es == [] then 0 else Count(es[..|es| - 1], k) + if KindOf(es[|es| - 1]) == k then 1 else 0
  }

  lemma CountNext(es: seq<Emitted>, e: Emitted, k: Kind)
    ensures Count(es + [e], k) == Count(es, k) + if KindOf(e) == k then 1 else 0
  {
    assert (es + [e])[..|es|] == es;
  }

  /** One SYN comes before all data and the FIN, and none of these behind the FIN. */
  ghost predicate Orderly(es: seq<Emitted>) {
    es != [] ==>
      var before, last := es[..|es| - 1], es[|es| - 1];
      && Orderly(before) && WellFormed(last)
      && (KindOf(last) == Syn ==> Count(before, Syn) == Count(before, Data) == Count(before, Fin) == 0)
      && (KindOf(last) in {Data, Fin} ==> Count(before, Syn) == 1 && Count(before, Fin) == 0)
  }

  /** The states between our SYN and our FIN. */
  predicate Talks(s: State) {
    s in {SynRecv, Established, CloseWait}
  }

  predicate Hushed(s: State) {
    s in {FinWait1, LastAck}
  }

  /** What has been written by a session in state s. */
  ghost predicate Told(s: State, out: seq<Emitted>) {
    && Orderly(out)
    && (s == Listen ==> out == [])
    && (Talks(s) ==> Count(out, Syn) == 1 && Count(out, Fin) == 0)
    && (Hushed(s) ==> Count(out, Syn) == 1 && Count(out, Fin) == 1)
  }

  /** What a step writes fits the state it starts from and the one it leads to. */
  predicate Fitting(s: State, ks: seq<Kind>, s': State) {
    && |ks| <= 2
    && (Syn in ks ==> s == Listen && ks == [Syn] && s' in {SynRecv, Closing})
    && (Data in ks || Fin in ks ==> Talks(s) && ks[0] in {Ack, Data, Fin} && (|ks| == 2 ==> ks[0] == Ack))
    && (Fin in ks ==> !Talks(s'))
    && (s' == Listen ==> s == Listen && ks == [])
    && (Talks(s') ==> Talks(s) || ks == [Syn])
    && (Hushed(s') ==> if Hushed(s) then Fin !in ks else Talks(s) && Fin in ks)
  }

  lemma FlagsFit(t: Tcb, p: Packet, e: PacketEnv)
    ensures var s, s' := t.state, HandleFlags(t, p, e).state;
            && (s' == Listen ==> s == Listen) && (Talks(s') ==> Talks(s)) && (Hushed(s') ==> Hushed(s))
            && (s == Listen && !p.rst && p.ack && AcksFuture(p.ackSeq, t.localSeq) ==> s' == Closing)
  {
  }

  lemma PacketFits(t: Tcb, p: Packet, e: PacketEnv)
    requires Sound(t) && t.dport != HTTPS
    ensures Fitting(t.state, PacketKinds(t, p, e), HandleTcp(t, p, e).state)
  {
    var t1 := t.(time := e.now, sendWindow := ScaledWindow(p.window, t.sendScale));
    FlagsFit(t1, p, e);
    FlagsFit(QueueTcp(t1, p), p, e);
  }

  lemma ReadFits(t: Tcb, e: SocketEvent)
    requires DataState(t) && e.input && SendWindow(t.acked, t.localSeq, t.sendWindow) > 0
    ensures var s' := ReadSocket(t, e).state;
            var eof := e.recv.Bytes? && (e.recv.data == [] || Size(t) == 0) && t.forward.Nil?;
            s' != Listen && (Hushed(s') ==> eof) && (eof ==> !Talks(s'))
  {
  }

  lemma ServeFits(t: Tcb, e: SocketEvent)
    requires Sound(t) && t.state != Listen && !e.error
    ensures Fitting(t.state, SocketKinds(t, e), CheckSocket(t, e).state)
  {
    var (t1, fwd) := TryForward(t, e);
    ForwardLeaves(t, e);
    AnnounceSpoke(t1, fwd, e);
    AnnounceLeaves(t1, fwd, e);
    var t2 := Announce(t1, fwd, e);
    if Reads(t, e) {
      assert DataState(t2);
      ReadFits(t2, e);
    } else {
      assert CheckSocket(t, e).state == t2.state;
    }
  }

  lemma StepFitting(t: Tcb, ev: Event)
    requires Sound(t) && t.dport != HTTPS && (t.state == Listen ==> t.events == Events(false, true))
    ensures Fitting(t.state, Kinds(t, ev), Step(t, ev).state)
  {
    match ev
    case FromTun(p, e) => PacketFits(t, p, e);
    case FromSocket(e) =>
      if !e.error && t.state != Listen {
        ServeFits(t, e);
      }
    case _ =>
  }

  lemma OrderlyNext(es: seq<Emitted>, e: Emitted)
    requires Orderly(es) && WellFormed(e)
    requires KindOf(e) == Syn ==> es == []
    requires KindOf(e) in {Data, Fin} ==> Count(es, Syn) == 1 && Count(es, Fin) == 0
    ensures Orderly(es + [e])
  {
    assert (es + [e])[..|es|] == es;
  }

  lemma OneMore(out: seq<Emitted>, out': seq<Emitted>, ks: seq<Kind>)
    requires Spoke(out, out', ks) && ks != []
    ensures |out'| == |out| + |ks| && Spoke(out, out'[..|out'| - 1], ks[..|ks| - 1])
    ensures out' == out'[..|out'| - 1] + [out'[|out'| - 1]]
    ensures WellFormed(out'[|out'| - 1]) && KindOf(out'[|out'| - 1]) == ks[|ks| - 1]
  {
    var last := out'[|out|..][|ks| - 1];
    assert last == out'[|out'| - 1];
    assert out'[..|out'| - 1][|out|..] == out'[|out|..][..|ks| - 1];
  }

  /** The counts after a step. */
  lemma {:induction false} SpokeCounts(out: seq<Emitted>, out': seq<Emitted>, ks: seq<Kind>, k: Kind)
    requires Spoke(out, out', ks) && |ks| <= 2
    ensures k !in ks ==> Count(out', k) == Count(out, k)
    ensures ks == [k] || (|ks| == 2 && ks[0] != k && ks[1] == k) ==> Count(out', k) == Count(out, k) + 1
  {
    if ks == [] {
      assert out' == out;
    } else {
      OneMore(out, out', ks);
      CountNext(out'[..|out'| - 1], out'[|out'| - 1], k);
      SpokeCounts(out, out'[..|out'| - 1], ks[..|ks| - 1], k);
      assert k !in ks ==> k !in ks[..|ks| - 1];
    }
  }

  lemma OneTold(s: State, out: seq<Emitted>, k: Kind, out': seq<Emitted>)
    requires Told(s, out) && Spoke(out, out', [k])
    requires (k == Syn ==> s == Listen) && (k in {Data, Fin} ==> Talks(s))
    ensures Orderly(out')
  {
    OneMore(out, out', [k]);
    assert out'[..|out'| - 1] == out;
    OrderlyNext(out, out'[|out|]);
  }

  lemma ToldNext(s: State, out: seq<Emitted>, ks: seq<Kind>, s': State, out': seq<Emitted>)
    requires Told(s, out) && Fitting(s, ks, s') && Spoke(out, out', ks)
    ensures Told(s', out')
  {
    SpokeCounts(out, out', ks, Syn);
    SpokeCounts(out, out', ks, Fin);
    if |ks| == 0 {
      assert out' == out;
    } else if |ks| == 1 {
      assert ks == [ks[0]];
      OneTold(s, out, ks[0], out');
    } else {
      TwoTold(s, out, ks, out');
    }
  }

  lemma TwoTold(s: State, out: seq<Emitted>, ks: seq<Kind>, out': seq<Emitted>)
    requires Told(s, out) && |ks| == 2 && Spoke(out, out', ks) && Syn !in ks
    requires ks[1] in {Data, Fin} ==> Talks(s) && ks[0] == Ack
    requires ks[0] in {Data, Fin} ==> Talks(s)
    ensures Orderly(out')
  {
    OneMore(out, out', ks);
    var front := out'[..|out'| - 1];
    assert ks[..1] == [ks[0]];
    OneTold(s, out, ks[0], front);
    SpokeCounts(out, front, [ks[0]], Syn);
    SpokeCounts(out, front, [ks[0]], Fin);
    OrderlyNext(front, out'[|out'| - 1]);
  }

  /** A session to another port than that of HTTPS before its connect is reported. */
  predicate Polled(t: Tcb) {
    t.dport != HTTPS && (t.state == Listen ==> t.events == Events(false, true))
  }

  lemma StepPolled(t: Tcb, ev: Event)
    requires Polled(t) && Sound(t)
    ensures Polled(Step(t, ev))
  {
    StepPort(t, ev);
    if Step(t, ev).state == Listen {
      StepFitting(t, ev);
      if ev.FromTun? {
        PacketEvents(t, ev.p, ev.pe);
      } else if ev.FromSocket? {
        SocketLeavesListen(t, ev.se);
      }
    }
  }

  lemma FlagsEvents(t: Tcb, p: Packet, e: PacketEnv)
    ensures HandleFlags(t, p, e).events == t.events
  {
  }

  lemma PacketEvents(t: Tcb, p: Packet, e: PacketEnv)
    requires t.dport != HTTPS
    ensures HandleTcp(t, p, e).events == t.events
  {
    var t1 := t.(time := e.now, sendWindow := ScaledWindow(p.window, t.sendScale));
    FlagsEvents(t1, p, e);
    FlagsEvents(QueueTcp(t1, p), p, e);
  }

  lemma {:induction false} RunTold(t: Tcb, evs: seq<Event>)
    requires Told(t.state, t.out) && Polled(t) && Sound(t)
    ensures Told(Run(t, evs).state, Run(t, evs).out)
    decreases |evs|
  {
    if evs != [] {
      StepSpoke(t, evs[0]);
      StepFitting(t, evs[0]);
      ToldNext(t.state, t.out, Kinds(t, evs[0]), Step(t, evs[0]).state, Step(t, evs[0]).out);
      StepPolled(t, evs[0]);
      StepSound(t, evs[0]);
      RunTold(Step(t, evs[0]), evs[1..]);
    }
  }

  /** From every SYN to another port than that of HTTPS: the SYN is answered once at most, data comes only behind
      that answer, and neither data nor a second FIN behind our FIN; between the two states say which were written. */
  lemma OrderlyFromSyn(p: Packet, dport: u16, mss: u16, scale: Scale, isn: u32, socket: nat, room: u32, now: int,
                       evs: seq<Event>)
    requires dport != HTTPS
    ensures var t := Run(NewSession(p, dport, mss, scale, isn, socket, room, now), evs);
            && Orderly(t.out) && Count(t.out, Syn) <= 1 && Count(t.out, Fin) <= 1
            && (Talks(t.state) ==> Count(t.out, Syn) == 1 && Count(t.out, Fin) == 0)
            && (Hushed(t.state) ==> Count(t.out, Syn) == 1 && Count(t.out, Fin) == 1)
  {
    RunTold(NewSession(p, dport, mss, scale, isn, socket, room, now), evs);
    OnceEach(Run(NewSession(p, dport, mss, scale, isn, socket, room, now), evs).out);
  }

  lemma {:induction false} OnceEach(out: seq<Emitted>)
    requires Orderly(out)
    ensures Count(out, Syn) <= 1 && Count(out, Fin) <= 1
  {
    if out != [] {
      OnceEach(out[..|out| - 1]);
    }
  }
}
