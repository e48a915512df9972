/** The TCP relay of tcp.c on values: one function per entry point, from the state of a session and
    what the environment answers to the next state. */
module Tcp {
  import opened Words
  import opened Serial
  import opened Lists
  import opened Reassembly
  import opened Windows

  const HTTPS := 443

  const TCP_INIT_TIMEOUT := 30
  const TCP_IDLE_TIMEOUT := 3600
  const TCP_CLOSE_TIMEOUT := 30
  const TCP_KEEP_TIMEOUT := 300
  const EPOLL_MIN_CHECK := 100

  datatype State = Listen | SynRecv | Established | CloseWait | FinWait1 | LastAck | Closing | Close

  /** connect_sent: the progress of the CONNECT request that opens a tunnel through the proxy. */
  datatype Connect = NotSent | Requested | Tunnelled

  /** A packet handed to the tun device. */
  datatype Emitted = Emitted(seqNo: u32, ackNo: u32, syn: bool, ack: bool, fin: bool, rst: bool, window: u16,
                             data: seq<byte>)

  /** Requested poll events besides EPOLLERR. */
  datatype Events = Events(input: bool, output: bool)

  /** struct tcp_session with the socket of its ng_session. The last three fields are history:
      bytes counted as forwarded, bytes the socket took, packets written to the tun device. */
  datatype Tcb = Tcb(
    dport: u16, mss: u16, recvScale: Scale, sendScale: Scale,
    state: State, connect: Connect, socket: int, events: Events,
    recvWindow: u32, sendWindow: u32,
    remoteSeq: u32, localSeq: u32, remoteStart: u32, localStart: u32, acked: u32,
    time: int, lastKeepAlive: int, sent: nat, received: nat,
    forward: Queue,
    accepted: seq<byte>, wire: seq<byte>, out: seq<Emitted>)

  /** The states in which data is read from the socket. */
  predicate DataState(t: Tcb) {
    t.state in {Established, CloseWait}
  }

  // ----- writing packets

  function Emit(t: Tcb, syn: bool, ack: bool, fin: bool, rst: bool, data: seq<byte>): Tcb {
    t.(out := t.out + [Emitted(t.localSeq, if ack then t.remoteSeq else 0, syn, ack, fin, rst,
                               WindowField(t.recvWindow, t.recvScale), data)])
  }

  /** write_syn_ack, write_ack, write_fin_ack and write_data: a failed write closes the session. */
  function Write(t: Tcb, syn: bool, fin: bool, data: seq<byte>, ok: bool): Tcb {
    Emit(t, syn, true, fin, false, data).(state := if ok then t.state else Closing)
  }

  function WriteRst(t: Tcb): Tcb {
    var t1 := if t.state == Listen then t.(remoteSeq := Plus(t.remoteSeq, 1)) else t;
    Emit(t1, false, t.state == Listen, false, true, []).(state := if t.state == Close then Close else Closing)
  }

  // ----- a packet from the tun device

  datatype Packet = Packet(seqNo: u32, ackSeq: u32, window: u16,
                           syn: bool, ack: bool, fin: bool, rst: bool, urg: bool, psh: bool, data: Payload)

  /** hostKnown: a host name for the CONNECT request was found; sendOk: send() took the request;
      writeOk: the tun device took the answer. */
  datatype PacketEnv = PacketEnv(now: int, hostKnown: bool, sendOk: bool, writeOk: bool)

  function QueueTcp(t: Tcb, p: Packet): Tcb {
    t.(forward := Enqueue(t.forward, t.remoteSeq, p.seqNo, p.data, p.psh))
  }

  /** The first packet of an HTTPS session after its SYN asks the proxy for a tunnel. */
  function RequestTunnel(t: Tcb, e: PacketEnv): Tcb {
    if t.dport == HTTPS && t.connect == NotSent && e.hostKnown then
      if t.socket >= 0 && e.sendOk then t.(connect := Requested, state := Listen) else WriteRst(t)
    else t
  }

  function HandleFin(t: Tcb, ok: bool): Tcb {
    match t.state
    case Established =>
      if t.forward.Nil? then
        var t1 := Write(t.(remoteSeq := Plus(t.remoteSeq, 1)), false, false, [], ok);
        if ok then t1.(state := CloseWait) else t1
      else t.(state := CloseWait)
    case FinWait1 =>
      var t1 := Write(t.(remoteSeq := Plus(t.remoteSeq, 1)), false, false, [], ok);
      if ok then t1.(state := Close) else t1
    case _ => t
  }

  function HandleAck(t: Tcb, ackSeq: u32): Tcb {
    t.(acked := ackSeq,
       state := match t.state case SynRecv => Established case LastAck => Closing case s => s)
  }

  /** An acknowledgement of something else than all that was sent. */
  function HandleOldAck(t: Tcb, ack: u32): Tcb {
    if Plus(ack, 1) == t.localSeq then t
    else if CompareU32(ack, t.localSeq) < 0 then
      if CompareU32(ack, t.acked) <= 0 then t else t.(acked := ack)
    else WriteRst(t)
  }

  function HandleFlags(t: Tcb, p: Packet, e: PacketEnv): Tcb {
    if p.rst then t.(state := Closing)
    else if !p.ack || p.ackSeq == t.localSeq then
      if p.syn then t
      else if p.fin then HandleFin(t, e.writeOk)
      else if p.ack then HandleAck(t, p.ackSeq)
      else t
    else HandleOldAck(t, p.ackSeq)
  }

  function HandleSegment(t: Tcb, p: Packet, e: PacketEnv): Tcb {
    var t1 := t.(time := e.now, sendWindow := ScaledWindow(p.window, t.sendScale));
    if p.data == [] then HandleFlags(t1, p, e)
    else if t1.socket < 0 || t1.state == CloseWait then WriteRst(t1)
    else HandleFlags(QueueTcp(t1, p), p, e)
  }

  /** handle_tcp once the session has been found. */
  function HandleTcp(t0: Tcb, p: Packet, e: PacketEnv): Tcb {
    if p.urg then t0
    else
      var t := RequestTunnel(t0, e);
      if t.dport == HTTPS && t.connect != Tunnelled then QueueTcp(t, p)
      else if t.state in {Closing, Close} then WriteRst(t)
      else HandleSegment(t, p, e)
  }

  // ----- an event on the socket

  /** What recv() can answer; no bytes is end of file. */
  datatype Recv = Failed(retry: bool) | Bytes(data: seq<byte>)

  /** room and room2 are the two readings of the free socket buffer, sends the results of send(). */
  datatype SocketEvent = SocketEvent(error: bool, input: bool, output: bool, now: int,
                                     room: u32, room2: u32, sends: seq<int>, ackOk: bool,
                                     recv: Recv, writeOk: bool)

  function ReceiveBuffer(t: Tcb, room: u32): u32 {
    if t.socket < 0 then 0 else room
  }

  function Connected(t: Tcb, e: SocketEvent): Tcb {
    if e.input then
      if e.recv.Bytes? && t.connect == Requested then t.(connect := Tunnelled, state := SynRecv)
      else WriteRst(t)
    else
      var t1 := Write(t.(remoteSeq := Plus(t.remoteSeq, 1)), true, false, [], e.ackOk);
      if e.ackOk then t1.(time := e.now, localSeq := Plus(t.localSeq, 1), state := SynRecv) else t1
  }

  function ForwardQueue(t: Tcb, room: u32, sends: seq<int>): (Tcb, bool) {
    var p := Forward(t.forward, t.remoteSeq, room, sends);
    (t.(forward := p.queue, remoteSeq := p.remoteSeq, sent := t.sent + |p.accepted|,
        accepted := t.accepted + p.accepted, wire := t.wire + p.wire), p.any)
  }

  /** Acknowledge forwarded data, and the FIN that waited for the queue to drain. */
  function Acknowledge(t: Tcb, fwd: bool, e: SocketEvent): Tcb {
    var t1 := if fwd && t.forward.Nil? && t.state == CloseWait then t.(remoteSeq := Plus(t.remoteSeq, 1)) else t;
    var t2 := Write(t1, false, false, [], e.ackOk);
    if e.ackOk then t2.(time := e.now) else t2
  }

  function EndOfFile(t: Tcb, ok: bool): Tcb {
    if t.forward.Nil? then
      var t1 := Write(t, false, true, [], ok);
      t1.(localSeq := if ok then Plus(t.localSeq, 1) else t.localSeq,
          state := match t1.state case Established => FinWait1 case CloseWait => LastAck case s => s,
          socket := -1)
    else WriteRst(t).(socket := -1)
  }

  function ReadSocket(t: Tcb, e: SocketEvent): Tcb {
    var window := SendWindow(t.acked, t.localSeq, t.sendWindow);
    if !e.input || window == 0 then t
    else
      var t1 := t.(time := e.now);
      match e.recv
      case Failed(retry) => if retry then t1 else WriteRst(t1)
      case Bytes(data) =>
        var n := Min(|data|, Min(window, t.mss));
        if n == 0 then EndOfFile(t1, e.writeOk)
        else
          var t2 := Write(t1.(received := t1.received + n), false, false, data[..n], e.writeOk);
          if e.writeOk then t2.(localSeq := Plus(t.localSeq, n)) else t2
  }

  /** Announce the receive window, and acknowledge if data was forwarded or the window reopened. */
  function Announce(t: Tcb, fwd: bool, e: SocketEvent): Tcb {
    var window := ReceiveWindow(t.forward, ReceiveBuffer(t, e.room2), t.recvScale);
    var t1 := t.(recvWindow := window);
    if fwd || (t.recvWindow == 0 && window > 0) then Acknowledge(t1, fwd, e) else t1
  }

  function TryForward(t: Tcb, e: SocketEvent): (Tcb, bool) {
    if e.output then ForwardQueue(t, ReceiveBuffer(t, e.room), e.sends) else (t, false)
  }

  /** What follows the forwarding pass. */
  function AfterForward(t: Tcb, fwd: bool, e: SocketEvent): Tcb {
    var t1 := Announce(t, fwd, e);
    if DataState(t1) then ReadSocket(t1, e) else t1
  }

  /** check_tcp_socket. */
  function CheckSocket(t: Tcb, e: SocketEvent): Tcb {
    if e.error then WriteRst(t.(time := e.now))
    else if t.state == Listen then Connected(t, e)
    else var (t1, fwd) := TryForward(t, e); AfterForward(t1, fwd, e)
  }

  // ----- poll set-up and timer

  datatype MonitorEnv = MonitorEnv(ms: int, room: u32, writeOk: bool, modOk: bool)

  /** A bare acknowledgement one below remote_seq asks the peer for its window. */
  function KeepAlive(t: Tcb, m: MonitorEnv): Tcb {
    if m.ms - t.lastKeepAlive > EPOLL_MIN_CHECK then
      Write(t.(lastKeepAlive := m.ms, remoteSeq := Minus(t.remoteSeq, 1)), false, false, [], m.writeOk)
        .(remoteSeq := t.remoteSeq)
    else t
  }

  function Wanted(t: Tcb, room: u32): Events {
    if t.state == Listen then
      var reply := t.connect == Requested && t.dport == HTTPS;
      Events(reply, !reply)
    else if DataState(t) then
      Events(SendWindow(t.acked, t.localSeq, t.sendWindow) > 0,
             Ready(t.forward, t.remoteSeq, ReceiveBuffer(t, room)))
    else Events(false, false)
  }

  /** monitor_tcp_session; the flag asks for another look within 100 milliseconds. */
  function Monitor(t: Tcb, m: MonitorEnv): (Tcb, bool) {
    var wanted := Wanted(t, m.room);
    var t1 := if DataState(t) && !wanted.input then KeepAlive(t, m) else t;
    var t2 := if wanted == t.events then t1
              else t1.(events := wanted, state := if m.modOk then t1.state else Closing);
    (t2, DataState(t) && (!wanted.input || (t.forward.Cons? && !wanted.output)))
  }

  /** The load factor shared by the three get_*_timeout functions. */
  function Scaled(timeout: nat, sessions: nat, maxsessions: nat): int
    requires maxsessions > 0
  {
    TruncDiv(timeout * (100 - sessions * 100 / maxsessions), 100)
  }

  function BaseTimeout(s: State): nat {
    match s
    case Listen | SynRecv => TCP_INIT_TIMEOUT
    case Established => TCP_IDLE_TIMEOUT
    case _ => TCP_CLOSE_TIMEOUT
  }

  function Timeout(s: State, sessions: nat, maxsessions: nat): int
    requires maxsessions > 0
  {
    Scaled(BaseTimeout(s), sessions, maxsessions)
  }

  predicate Active(t: Tcb) {
    t.state !in {Closing, Close}
  }

  predicate Expired(t: Tcb, sessions: nat, maxsessions: nat, now: int)
    requires maxsessions > 0
  {
    Active(t) && t.time + Timeout(t.state, sessions, maxsessions) < now
  }

  function TimeOut(t: Tcb, sessions: nat, maxsessions: nat, now: int): Tcb
    requires maxsessions > 0
  {
    if !Expired(t, sessions, maxsessions, now) then t
    else if t.state == Listen then t.(state := Closing)
    else WriteRst(t)
  }

  function FinishClosing(t: Tcb, now: int): Tcb {
    if t.state == Closing then t.(socket := if t.socket >= 0 then -1 else t.socket, time := now, state := Close) else t
  }

  /** check_tcp_session up to the decision whether to remove the session. */
  function CheckTimer(t: Tcb, sessions: nat, maxsessions: nat, now: int): Tcb
    requires maxsessions > 0
  {
    var t1 := FinishClosing(TimeOut(t, sessions, maxsessions, now), now);
    if t1.state in {Closing, Close} then t1.(sent := 0, received := 0) else t1
  }

  /** The answer of check_tcp_session: the session may be freed. */
  predicate Lingered(t: Tcb, now: int) {
    t.state == Close && t.time + TCP_KEEP_TIMEOUT < now
  }

  // ----- runs

  /** The session handle_tcp creates for a SYN. */
  function NewSession(p: Packet, dport: u16, mss: u16, scale: Scale, isn: u32, socket: nat, room: u32, now: int): Tcb {
    var queue := if p.data == [] then Nil else Cons(Segment(p.seqNo, p.data, 0, p.psh), Nil);
    Tcb(dport, mss, scale, scale, Listen, if dport == 80 then Tunnelled else NotSent, socket, Events(false, true),
        ReceiveWindow(queue, room, scale), ScaledWindow(p.window, scale),
        p.seqNo, isn, p.seqNo, isn, 0, now, 0, 0, 0, queue, [], [], [])
  }

  /** One step of the event loop on one session; Terminate is check_allowed. */
  datatype Event =
    | FromTun(p: Packet, pe: PacketEnv)
    | FromSocket(se: SocketEvent)
    | Poll(m: MonitorEnv)
    | Timer(sessions: nat, maxsessions: nat, now: int)
    | Terminate

  function Step(t: Tcb, ev: Event): Tcb {
    match ev
    case FromTun(p, pe) => HandleTcp(t, p, pe)
    case FromSocket(se) => CheckSocket(t, se)
    case Poll(m) => if t.socket >= 0 then Monitor(t, m).0 else t
    case Timer(sessions, maxsessions, now) => if maxsessions > 0 then CheckTimer(t, sessions, maxsessions, now) else t
    case Terminate => if Active(t) then WriteRst(t) else t
  }

  function Run(t: Tcb, evs: seq<Event>): Tcb
    decreases |evs|
  {
    if evs == [] then t else Run(Step(t, evs[0]), evs[1..])
  }
}
