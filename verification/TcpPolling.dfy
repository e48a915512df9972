/** The poll set-up: which events a session asks for, what they would achieve, and when it asks for another look. */
module TcpPolling {
  import opened Words
  import opened Reassembly
  import opened Windows
  import opened Tcp
  import opened TcpSafety
  import opened TcpRuns
  import opened TcpAcks
  import opened TcpFlags
  import opened TcpReads

  /** An event the set-up could ask for: the socket is writable, or readable with data to read, and the tun device takes
      what is written. */
  predicate Writable(e: SocketEvent) {
    !e.error && e.output && e.ackOk
  }

  predicate Readable(e: SocketEvent) {
    !e.error && e.input && Answer(e) != [] && e.ackOk
  }

  /** The set-up of a session whose poll events can be changed, and whose keep-alive, if any, is written. */
  predicate Works(m: MonitorEnv) {
    m.modOk && m.writeOk
  }

  lemma MonitorKeeps(t: Tcb, m: MonitorEnv)
    requires Works(m)
    ensures var t' := Monitor(t, m).0;
            && t' == t.(out := t'.out, lastKeepAlive := t'.lastKeepAlive, events := t'.events)
            && t'.events == Wanted(t, m.room)
  {
  }

  /** The set-up closes a session exactly if it needs other events and epoll refuses them, or cannot write a keep-alive;
      and what it needs it has asked for then. */
  lemma RefusedIsClosed(t: Tcb, m: MonitorEnv)
    requires t.state != Closing
    ensures var t' := Monitor(t, m).0;
            && t'.events == Wanted(t, m.room)
            && (t'.state == Closing <==> (t'.events != t.events && !m.modOk) || (Probes(t, m) && !m.writeOk))
            && (t'.state != Closing ==> t'.state == t.state)
  {
  }

  // ----- sessions that transfer data

  /** The session asks for a writable event exactly if with the same free socket buffer that would hand on a segment. */
  lemma OutputIff(t: Tcb, m: MonitorEnv, e: SocketEvent)
    requires DataState(t) && Sound(t) && Works(m) && e.output && e.room == m.room
    ensures Monitor(t, m).0.events.output <==> TryForward(Monitor(t, m).0, e).1
  {
    MonitorKeeps(t, m);
  }

  /** And for a readable event exactly if that would read something. */
  lemma InputIff(t: Tcb, m: MonitorEnv, e: SocketEvent)
    requires DataState(t) && Sound(t) && Works(m) && Readable(e) && t.mss > 0
    ensures Monitor(t, m).0.events.input <==> CheckSocket(Monitor(t, m).0, e).received > t.received
  {
    MonitorKeeps(t, m);
    var t' := Monitor(t, m).0;
    StepTakes(t', FromSocket(e));
    assert Reads(t', e) <==> t'.events.input;
  }

  /** Another look is asked for exactly if no event is asked for that would read, or one that would write although
      data is queued. */
  lemma AgainIff(t: Tcb, m: MonitorEnv)
    requires Works(m)
    ensures var (t', again) := Monitor(t, m);
            again <==> DataState(t) && (!t'.events.input || (t.forward.Cons? && !t'.events.output))
  {
    MonitorKeeps(t, m);
  }

  /** A segment at the head of the queue that is next in the stream and fits the socket buffer is handed on, as far as
      send() takes it, by the next writable event, which the session asks for. */
  lemma ReadyIsHandedOn(t: Tcb, m: MonitorEnv, e: SocketEvent)
    requires DataState(t) && Sound(t) && Works(m) && Ready(t.forward, t.remoteSeq, m.room)
    requires Writable(e) && e.room >= m.room
    ensures var t', g := Monitor(t, m).0, t.forward.head;
            var piece := g.data[g.sent..g.sent + Counted(Next(e.sends), Unsent(g))];
            && t'.events.output
            && t.accepted + piece <= CheckSocket(t', e).accepted
  {
    MonitorKeeps(t, m);
    var t' := Monitor(t, m).0;
    assert t'.events.output;
    ForwardTakes(t.forward, t.remoteSeq, e.room, e.sends);
    SocketQueue(t', e);
  }

  lemma ForwardTakes(q: Queue, remoteSeq: u32, room: int, sends: seq<int>)
    requires Ready(q, remoteSeq, room)
    ensures q.head.data[q.head.sent..q.head.sent + Counted(Next(sends), Unsent(q.head))]
         <= Forward(q, remoteSeq, room, sends).accepted
  {
  }

  /** A pass never hands on as much as the socket buffer has room for. */
  lemma {:induction false} PassWithinRoom(q: Queue, remoteSeq: u32, room: nat, sends: seq<int>)
    ensures var p := Forward(q, remoteSeq, room, sends);
            p.any ==> |p.accepted| < room
    decreases q
  {
    if Ready(q, remoteSeq, room) {
      var k := Counted(Next(sends), Unsent(q.head));
      if k == Unsent(q.head) {
        PassWithinRoom(q.tail, Plus(q.head.seqNo, q.head.sent + k), room - k, Rest(sends));
        NothingHandedOn(q.tail, Plus(q.head.seqNo, q.head.sent + k), room - k, Rest(sends));
      }
    }
  }

  lemma NothingHandedOn(q: Queue, remoteSeq: u32, room: int, sends: seq<int>)
    ensures !Forward(q, remoteSeq, room, sends).any ==> Forward(q, remoteSeq, room, sends).accepted == []
  {
  }

  // ----- the other states

  /** A session in LISTEN asks for exactly the event that gets it to SYN_RECV on time: input, if it waits for the reply
      of the proxy, and else output. */
  lemma ListenIff(t: Tcb, m: MonitorEnv, reply: SocketEvent, connected: SocketEvent)
    requires t.state == Listen && Sound(t) && Works(m) && Readable(reply)
    requires !connected.error && !connected.input && connected.ackOk
    ensures var t' := Monitor(t, m).0;
            && (t'.events.input <==> CheckSocket(t', reply).state == SynRecv)
            && (t'.events.output <==> !t'.events.input)
            && CheckSocket(t', connected).state == SynRecv
  {
    MonitorKeeps(t, m);
  }

  /** In all other states nothing would be read, and the session asks for nothing. */
  lemma QuietIff(t: Tcb, m: MonitorEnv, e: SocketEvent)
    requires t.state != Listen && !DataState(t) && Works(m) && Sound(t)
    ensures Monitor(t, m) == (t.(events := Events(false, false)), false)
    ensures CheckSocket(t, e).received == t.received
  {
    StepTakes(t, FromSocket(e));
  }

  // ----- keep-alives

  /** A data session whose send window is shut is asked for its window whenever the last time is more than 100
      milliseconds ago, and only then. */
  lemma ProbeIff(t: Tcb, m: MonitorEnv)
    requires Sound(t)
    ensures var t' := Monitor(t, m).0;
            && (|t'.out| > |t.out| <==> Probes(t, m))
            && (Probes(t, m) ==>
                  && t'.lastKeepAlive == m.ms && |t'.out| == |t.out| + 1
                  && t'.out[|t.out|].ack && t'.out[|t.out|].ackNo == Minus(t.remoteSeq, 1))
            && (!Probes(t, m) ==> t'.lastKeepAlive == t.lastKeepAlive)
  {
    PollSpoke(t, m);
    KeepAliveAnswers(t, m);
  }

  lemma FlagsClock(t: Tcb, p: Packet, e: PacketEnv)
    ensures HandleFlags(t, p, e).lastKeepAlive == t.lastKeepAlive
  {
  }

  lemma SocketClock(t: Tcb, e: SocketEvent)
    ensures CheckSocket(t, e).lastKeepAlive == t.lastKeepAlive
  {
    if !e.error && t.state != Listen {
      var (t1, fwd) := TryForward(t, e);
      ForwardLeaves(t, e);
      AnnounceLeaves(t1, fwd, e);
      ReadClock(Announce(t1, fwd, e), e);
    }
  }

  lemma ReadClock(t: Tcb, e: SocketEvent)
    ensures ReadSocket(t, e).lastKeepAlive == t.lastKeepAlive
  {
  }

  lemma StepClock(t: Tcb, ev: Event)
    requires Sound(t)
    ensures var t' := Step(t, ev);
            || t'.lastKeepAlive == t.lastKeepAlive
            || (ev.Poll? && t'.lastKeepAlive == ev.m.ms > t.lastKeepAlive + EPOLL_MIN_CHECK)
  {
    match ev
    case FromTun(p, e) =>
      var t1 := t.(time := e.now, sendWindow := ScaledWindow(p.window, t.sendScale));
      FlagsClock(t1, p, e);
      FlagsClock(QueueTcp(t1, p), p, e);
    case FromSocket(e) => SocketClock(t, e);
    case Poll(m) => ProbeIff(t, m);
    case _ =>
  }

  lemma {:induction false} RunClock(t: Tcb, evs: seq<Event>)
    requires Sound(t)
    ensures Run(t, evs).lastKeepAlive >= t.lastKeepAlive
    decreases |evs|
  {
    if evs != [] {
      StepClock(t, evs[0]);
      StepSound(t, evs[0]);
      RunClock(Step(t, evs[0]), evs[1..]);
    }
  }

  /** Two keep-alives of a session are more than 100 milliseconds apart, whatever happens in between and whatever the
      clock does. */
  lemma ProbesApart(t: Tcb, m: MonitorEnv, evs: seq<Event>, m': MonitorEnv)
    requires Sound(t) && Probes(t, m) && Probes(Run(Monitor(t, m).0, evs), m')
    ensures m'.ms - m.ms > EPOLL_MIN_CHECK
  {
    ProbeIff(t, m);
    PollSound(t, m);
    RunClock(Monitor(t, m).0, evs);
  }
}
