/** The lives a session can have when everyone plays by the rules: how it gets established, with and without a tunnel,
    and how it is closed from either side. */
module TcpLives {
  import opened Words
  import opened Lists
  import opened Reassembly
  import opened Windows
  import opened Tcp
  import opened TcpSafety
  import opened TcpAcks

  /** The peer acknowledges all that was written, without data. */
  predicate Acknowledging(p: Packet, localSeq: u32) {
    p.ack && p.ackSeq == localSeq && !p.syn && !p.fin && !p.rst && !p.urg && p.data == []
  }

  predicate Finishing(p: Packet, localSeq: u32) {
    p.fin && !p.syn && !p.rst && !p.urg && p.data == [] && (p.ack ==> p.ackSeq == localSeq)
  }

  predicate Connects(e: SocketEvent) {
    !e.error && !e.input && e.ackOk
  }

  /** The server has nothing more to send. */
  predicate EndsFile(e: SocketEvent) {
    !e.error && e.input && !e.output && e.recv == Bytes([]) && e.writeOk && e.ackOk
  }

  // ----- getting established

  /** A finished connect is answered with the SYN, and the acknowledgement of that establishes the session. */
  lemma HandshakeCompletes(syn: Packet, ack: Packet, dport: u16, mss: u16, scale: Scale, isn: u32, socket: nat,
                           room: u32, now: int, connected: SocketEvent, e: PacketEnv)
    requires dport != HTTPS && Connects(connected) && Acknowledging(ack, Plus(isn, 1))
    ensures var t0 := NewSession(syn, dport, mss, scale, isn, socket, room, now);
            var t := Run(t0, [FromSocket(connected), FromTun(ack, e)]);
            && t.state == Established && t.socket == socket && t.acked == t.localSeq == Plus(isn, 1)
            && t.remoteSeq == Plus(syn.seqNo, 1) && t.forward == t0.forward
            && |t.out| == 1 && t.out[0].syn && t.out[0].seqNo == isn && t.out[0].ackNo == Plus(syn.seqNo, 1)
  {
    var t0 := NewSession(syn, dport, mss, scale, isn, socket, room, now);
    RunOfTwo(t0, FromSocket(connected), FromTun(ack, e));
    var t1 := Step(t0, FromSocket(connected));
    assert t1.state == SynRecv && t1.localSeq == Plus(isn, 1);
  }

  lemma RunOfTwo(t: Tcb, a: Event, b: Event)
    ensures Run(t, [a, b]) == Step(Step(t, a), b)
  {
    var t1 := Step(t, a);
    assert [a, b][1..] == [b] && [b][1..] == [];
    assert Run(t1, [b]) == Run(Step(t1, b), []) == Step(t1, b);
  }

  /** An HTTPS session answers its SYN, asks the proxy for the tunnel on the first packet with a host name, queues that
      packet, and is established by the next one behind the proxy's reply. */
  lemma TunnelCompletes(syn: Packet, hello: Packet, ack: Packet, mss: u16, scale: Scale, isn: u32, socket: nat,
                        room: u32, now: int, connected: SocketEvent, asks: PacketEnv, reply: SocketEvent, e: PacketEnv)
    requires syn.data == [] && Connects(connected) && !reply.error && reply.input && reply.recv.Bytes?
    requires hello.seqNo == Plus(syn.seqNo, 1) && !hello.urg && asks.hostKnown && asks.sendOk
    requires Acknowledging(ack, Plus(isn, 1))
    ensures var t := Run(NewSession(syn, HTTPS, mss, scale, isn, socket, room, now),
                         [FromSocket(connected), FromTun(hello, asks), FromSocket(reply), FromTun(ack, e)]);
            && t.state == Established && t.connect == Tunnelled && t.socket == socket
            && t.acked == t.localSeq == Plus(isn, 1) && t.remoteSeq == Plus(syn.seqNo, 1)
            && t.forward == Cons(Segment(hello.seqNo, hello.data, 0, hello.psh), Nil)
  {
    var t0 := NewSession(syn, HTTPS, mss, scale, isn, socket, room, now);
    var a, b, c, d := FromSocket(connected), FromTun(hello, asks), FromSocket(reply), FromTun(ack, e);
    var t1 := Step(t0, a);
    assert t1.state == SynRecv && t1.localSeq == Plus(isn, 1) && t1.forward.Nil?;
    var t2 := Step(t1, b);
    assert t2.state == Listen && t2.connect == Requested;
    assert t2.forward == Cons(Segment(hello.seqNo, hello.data, 0, hello.psh), Nil);
    var t3 := Step(t2, c);
    assert t3.state == SynRecv && t3.connect == Tunnelled && t3.localSeq == Plus(isn, 1);
    assert [a, b, c, d][1..] == [b, c, d] && [b, c, d][1..] == [c, d];
    assert Run(t0, [a, b, c, d]) == Run(t1, [b, c, d]);
    assert Run(t1, [b, c, d]) == Run(t2, [c, d]);
    RunOfTwo(t2, c, d);
  }

  // ----- closing

  /** The client closes first: its FIN is counted and acknowledged, the end of the server's data is passed on as ours,
      and its acknowledgement closes the session. */
  lemma ClientClosesFirst(t: Tcb, fin: Packet, e: PacketEnv, eof: SocketEvent, ack: Packet, e2: PacketEnv)
    requires t.state == Established && Sound(t) && t.forward.Nil?
    requires Finishing(fin, t.localSeq) && e.writeOk && EndsFile(eof)
    requires SendWindow(t.acked, t.localSeq, ScaledWindow(fin.window, t.sendScale)) > 0
    requires Acknowledging(ack, Plus(t.localSeq, 1))
    ensures var t1 := Step(t, FromTun(fin, e));
            var t2 := Step(t1, FromSocket(eof));
            var t3 := Step(t2, FromTun(ack, e2));
            && t1.state == CloseWait && t1.remoteSeq == Plus(t.remoteSeq, 1)
            && t2.state == LastAck && t2.socket == -1 && t2.localSeq == Plus(t.localSeq, 1)
            && t3.state == Closing && t3.socket == -1 && t3.accepted == t.accepted
  {
    var t1 := Step(t, FromTun(fin, e));
    assert t1.state == CloseWait && t1.forward.Nil?;
    EndIsPassedOn(t1, eof);
  }

  /** The end of the server's data, when nothing waits to be forwarded. */
  lemma EndIsPassedOn(t: Tcb, eof: SocketEvent)
    requires DataState(t) && t.forward.Nil? && EndsFile(eof) && SendWindow(t.acked, t.localSeq, t.sendWindow) > 0
    ensures var t' := CheckSocket(t, eof);
            && t'.state == (if t.state == Established then FinWait1 else LastAck) && t'.socket == -1
            && t'.localSeq == Plus(t.localSeq, 1) && t'.remoteSeq == t.remoteSeq && t'.forward.Nil?
            && t'.accepted == t.accepted && t'.dport == t.dport && t'.connect == t.connect
  {
    AnnounceLeaves(t, false, eof);
    AnnounceAnswers(t, false, eof);
  }

  /** The server closes first. */
  lemma ServerClosesFirst(t: Tcb, eof: SocketEvent, fin: Packet, e: PacketEnv)
    requires t.state == Established && Sound(t) && t.forward.Nil? && EndsFile(eof)
    requires SendWindow(t.acked, t.localSeq, t.sendWindow) > 0
    requires Finishing(fin, Plus(t.localSeq, 1)) && e.writeOk
    ensures var t1 := Step(t, FromSocket(eof));
            var t2 := Step(t1, FromTun(fin, e));
            && t1.state == FinWait1 && t1.socket == -1 && t1.localSeq == Plus(t.localSeq, 1)
            && t2.state == Close && t2.socket == -1 && t2.remoteSeq == Plus(t.remoteSeq, 1)
  {
    EndIsPassedOn(t, eof);
  }

  /** A FIN behind data that still waits is counted once the socket has taken that data. */
  lemma FinWaitsForData(t: Tcb, fin: Packet, e: PacketEnv, out: SocketEvent)
    requires t.state == Established && Sound(t) && t.forward.Cons? && Finishing(fin, t.localSeq)
    requires !out.error && out.output && !out.input && out.ackOk
    requires Forward(t.forward, t.remoteSeq, out.room, out.sends).queue.Nil?
    ensures var t1 := Step(t, FromTun(fin, e));
            var t2 := Step(t1, FromSocket(out));
            var p := Forward(t.forward, t.remoteSeq, out.room, out.sends);
            && t1.state == CloseWait && t1.remoteSeq == t.remoteSeq && t1.out == t.out
            && t2.state == CloseWait && t2.accepted == t.accepted + p.accepted && t2.remoteSeq == Plus(p.remoteSeq, 1)
  {
    var t1 := Step(t, FromTun(fin, e));
    assert t1.state == CloseWait && t1.forward == t.forward && t1.socket >= 0;
    var (t2, fwd) := TryForward(t1, out);
    ForwardLeaves(t1, out);
    assert fwd && t2.forward.Nil?;
    AnnounceAnswers(t2, fwd, out);
    AnnounceLeaves(t2, fwd, out);
  }
}
