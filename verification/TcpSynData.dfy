/** Data that comes with a SYN: it is queued at the number of the SYN itself, and what has to happen for it to be
    handed on. */
module TcpSynData {
  import opened Words
  import opened Serial
  import opened Lists
  import opened Reassembly
  import opened Windows
  import opened Tcp
  import opened TcpSafety
  import opened TcpRuns
  import opened TcpOrder

  /** What has become of the data: in LISTEN, len bytes of it queued and the clock last read at since; loose after a
      reset that closed the session with its SYN uncounted; blocked for good; or handed on. */
  datatype Fate = Listening(len: nat, since: int) | Loose(len: nat) | Blocked | HandedOn

  /** The events alone decide it: synNo is the number of the SYN and isn our own. */
  function After(f: Fate, ev: Event, synNo: u32, isn: u32): Fate {
    match f
    case Listening(len, since) => AfterListening(f, ev, synNo, isn)
    case Loose(len) => AfterLoose(f, ev)
    case _ => f
  }

  /** A reset looses the data; an acknowledgement of something never sent, a socket event, the end of the session
      and a timeout block it. */
  function AfterListening(f: Fate, ev: Event, synNo: u32, isn: u32): Fate
    requires f.Listening?
  {
    match ev
    case FromTun(p, e) =>
      var len := if p.seqNo == synNo && |p.data| > f.len then |p.data| else f.len;
      if p.urg then f
      else if p.rst then Loose(len)
      else if p.ack && AcksFuture(p.ackSeq, isn) then Blocked
      else Listening(len, e.now)
    case Timer(sessions, maxsessions, now) =>
      if maxsessions > 0 && f.since + Timeout(Listen, sessions, maxsessions) < now then Blocked else f
    case Poll(_) => f
    case _ => Blocked
  }

  /** A writable socket with more room than the data takes it; the timer closes the socket. */
  function AfterLoose(f: Fate, ev: Event): Fate
    requires f.Loose?
  {
    match ev
    case FromSocket(e) => if !e.error && e.output && f.len < e.room && Next(e.sends) != 0 then HandedOn else f
    case Timer(_, maxsessions, _) => if maxsessions > 0 then Blocked else f
    case _ => f
  }

  function Ending(f: Fate, evs: seq<Event>, synNo: u32, isn: u32): Fate
    decreases |evs|
  {
    if evs == [] then f else Ending(After(f, evs[0], synNo, isn), evs[1..], synNo, isn)
  }

  // ----- the session and the fate of its data

  /** The head of the queue has the number of the SYN, and none of it was sent. */
  predicate Lodged(t: Tcb, len: nat) {
    && t.accepted == [] && len > 0
    && t.forward.Cons? && t.forward.head.seqNo == t.remoteStart && t.forward.head.sent == 0 &&
       |t.forward.head.data| == len
  }

  ghost predicate Shows(t: Tcb, f: Fate) {
    && t.dport != HTTPS
    && match f
       case Listening(len, since) =>
         && Lodged(t, len) && t.state == Listen && t.remoteSeq == t.remoteStart && t.localSeq == t.localStart
         && t.time == since && t.events == Events(false, true)
       case Loose(len) => Lodged(t, len) && t.state == Closing && t.remoteSeq == t.remoteStart && t.socket >= 0
       case Blocked =>
         && t.accepted == [] && t.state != Listen
         && ((t.forward.Cons? && Lodged(t, |t.forward.head.data|) && t.remoteSeq == Plus(t.remoteStart, 1))
             || (t.state == Close && t.socket == -1))
       case HandedOn => t.accepted != []
  }

  /** What is queued goes behind the head, or lengthens it. */
  lemma QueueLodged(t: Tcb, p: Packet, len: nat)
    requires Lodged(t, len) && Nearby(t.remoteSeq, p.seqNo)
    requires t.remoteSeq == t.remoteStart || t.remoteSeq == Plus(t.remoteStart, 1)
    ensures Lodged(QueueTcp(t, p), if t.remoteSeq == t.remoteStart == p.seqNo && |p.data| > len then |p.data| else len)
  {
    if CompareU32(p.seqNo, t.remoteSeq) >= 0 {
      var d := NotBehind(p.seqNo, t.remoteSeq);
      CompareByDistance(t.forward.head.seqNo, p.seqNo);
    }
  }

  lemma FlagsInListen(t: Tcb, p: Packet, e: PacketEnv)
    requires t.state == Listen
    ensures HandleFlags(t, p, e) == if p.rst then t.(state := Closing)
                                    else if p.ack && AcksFuture(p.ackSeq, t.localSeq) then WriteRst(t)
                                    else t.(acked := HandleFlags(t, p, e).acked)
  {
  }

  lemma PacketInListen(t: Tcb, f: Fate, p: Packet, e: PacketEnv)
    requires f.Listening? && Shows(t, f) && Sound(t) && (p.data != [] ==> Nearby(t.remoteSeq, p.seqNo))
    ensures Shows(HandleTcp(t, p, e), AfterListening(f, FromTun(p, e), t.remoteStart, t.localStart))
  {
    if !p.urg {
      var t1 := t.(time := e.now, sendWindow := ScaledWindow(p.window, t.sendScale));
      FlagsInListen(t1, p, e);
      FlagsInListen(QueueTcp(t1, p), p, e);
      if p.data != [] {
        QueueLodged(t1, p, f.len);
      }
      assert HandleTcp(t, p, e) == HandleFlags(if p.data == [] then t1 else QueueTcp(t1, p), p, e);
    }
  }

  lemma InListen(t: Tcb, f: Fate, ev: Event)
    requires f.Listening? && Shows(t, f) && Sound(t)
    requires ev.FromTun? && Queues(t, ev.p) ==> Nearby(t.remoteSeq, ev.p.seqNo)
    ensures Shows(Step(t, ev), AfterListening(f, ev, t.remoteStart, t.localStart))
  {
    match ev
    case FromTun(p, e) => PacketInListen(t, f, p, e);
    case _ =>
  }

  /** Before the timer a closing session leaves its queue to the socket. */
  lemma WhenLoose(t: Tcb, f: Fate, ev: Event)
    requires f.Loose? && Shows(t, f)
    ensures Shows(Step(t, ev), AfterLoose(f, ev))
  {
    match ev
    case FromSocket(e) =>
      if !e.error {
        SocketWhenLoose(t, f.len, e);
      }
    case _ =>
  }

  lemma SocketWhenLoose(t: Tcb, len: nat, e: SocketEvent)
    requires Shows(t, Loose(len)) && !e.error
    ensures Shows(CheckSocket(t, e), AfterLoose(Loose(len), FromSocket(e)))
  {
    var (t1, fwd) := TryForward(t, e);
    ForwardLeaves(t, e);
    AfterForwardHolds(t1, fwd, e);
    AnnounceLeaves(t1, fwd, e);
    var k := Counted(Next(e.sends), len);
    if e.output && len < e.room {
      assert t1.accepted == Forward(t.forward, t.remoteSeq, e.room, e.sends).accepted;
      assert |t.forward.head.data[0..k]| == k;
      assert Next(e.sends) == 0 ==> t1.forward == t.forward && t1.accepted == [] && t1.remoteSeq == t.remoteSeq;
    } else {
      assert t1.forward == t.forward && t1.accepted == [] && t1.remoteSeq == t.remoteSeq;
    }
  }

  lemma FlagsBlocked(t: Tcb, p: Packet, e: PacketEnv)
    requires Sound(t) && t.state != Listen && t.forward.Cons?
    ensures var t' := HandleFlags(t, p, e);
            && t'.forward == t.forward && t'.remoteSeq == t.remoteSeq && t'.accepted == t.accepted && t'.state != Listen
            && t'.remoteStart == t.remoteStart && t'.dport == t.dport
  {
  }

  lemma PacketBlocked(t: Tcb, p: Packet, e: PacketEnv)
    requires Shows(t, Blocked) && Sound(t) && (p.data != [] ==> Nearby(t.remoteSeq, p.seqNo))
    ensures Shows(HandleTcp(t, p, e), Blocked)
  {
    if !p.urg && Active(t) {
      var t1 := t.(time := e.now, sendWindow := ScaledWindow(p.window, t.sendScale));
      FlagsBlocked(t1, p, e);
      if p.data != [] {
        QueueLodged(t1, p, |t.forward.head.data|);
        FlagsBlocked(QueueTcp(t1, p), p, e);
      }
    }
  }

  lemma SocketBlocked(t: Tcb, e: SocketEvent)
    requires Shows(t, Blocked) && Sound(t)
    ensures Shows(CheckSocket(t, e), Blocked)
  {
    if !e.error {
      var (t1, fwd) := TryForward(t, e);
      ForwardLeaves(t, e);
      assert !Ready(t.forward, t.remoteSeq, ReceiveBuffer(t, e.room));
      assert t1.forward == t.forward && t1.remoteSeq == t.remoteSeq && t1.accepted == [] && !fwd;
      AfterForwardHolds(t1, fwd, e);
      SocketLeavesListen(t, e);
      SocketPort(t, e);
      SocketAdvances(t, e);
      AnnounceLeaves(t1, fwd, e);
    }
  }

  lemma WhenBlocked(t: Tcb, ev: Event)
    requires Shows(t, Blocked) && Sound(t)
    requires ev.FromTun? && Queues(t, ev.p) ==> Nearby(t.remoteSeq, ev.p.seqNo)
    ensures Shows(Step(t, ev), Blocked)
  {
    match ev
    case FromTun(p, e) => PacketBlocked(t, p, e);
    case FromSocket(e) => SocketBlocked(t, e);
    case _ =>
  }

  lemma WhenHandedOn(t: Tcb, ev: Event)
    requires Shows(t, HandedOn)
    ensures Shows(Step(t, ev), HandedOn)
  {
    StepPort(t, ev);
    match ev
    case FromTun(p, e) => PacketHistory(t, p, e);
    case FromSocket(e) => SocketQueue(t, e);
    case _ => QuietQueue(t, ev);
  }

  lemma StepShows(t: Tcb, f: Fate, ev: Event)
    requires Shows(t, f) && Sound(t)
    requires ev.FromTun? && Queues(t, ev.p) ==> Nearby(t.remoteSeq, ev.p.seqNo)
    ensures Shows(Step(t, ev), After(f, ev, t.remoteStart, t.localStart))
  {
    match f
    case Listening(_, _) => InListen(t, f, ev);
    case Loose(_) => WhenLoose(t, f, ev);
    case Blocked => WhenBlocked(t, ev);
    case HandedOn => WhenHandedOn(t, ev);
  }

  lemma {:induction false} RunShows(t: Tcb, f: Fate, evs: seq<Event>)
    requires Shows(t, f) && Sound(t) && AllNearby(t, evs)
    ensures Shows(Run(t, evs), Ending(f, evs, t.remoteStart, t.localStart))
    decreases |evs|
  {
    if evs != [] {
      StepShows(t, f, evs[0]);
      StepSound(t, evs[0]);
      StepPort(t, evs[0]);
      RunShows(Step(t, evs[0]), After(f, evs[0], t.remoteStart, t.localStart), evs[1..]);
    }
  }

  /** Data on a SYN is handed on exactly if a reset meets the session in LISTEN, before anything else takes it out of
      there, and then, before a timer event, a writable socket has more room than the data queued at that number. */
  lemma SynDataHandedOnIff(p: Packet, dport: u16, mss: u16, scale: Scale, isn: u32, socket: nat, room: u32, now: int,
                           evs: seq<Event>)
    requires dport != HTTPS && p.data != []
    requires AllNearby(NewSession(p, dport, mss, scale, isn, socket, room, now), evs)
    ensures Run(NewSession(p, dport, mss, scale, isn, socket, room, now), evs).accepted != [] <==>
            Ending(Listening(|p.data|, now), evs, p.seqNo, isn) == HandedOn
  {
    RunShows(NewSession(p, dport, mss, scale, isn, socket, room, now), Listening(|p.data|, now), evs);
  }

  /** After such a reset a writable socket gets the data of the SYN. */
  lemma SynDataAfterReset(p: Packet, rst: Packet, dport: u16, mss: u16, scale: Scale, isn: u32, socket: nat, room: u32,
                          now: int, pe: PacketEnv, se: SocketEvent)
    requires dport != HTTPS && 0 < |p.data| < se.room && rst.rst && !rst.urg && rst.data == []
    requires !se.error && se.output && se.sends == [|p.data|]
    ensures var t := Run(NewSession(p, dport, mss, scale, isn, socket, room, now), [FromTun(rst, pe), FromSocket(se)]);
            !Active(t) && t.accepted == p.data
  {
    var t0 := NewSession(p, dport, mss, scale, isn, socket, room, now);
    var evs := [FromTun(rst, pe), FromSocket(se)];
    var t1 := HandleTcp(t0, rst, pe);
    assert t1.state == Closing && t1.forward == t0.forward && t1.remoteSeq == p.seqNo && t1.socket == socket;
    var g := t1.forward.head;
    assert g.data[0..|p.data|] == p.data && Unsent(g) == |p.data|;
    var pass := Forward(t1.forward, t1.remoteSeq, se.room, se.sends);
    assert Next(se.sends) == |p.data| && Ready(t1.forward, t1.remoteSeq, se.room);
    ForwardTurn(t1.forward, Cons(0, Nil), t1.remoteSeq, se.room, se.sends);
    assert Forward(Nil, Plus(p.seqNo, |p.data|), se.room - |p.data|, Rest(se.sends)).accepted == [];
    assert pass.accepted == p.data;
    SocketQueue(t1, se);
    SocketCloses(t1, se);
    assert Run(t0, evs) == Run(t1, evs[1..]);
    assert Run(t1, evs[1..]) == Run(Step(t1, evs[1..][0]), evs[1..][1..]);
  }

  lemma SocketCloses(t: Tcb, e: SocketEvent)
    requires t.state in {Closing, Close}
    ensures !Active(CheckSocket(t, e))
  {
    if !e.error {
      var (t1, fwd) := TryForward(t, e);
      ForwardLeaves(t, e);
      AnnounceLeaves(t1, fwd, e);
    }
  }
}
