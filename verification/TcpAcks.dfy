/** What the relay acknowledges, for every session and every run: only bytes it has handed on and a FIN behind them,
    exactly if it never counts a SYN a second time, nor a FIN where none stands. */
module TcpAcks {
  import opened Words
  import opened Serial
  import opened Reassembly
  import opened Windows
  import opened Tcp
  import opened TcpSafety
  import opened TcpBooks
  import opened TcpRuns
  import opened TcpOrder

  // ----- what one step writes

  /** out' continues out, and every acknowledgement added is ackNo. */
  ghost predicate Adds(out: seq<Emitted>, out': seq<Emitted>, ackNo: u32) {
    && |out| <= |out'| && out'[..|out|] == out
    && forall i :: |out| <= i < |out'| && out'[i].ack ==> out'[i].ackNo == ackNo
  }

  /** Some acknowledgement is added. */
  ghost predicate Says(out: seq<Emitted>, out': seq<Emitted>) {
    exists i :: |out| <= i < |out'| && out'[i].ack
  }

  lemma AddsTwice(out: seq<Emitted>, out1: seq<Emitted>, out2: seq<Emitted>, ackNo: u32)
    requires Adds(out, out1, ackNo) && Adds(out1, out2, ackNo)
    ensures Adds(out, out2, ackNo) && (Says(out, out1) ==> Says(out, out2))
  {
    assert out2[..|out|] == out2[..|out1|][..|out|];
    assert forall i :: |out| <= i < |out1| ==> out2[i] == out2[..|out1|][i];
    if i :| |out| <= i < |out1| && out1[i].ack {
      assert out2[i].ack;
    }
  }

  /** A packet is answered with the new remote_seq, which is the old one, or one more if that is acknowledged. */
  ghost predicate Answers(t: Tcb, t': Tcb) {
    && Adds(t.out, t'.out, t'.remoteSeq) && t'.remoteStart == t.remoteStart && t'.accepted == t.accepted
    && (t'.remoteSeq == t.remoteSeq || (t'.remoteSeq == Plus(t.remoteSeq, 1) && Says(t.out, t'.out)))
  }

  lemma LastSaid(t: Tcb, t': Tcb)
    requires |t'.out| > |t.out| && t'.out[|t.out|].ack
    ensures Says(t.out, t'.out)
  {
  }

  lemma RstAnswers(t: Tcb)
    ensures Answers(t, WriteRst(t))
  {
    assert WriteRst(t).out[|t.out|].ack == (t.state == Listen);
  }

  lemma FinAnswers(t: Tcb, ok: bool)
    ensures Answers(t, HandleFin(t, ok))
  {
    if HandleFin(t, ok).remoteSeq != t.remoteSeq {
      LastSaid(t, HandleFin(t, ok));
    }
  }

  lemma FlagsAnswer(t: Tcb, p: Packet, e: PacketEnv)
    ensures Answers(t, HandleFlags(t, p, e))
  {
    RstAnswers(t);
    FinAnswers(t, e.writeOk);
  }

  lemma SegmentAnswers(t: Tcb, p: Packet, e: PacketEnv)
    ensures Answers(t, HandleSegment(t, p, e))
  {
    var t1 := t.(time := e.now, sendWindow := ScaledWindow(p.window, t.sendScale));
    if p.data == [] {
      FlagsAnswer(t1, p, e);
    } else if t1.socket < 0 || t1.state == CloseWait {
      RstAnswers(t1);
    } else {
      FlagsAnswer(QueueTcp(t1, p), p, e);
    }
  }

  lemma PacketAnswers(t: Tcb, p: Packet, e: PacketEnv)
    ensures Answers(t, HandleTcp(t, p, e))
  {
    if !p.urg {
      RstAnswers(t);
      if t.dport == HTTPS && t.connect != Tunnelled {
        assert HandleTcp(t, p, e).out == RequestTunnel(t, e).out;
      } else if Active(t) {
        SegmentAnswers(t, p, e);
      }
    }
  }

  lemma ReadAnswers(t: Tcb, e: SocketEvent)
    requires DataState(t)
    ensures Answers(t, ReadSocket(t, e)) && ReadSocket(t, e).remoteSeq == t.remoteSeq
  {
  }

  lemma AnnounceAnswers(t: Tcb, fwd: bool, e: SocketEvent)
    ensures var t' := Announce(t, fwd, e);
            && Answers(t, t')
            && t'.remoteSeq ==
               if fwd && t.forward.Nil? && t.state == CloseWait then Plus(t.remoteSeq, 1) else t.remoteSeq
  {
    if fwd {
      LastSaid(t, Announce(t, fwd, e));
    }
  }

  /** Behind the forwarding pass. */
  lemma AfterForwardAnswers(t: Tcb, fwd: bool, e: SocketEvent)
    ensures var t' := AfterForward(t, fwd, e);
            && Answers(t, t')
            && t'.remoteSeq ==
               if fwd && t.forward.Nil? && t.state == CloseWait then Plus(t.remoteSeq, 1) else t.remoteSeq
  {
    AnnounceAnswers(t, fwd, e);
    var t1 := Announce(t, fwd, e);
    if DataState(t1) {
      ReadAnswers(t1, e);
      AddsTwice(t.out, t1.out, ReadSocket(t1, e).out, t1.remoteSeq);
    }
  }

  lemma ListenAnswers(t: Tcb, e: SocketEvent)
    requires e.error || t.state == Listen
    ensures Answers(t, CheckSocket(t, e))
  {
    RstAnswers(t.(time := e.now));
    RstAnswers(t);
    if !e.error && !e.input {
      LastSaid(t, CheckSocket(t, e));
    }
  }

  /** Everything written while an event is handled acknowledges the same: what the pass has reached. */
  lemma SocketAnswers(t: Tcb, e: SocketEvent)
    ensures Adds(t.out, CheckSocket(t, e).out, CheckSocket(t, e).remoteSeq)
  {
    if e.error || t.state == Listen {
      ListenAnswers(t, e);
    } else {
      var (t1, fwd) := TryForward(t, e);
      ForwardLeaves(t, e);
      AfterForwardAnswers(t1, fwd, e);
    }
  }

  /** A keep-alive acknowledges one less than remote_seq, which it leaves as it is. */
  lemma KeepAliveAnswers(t: Tcb, m: MonitorEnv)
    ensures Adds(t.out, Monitor(t, m).0.out, Minus(t.remoteSeq, 1)) && Monitor(t, m).0.remoteSeq == t.remoteSeq
  {
  }

  // ----- what may be acknowledged

  /** What a run has seen of the peer's side of the connection: whether the relay has counted the SYN, and the numbers
      of the FINs in the packets whose flags the session looked at. */
  datatype Past = Past(syn: bool, fins: set<u32>)

  /** Until it has its tunnel an HTTPS session only queues its packets. */
  predicate LooksAt(t: Tcb, p: Packet) {
    !p.urg && !(t.dport == HTTPS && t.connect != Tunnelled)
  }

  function FinNumber(p: Packet): u32 {
    Plus(p.seqNo, |p.data|)
  }

  function Remember(h: Past, t: Tcb, ev: Event): Past {
    Past(h.syn || CountsSyn(t, ev),
         if ev.FromTun? && ev.p.fin && LooksAt(t, ev.p) then h.fins + {FinNumber(ev.p)} else h.fins)
  }

  /** The number of the first byte handed on. */
  function Base(t: Tcb, h: Past): u32 {
    if h.syn then First(t) else t.remoteStart
  }

  /** The number of the first byte not handed on. */
  ghost function NextByte(t: Tcb, h: Past): u32 {
    At(Base(t, h), |t.accepted|)
  }

  /** The number is among those acknowledged: ackNo lies up to half the serial numbers behind it. */
  predicate Covers(ackNo: u32, number: u32) {
    0 < Minus(ackNo, number) < 0x8000_0000
  }

  /** An acknowledgement does not cover the first byte not handed on, unless a FIN came with its number and nothing
      behind that is covered. */
  predicate Honest(e: Emitted, next: u32, fins: set<u32>) {
    e.ack && Covers(e.ackNo, next) ==> next in fins && e.ackNo == Plus(next, 1)
  }

  ghost predicate StepHonest(t: Tcb, h: Past, ev: Event) {
    var t', h' := Step(t, ev), Remember(h, t, ev);
    forall i :: |t.out| <= i < |t'.out| ==> Honest(t'.out[i], NextByte(t', h'), h'.fins)
  }

  /** Every packet of the run is honest at the moment it is written. */
  ghost predicate AllHonest(t: Tcb, h: Past, evs: seq<Event>)
    decreases |evs|
  {
    evs != [] ==> StepHonest(t, h, evs[0]) && AllHonest(Step(t, evs[0]), Remember(h, t, evs[0]), evs[1..])
  }

  // ----- what must not be counted

  /** The guards behind which a FIN is counted: at once if nothing is queued, else when the queue has drained. */
  predicate CountsFin(t: Tcb, ev: Event) {
    match ev
    case FromTun(p, e) =>
      && LooksAt(t, p) && p.fin && !p.syn && !p.rst && (!p.ack || p.ackSeq == t.localSeq)
      && (t.state == Established || t.state == FinWait1)
      && (p.data != [] ==> t.socket >= 0)
      && (t.state == Established ==> (if p.data == [] then t.forward else QueueTcp(t, p).forward).Nil?)
    case FromSocket(e) =>
      !e.error && t.state == CloseWait && TryForward(t, e).1 && TryForward(t, e).0.forward.Nil?
    case _ => false
  }

  /** remote_seq where the FIN is counted. */
  function Expected(t: Tcb, ev: Event): u32 {
    if ev.FromSocket? then TryForward(t, ev.se).0.remoteSeq else t.remoteSeq
  }

  /** A SYN is counted that was counted before, or a FIN although none came with the number of the next byte. */
  predicate Overcounts(t: Tcb, h: Past, ev: Event) {
    || (CountsSyn(t, ev) && h.syn)
    || (CountsFin(t, ev) && Expected(t, ev) !in Remember(h, t, ev).fins)
  }

  /** With one FIN looked at, a FIN is overcounted exactly if that one stands elsewhere. */
  lemma OneFinIff(t: Tcb, h: Past, ev: Event, number: u32)
    requires CountsFin(t, ev) && Remember(h, t, ev).fins == {number}
    ensures Overcounts(t, h, ev) <==> number != Expected(t, ev)
  {
  }

  predicate EverOvercounts(t: Tcb, h: Past, evs: seq<Event>)
    decreases |evs|
  {
    evs != [] && (Overcounts(t, h, evs[0]) || EverOvercounts(Step(t, evs[0]), Remember(h, t, evs[0]), evs[1..]))
  }

  // ----- the invariant

  /** remote_seq stands at the next byte, or fin = 1 behind it: at a FIN that came with its number. */
  ghost predicate Level(t: Tcb, h: Past, fin: nat) {
    && fin <= 1 && t.remoteSeq == At(Base(t, h), |t.accepted| + fin)
    && (fin == 1 ==> t.forward.Nil? && t.state in {CloseWait, LastAck, Closing, Close} && NextByte(t, h) in h.fins)
    && (t.state == Listen && h.syn ==> t.dport == HTTPS && t.connect == Requested)
    && (t.dport == HTTPS && t.connect != Tunnelled ==> h.fins == {})
  }

  /** One behind the next byte, without a FIN there. */
  ghost predicate Beyond(t: Tcb, h: Past) {
    t.remoteSeq == Plus(NextByte(t, h), 1) && NextByte(t, h) !in h.fins
  }

  /** A step leaves remote_seq level, or beyond exactly if it overcounts, and then it says so. */
  ghost predicate Outcome(t: Tcb, h: Past, ev: Event, fin: nat) {
    var t', h' := Step(t, ev), Remember(h, t, ev);
    if Overcounts(t, h, ev) then Beyond(t', h') && Says(t.out, t'.out) else Level(t', h', fin)
  }

  /** Outside LISTEN a packet moves remote_seq exactly if its FIN is counted. */
  lemma FinIff(t: Tcb, p: Packet, e: PacketEnv)
    requires Sound(t) && t.state != Listen
    ensures var t', counts := HandleTcp(t, p, e), CountsFin(t, FromTun(p, e));
            && t'.remoteSeq == (if counts then Plus(t.remoteSeq, 1) else t.remoteSeq)
            && (counts ==> t'.forward.Nil? && t'.state in {CloseWait, Closing, Close})
  {
    if LooksAt(t, p) && Active(t) {
      var t1 := t.(time := e.now, sendWindow := ScaledWindow(p.window, t.sendScale));
      FlagsCountFin(t1, p, e);
      FlagsCountFin(QueueTcp(t1, p), p, e);
    }
  }

  lemma FlagsCountFin(t: Tcb, p: Packet, e: PacketEnv)
    requires t.state != Listen
    ensures var t' := HandleFlags(t, p, e);
            var counts := && p.fin && !p.syn && !p.rst && (!p.ack || p.ackSeq == t.localSeq)
                          && (t.state == FinWait1 || (t.state == Established && t.forward.Nil?));
            && t'.remoteSeq == (if counts then Plus(t.remoteSeq, 1) else t.remoteSeq)
            && (counts ==> t'.state in {CloseWait, Closing, Close}) && t'.forward == t.forward
  {
  }

  /** Once a FIN is counted nothing is queued any more. */
  ghost predicate Lasts(t: Tcb, t': Tcb) {
    && t'.forward.Nil? && t'.state in {CloseWait, LastAck, Closing, Close}
    && t'.accepted == t.accepted && t'.remoteSeq == t.remoteSeq
  }

  lemma FlagsLast(t: Tcb, p: Packet, e: PacketEnv)
    requires t.forward.Nil? && t.state in {CloseWait, LastAck, Closing, Close}
    ensures Lasts(t, HandleFlags(t, p, e))
  {
  }

  lemma PacketLasts(t: Tcb, p: Packet, e: PacketEnv)
    requires Sound(t) && t.forward.Nil? && t.state in {CloseWait, LastAck, Closing, Close}
    requires t.dport == HTTPS ==> t.connect == Tunnelled
    ensures Lasts(t, HandleTcp(t, p, e))
  {
    if !p.urg {
      assert RequestTunnel(t, e) == t;
      FlagsLast(t.(time := e.now, sendWindow := ScaledWindow(p.window, t.sendScale)), p, e);
    }
  }

  lemma SocketLasts(t: Tcb, e: SocketEvent)
    requires t.forward.Nil? && t.state in {CloseWait, LastAck, Closing, Close}
    ensures Lasts(t, CheckSocket(t, e)) && !CountsFin(t, FromSocket(e))
  {
    if e.error {
      RstAnswers(t.(time := e.now));
    } else {
      var (t1, fwd) := TryForward(t, e);
      ForwardLeaves(t, e);
      assert t.accepted + [] == t.accepted && t.wire + [] == t.wire;
      AfterForwardAnswers(t1, false, e);
      AnnounceLeaves(t1, false, e);
      AfterForwardHolds(t1, false, e);
      EndsLast(t1, e);
    }
  }

  lemma EndsLast(t: Tcb, e: SocketEvent)
    requires t.forward.Nil? && t.state in {CloseWait, LastAck, Closing, Close}
    ensures AfterForward(t, false, e).state in {CloseWait, LastAck, Closing, Close}
  {
    AnnounceLeaves(t, false, e);
  }

  lemma FinLasts(t: Tcb, ev: Event)
    requires Sound(t) && t.forward.Nil? && t.state in {CloseWait, LastAck, Closing, Close}
    requires t.dport == HTTPS ==> t.connect == Tunnelled
    ensures Lasts(t, Step(t, ev)) && !CountsFin(t, ev)
  {
    match ev
    case FromTun(p, e) => PacketLasts(t, p, e);
    case FromSocket(e) => SocketLasts(t, e);
    case _ =>
  }

  lemma StartPlus(t: Tcb, n: int)
    ensures At(First(t), n) == Plus(At(t.remoteStart, n), 1)
  {
    AtAt(t.remoteStart, 1, n);
    AtPlus(t.remoteStart, n, 1);
    assert At(t.remoteStart, 1) == First(t);
  }

  // ----- one step

  lemma PacketLevel(t: Tcb, h: Past, fin: nat, p: Packet, e: PacketEnv) returns (fin': nat)
    requires Level(t, h, fin) && Sound(t)
    ensures Outcome(t, h, FromTun(p, e), fin')
  {
    fin' := fin;
    if t.state == Listen {
      PacketInListen(t, h, p, e);
    } else if fin == 1 {
      StepsLevel(t, h, fin, FromTun(p, e));
      FinLasts(t, FromTun(p, e));
    } else {
      fin' := if CountsFin(t, FromTun(p, e)) then 1 else 0;
      FinLevel(t, h, p, e);
    }
  }

  lemma PacketInListen(t: Tcb, h: Past, p: Packet, e: PacketEnv)
    requires Level(t, h, 0) && Sound(t) && t.state == Listen
    ensures Outcome(t, h, FromTun(p, e), 0)
  {
    var ev := FromTun(p, e);
    PacketAnswers(t, p, e);
    StepsLevel(t, h, 0, ev);
    CountsSynIff(t, ev);
    AtPlus(Base(t, h), |t.accepted|, 1);
    StartPlus(t, |t.accepted|);
  }

  lemma FinLevel(t: Tcb, h: Past, p: Packet, e: PacketEnv)
    requires Level(t, h, 0) && Sound(t) && t.state != Listen
    ensures Outcome(t, h, FromTun(p, e), if CountsFin(t, FromTun(p, e)) then 1 else 0)
  {
    PacketAnswers(t, p, e);
    StepsLevel(t, h, 0, FromTun(p, e));
    FinIff(t, p, e);
    AtPlus(Base(t, h), |t.accepted|, 1);
  }

  /** What a step keeps besides remote_seq. */
  lemma StepsLevel(t: Tcb, h: Past, fin: nat, ev: Event)
    requires Level(t, h, fin) && Sound(t)
    ensures var t', h' := Step(t, ev), Remember(h, t, ev);
            && t'.remoteStart == t.remoteStart && h.fins <= h'.fins
            && (t'.state == Listen && h'.syn ==> t'.dport == HTTPS && t'.connect == Requested)
            && (t'.dport == HTTPS && t'.connect != Tunnelled ==> h'.fins == {})
  {
    StepPort(t, ev);
    StepAdvances(t, ev);
    if Step(t, ev).state == Listen {
      StepsToListen(t, ev);
      if t.state == Listen {
        CountsSynIff(t, ev);
      }
    }
  }

  lemma ListenLevel(t: Tcb, h: Past, e: SocketEvent)
    requires Level(t, h, 0) && Sound(t) && t.state == Listen
    ensures Outcome(t, h, FromSocket(e), 0)
  {
    var ev := FromSocket(e);
    ListenAnswers(t, e);
    StepsLevel(t, h, 0, ev);
    CountsSynIff(t, ev);
    AtPlus(Base(t, h), |t.accepted|, 1);
    StartPlus(t, |t.accepted|);
  }

  lemma SocketLevel(t: Tcb, h: Past, fin: nat, e: SocketEvent) returns (fin': nat)
    requires Level(t, h, fin) && Sound(t)
    ensures Outcome(t, h, FromSocket(e), fin')
  {
    var ev := FromSocket(e);
    fin' := fin;
    StepsLevel(t, h, fin, ev);
    if t.state == Listen {
      ListenLevel(t, h, e);
    } else if e.error {
      ListenAnswers(t, e);
    } else if fin == 1 {
      FinLasts(t, ev);
    } else {
      DrainLevel(t, h, e);
      fin' := if CountsFin(t, ev) then 1 else 0;
    }
  }

  /** A pass, and the FIN that waited for it. */
  lemma DrainLevel(t: Tcb, h: Past, e: SocketEvent)
    requires Level(t, h, 0) && Sound(t) && t.state != Listen && !e.error
    ensures Outcome(t, h, FromSocket(e), if CountsFin(t, FromSocket(e)) then 1 else 0)
  {
    var (t1, fwd) := TryForward(t, e);
    var t' := CheckSocket(t, e);
    StepsLevel(t, h, 0, FromSocket(e));
    ForwardLeaves(t, e);
    AfterForwardAnswers(t1, fwd, e);
    AfterForwardHolds(t1, fwd, e);
    ForwardLevel(t, h, e);
    AtPlus(Base(t, h), |t1.accepted|, 1);
    assert t'.accepted == t1.accepted && t'.forward == t1.forward;
    if CountsFin(t, FromSocket(e)) {
      CountedAtDrain(t, e);
    }
  }

  lemma ForwardLevel(t: Tcb, h: Past, e: SocketEvent)
    requires Level(t, h, 0)
    ensures TryForward(t, e).0.remoteSeq == NextByte(TryForward(t, e).0, h)
  {
    ForwardLeaves(t, e);
    if e.output {
      ForwardCounts(t.forward, Base(t, h), |t.accepted|, t.remoteSeq, ReceiveBuffer(t, e.room), e.sends);
    }
  }

  lemma CountedAtDrain(t: Tcb, e: SocketEvent)
    requires CountsFin(t, FromSocket(e))
    ensures CheckSocket(t, e).state in {CloseWait, LastAck, Closing, Close} && Says(t.out, CheckSocket(t, e).out)
  {
    var (t1, fwd) := TryForward(t, e);
    ForwardLeaves(t, e);
    AfterForwardAnswers(t1, fwd, e);
    AnnounceLeaves(t1, fwd, e);
    assert DataState(Announce(t1, fwd, e)) ==> Announce(t1, fwd, e).state == CloseWait;
  }

  lemma QuietLevel(t: Tcb, h: Past, fin: nat, ev: Event)
    requires Level(t, h, fin) && Sound(t) && (ev.Poll? || ev.Timer? || ev.Terminate?)
    ensures Outcome(t, h, ev, fin)
  {
    StepsLevel(t, h, fin, ev);
    QuietQueue(t, ev);
    if t.state == Listen {
      CountsSynIff(t, ev);
      AtPlus(Base(t, h), |t.accepted|, 1);
      StartPlus(t, |t.accepted|);
      if ev.Terminate? {
        RstAnswers(t);
      }
    } else if fin == 1 {
      FinLasts(t, ev);
    }
  }

  lemma StepLevel(t: Tcb, h: Past, fin: nat, ev: Event) returns (fin': nat)
    requires Level(t, h, fin) && Sound(t)
    ensures Outcome(t, h, ev, fin')
  {
    fin' := fin;
    match ev
    case FromTun(p, e) => fin' := PacketLevel(t, h, fin, p, e);
    case FromSocket(e) => fin' := SocketLevel(t, h, fin, e);
    case _ => QuietLevel(t, h, fin, ev);
  }

  /** What a step writes acknowledges the new remote_seq, or one less as a keep-alive. */
  lemma StepAnswers(t: Tcb, ev: Event)
    ensures Adds(t.out, Step(t, ev).out, if ev.Poll? then Minus(t.remoteSeq, 1) else Step(t, ev).remoteSeq)
    ensures ev.Poll? ==> Step(t, ev).remoteSeq == t.remoteSeq
  {
    match ev
    case FromTun(p, e) => PacketAnswers(t, p, e);
    case FromSocket(e) => SocketAnswers(t, e);
    case Poll(m) => KeepAliveAnswers(t, m);
    case _ => RstAnswers(t);
  }

  lemma LevelHonest(t: Tcb, h: Past, fin: nat, e: Emitted)
    requires Level(t, h, fin) && (e.ackNo == t.remoteSeq || e.ackNo == Minus(t.remoteSeq, 1))
    ensures Honest(e, NextByte(t, h), h.fins)
  {
    AtPlus(Base(t, h), |t.accepted|, 1);
  }

  lemma BeyondDishonest(t: Tcb, h: Past, e: Emitted)
    requires Beyond(t, h) && e.ack && e.ackNo == t.remoteSeq
    ensures !Honest(e, NextByte(t, h), h.fins)
  {
  }

  /** Every packet a step writes is honest exactly if the step does not overcount. */
  lemma StepHonestIff(t: Tcb, h: Past, fin: nat, ev: Event)
    requires Level(t, h, fin) && Sound(t)
    ensures StepHonest(t, h, ev) <==> !Overcounts(t, h, ev)
  {
    var fin' := StepLevel(t, h, fin, ev);
    StepAnswers(t, ev);
    var t', h' := Step(t, ev), Remember(h, t, ev);
    if Overcounts(t, h, ev) {
      var i :| |t.out| <= i < |t'.out| && t'.out[i].ack;
      BeyondDishonest(t', h', t'.out[i]);
    } else {
      forall i | |t.out| <= i < |t'.out| ensures Honest(t'.out[i], NextByte(t', h'), h'.fins) {
        if t'.out[i].ack {
          LevelHonest(t', h', fin', t'.out[i]);
        }
      }
    }
  }

  // ----- runs

  lemma {:induction false} RunHonestIff(t: Tcb, h: Past, fin: nat, evs: seq<Event>)
    requires Level(t, h, fin) && Sound(t)
    ensures AllHonest(t, h, evs) <==> !EverOvercounts(t, h, evs)
    decreases |evs|
  {
    if evs != [] {
      StepHonestIff(t, h, fin, evs[0]);
      if !Overcounts(t, h, evs[0]) {
        var fin' := StepLevel(t, h, fin, evs[0]);
        StepSound(t, evs[0]);
        RunHonestIff(Step(t, evs[0]), Remember(h, t, evs[0]), fin', evs[1..]);
      }
    }
  }

  /** For every port, every SYN and every run: no packet acknowledges a byte that was not handed on exactly if the
      relay never counts a SYN twice, nor a FIN where none stands. */
  lemma HonestFromSynIff(p: Packet, dport: u16, mss: u16, scale: Scale, isn: u32, socket: nat, room: u32, now: int,
                         evs: seq<Event>)
    ensures var t := NewSession(p, dport, mss, scale, isn, socket, room, now);
            AllHonest(t, Past(false, {}), evs) <==> !EverOvercounts(t, Past(false, {}), evs)
  {
    RunHonestIff(NewSession(p, dport, mss, scale, isn, socket, room, now), Past(false, {}), 0, evs);
  }

  // ----- what has been acknowledged by the end of a run

  ghost function PastOf(t: Tcb, h: Past, evs: seq<Event>): Past
    decreases |evs|
  {
    if evs == [] then h else PastOf(Step(t, evs[0]), Remember(h, t, evs[0]), evs[1..])
  }

  /** An acknowledgement of k bytes handed on, or of a FIN that came behind them; of less than none before the SYN is
      counted, and for a keep-alive then. */
  ghost predicate Acknowledges(t: Tcb, h: Past, e: Emitted, k: int) {
    && -2 <= k <= |t.accepted|
    && (e.ackNo == At(First(t), k) || (e.ackNo == At(First(t), k + 1) && At(First(t), k) in h.fins))
  }

  ghost predicate Truthful(t: Tcb, h: Past) {
    forall i :: 0 <= i < |t.out| && t.out[i].ack ==> exists k :: Acknowledges(t, h, t.out[i], k)
  }

  lemma LevelAcknowledges(t: Tcb, h: Past, fin: nat, e: Emitted) returns (k: int)
    requires Level(t, h, fin) && (e.ackNo == t.remoteSeq || e.ackNo == Minus(t.remoteSeq, 1))
    ensures Acknowledges(t, h, e, k)
  {
    var n := |t.accepted| + if h.syn then 0 else -1;
    StartPlus(t, |t.accepted| - 1);
    StartPlus(t, |t.accepted|);
    assert t.remoteSeq == At(First(t), n + fin) && NextByte(t, h) == At(First(t), n);
    AtPlus(First(t), n + fin - 1, 1);
    k := if e.ackNo == t.remoteSeq then n else n + fin - 1;
  }

  lemma AcceptedGrows(t: Tcb, ev: Event)
    ensures |t.accepted| <= |Step(t, ev).accepted|
  {
    match ev
    case FromTun(p, e) => PacketHistory(t, p, e);
    case FromSocket(e) => SocketQueue(t, e);
    case _ => QuietQueue(t, ev);
  }

  /** What was truthful stays so. */
  lemma StaysTruthful(t: Tcb, h: Past, t': Tcb, h': Past, e: Emitted)
    requires exists k :: Acknowledges(t, h, e, k)
    requires t'.remoteStart == t.remoteStart && |t.accepted| <= |t'.accepted| && h.fins <= h'.fins
    ensures exists k :: Acknowledges(t', h', e, k)
  {
    var k :| Acknowledges(t, h, e, k);
    assert Acknowledges(t', h', e, k);
  }

  lemma StepTruthful(t: Tcb, h: Past, fin: nat, ev: Event)
    requires Level(t, h, fin) && Sound(t) && Truthful(t, h) && !Overcounts(t, h, ev)
    ensures Truthful(Step(t, ev), Remember(h, t, ev))
  {
    var fin' := StepLevel(t, h, fin, ev);
    StepAnswers(t, ev);
    StepsLevel(t, h, fin, ev);
    AcceptedGrows(t, ev);
    TruthfulAdded(t, h, Step(t, ev), Remember(h, t, ev), fin',
                  if ev.Poll? then Minus(t.remoteSeq, 1) else Step(t, ev).remoteSeq);
  }

  lemma TruthfulAdded(t: Tcb, h: Past, t': Tcb, h': Past, fin: nat, ackNo: u32)
    requires Truthful(t, h) && t'.remoteStart == t.remoteStart && |t.accepted| <= |t'.accepted| && h.fins <= h'.fins
    requires Level(t', h', fin) && Adds(t.out, t'.out, ackNo) &&
             (ackNo == t'.remoteSeq || ackNo == Minus(t'.remoteSeq, 1))
    ensures Truthful(t', h')
  {
    forall i | 0 <= i < |t'.out| && t'.out[i].ack ensures exists k :: Acknowledges(t', h', t'.out[i], k) {
      if i < |t.out| {
        assert t'.out[i] == t'.out[..|t.out|][i];
        StaysTruthful(t, h, t', h', t'.out[i]);
      } else {
        var k := LevelAcknowledges(t', h', fin, t'.out[i]);
      }
    }
  }

  lemma {:induction false} RunTruthful(t: Tcb, h: Past, fin: nat, evs: seq<Event>)
    requires Level(t, h, fin) && Sound(t) && Truthful(t, h) && !EverOvercounts(t, h, evs)
    ensures Truthful(Run(t, evs), PastOf(t, h, evs))
    decreases |evs|
  {
    if evs != [] {
      StepTruthful(t, h, fin, evs[0]);
      StepSound(t, evs[0]);
      var fin' := StepLevel(t, h, fin, evs[0]);
      RunTruthful(Step(t, evs[0]), Remember(h, t, evs[0]), fin', evs[1..]);
    }
  }

  // ----- runs without a FIN

  predicate NoFin(evs: seq<Event>) {
    evs != [] ==> (evs[0].FromTun? ==> !evs[0].p.fin) && NoFin(evs[1..])
  }

  lemma StepOpenEnded(t: Tcb, ev: Event)
    requires t.state != CloseWait && (ev.FromTun? ==> !ev.p.fin)
    ensures Step(t, ev).state != CloseWait
  {
    match ev
    case FromTun(p, e) =>
      var t1 := t.(time := e.now, sendWindow := ScaledWindow(p.window, t.sendScale));
      FlagsOpenEnded(t1, p, e);
      FlagsOpenEnded(QueueTcp(t1, p), p, e);
    case FromSocket(e) =>
      if !e.error && t.state != Listen {
        var (t1, fwd) := TryForward(t, e);
        ForwardLeaves(t, e);
        AnnounceLeaves(t1, fwd, e);
        ReadOpenEnded(Announce(t1, fwd, e), e);
      }
    case _ =>
  }

  lemma FlagsOpenEnded(t: Tcb, p: Packet, e: PacketEnv)
    requires t.state != CloseWait && !p.fin
    ensures HandleFlags(t, p, e).state != CloseWait
  {
  }

  lemma ReadOpenEnded(t: Tcb, e: SocketEvent)
    requires t.state != CloseWait
    ensures DataState(t) ==> ReadSocket(t, e).state != CloseWait
  {
  }

  lemma {:induction false} RunNoFin(t: Tcb, h: Past, evs: seq<Event>)
    requires Level(t, h, 0) && Sound(t) && t.dport != HTTPS && t.state != CloseWait && h.fins == {} && NoFin(evs)
    ensures !EverOvercounts(t, h, evs) && PastOf(t, h, evs).fins == {}
    decreases |evs|
  {
    if evs != [] {
      var ev := evs[0];
      assert !CountsFin(t, ev);
      var fin := StepLevel(t, h, 0, ev);
      StepOpenEnded(t, ev);
      StepSound(t, ev);
      StepPort(t, ev);
      RunNoFin(Step(t, ev), Remember(h, t, ev), evs[1..]);
    }
  }

  /** Without a FIN no packet of a session to another port than that of HTTPS ever acknowledges more than the bytes
      handed on. */
  lemma TruthfulWithoutFin(p: Packet, dport: u16, mss: u16, scale: Scale, isn: u32, socket: nat, room: u32, now: int,
                           evs: seq<Event>, i: nat)
    requires dport != HTTPS && NoFin(evs)
    requires i < |Run(NewSession(p, dport, mss, scale, isn, socket, room, now), evs).out|
    ensures var t := Run(NewSession(p, dport, mss, scale, isn, socket, room, now), evs);
            t.out[i].ack ==> exists k :: -2 <= k <= |t.accepted| && t.out[i].ackNo == At(First(t), k)
  {
    var t, h := NewSession(p, dport, mss, scale, isn, socket, room, now), Past(false, {});
    RunNoFin(t, h, evs);
    RunTruthful(t, h, 0, evs);
    var t' := Run(t, evs);
    if t'.out[i].ack {
      var k :| Acknowledges(t', PastOf(t, h, evs), t'.out[i], k);
    }
  }

  // ----- what goes wrong

  lemma RunOfThree(t: Tcb, a: Event, b: Event, c: Event)
    ensures Run(t, [a, b, c]) == Step(Step(Step(t, a), b), c)
  {
    var t1, t2 := Step(t, a), Step(Step(t, a), b);
    assert [a, b, c][1..] == [b, c] && [b, c][1..] == [c] && [c][1..] == [];
    assert Run(t2, [c]) == Run(Step(t2, c), []) == Step(t2, c);
    assert Run(t1, [b, c]) == Run(t2, [c]);
    assert Run(t, [a, b, c]) == Run(t1, [b, c]);
  }

  lemma ThirdOvercounts(t: Tcb, h: Past, a: Event, b: Event, c: Event)
    requires Overcounts(Step(Step(t, a), b), Remember(Remember(h, t, a), Step(t, a), b), c)
    ensures EverOvercounts(t, h, [a, b, c])
  {
    var t1, h1 := Step(t, a), Remember(h, t, a);
    assert [a, b, c][1..] == [b, c] && [b, c][1..] == [c];
    assert EverOvercounts(Step(t1, b), Remember(h1, t1, b), [c]);
    assert EverOvercounts(t1, h1, [b, c]);
  }

  lemma SynCountedAgain(t: Tcb, e: SocketEvent)
    requires t.state == Listen && (e.error || !e.input)
    ensures var t' := CheckSocket(t, e);
            && |t'.out| == |t.out| + 1 && t'.out[|t.out|].ack && t'.out[|t.out|].ackNo == Plus(t.remoteSeq, 1)
            && t'.accepted == t.accepted && t'.remoteStart == t.remoteStart
  {
  }

  /** The data before a FIN is lost: the FIN is counted all the same, and the first lost byte acknowledged. */
  lemma FinBehindGap(syn: Packet, ack: Packet, fin: Packet, dport: u16, mss: u16, scale: Scale, isn: u32, socket: nat,
                     room: u32, now: int, connected: SocketEvent, pe: PacketEnv, m: u32)
    requires dport != HTTPS && syn.data == [] && !connected.error && !connected.input && connected.ackOk
    requires ack == Packet(Plus(syn.seqNo, 1), Plus(isn, 1), ack.window, false, true, false, false, false, false, [])
    requires fin == Packet(Plus(Plus(syn.seqNo, 1), m), Plus(isn, 1), fin.window, false, true, true, false, false,
                           false, [])
    requires m > 0 && pe.writeOk
    ensures var t := NewSession(syn, dport, mss, scale, isn, socket, room, now);
            var evs := [FromSocket(connected), FromTun(ack, pe), FromTun(fin, pe)];
            var t' := Run(t, evs);
            && t'.state == CloseWait && t'.accepted == []
            && |t'.out| == 2 && t'.out[1].ack && t'.out[1].ackNo == At(First(t'), 1)
            && !AllHonest(t, Past(false, {}), evs)
  {
    var t := NewSession(syn, dport, mss, scale, isn, socket, room, now);
    var h := Past(false, {});
    var a, b, c := FromSocket(connected), FromTun(ack, pe), FromTun(fin, pe);
    RunOfThree(t, a, b, c);
    var t1 := Step(t, a);
    var t2 := Step(t1, b);
    assert t2.state == Established && t2.remoteSeq == First(t) && t2.localSeq == Plus(isn, 1) && t2.forward.Nil?;
    assert At(First(t), 1) == Plus(At(First(t), 0), 1) == Plus(First(t), 1);
    var h2 := Remember(Remember(h, t, a), t1, b);
    assert CountsFin(t2, c) && Remember(h2, t2, c).fins == {FinNumber(fin)} && FinNumber(fin) != t2.remoteSeq;
    ThirdOvercounts(t, h, a, b, c);
    HonestFromSynIff(syn, dport, mss, scale, isn, socket, room, now, [a, b, c]);
  }

  /** An HTTPS session that answered its SYN and then asked for its tunnel is back in LISTEN: an error, or a connect
      reported again, counts the SYN again and acknowledges the first byte. */
  lemma SecondSynAcknowledged(syn: Packet, p: Packet, mss: u16, scale: Scale, isn: u32, socket: nat, room: u32,
                              now: int, connected: SocketEvent, pe: PacketEnv, again: SocketEvent)
    requires syn.data == [] && !connected.error && !connected.input && connected.ackOk
    requires !p.urg && pe.hostKnown && pe.sendOk && (again.error || !again.input)
    ensures var t := NewSession(syn, HTTPS, mss, scale, isn, socket, room, now);
            var evs := [FromSocket(connected), FromTun(p, pe), FromSocket(again)];
            var t' := Run(t, evs);
            && t'.accepted == [] && |t'.out| == 2 && t'.out[1].ack && t'.out[1].ackNo == At(First(t'), 1)
            && !AllHonest(t, Past(false, {}), evs)
  {
    var t := NewSession(syn, HTTPS, mss, scale, isn, socket, room, now);
    var h := Past(false, {});
    var a, b, c := FromSocket(connected), FromTun(p, pe), FromSocket(again);
    RunOfThree(t, a, b, c);
    var t1 := Step(t, a);
    var t2 := Step(t1, b);
    assert t2.state == Listen && t2.remoteSeq == First(t) && t2.accepted == [] && |t2.out| == 1;
    assert At(First(t), 1) == Plus(At(First(t), 0), 1) == Plus(First(t), 1);
    SynCountedAgain(t2, again);
    assert CountsSyn(t, a) && CountsSyn(t2, c);
    ThirdOvercounts(t, h, a, b, c);
    HonestFromSynIff(syn, HTTPS, mss, scale, isn, socket, room, now, [a, b, c]);
  }
}
