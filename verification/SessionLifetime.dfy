/** When the sessions of all three protocols expire, what keeps them alive, and what telling them to end achieves. */
module SessionLifetime {
  import opened Words
  import opened Windows
  import opened Flows
  import opened Tcp
  import opened TcpSafety
  import opened TcpAcks
  import opened TcpFlags
  import opened TcpPolling
  import opened Sessions

  /** How many seconds a session may be idle without any load. */
  function Seconds(s: Session): nat {
    match s
    case IcmpSession(_, _, _, _) => 15
    case UdpSession(flow, _, _, _, _, _) => if flow.dport == 53 then 15 else 300
    case TcpSession(_, t) => if t.state == Established then 3600 else 30
  }

  /** The sessions in percent of those allowed, rounded down. */
  function Load(sessions: nat, maxsessions: nat): nat
    requires maxsessions > 0
  {
    sessions * 100 / maxsessions
  }

  /** Up to full load a live session expires exactly when it was idle for more than its share of these seconds; under
      more load it has expired before it began to idle. */
  lemma ExpiresIff(s: Session, sessions: nat, maxsessions: nat, now: int)
    requires maxsessions > 0
    ensures Load(sessions, maxsessions) <= 100 ==>
              (ExpiredAt(s, sessions, maxsessions, now) <==>
               Live(s) && 100 * (now - LastTime(s)) > Seconds(s) * (100 - Load(sessions, maxsessions)))
    ensures Load(sessions, maxsessions) > 100 && now > LastTime(s) ==>
              (ExpiredAt(s, sessions, maxsessions, now) <==> Live(s))
  {
    Rounded(Seconds(s), Load(sessions, maxsessions), now - LastTime(s));
    if s.TcpSession? && Live(s) {
      assert BaseTimeout(s.tcb.state) == Seconds(s);
    }
  }

  lemma Rounded(seconds: nat, load: nat, idle: int)
    ensures load <= 100 ==> (TruncDiv(seconds * (100 - load), 100) < idle <==> 100 * idle > seconds * (100 - load))
    ensures load > 100 && idle > 0 ==> TruncDiv(seconds * (100 - load), 100) < idle
  {
    var x := seconds * (100 - load);
    if load <= 100 {
      assert x >= 0;
    } else {
      assert x <= 0;
    }
  }

  // ----- what keeps a TCP session alive

  /** The events that count as activity: a packet that is looked at, an error, a connect that is answered, forwarded
      data or a reopened window that is acknowledged, and a socket that is read. Closing it takes the time as well. */
  predicate Touches(t: Tcb, ev: Event) {
    match ev
    case FromTun(p, _) => LooksAt(t, p) && Active(t)
    case FromSocket(e) =>
      if e.error then true
      else if t.state == Listen then !e.input && e.ackOk
      else (Announces(t, e) && e.ackOk) || Reads(t, e)
    case Timer(sessions, maxsessions, now) =>
      maxsessions > 0 && t.state != Close && (Active(t) ==> Expired(t, sessions, maxsessions, now))
    case _ => false
  }

  function Clock(ev: Event): int {
    match ev
    case FromTun(_, e) => e.now
    case FromSocket(e) => e.now
    case Poll(m) => 0
    case Timer(_, _, now) => now
    case Terminate => 0
  }

  lemma FlagsTime(t: Tcb, p: Packet, e: PacketEnv)
    ensures HandleFlags(t, p, e).time == t.time
  {
  }

  lemma PacketTime(t: Tcb, p: Packet, e: PacketEnv)
    ensures HandleTcp(t, p, e).time == if LooksAt(t, p) && Active(t) then e.now else t.time
  {
    var t1 := t.(time := e.now, sendWindow := ScaledWindow(p.window, t.sendScale));
    FlagsTime(t1, p, e);
    FlagsTime(QueueTcp(t1, p), p, e);
    if LooksAt(t, p) {
      assert RequestTunnel(t, e) == t;
    }
  }

  lemma ReadTime(t: Tcb, e: SocketEvent)
    ensures ReadSocket(t, e).time ==
            if e.input && SendWindow(t.acked, t.localSeq, t.sendWindow) > 0 then e.now else t.time
  {
  }

  lemma AnnounceTime(t: Tcb, fwd: bool, e: SocketEvent)
    ensures var announces :=
              fwd || (t.recvWindow == 0 && ReceiveWindow(t.forward, ReceiveBuffer(t, e.room2), t.recvScale) > 0);
            Announce(t, fwd, e).time == if announces && e.ackOk then e.now else t.time
  {
  }

  lemma SocketTime(t: Tcb, e: SocketEvent)
    ensures CheckSocket(t, e).time == if Touches(t, FromSocket(e)) then e.now else t.time
  {
    if !e.error && t.state != Listen {
      var (t1, fwd) := TryForward(t, e);
      ForwardLeaves(t, e);
      AnnounceTime(t1, fwd, e);
      AnnounceSpoke(t1, fwd, e);
      AnnounceLeaves(t1, fwd, e);
      ReadTime(Announce(t1, fwd, e), e);
    }
  }

  /** A step takes the time exactly if there was activity. */
  lemma StepTime(t: Tcb, ev: Event)
    ensures Step(t, ev).time == if Touches(t, ev) then Clock(ev) else t.time
  {
    match ev
    case FromTun(p, e) => PacketTime(t, p, e);
    case FromSocket(e) => SocketTime(t, e);
    case _ =>
  }

  /** The time of the last activity of a run. */
  function LastActivity(time: int, t: Tcb, evs: seq<Event>): int
    decreases |evs|
  {
    if evs == [] then time
    else LastActivity(if Touches(t, evs[0]) then Clock(evs[0]) else time, Step(t, evs[0]), evs[1..])
  }

  lemma {:induction false} RunTime(t: Tcb, evs: seq<Event>)
    ensures Run(t, evs).time == LastActivity(t.time, t, evs)
    decreases |evs|
  {
    if evs != [] {
      StepTime(t, evs[0]);
      RunTime(Step(t, evs[0]), evs[1..]);
    }
  }

  /** From the SYN on: up to full load the timer ends an active session exactly if its last activity is too long ago,
      and else leaves it as it is. */
  lemma TimerEndsIff(p: Packet, flow: Flow, mss: u16, scale: Scale, isn: u32, socket: nat, room: u32, start: int,
                     evs: seq<Event>, sessions: nat, maxsessions: nat, now: int)
    requires maxsessions > 0 && Load(sessions, maxsessions) <= 100
    ensures var t0 := NewSession(p, flow.dport, mss, scale, isn, socket, room, start);
            var t := Run(t0, evs);
            var t' := CheckTimer(t, sessions, maxsessions, now);
            var idle := now - LastActivity(start, t0, evs);
            Active(t) ==>
              if 100 * idle > Seconds(TcpSession(flow, t)) * (100 - Load(sessions, maxsessions))
              then t'.state == Close && t'.socket == -1 else t' == t
  {
    var t0 := NewSession(p, flow.dport, mss, scale, isn, socket, room, start);
    var t := Run(t0, evs);
    RunTime(t0, evs);
    RunSound(t0, evs);
    ExpiresIff(TcpSession(flow, t), sessions, maxsessions, now);
    StepSound(t, Timer(sessions, maxsessions, now));
  }

  /** Poll set-up that works, and timers that come in time. */
  predicate Calm(ev: Event, s: Session) {
    match ev
    case Poll(m) => Works(m)
    case Timer(sessions, maxsessions, now) =>
      maxsessions > 0 && Load(sessions, maxsessions) <= 100
      && 100 * (now - LastTime(s)) <= Seconds(s) * (100 - Load(sessions, maxsessions))
    case _ => false
  }

  /** An active session that is left alone lives on, with its socket, until then. */
  lemma {:induction false} LivesOn(flow: Flow, t: Tcb, evs: seq<Event>)
    requires Active(t) && forall i :: 0 <= i < |evs| ==> Calm(evs[i], TcpSession(flow, t))
    ensures var t' := Run(t, evs); t' == t.(out := t'.out, events := t'.events, lastKeepAlive := t'.lastKeepAlive)
    decreases |evs|
  {
    if evs != [] {
      CalmStep(flow, t, evs[0]);
      LivesOn(flow, Step(t, evs[0]), evs[1..]);
    }
  }

  lemma CalmStep(flow: Flow, t: Tcb, ev: Event)
    requires Active(t) && Calm(ev, TcpSession(flow, t))
    ensures var t' := Step(t, ev); t' == t.(out := t'.out, events := t'.events, lastKeepAlive := t'.lastKeepAlive)
  {
    match ev
    case Poll(m) => MonitorKeeps(t, m);
    case Timer(sessions, maxsessions, now) => ExpiresIff(TcpSession(flow, t), sessions, maxsessions, now);
  }

  // ----- UDP and ICMP

  /** A UDP session is closed by the first check after it expired; until then a check leaves it as it is. */
  lemma UdpLifetime(s: Session, sessions: nat, maxsessions: nat, now: int)
    requires s.UdpSession? && s.udpState == UdpActive && maxsessions > 0
    ensures var (s1, freed) := CheckSession(s, sessions, maxsessions, now);
            && !freed
            && s1 ==
               if ExpiredAt(s, sessions, maxsessions, now) then UdpSession(s.flow, now, UdpClosed, 0, 0, -1) else s
  {
  }

  /** And it is freed by the first check more than a minute later. */
  lemma UdpLingers(s: Session, sessions: nat, maxsessions: nat, now: int)
    requires s.UdpSession? && s.udpState in {UdpClosed, UdpBlocked} && maxsessions > 0
    ensures CheckSession(s, sessions, maxsessions, now).1 <==> now > s.time + 60
    ensures SocketOf(CheckSession(s, sessions, maxsessions, now).0) == s.socket
  {
  }

  /** An ICMP session is freed, its socket closed, by the first check after it expired or was told to stop. */
  lemma IcmpLifetime(s: Session, sessions: nat, maxsessions: nat, now: int)
    requires s.IcmpSession? && maxsessions > 0
    ensures var (s1, freed) := CheckSession(s, sessions, maxsessions, now);
            && (freed <==> s.stop || ExpiredAt(s, sessions, maxsessions, now))
            && s1 == if freed then IcmpSession(s.hosts, s.time, s.stop, -1) else s
  {
  }

  // ----- the end

  lemma EndedIsClosed(s: Session, sessions: nat, maxsessions: nat, now: int)
    requires Tidy(s) && maxsessions > 0 && !Terminated(s).1
    ensures var (s1, freed) := CheckSession(Terminated(s).0, sessions, maxsessions, now);
            !freed ==> !Live(s1) && SocketOf(s1) == -1
  {
    if s.TcpSession? {
      StepSound(s.tcb, Terminate);
      StepSound(Step(s.tcb, Terminate), Timer(sessions, maxsessions, now));
    }
  }

  /** When the sessions have been told to end, one pass of checks leaves none alive and no descriptor open. */
  lemma NoneOutlivesItsEnd(l: seq<Session>, sessions: nat, maxsessions: nat, now: int)
    requires maxsessions > 0 && forall s :: s in l ==> Tidy(s)
    ensures var left := TableStep(TableStep(l, CheckAllowed), CheckAll(sessions, maxsessions, now));
            forall s :: s in left ==> !Live(s) && SocketOf(s) == -1
  {
    var ended := TableStep(l, CheckAllowed);
    var left := TableStep(ended, CheckAll(sessions, maxsessions, now));
    forall s | s in left ensures !Live(s) && SocketOf(s) == -1 {
      var i := ChosenElements(CheckedAll(ended, sessions, maxsessions, now),
                              Staying(ended, sessions, maxsessions, now), s);
      var k := ChosenElements(TerminatedAll(l), Unblocked(l), ended[i]);
      EndedIsClosed(l[k], sessions, maxsessions, now);
    }
  }
}
