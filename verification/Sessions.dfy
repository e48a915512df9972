/** The sessions of all three protocols as values: timeouts and checks of tcp.c, udp.c and icmp.c, and what
    one pass of the event loop of session.c does to the list of them. */
module Sessions {
  import opened Flows
  import opened Tcp
  import opened TcpSafety

  const EPOLL_TIMEOUT := 3600
  const ICMP_TIMEOUT := 15
  const UDP_TIMEOUT_53 := 15
  const UDP_TIMEOUT_ANY := 300
  const UDP_KEEP_TIMEOUT := 60

  datatype UdpState = UdpActive | UdpFinishing | UdpClosed | UdpBlocked

  /** struct ng_session: one of three kinds. */
  datatype Session =
    | IcmpSession(hosts: Hosts, time: int, stop: bool, socket: int)
    | UdpSession(flow: Flow, time: int, udpState: UdpState, sent: nat, received: nat, socket: int)
    | TcpSession(flow: Flow, tcb: Tcb)

  // ----- one session

  predicate Live(s: Session) {
    match s
    case IcmpSession(_, _, stop, _) => !stop
    case UdpSession(_, _, udpState, _, _, _) => udpState == UdpActive
    case TcpSession(_, tcb) => Active(tcb)
  }

  function LastTime(s: Session): int {
    match s
    case IcmpSession(_, time, _, _) => time
    case UdpSession(_, time, _, _, _, _) => time
    case TcpSession(_, tcb) => tcb.time
  }

  function SessionTimeout(s: Session, sessions: nat, maxsessions: nat): int
    requires maxsessions > 0
  {
    match s
    case IcmpSession(_, _, _, _) => Scaled(ICMP_TIMEOUT, sessions, maxsessions)
    case UdpSession(flow, _, _, _, _, _) =>
      Scaled(if flow.dport == 53 then UDP_TIMEOUT_53 else UDP_TIMEOUT_ANY, sessions, maxsessions)
    case TcpSession(_, tcb) => Timeout(tcb.state, sessions, maxsessions)
  }

  /** The expiry test of the three check functions. */
  predicate ExpiredAt(s: Session, sessions: nat, maxsessions: nat, now: int)
    requires maxsessions > 0
  {
    Live(s) && LastTime(s) + SessionTimeout(s, sessions, maxsessions) < now
  }

  function SocketOf(s: Session): int {
    match s
    case IcmpSession(_, _, _, socket) => socket
    case UdpSession(_, _, _, _, _, socket) => socket
    case TcpSession(_, tcb) => tcb.socket
  }

  function CheckUdp(s: Session, sessions: nat, maxsessions: nat, now: int): (Session, bool)
    requires maxsessions > 0 && s.UdpSession?
  {
    var s1 := if ExpiredAt(s, sessions, maxsessions, now) then s.(udpState := UdpFinishing) else s;
    var s2 := if s1.udpState == UdpFinishing then UdpSession(s1.flow, now, UdpClosed, s1.sent, s1.received, -1) else s1;
    var s3 := if s2.udpState == UdpClosed then s2.(sent := 0, received := 0) else s2;
    (s3, s3.udpState in {UdpClosed, UdpBlocked} && s3.time + UDP_KEEP_TIMEOUT < now)
  }

  /** check_icmp_session, check_udp_session, check_tcp_session; the flag says to free the session. */
  function CheckSession(s: Session, sessions: nat, maxsessions: nat, now: int): (Session, bool)
    requires maxsessions > 0
  {
    match s
    case IcmpSession(hosts, time, stop, _) =>
      if stop || ExpiredAt(s, sessions, maxsessions, now)
      then (IcmpSession(hosts, time, stop, -1), true)
      else (s, false)
    case UdpSession(_, _, _, _, _, _) =>
      CheckUdp(s, sessions, maxsessions, now)
    case TcpSession(flow, tcb) =>
      var tcb' := CheckTimer(tcb, sessions, maxsessions, now);
      (TcpSession(flow, tcb'), Lingered(tcb', now))
  }

  /** check_allowed: every session is told to end; blocked UDP sessions are freed at once. */
  function Terminated(s: Session): (Session, bool) {
    match s
    case IcmpSession(_, _, _, _) => (s.(stop := true), false)
    case UdpSession(_, _, udpState, _, _, _) =>
      (if udpState == UdpActive then s.(udpState := UdpFinishing) else s, udpState == UdpBlocked)
    case TcpSession(flow, tcb) => (TcpSession(flow, Step(tcb, Terminate)), false)
  }

  function Polled(s: Session, m: MonitorEnv): Session {
    match s
    case TcpSession(flow, tcb) => TcpSession(flow, Step(tcb, Poll(m)))
    case _ => s
  }

  /** The answer of monitor_tcp_session, for a session that has a socket. */
  predicate AsksAgain(s: Session, m: MonitorEnv) {
    s.TcpSession? && s.tcb.socket >= 0 && Monitor(s.tcb, m).1
  }

  /** What packets and socket events do to a session: a UDP or ICMP session may only be told to end. */
  datatype Activity =
    | TcpActivity(ev: Event)
    | UdpActivity(now: int, sent: nat, received: nat, finish: bool)
    | IcmpActivity(now: int, finish: bool)

  function Touched(s: Session, a: Activity): Session {
    match (s, a)
    case (TcpSession(flow, tcb), TcpActivity(ev)) => TcpSession(flow, Step(tcb, ev))
    case (UdpSession(_, _, _, _, _, _), UdpActivity(now, sent, received, finish)) =>
      s.(time := now, sent := sent, received := received, udpState := if finish then UdpFinishing else s.udpState)
    case (IcmpSession(_, _, _, _), IcmpActivity(now, finish)) => s.(time := now, stop := s.stop || finish)
    case _ => s
  }

  /** A closed or blocked session holds no descriptor. */
  predicate Tidy(s: Session) {
    match s
    case IcmpSession(_, _, _, _) => true
    case UdpSession(_, _, udpState, _, _, socket) => udpState in {UdpClosed, UdpBlocked} ==> socket == -1
    case TcpSession(_, tcb) => Sound(tcb)
  }

  /** Every session the removal pass or check_allowed frees has its descriptor closed. */
  lemma FreedIsClosed(s: Session, sessions: nat, maxsessions: nat, now: int)
    requires Tidy(s) && maxsessions > 0
    ensures Tidy(CheckSession(s, sessions, maxsessions, now).0)
    ensures CheckSession(s, sessions, maxsessions, now).1 ==>
            SocketOf(CheckSession(s, sessions, maxsessions, now).0) == -1
    ensures Tidy(Terminated(s).0)
    ensures Terminated(s).1 ==> SocketOf(Terminated(s).0) == -1
  {
    if s.TcpSession? {
      StepSound(s.tcb, Timer(sessions, maxsessions, now));
      StepSound(s.tcb, Terminate);
    }
  }

  // ----- the list

  /** The elements of xs whose flag is set, in order. */
  ghost function Chosen<T>(xs: seq<T>, keep: seq<bool>): seq<T>
    requires |keep| == |xs|
  {
    if xs == [] then []
    else
      var n := |xs| - 1;
      Chosen(xs[..n], keep[..n]) + if keep[n] then [xs[n]] else []
  }

  lemma ChosenNext<T>(xs: seq<T>, keep: seq<bool>, i: nat)
    requires |keep| == |xs| && i < |xs|
    ensures Chosen(xs[..i + 1], keep[..i + 1]) == Chosen(xs[..i], keep[..i]) + if keep[i] then [xs[i]] else []
  {
    assert xs[..i + 1][..i] == xs[..i] && keep[..i + 1][..i] == keep[..i];
  }

  ghost function Others(keep: seq<bool>): seq<bool> {
    seq(|keep|, i requires 0 <= i < |keep| => !keep[i])
  }

  /** Kept and dropped elements are together all elements, each as often as before. */
  lemma {:induction false} ChosenPartition<T>(xs: seq<T>, keep: seq<bool>)
    requires |keep| == |xs|
    ensures multiset(xs) == multiset(Chosen(xs, keep)) + multiset(Chosen(xs, Others(keep)))
  {
    if xs != [] {
      var n := |xs| - 1;
      assert Others(keep)[..n] == Others(keep[..n]);
      ChosenPartition(xs[..n], keep[..n]);
      assert xs == xs[..n] + [xs[n]];
    }
  }

  ghost function CheckedAll(l: seq<Session>, sessions: nat, maxsessions: nat, now: int): (r: seq<Session>)
    requires maxsessions > 0
    ensures |r| == |l|
  {
    seq(|l|, i requires 0 <= i < |l| => CheckSession(l[i], sessions, maxsessions, now).0)
  }

  ghost function Staying(l: seq<Session>, sessions: nat, maxsessions: nat, now: int): (r: seq<bool>)
    requires maxsessions > 0
    ensures |r| == |l|
  {
    seq(|l|, i requires 0 <= i < |l| => !CheckSession(l[i], sessions, maxsessions, now).1)
  }

  /** checked and keep are what the check functions make of each session of l. */
  ghost predicate CheckedAs(l: seq<Session>, checked: seq<Session>, keep: seq<bool>,
                            sessions: nat, maxsessions: nat, now: int)
    requires maxsessions > 0 && |checked| == |keep| == |l|
  {
    forall i :: 0 <= i < |l| ==> (checked[i], !keep[i]) == CheckSession(l[i], sessions, maxsessions, now)
  }

  lemma AllCheckedAs(l: seq<Session>, sessions: nat, maxsessions: nat, now: int)
    requires maxsessions > 0
    ensures CheckedAs(l, CheckedAll(l, sessions, maxsessions, now), Staying(l, sessions, maxsessions, now),
                      sessions, maxsessions, now)
  {
  }

  /** The removal pass: check every session and keep the rest in order. */
  ghost function Survivors(l: seq<Session>, sessions: nat, maxsessions: nat, now: int): seq<Session>
    requires maxsessions > 0
  {
    Chosen(CheckedAll(l, sessions, maxsessions, now), Staying(l, sessions, maxsessions, now))
  }

  ghost function TerminatedAll(l: seq<Session>): (r: seq<Session>)
    ensures |r| == |l|
  {
    seq(|l|, i requires 0 <= i < |l| => Terminated(l[i]).0)
  }

  ghost function Unblocked(l: seq<Session>): (r: seq<bool>)
    ensures |r| == |l|
  {
    seq(|l|, i requires 0 <= i < |l| => !Terminated(l[i]).1)
  }

  ghost function PolledAll(l: seq<Session>, envs: seq<MonitorEnv>): (r: seq<Session>)
    requires |l| <= |envs|
    ensures |r| == |l|
  {
    seq(|l|, i requires 0 <= i < |l| => Polled(l[i], envs[i]))
  }

  function LiveCount(l: seq<Session>): nat {
    if l == [] then 0 else LiveCount(l[..|l| - 1]) + if Live(l[|l| - 1]) then 1 else 0
  }

  /** A session is live exactly if check_allowed has something to tell it. */
  lemma LiveIff(s: Session)
    ensures Live(s) <==> Terminated(s).0 != s
  {
  }

  /** The count is the number of live sessions. */
  lemma {:induction false} LiveCountIsNumber(l: seq<Session>)
    ensures LiveCount(l) == |set i | 0 <= i < |l| && Live(l[i])|
  {
    if l != [] {
      var n := |l| - 1;
      LiveCountIsNumber(l[..n]);
      var front := set i | 0 <= i < |l[..n]| && Live(l[..n][i]);
      var all := set i | 0 <= i < |l| && Live(l[i]);
      assert all == if Live(l[n]) then front + {n} else front;
    }
  }

  predicate AnyAskAgain(l: seq<Session>, envs: seq<MonitorEnv>)
    requires |l| <= |envs|
  {
    l != [] && (AnyAskAgain(l[..|l| - 1], envs) || AsksAgain(l[|l| - 1], envs[|l| - 1]))
  }

  lemma {:induction false} AnyAskAgainIff(l: seq<Session>, envs: seq<MonitorEnv>)
    requires |l| <= |envs|
    ensures AnyAskAgain(l, envs) <==> exists i :: 0 <= i < |l| && AsksAgain(l[i], envs[i])
  {
    if l != [] {
      var n := |l| - 1;
      AnyAskAgainIff(l[..n], envs);
      if i :| 0 <= i < |l| && AsksAgain(l[i], envs[i]) {
        assert i < n ==> l[..n][i] == l[i];
      }
    }
  }

  // ----- poll timeout

  /** Seconds until the expiry test of s becomes true. */
  function Deadline(s: Session, sessions: nat, maxsessions: nat, now: int): int
    requires maxsessions > 0
  {
    LastTime(s) + SessionTimeout(s, sessions, maxsessions) - now + 1
  }

  function Sooner(timeout: int, s: Session, sessions: nat, maxsessions: nat, now: int): int
    requires maxsessions > 0
  {
    var stimeout := Deadline(s, sessions, maxsessions, now);
    if Live(s) && 0 < stimeout < timeout then stimeout else timeout
  }

  function PollTimeout(l: seq<Session>, sessions: nat, maxsessions: nat, now: int): int
    requires maxsessions > 0
  {
    if l == [] then EPOLL_TIMEOUT
    else Sooner(PollTimeout(l[..|l| - 1], sessions, maxsessions, now), l[|l| - 1], sessions, maxsessions, now)
  }

  lemma PollTimeoutNext(l: seq<Session>, s: Session, sessions: nat, maxsessions: nat, now: int)
    requires maxsessions > 0
    ensures PollTimeout(l + [s], sessions, maxsessions, now)
         == Sooner(PollTimeout(l, sessions, maxsessions, now), s, sessions, maxsessions, now)
  {
    assert (l + [s])[..|l|] == l;
  }

  /** With one clock reading a session that stays and is live has at least a second left. */
  lemma StayingHasTime(s: Session, sessions: nat, maxsessions: nat, now: int)
    requires maxsessions > 0
    requires !CheckSession(s, sessions, maxsessions, now).1 && Live(CheckSession(s, sessions, maxsessions, now).0)
    ensures Deadline(CheckSession(s, sessions, maxsessions, now).0, sessions, maxsessions, now) >= 1
  {
  }

  /** The fold over the list is the first second at which a session expires, or an hour. */
  lemma {:induction false} TimeoutIsMinimum(l: seq<Session>, sessions: nat, maxsessions: nat, now: int)
    requires maxsessions > 0
    requires forall s :: s in l && Live(s) ==> Deadline(s, sessions, maxsessions, now) >= 1
    ensures var t := PollTimeout(l, sessions, maxsessions, now);
            && 1 <= t <= EPOLL_TIMEOUT
            && (forall s :: s in l ==> !ExpiredAt(s, sessions, maxsessions, now + t - 1))
            && (t < EPOLL_TIMEOUT ==> exists s :: s in l && ExpiredAt(s, sessions, maxsessions, now + t))
  {
    if l != [] {
      var n := |l| - 1;
      assert l == l[..n] + [l[n]];
      TimeoutIsMinimum(l[..n], sessions, maxsessions, now);
      var t, t' := PollTimeout(l, sessions, maxsessions, now), PollTimeout(l[..n], sessions, maxsessions, now);
      if t == t' && t < EPOLL_TIMEOUT {
        var s :| s in l[..n] && ExpiredAt(s, sessions, maxsessions, now + t');
        assert s in l;
      } else if t < EPOLL_TIMEOUT {
        assert l[n] in l && ExpiredAt(l[n], sessions, maxsessions, now + t);
      }
    }
  }

  lemma {:induction false} ChosenElements<T>(xs: seq<T>, keep: seq<bool>, x: T) returns (i: nat)
    requires |keep| == |xs| && x in Chosen(xs, keep)
    ensures i < |xs| && xs[i] == x && keep[i]
  {
    var n := |xs| - 1;
    if x in Chosen(xs[..n], keep[..n]) {
      i := ChosenElements(xs[..n], keep[..n], x);
    } else {
      i := n;
    }
  }

  /** After the removal pass the poll waits exactly until the first session expires, an hour at most. */
  lemma PollDeadline(l: seq<Session>, sessions: nat, maxsessions: nat, now: int)
    requires maxsessions > 0
    ensures var left := Survivors(l, sessions, maxsessions, now);
            var t := PollTimeout(left, sessions, maxsessions, now);
            && 1 <= t <= EPOLL_TIMEOUT
            && (forall s :: s in left ==> !ExpiredAt(s, sessions, maxsessions, now + t - 1))
            && (t < EPOLL_TIMEOUT ==> exists s :: s in left && ExpiredAt(s, sessions, maxsessions, now + t))
  {
    var left := Survivors(l, sessions, maxsessions, now);
    forall s | s in left && Live(s) ensures Deadline(s, sessions, maxsessions, now) >= 1 {
      var i := ChosenElements(CheckedAll(l, sessions, maxsessions, now), Staying(l, sessions, maxsessions, now), s);
      StayingHasTime(l[i], sessions, maxsessions, now);
    }
    TimeoutIsMinimum(left, sessions, maxsessions, now);
  }

  // ----- lookup and uniqueness

  datatype Query = ForTcp(flow: Flow) | ForUdp(flow: Flow) | ForIcmp(hosts: Hosts)

  /** The search conditions of handle_tcp, handle_udp and handle_icmp. */
  predicate Matches(q: Query, s: Session) {
    match (q, s)
    case (ForTcp(flow), TcpSession(flow', _)) => flow == flow'
    case (ForUdp(flow), UdpSession(flow', _, _, _, _, _)) => flow == flow'
    case (ForIcmp(hosts), IcmpSession(hosts', _, stop, _)) => !stop && hosts == hosts'
    case _ => false
  }

  /** The session is the one of the packet: same protocol, IP version, addresses and, but for ICMP, both ports; an ICMP
      session only until it is told to stop. */
  predicate Belongs(q: Query, s: Session) {
    match q
    case ForTcp(f) => s.TcpSession? && SameFlow(f, s.flow)
    case ForUdp(f) => s.UdpSession? && SameFlow(f, s.flow)
    case ForIcmp(hosts) => s.IcmpSession? && SameHosts(hosts, s.hosts) && !s.stop
  }

  predicate SameFlow(a: Flow, b: Flow) {
    SameHosts(a.hosts, b.hosts) && a.sport == b.sport && a.dport == b.dport
  }

  predicate SameHosts(a: Hosts, b: Hosts) {
    a.version == b.version && a.saddr == b.saddr && a.daddr == b.daddr
  }

  /** The search finds exactly the sessions of the packet. */
  lemma MatchesIff(q: Query, s: Session)
    ensures Matches(q, s) <==> Belongs(q, s)
  {
  }

  /** All sessions a packet could be sent to are the same. */
  lemma MatchesSame(q: Query, a: Session, b: Session)
    requires Belongs(q, a) && Belongs(q, b)
    ensures Same(a, b)
  {
  }

  /** Two sessions the same packets would be sent to. */
  predicate Same(a: Session, b: Session) {
    match (a, b)
    case (TcpSession(flow, _), TcpSession(flow', _)) => flow == flow'
    case (UdpSession(flow, _, _, _, _, _), UdpSession(flow', _, _, _, _, _)) => flow == flow'
    case (IcmpSession(hosts, _, stop, _), IcmpSession(hosts', _, stop', _)) => !stop && !stop' && hosts == hosts'
    case _ => false
  }

  ghost predicate Unique(l: seq<Session>) {
    forall i, j :: 0 <= i < j < |l| ==> !Same(l[i], l[j])
  }

  /** Keeps kind and addresses, and never revives a stopped ICMP session. */
  predicate Continues(a: Session, b: Session) {
    match (a, b)
    case (TcpSession(flow, _), TcpSession(flow', _)) => flow == flow'
    case (UdpSession(flow, _, _, _, _, _), UdpSession(flow', _, _, _, _, _)) => flow == flow'
    case (IcmpSession(hosts, _, stop, _), IcmpSession(hosts', _, stop', _)) => hosts == hosts' && (stop ==> stop')
    case _ => false
  }

  lemma ContinuesKeepsUnique(l: seq<Session>, l': seq<Session>)
    requires Unique(l) && |l'| == |l| && forall i :: 0 <= i < |l| ==> Continues(l[i], l'[i])
    ensures Unique(l')
  {
    forall i, j | 0 <= i < j < |l'| ensures !Same(l'[i], l'[j]) {
      assert Continues(l[i], l'[i]) && Continues(l[j], l'[j]) && !Same(l[i], l[j]);
    }
  }

  lemma {:induction false} ChosenUnique(l: seq<Session>, keep: seq<bool>)
    requires Unique(l) && |keep| == |l|
    ensures Unique(Chosen(l, keep))
  {
    if l != [] {
      var n := |l| - 1;
      var c := Chosen(l[..n], keep[..n]);
      ChosenUnique(l[..n], keep[..n]);
      forall i | 0 <= i < |c| ensures !Same(c[i], l[n]) {
        var k := ChosenElements(l[..n], keep[..n], c[i]);
      }
    }
  }

  /** One step of the event loop on the list. */
  datatype TableEvent =
    | Arrive(q: Query, s: Session)
    | Touch(i: nat, a: Activity)
    | PollAll(envs: seq<MonitorEnv>)
    | CheckAll(sessions: nat, maxsessions: nat, now: int)
    | CheckAllowed
    | Clear

  ghost predicate Possible(l: seq<Session>, ev: TableEvent) {
    match ev
    case Arrive(q, s) => Matches(q, s) && Tidy(s)
    case Touch(i, _) => i < |l|
    case PollAll(envs) => |l| <= |envs|
    case CheckAll(_, maxsessions, _) => maxsessions > 0
    case _ => true
  }

  ghost function TableStep(l: seq<Session>, ev: TableEvent): seq<Session>
    requires Possible(l, ev)
  {
    match ev
    case Arrive(q, s) => if exists i :: 0 <= i < |l| && Matches(q, l[i]) then l else [s] + l
    case Touch(i, a) => l[i := Touched(l[i], a)]
    case PollAll(envs) => PolledAll(l, envs)
    case CheckAll(sessions, maxsessions, now) => Survivors(l, sessions, maxsessions, now)
    case CheckAllowed => Chosen(TerminatedAll(l), Unblocked(l))
    case Clear => []
  }

  lemma StepUnique(l: seq<Session>, ev: TableEvent)
    requires Unique(l) && Possible(l, ev)
    ensures Unique(TableStep(l, ev))
  {
    match ev
    case Arrive(q, s) =>
    case Touch(i, a) =>
      ContinuesKeepsUnique(l, l[i := Touched(l[i], a)]);
    case PollAll(envs) =>
      ContinuesKeepsUnique(l, PolledAll(l, envs));
    case CheckAll(sessions, maxsessions, now) =>
      ContinuesKeepsUnique(l, CheckedAll(l, sessions, maxsessions, now));
      ChosenUnique(CheckedAll(l, sessions, maxsessions, now), Staying(l, sessions, maxsessions, now));
    case CheckAllowed =>
      ContinuesKeepsUnique(l, TerminatedAll(l));
      ChosenUnique(TerminatedAll(l), Unblocked(l));
    case Clear =>
  }

  lemma TouchedTidy(s: Session, a: Activity, m: MonitorEnv)
    requires Tidy(s)
    ensures Tidy(Touched(s, a)) && Tidy(Polled(s, m))
  {
    if s.TcpSession? {
      StepSound(s.tcb, Poll(m));
      if a.TcpActivity? {
        StepSound(s.tcb, a.ev);
      }
    }
  }

  lemma StepTidy(l: seq<Session>, ev: TableEvent)
    requires Possible(l, ev) && forall s :: s in l ==> Tidy(s)
    ensures forall s :: s in TableStep(l, ev) ==> Tidy(s)
  {
    forall s | s in TableStep(l, ev) ensures Tidy(s) {
      match ev
      case Touch(i, a) =>
        TouchedTidy(l[i], a, MonitorEnv(0, 0, true, true));
      case PollAll(envs) =>
        var i :| 0 <= i < |l| && PolledAll(l, envs)[i] == s;
        TouchedTidy(l[i], IcmpActivity(0, false), envs[i]);
      case CheckAll(sessions, maxsessions, now) =>
        var i := ChosenElements(CheckedAll(l, sessions, maxsessions, now), Staying(l, sessions, maxsessions, now), s);
        FreedIsClosed(l[i], sessions, maxsessions, now);
      case CheckAllowed =>
        var i := ChosenElements(TerminatedAll(l), Unblocked(l), s);
        FreedIsClosed(l[i], 0, 1, 0);
      case _ =>
    }
  }

  ghost predicate PossibleRun(l: seq<Session>, evs: seq<TableEvent>)
    decreases |evs|
  {
    evs != [] ==> Possible(l, evs[0]) && PossibleRun(TableStep(l, evs[0]), evs[1..])
  }

  ghost function TableRun(l: seq<Session>, evs: seq<TableEvent>): seq<Session>
    requires PossibleRun(l, evs)
    decreases |evs|
  {
    if evs == [] then l else TableRun(TableStep(l, evs[0]), evs[1..])
  }

  /** Among distinct sessions one at most is that of a packet. */
  lemma OneAtMost(l: seq<Session>, q: Query, i: nat, j: nat)
    requires Unique(l) && i < |l| && j < |l| && Belongs(q, l[i]) && Belongs(q, l[j])
    ensures i == j
  {
    MatchesSame(q, l[i], l[j]);
    MatchesSame(q, l[j], l[i]);
  }

  /** A packet that no session belongs to gets its own, in front of the others; else nothing is added. */
  lemma ArriveAddsIff(l: seq<Session>, q: Query, s: Session)
    requires Possible(l, Arrive(q, s))
    ensures var l' := TableStep(l, Arrive(q, s));
            if exists i :: 0 <= i < |l| && Belongs(q, l[i]) then l' == l else l' == [s] + l && Belongs(q, s)
  {
    MatchesIff(q, s);
    forall i | 0 <= i < |l| ensures Matches(q, l[i]) <==> Belongs(q, l[i]) {
      MatchesIff(q, l[i]);
    }
  }

  /** After any run and the arrival of a packet there is exactly one session of that packet. */
  lemma ExactlyOneForPacket(l: seq<Session>, evs: seq<TableEvent>, q: Query, s: Session) returns (i: nat)
    requires Unique(l) && PossibleRun(l, evs) && Possible(TableRun(l, evs), Arrive(q, s))
    requires forall s :: s in l ==> Tidy(s)
    ensures var l' := TableStep(TableRun(l, evs), Arrive(q, s));
            && i < |l'| && Belongs(q, l'[i])
            && forall j :: 0 <= j < |l'| && Belongs(q, l'[j]) ==> i == j
  {
    UniqueOverRuns(l, evs);
    var l1 := TableRun(l, evs);
    var l' := TableStep(l1, Arrive(q, s));
    StepUnique(l1, Arrive(q, s));
    ArriveAddsIff(l1, q, s);
    i := 0;
    if k :| 0 <= k < |l1| && Belongs(q, l1[k]) {
      i := k;
    }
    forall j | 0 <= j < |l'| && Belongs(q, l'[j]) ensures i == j {
      OneAtMost(l', q, i, j);
    }
  }

  /** Over every run no two sessions share addresses and ports (ICMP: addresses, while not stopped), and
      no closed session holds a descriptor. */
  lemma {:induction false} UniqueOverRuns(l: seq<Session>, evs: seq<TableEvent>)
    requires Unique(l) && PossibleRun(l, evs) && forall s :: s in l ==> Tidy(s)
    ensures Unique(TableRun(l, evs)) && forall s :: s in TableRun(l, evs) ==> Tidy(s)
    decreases |evs|
  {
    if evs != [] {
      StepUnique(l, evs[0]);
      StepTidy(l, evs[0]);
      UniqueOverRuns(TableStep(l, evs[0]), evs[1..]);
    }
  }
}
