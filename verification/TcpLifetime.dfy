/** How long a session lives when nothing happens on it any more. */
module TcpLifetime {
  import opened Tcp
  import opened TcpSafety

  /** For any load the timeouts are at most their unscaled values. */
  lemma TimeoutBounded(s: State, sessions: nat, maxsessions: nat)
    requires maxsessions > 0
    ensures Timeout(s, sessions, maxsessions) <= TCP_IDLE_TIMEOUT
  {
    var scale := 100 - sessions * 100 / maxsessions;
    assert scale <= 100;
  }

  /** Only poll set-up and timer, with clock readings up to now. */
  predicate Quiet(ev: Event, now: int) {
    match ev
    case Poll(_) => true
    case Timer(_, maxsessions, clock) => maxsessions > 0 && clock <= now
    case _ => false
  }

  lemma QuietStep(t: Tcb, ev: Event, now: int)
    requires Quiet(ev, now)
    ensures var t' := Step(t, ev);
            && (t'.state != Close ==> t'.time == t.time)
            && (t'.time == t.time || (t.state != Close && t'.time <= now))
            && (t.state == Close && t.socket == -1 ==> t'.state == Close && t'.socket == -1 && t'.time == t.time)
  {
  }

  lemma {:induction false} QuietRun(t: Tcb, evs: seq<Event>, now: int)
    requires Sound(t) && forall i :: 0 <= i < |evs| ==> Quiet(evs[i], now)
    ensures var t' := Run(t, evs);
            && Sound(t')
            && (t'.state != Close ==> t'.time == t.time)
            && (t'.time == t.time || t'.time <= now)
            && (t.state == Close ==> t'.state == Close && t'.time == t.time)
    decreases |evs|
  {
    if evs != [] {
      StepSound(t, evs[0]);
      QuietStep(t, evs[0], now);
      QuietRun(Step(t, evs[0]), evs[1..], now);
    }
  }

  /** A check more than an hour after the last activity closes the session and its socket, whatever state
      it was in; the first check more than 300 seconds after that answers that it may be freed. */
  lemma BoundedLifetime(t: Tcb, evs: seq<Event>, sessions: nat, maxsessions: nat, now: int,
                        evs2: seq<Event>, sessions2: nat, maxsessions2: nat, now2: int)
    requires Sound(t) && maxsessions > 0 && maxsessions2 > 0
    requires forall i :: 0 <= i < |evs| ==> Quiet(evs[i], now)
    requires forall i :: 0 <= i < |evs2| ==> Quiet(evs2[i], now2)
    requires t.time + TCP_IDLE_TIMEOUT < now && now + TCP_KEEP_TIMEOUT < now2
    ensures var closed := CheckTimer(Run(t, evs), sessions, maxsessions, now);
            && closed.state == Close && closed.socket == -1 && closed.time <= now
            && Lingered(CheckTimer(Run(closed, evs2), sessions2, maxsessions2, now2), now2)
  {
    QuietRun(t, evs, now);
    var t1 := Run(t, evs);
    TimeoutBounded(t1.state, sessions, maxsessions);
    var closed := CheckTimer(t1, sessions, maxsessions, now);
    StepSound(t1, Timer(sessions, maxsessions, now));
    QuietRun(closed, evs2, now2);
  }

  /** A session the timer lets go of has closed its socket. */
  lemma LingeredIsClosed(t: Tcb, sessions: nat, maxsessions: nat, now: int)
    requires Sound(t) && maxsessions > 0 && Lingered(CheckTimer(t, sessions, maxsessions, now), now)
    ensures CheckTimer(t, sessions, maxsessions, now).socket == -1
  {
    StepSound(t, Timer(sessions, maxsessions, now));
  }
}
