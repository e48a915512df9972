/** The global list of sessions as session.c keeps it: singly linked, searched, extended at the front and
    pruned in place with a trailing pointer. */
module SessionTables {
  import opened Tcp
  import opened Sessions

  class Node {
    var session: Session
    var next: Node?

    constructor (session: Session, next: Node?)
      ensures this.session == session && this.next == next
    {
      this.session, this.next := session, next;
    }
  }

  ghost function NodeAt(nodes: seq<Node>, i: nat): Node? {
    if i < |nodes| then nodes[i] else null
  }

  /** The list from head runs through nodes, which hold sessions, and ends. */
  ghost predicate Linked(head: Node?, nodes: seq<Node>, sessions: seq<Session>)
    reads nodes
  {
    && |sessions| == |nodes|
    && head == NodeAt(nodes, 0)
    && (forall i {:trigger nodes[i].next} :: 0 <= i < |nodes| ==> nodes[i].next == NodeAt(nodes, i + 1))
    && (forall i {:trigger nodes[i]} :: 0 <= i < |nodes| ==> nodes[i].session == sessions[i])
  }

  lemma {:induction false} NodesDiffer(head: Node?, nodes: seq<Node>, sessions: seq<Session>, i: nat, j: nat)
    requires Linked(head, nodes, sessions) && i < j < |nodes|
    ensures nodes[i] != nodes[j]
    decreases |nodes| - j
  {
    assert nodes[i].next == NodeAt(nodes, i + 1) && nodes[j].next == NodeAt(nodes, j + 1);
    if j + 1 < |nodes| {
      NodesDiffer(head, nodes, sessions, i + 1, j + 1);
    }
  }

  /** A list that ends has no cycle. */
  lemma Acyclic(head: Node?, nodes: seq<Node>, sessions: seq<Session>)
    requires Linked(head, nodes, sessions)
    ensures forall i, j :: 0 <= i < j < |nodes| ==> nodes[i] != nodes[j]
  {
    forall i, j | 0 <= i < j < |nodes| ensures nodes[i] != nodes[j] {
      NodesDiffer(head, nodes, sessions, i, j);
    }
  }

  function OpenSockets(l: seq<Session>): seq<int> {
    if l == [] then []
    else
      var socket := SocketOf(l[|l| - 1]);
      OpenSockets(l[..|l| - 1]) + if socket >= 0 then [socket] else []
  }

  ghost function Without<T>(s: seq<T>, k: nat): (r: seq<T>)
    requires k < |s|
    ensures |r| == |s| - 1
    ensures forall i :: 0 <= i < k ==> r[i] == s[i]
    ensures forall i :: k <= i < |r| ==> r[i] == s[i + 1]
  {
    s[..k] + s[k + 1..]
  }

  class SessionTable {
    var head: Node?
    ghost var nodes: seq<Node>
    ghost var sessions: seq<Session>
    ghost var freed: seq<Node>

    ghost predicate Valid()
      reads this`head, this`nodes, this`sessions, nodes
    {
      Linked(head, nodes, sessions)
    }

    constructor ()
      ensures Valid() && sessions == [] && freed == []
    {
      head, nodes, sessions, freed := null, [], [], [];
    }

    /** The search loops of handle_tcp, handle_udp and handle_icmp: the session of the packet, the first if there were
        several, but among distinct ones it is the only one. */
    method Find(q: Query) returns (cur: Node?)
      requires Valid()
      ensures cur == null <==> forall i :: 0 <= i < |sessions| ==> !Belongs(q, sessions[i])
      ensures cur != null ==> exists i :: (&& 0 <= i < |sessions| && nodes[i] == cur && Belongs(q, sessions[i])
                                           && forall j :: 0 <= j < i ==> !Belongs(q, sessions[j]))
      ensures cur != null && Unique(sessions) ==>
                forall j :: 0 <= j < |sessions| && nodes[j] != cur ==> !Belongs(q, sessions[j])
    {
      cur := head;
      ghost var i := 0;
      while cur != null && !Matches(q, cur.session)
        invariant i <= |nodes| && cur == NodeAt(nodes, i)
        invariant forall j :: 0 <= j < i ==> !Belongs(q, sessions[j])
        decreases |nodes| - i
      {
        MatchesIff(q, cur.session);
        cur, i := cur.next, i + 1;
      }
      if cur != null {
        MatchesIff(q, cur.session);
        OnlyOne(q, i);
      }
    }

    lemma OnlyOne(q: Query, i: nat)
      requires i < |sessions| && Belongs(q, sessions[i])
      ensures Unique(sessions) ==> forall j :: 0 <= j < |sessions| && j != i ==> !Belongs(q, sessions[j])
    {
      if Unique(sessions) {
        forall j | 0 <= j < |sessions| && j != i ensures !Belongs(q, sessions[j]) {
          if Belongs(q, sessions[j]) {
            OneAtMost(sessions, q, i, j);
          }
        }
      }
    }

    /** Look up, and register a new session at the front exactly if no session is that of the packet. */
    method Arrive(q: Query, s: Session) returns (cur: Node)
      requires Valid() && Matches(q, s) && Tidy(s)
      modifies this`head, this`nodes, this`sessions
      ensures Valid() && sessions == TableStep(old(sessions), TableEvent.Arrive(q, s))
      ensures if exists i :: 0 <= i < |old(sessions)| && Belongs(q, old(sessions)[i])
              then nodes == old(nodes) && sessions == old(sessions)
              else nodes == [cur] + old(nodes) && sessions == [s] + old(sessions) && fresh(cur)
      ensures cur in nodes && Belongs(q, cur.session) && freed == old(freed)
    {
      ArriveAddsIff(sessions, q, s);
      var found := Find(q);
      if found != null {
        return found;
      }
      cur := new Node(s, head);
      head := cur;
      nodes, sessions := [cur] + nodes, [s] + sessions;
    }

    /** A handler updates the session of one node. */
    method Update(n: Node, ghost i: nat, s: Session)
      requires Valid() && i < |nodes| && nodes[i] == n
      modifies this`sessions, n`session
      ensures Valid() && sessions == old(sessions)[i := s]
    {
      Acyclic(head, nodes, sessions);
      n.session := s;
      sessions := sessions[i := s];
    }

    /** Unlink node k behind its predecessor and free it. */
    method Remove(sl: Node?, s: Node, ghost k: nat)
      requires Valid() && k < |nodes| && nodes[k] == s
      requires sl == if k == 0 then null else nodes[k - 1]
      modifies this`head, this`nodes, this`sessions, this`freed, nodes
      ensures Valid() && nodes == old(Without(nodes, k)) && sessions == old(Without(sessions, k))
      ensures freed == old(freed) + [s] && s.next == old(s.next)
    {
      Acyclic(head, nodes, sessions);
      if sl == null {
        head := s.next;
      } else {
        sl.next := s.next;
      }
      nodes, sessions, freed := Without(nodes, k), Without(sessions, k), freed + [s];
    }

    /** The first loop of the event loop: count live sessions, set up polling, and find out whether any session
        asks for another look soon. */
    method CountAndPoll(envs: seq<MonitorEnv>) returns (live: nat, recheck: bool)
      requires Valid() && |sessions| <= |envs|
      modifies this`sessions, nodes
      ensures Valid() && nodes == old(nodes)
      ensures live == LiveCount(old(sessions)) && sessions == PolledAll(old(sessions), envs)
      ensures recheck == AnyAskAgain(old(sessions), envs)
    {
      live, recheck := 0, false;
      var s, i := head, 0;
      ghost var l := sessions;
      while s != null
        invariant Valid() && nodes == old(nodes) && i <= |l| == |sessions| && s == NodeAt(nodes, i)
        invariant live == LiveCount(l[..i])
        invariant recheck == AnyAskAgain(l[..i], envs)
        invariant forall j :: 0 <= j < |l| ==> sessions[j] == if j < i then Polled(l[j], envs[j]) else l[j]
        decreases |l| - i
      {
        assert l[..i + 1][..i] == l[..i] && s.session == l[i];
        if Live(s.session) {
          live := live + 1;
        }
        recheck := recheck || AsksAgain(s.session, envs[i]);
        var next := s.next;
        Update(s, i, Polled(s.session, envs[i]));
        s, i := next, i + 1;
      }
      assert l[..i] == l;
    }

    /** One turn of a pruning loop: the node keeps session or is unlinked and freed. */
    method Settle(sl: Node?, s: Node, session: Session, del: bool, ghost ns: seq<Node>, ghost l: seq<Session>,
                  ghost checked: seq<Session>, ghost keep: seq<bool>, ghost before: seq<Node>,
                  ghost i: nat, ghost k: nat)
      returns (sl': Node?, next: Node?, ghost k': nat)
      requires |ns| == |l| == |checked| == |keep| && i < |l|
      requires Valid() && Pruning(ns, l, checked, keep, before, i, k) && s == NodeAt(nodes, k)
      requires sl == if k == 0 then null else nodes[k - 1]
      requires session == checked[i] && del == !keep[i]
      modifies this`head, this`nodes, this`sessions, this`freed, nodes
      ensures Valid() && Pruning(ns, l, checked, keep, before, i + 1, k')
      ensures k' == (if del then k else k + 1) && k' <= |nodes| && next == NodeAt(nodes, k')
      ensures sl' == if k' == 0 then null else nodes[k' - 1]
      ensures forall j :: 0 <= j < |nodes| ==> nodes[j] in old(nodes)
      ensures sessions[..k'] == if del then old(sessions[..k]) else old(sessions[..k]) + [session]
    {
      PruneStep(ns, l, checked, keep, before, i, k);
      ghost var settled := sessions[..k];
      next := s.next;
      Update(s, k, session);
      assert sessions[..k + 1] == settled + [session];
      if del {
        Remove(sl, s, k);
        sl', k' := sl, k;
        assert sessions[..k] == settled;
      } else {
        sl', k' := s, k + 1;
      }
    }

    method CheckNode(sl: Node?, s: Node, timeout: int, count: nat, maxsessions: nat, now: int,
                     ghost ns: seq<Node>, ghost l: seq<Session>, ghost checked: seq<Session>, ghost keep: seq<bool>,
                     ghost before: seq<Node>, ghost i: nat, ghost k: nat)
      returns (sl': Node?, next: Node?, timeout': int, ghost k': nat)
      requires |ns| == |l| == |checked| == |keep| && i < |l| && maxsessions > 0
      requires Valid() && Pruning(ns, l, checked, keep, before, i, k) && s == NodeAt(nodes, k)
      requires sl == if k == 0 then null else nodes[k - 1]
      requires CheckedAs(l, checked, keep, count, maxsessions, now) && s.session == l[i]
      requires timeout == PollTimeout(sessions[..k], count, maxsessions, now)
      modifies this`head, this`nodes, this`sessions, this`freed, nodes
      ensures Valid() && Pruning(ns, l, checked, keep, before, i + 1, k')
      ensures k' <= |nodes| && next == NodeAt(nodes, k') && sl' == if k' == 0 then null else nodes[k' - 1]
      ensures forall j :: 0 <= j < |nodes| ==> nodes[j] in old(nodes)
      ensures timeout' == PollTimeout(sessions[..k'], count, maxsessions, now)
    {
      var (session, del) := CheckSession(s.session, count, maxsessions, now);
      timeout' := timeout;
      if !del {
        timeout' := Sooner(timeout, session, count, maxsessions, now);
        PollTimeoutNext(sessions[..k], session, count, maxsessions, now);
      }
      sl', next, k' := Settle(sl, s, session, del, ns, l, checked, keep, before, i, k);
    }

    /** The second loop of the event loop: check every session, unlink and free those that are done, and
        find out how long to poll. */
    method CheckAll(count: nat, maxsessions: nat, now: int) returns (timeout: int)
      requires Valid() && maxsessions > 0
      modifies this`head, this`nodes, this`sessions, this`freed, nodes
      ensures Valid()
      ensures sessions == Survivors(old(sessions), count, maxsessions, now)
      ensures nodes == Chosen(old(nodes), Staying(old(sessions), count, maxsessions, now))
      ensures freed == old(freed) + Chosen(old(nodes), Others(Staying(old(sessions), count, maxsessions, now)))
      ensures timeout == PollTimeout(sessions, count, maxsessions, now)
    {
      ghost var ns, l, before := nodes, sessions, freed;
      ghost var checked, keep := CheckedAll(l, count, maxsessions, now), Staying(l, count, maxsessions, now);
      AllCheckedAs(l, count, maxsessions, now);
      timeout := EPOLL_TIMEOUT;
      var sl: Node?, s := null, head;
      ghost var i: nat, k: nat := 0, 0;
      while s != null
        invariant Valid() && Pruning(ns, l, checked, keep, before, i, k)
        invariant s == NodeAt(nodes, k) && sl == if k == 0 then null else nodes[k - 1]
        invariant forall j :: 0 <= j < |nodes| ==> nodes[j] in ns
        invariant timeout == PollTimeout(sessions[..k], count, maxsessions, now)
        decreases |l| - i
      {
        NextToCheck(ns, l, checked, keep, before, i, k);
        assert s.session == l[i];
        sl, s, timeout, k := CheckNode(sl, s, timeout, count, maxsessions, now, ns, l, checked, keep, before, i, k);
        i := i + 1;
      }
      PruneDone(ns, l, checked, keep, before, i, k);
    }

    /** check_allowed: tell every session to end, and free the blocked UDP sessions. */
    method CheckAllowed()
      requires Valid()
      modifies this`head, this`nodes, this`sessions, this`freed, nodes
      ensures Valid()
      ensures sessions == Chosen(TerminatedAll(old(sessions)), Unblocked(old(sessions)))
      ensures nodes == Chosen(old(nodes), Unblocked(old(sessions)))
      ensures freed == old(freed) + Chosen(old(nodes), Others(Unblocked(old(sessions))))
    {
      ghost var ns, l, before := nodes, sessions, freed;
      ghost var checked, keep := TerminatedAll(l), Unblocked(l);
      var last: Node?, s := null, head;
      ghost var i: nat, k: nat := 0, 0;
      while s != null
        invariant Valid() && Pruning(ns, l, checked, keep, before, i, k)
        invariant s == NodeAt(nodes, k) && last == if k == 0 then null else nodes[k - 1]
        invariant forall j :: 0 <= j < |nodes| ==> nodes[j] in ns
        decreases |l| - i
      {
        NextToCheck(ns, l, checked, keep, before, i, k);
        assert s.session == l[i];
        var (session, del) := Terminated(s.session);
        last, s, k := Settle(last, s, session, del, ns, l, checked, keep, before, i, k);
        i := i + 1;
      }
      PruneDone(ns, l, checked, keep, before, i, k);
    }

    /** clear: close every open descriptor and free every node. */
    method Clear() returns (closed: seq<int>)
      requires Valid()
      modifies this
      ensures Valid() && sessions == [] && freed == old(freed + nodes)
      ensures closed == OpenSockets(old(sessions))
    {
      closed := [];
      var s := head;
      ghost var i := 0;
      while s != null
        invariant Valid() && nodes == old(nodes) && sessions == old(sessions)
        invariant i <= |nodes| && s == NodeAt(nodes, i)
        invariant freed == old(freed) + nodes[..i] && closed == OpenSockets(sessions[..i])
        decreases |nodes| - i
      {
        assert sessions[..i + 1][..i] == sessions[..i];
        if SocketOf(s.session) >= 0 {
          closed := closed + [SocketOf(s.session)];
        }
        freed := freed + [s];
        s, i := s.next, i + 1;
      }
      assert nodes[..i] == nodes && sessions[..i] == sessions;
      head, nodes, sessions := null, [], [];
    }

    /** The list once the first i of the original nodes ns have been checked and k of them kept. */
    ghost predicate Pruning(ns: seq<Node>, l: seq<Session>, checked: seq<Session>, keep: seq<bool>, before: seq<Node>,
                            i: nat, k: nat)
      requires |ns| == |l| == |checked| == |keep|
      reads this`nodes, this`sessions, this`freed
    {
      && i <= |l| && freed == before + Gone(ns, keep, i)
      && k == |Chosen(ns[..i], keep[..i])| == |Chosen(checked[..i], keep[..i])|
      && nodes == Chosen(ns[..i], keep[..i]) + ns[i..]
      && sessions == Chosen(checked[..i], keep[..i]) + l[i..]
    }

    /** The node behind the kept ones is the next of the original list, untouched. */
    lemma NextToCheck(ns: seq<Node>, l: seq<Session>, checked: seq<Session>, keep: seq<bool>, before: seq<Node>,
                      i: nat, k: nat)
      requires |ns| == |l| == |checked| == |keep| && Pruning(ns, l, checked, keep, before, i, k) && k < |nodes|
      ensures i < |l| && k < |sessions| && nodes[k] == ns[i] && sessions[k] == l[i]
    {
    }

    lemma PruneStep(ns: seq<Node>, l: seq<Session>, checked: seq<Session>, keep: seq<bool>, before: seq<Node>,
                    i: nat, k: nat)
      requires |ns| == |l| == |checked| == |keep| && Pruning(ns, l, checked, keep, before, i, k) && k < |nodes|
      ensures i < |l| && nodes[k] == ns[i] && sessions[k] == l[i]
      ensures k <= |sessions| - 1 == |nodes| - 1
      ensures keep[i] ==> && nodes == Chosen(ns[..i + 1], keep[..i + 1]) + ns[i + 1..]
                          && sessions[k := checked[i]] == Chosen(checked[..i + 1], keep[..i + 1]) + l[i + 1..]
      ensures !keep[i] ==> && Without(nodes, k) == Chosen(ns[..i + 1], keep[..i + 1]) + ns[i + 1..]
                           && Without(sessions[k := checked[i]], k) ==
                              Chosen(checked[..i + 1], keep[..i + 1]) + l[i + 1..]
      ensures |Chosen(ns[..i + 1], keep[..i + 1])| == |Chosen(checked[..i + 1], keep[..i + 1])| ==
              if keep[i] then k + 1 else k
      ensures before + Gone(ns, keep, i + 1) == freed + if keep[i] then [] else [ns[i]]
    {
      ChosenNext(ns, keep, i);
      ChosenNext(checked, keep, i);
      ChosenNext(ns, Others(keep), i);
    }

    /** The nodes freed among the first i. */
    ghost function Gone(ns: seq<Node>, keep: seq<bool>, i: nat): seq<Node>
      requires |ns| == |keep| && i <= |ns|
    {
      Chosen(ns[..i], Others(keep)[..i])
    }

    lemma PruneDone(ns: seq<Node>, l: seq<Session>, checked: seq<Session>, keep: seq<bool>, before: seq<Node>,
                    i: nat, k: nat)
      requires |ns| == |l| == |checked| == |keep| && Pruning(ns, l, checked, keep, before, i, k) && k == |nodes|
      ensures nodes == Chosen(ns, keep) && sessions == Chosen(checked, keep) && sessions[..k] == sessions
      ensures i == |l| && freed == before + Chosen(ns, Others(keep))
    {
      assert ns[..i] == ns && keep[..i] == keep && checked[..i] == checked && Others(keep)[..i] == Others(keep);
    }
  }
}
