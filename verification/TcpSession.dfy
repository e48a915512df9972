/** The TCP relay as tcp.c writes it: a session object whose fields the handlers update in place, with a
    linked list of segments. Each handler is proved to do what its function in module Tcp says. */
module TcpSessions {
  import opened Words
  import opened Serial
  import opened Lists
  import opened Reassembly
  import opened Windows
  import opened Tcp

  /** struct segment; its length is that of its data. */
  class SegmentNode {
    var seqNo: u32
    var data: Payload
    var sent: u16
    var psh: bool
    var next: SegmentNode?

    constructor (seqNo: u32, data: Payload, psh: bool, next: SegmentNode?)
      ensures this.seqNo == seqNo && this.data == data && this.sent == 0 && this.psh == psh && this.next == next
    {
      this.seqNo, this.data, this.sent, this.psh, this.next := seqNo, data, 0, psh, next;
    }

    ghost predicate Holds(g: Seg)
      reads this
    {
      seqNo == g.seqNo && data == g.data && sent == g.sent && psh == g.psh
    }
  }

  ghost function NodeAt(spine: seq<SegmentNode>, i: nat): SegmentNode? {
    if i < |spine| then spine[i] else null
  }

  /** The list from head runs through the nodes of spine, which hold items, and ends. */
  ghost predicate Linked(head: SegmentNode?, spine: seq<SegmentNode>, items: seq<Seg>)
    reads spine
  {
    && |items| == |spine|
    && head == NodeAt(spine, 0)
    && (forall i {:trigger spine[i].next} :: 0 <= i < |spine| ==> spine[i].next == NodeAt(spine, i + 1))
    && (forall i {:trigger spine[i]} :: 0 <= i < |spine| ==> spine[i].Holds(items[i]))
  }

  /** A list that ends has no cycle: its nodes are distinct. */
  lemma Acyclic(head: SegmentNode?, spine: seq<SegmentNode>, items: seq<Seg>)
    requires Linked(head, spine, items)
    ensures forall i, j :: 0 <= i < j < |spine| ==> spine[i] != spine[j]
  {
    forall i, j | 0 <= i < j < |spine| ensures spine[i] != spine[j] {
      NodesDiffer(head, spine, items, i, j);
    }
  }

  lemma {:induction false} NodesDiffer(head: SegmentNode?, spine: seq<SegmentNode>, items: seq<Seg>, i: nat, j: nat)
    requires Linked(head, spine, items) && i < j < |spine|
    ensures spine[i] != spine[j]
    decreases |spine| - j
  {
    assert spine[i].next == NodeAt(spine, i + 1) && spine[j].next == NodeAt(spine, j + 1);
    if j + 1 < |spine| {
      NodesDiffer(head, spine, items, i + 1, j + 1);
    }
  }

  ghost function Inserted<T>(s: seq<T>, i: nat, x: T): (r: seq<T>)
    requires i <= |s|
    ensures |r| == |s| + 1 && r[i] == x
    ensures forall k :: 0 <= k < i ==> r[k] == s[k]
    ensures forall k :: i < k <= |s| ==> r[k] == s[k - 1]
  {
    s[..i] + [x] + s[i..]
  }

  ghost function ListOf(s: seq<Seg>): Queue {
    if s == [] then Nil else Cons(s[0], ListOf(s[1..]))
  }

  lemma {:induction false} ListOfConcat(a: seq<Seg>, b: seq<Seg>)
    ensures ListOf(a + b) == Append(ListOf(a), ListOf(b))
  {
    if a == [] {
      assert a + b == b;
    } else {
      assert (a + b)[1..] == a[1..] + b;
      ListOfConcat(a[1..], b);
    }
  }

  /** One step of the walk along a queue. */
  lemma {:induction false} AppendStep(v: seq<Seg>, i: nat, rest: Queue)
    requires i < |v|
    ensures ListOf(v[i..]) == Cons(v[i], ListOf(v[i + 1..]))
    ensures Append(ListOf(v[..i]), Cons(v[i], rest)) == Append(ListOf(v[..i + 1]), rest)
  {
    assert v[i..][1..] == v[i + 1..];
    AppendCons(v[..i], v[i], rest);
    assert v[..i] + [v[i]] == v[..i + 1];
  }

  lemma {:induction false} AppendCons(a: seq<Seg>, g: Seg, rest: Queue)
    ensures Append(ListOf(a), Cons(g, rest)) == Append(ListOf(a + [g]), rest)
  {
    if a != [] {
      assert (a + [g])[1..] == a[1..] + [g];
      AppendCons(a[1..], g, rest);
    }
  }

  lemma Spliced(a: seq<Seg>, g: Seg, rest: seq<Seg>)
    ensures ListOf(a + [g] + rest) == Append(ListOf(a), Cons(g, ListOf(rest)))
  {
    assert a + [g] + rest == a + ([g] + rest);
    assert ([g] + rest)[1..] == rest;
    ListOfConcat(a, [g] + rest);
  }

  ghost function Placing(v: seq<Seg>, i: nat, p: Packet): seq<Seg>
    requires i <= |v|
  {
    if i == |v| || CompareU32(v[i].seqNo, p.seqNo) > 0 then Inserted(v, i, Segment(p.seqNo, p.data, 0, p.psh))
    else if |v[i].data| < |p.data| then v[i := v[i].(data := p.data)]
    else v
  }

  lemma InsertHere(v: seq<Seg>, i: nat, p: Packet)
    requires i <= |v| && (i < |v| ==> CompareU32(v[i].seqNo, p.seqNo) > 0)
    ensures Insert(ListOf(v[i..]), p.seqNo, p.data, p.psh) == Cons(Segment(p.seqNo, p.data, 0, p.psh), ListOf(v[i..]))
  {
  }

  lemma LengthenHere(v: seq<Seg>, i: nat, p: Packet)
    requires i < |v| && CompareU32(v[i].seqNo, p.seqNo) == 0
    ensures Insert(ListOf(v[i..]), p.seqNo, p.data, p.psh)
         == Cons(if |v[i].data| < |p.data| then v[i].(data := p.data) else v[i], ListOf(v[i + 1..]))
  {
    assert v[i..][1..] == v[i + 1..];
  }

  /** Inserting or lengthening at the place found is what Insert does to the whole queue. */
  lemma PlacedInQueue(v: seq<Seg>, i: nat, p: Packet)
    requires i <= |v| && (i < |v| ==> CompareU32(v[i].seqNo, p.seqNo) >= 0)
    ensures ListOf(Placing(v, i, p)) == Append(ListOf(v[..i]), Insert(ListOf(v[i..]), p.seqNo, p.data, p.psh))
  {
    if i == |v| || CompareU32(v[i].seqNo, p.seqNo) > 0 {
      InsertHere(v, i, p);
      Spliced(v[..i], Segment(p.seqNo, p.data, 0, p.psh), v[i..]);
    } else {
      LengthenHere(v, i, p);
      Replaced(v, i, if |v[i].data| < |p.data| then v[i].(data := p.data) else v[i]);
      assert v[i := v[i]] == v;
    }
  }

  lemma Replaced(v: seq<Seg>, i: nat, g: Seg)
    requires i < |v|
    ensures ListOf(v[i := g]) == Append(ListOf(v[..i]), Cons(g, ListOf(v[i + 1..])))
  {
    assert v[i := g] == v[..i] + [g] + v[i + 1..];
    Spliced(v[..i], g, v[i + 1..]);
  }

  /** struct tcp_session with the socket and the poll events of its ng_session. */
  class TcpSession {
    const dport: u16
    const mss: u16
    const recvScale: Scale
    const sendScale: Scale
    const remoteStart: u32
    const localStart: u32
    var state: State
    var connect: Connect
    var socket: int
    var events: Events
    var recvWindow: u32
    var sendWindow: u32
    var remoteSeq: u32
    var localSeq: u32
    var acked: u32
    var time: int
    var lastKeepAlive: int
    var sent: nat
    var received: nat
    var forward: SegmentNode?
    ghost var spine: seq<SegmentNode>
    ghost var items: seq<Seg>
    ghost var accepted: seq<byte>
    ghost var wire: seq<byte>
    ghost var out: seq<Emitted>

    ghost predicate Valid()
      reads this`forward, this`spine, this`items, spine
    {
      Linked(forward, spine, items)
    }

    ghost function Abs(): Tcb
      reads this
    {
      Tcb(dport, mss, recvScale, sendScale, state, connect, socket, events, recvWindow, sendWindow,
          remoteSeq, localSeq, remoteStart, localStart, acked, time, lastKeepAlive, sent, received,
          ListOf(items), accepted, wire, out)
    }

    /** The session handle_tcp registers for a SYN. */
    constructor (p: Packet, dport: u16, mss: u16, scale: Scale, isn: u32, socket: nat, room: u32, now: int)
      ensures Valid() && fresh(spine)
      ensures Abs() == NewSession(p, dport, mss, scale, isn, socket, room, now)
    {
      this.dport, this.mss, recvScale, sendScale := dport, mss, scale, scale;
      remoteStart, localStart, remoteSeq, localSeq, acked := p.seqNo, isn, p.seqNo, isn, 0;
      state, connect := Listen, if dport == 80 then Tunnelled else NotSent;
      this.socket, events := socket, Events(false, true);
      sendWindow, time, lastKeepAlive, sent, received := ScaledWindow(p.window, scale), now, 0, 0, 0;
      accepted, wire, out := [], [], [];
      if p.data == [] {
        forward, spine, items := null, [], [];
      } else {
        var n := new SegmentNode(p.seqNo, p.data, p.psh, null);
        forward, spine, items := n, [n], [Segment(p.seqNo, p.data, 0, p.psh)];
      }
      recvWindow := 0;
      new;
      assert Valid() && ListOf(items) == if p.data == [] then Nil else Cons(Segment(p.seqNo, p.data, 0, p.psh), Nil);
      recvWindow := GetReceiveWindow(room);
    }

    // ----- queue_tcp

    /** The walk past smaller sequence numbers: the place of a segment and the node before it. */
    method FindPlace(p: Packet) returns (prev: SegmentNode?, s: SegmentNode?, ghost i: nat)
      requires Valid()
      ensures i <= |spine| && s == NodeAt(spine, i)
      ensures prev == if i == 0 then null else spine[i - 1]
      ensures s != null ==> CompareU32(s.seqNo, p.seqNo) >= 0
      ensures Insert(ListOf(items), p.seqNo, p.data, p.psh)
           == Append(ListOf(items[..i]), Insert(ListOf(items[i..]), p.seqNo, p.data, p.psh))
    {
      ghost var v := items;
      prev, s, i := null, forward, 0;
      while s != null && CompareU32(s.seqNo, p.seqNo) < 0
        invariant i <= |v| && s == NodeAt(spine, i)
        invariant prev == if i == 0 then null else spine[i - 1]
        invariant Insert(ListOf(items), p.seqNo, p.data, p.psh) ==
                  Append(ListOf(v[..i]), Insert(ListOf(v[i..]), p.seqNo, p.data, p.psh))
        decreases |v| - i
      {
        AppendStep(v, i, Insert(ListOf(v[i + 1..]), p.seqNo, p.data, p.psh));
        prev, s, i := s, s.next, i + 1;
      }
    }

    /** Link n between the node before it and the place found for it. */
    method Splice(n: SegmentNode, prev: SegmentNode?, ghost i: nat, ghost g: Seg)
      requires Valid() && i <= |spine| && n !in spine && n.next == NodeAt(spine, i) && n.Holds(g)
      requires prev == if i == 0 then null else spine[i - 1]
      modifies this`forward, this`spine, this`items, spine
      ensures Valid() && spine == old(Inserted(spine, i, n)) && items == old(Inserted(items, i, g))
    {
      Acyclic(forward, spine, items);
      if prev == null {
        forward := n;
      } else {
        prev.next := n;
      }
      spine, items := Inserted(spine, i, n), Inserted(items, i, g);
      forall k | 0 <= k < |spine| ensures spine[k].next == NodeAt(spine, k + 1) && spine[k].Holds(items[k]) {
        assert k < i || k == i || spine[k] == old(spine)[k - 1];
      }
    }

    method Lengthen(s: SegmentNode, ghost i: nat, data: Payload)
      requires Valid() && i < |spine| && spine[i] == s
      modifies this`items, s
      ensures Valid()
      ensures items == old(items)[i := if |old(items)[i].data| < |data|
                                       then old(items)[i].(data := data) else old(items)[i]]
    {
      Acyclic(forward, spine, items);
      if |s.data| < |data| {
        s.data := data;
        items := items[i := items[i].(data := data)];
      }
    }

    /** Insert a new segment at the place found, or lengthen the one that is there. */
    method Place(p: Packet, prev: SegmentNode?, s: SegmentNode?, ghost i: nat)
      requires Valid() && i <= |spine| && s == NodeAt(spine, i)
      requires prev == if i == 0 then null else spine[i - 1]
      modifies this`forward, this`spine, this`items, spine
      ensures Valid() && forall k :: 0 <= k < |spine| ==> spine[k] in old(spine) || fresh(spine[k])
      ensures items == Placing(old(items), i, p)
    {
      if s == null || CompareU32(s.seqNo, p.seqNo) > 0 {
        var n := new SegmentNode(p.seqNo, p.data, p.psh, s);
        Splice(n, prev, i, Segment(p.seqNo, p.data, 0, p.psh));
      } else {
        Lengthen(s, i, p.data);
      }
    }

    method QueueTcp(p: Packet)
      requires Valid()
      modifies this`forward, this`spine, this`items, spine
      ensures Valid() && forall k :: 0 <= k < |spine| ==> spine[k] in old(spine) || fresh(spine[k])
      ensures ListOf(items) == Enqueue(old(ListOf(items)), remoteSeq, p.seqNo, p.data, p.psh)
    {
      if CompareU32(p.seqNo, remoteSeq) < 0 {
        return;
      }
      ghost var v := items;
      var prev, s, i := FindPlace(p);
      PlacedInQueue(v, i, p);
      ghost var w := Placing(v, i, p);
      assert ListOf(w) == Insert(ListOf(v), p.seqNo, p.data, p.psh);
      Place(p, prev, s, i);
      assert items == w;
    }

    method QueueSegment(p: Packet)
      requires Valid()
      modifies this`forward, this`spine, this`items, spine
      ensures Valid() && forall k :: 0 <= k < |spine| ==> spine[k] in old(spine) || fresh(spine[k])
      ensures Abs() == Tcp.QueueTcp(old(Abs()), p)
    {
      QueueTcp(p);
    }

    // ----- get_receive_window

    method GetReceiveWindow(room: u32) returns (window: u32)
      requires Valid()
      ensures window == ReceiveWindow(ListOf(items), if socket < 0 then 0 else room, recvScale)
    {
      var toforward: u32 := 0;
      var q := forward;
      ghost var i, v := 0, items;
      while q != null
        invariant i <= |v| && q == NodeAt(spine, i)
        invariant Plus(toforward, Toforward(ListOf(v[i..]))) == Toforward(ListOf(items))
        decreases |v| - i
      {
        AppendStep(v, i, Nil);
        toforward := Plus(toforward, |q.data| - q.sent);
        q, i := q.next, i + 1;
      }
      window := LimitWindow(toforward, if socket < 0 then 0 else room);
    }

    method LimitWindow(toforward: u32, room: u32) returns (window: u32)
      ensures window == FreeWindow(toforward, room, recvScale)
    {
      window := room;
      var max := ScaledWindow(0xFFFF, recvScale);
      if window > max {
        window := max;
      }
      window := if toforward < window then window - toforward else 0;
      if Shr(window, recvScale) == 0 {
        window := 0;
      }
    }

    // ----- writing packets; the packets go to the history field out

    method WriteTcp(data: seq<byte>, syn: bool, ack: bool, fin: bool, rst: bool)
      modifies this`out
      ensures Abs() == Emit(old(Abs()), syn, ack, fin, rst, data)
    {
      out := out + [Emitted(localSeq, if ack then remoteSeq else 0, syn, ack, fin, rst,
                            WindowField(recvWindow, recvScale), data)];
    }

    /** write_syn_ack, write_ack, write_data and write_fin_ack; ok tells whether the tun device took the packet. */
    method Write(data: seq<byte>, syn: bool, fin: bool, ok: bool)
      modifies this`out, this`state
      ensures Abs() == Tcp.Write(old(Abs()), syn, fin, data, ok)
    {
      WriteTcp(data, syn, true, fin, false);
      if !ok {
        state := Closing;
      }
    }

    method WriteRst()
      modifies this`out, this`state, this`remoteSeq
      ensures Abs() == Tcp.WriteRst(old(Abs()))
    {
      var ack := false;
      if state == Listen {
        ack := true;
        remoteSeq := Plus(remoteSeq, 1);
      }
      WriteTcp([], false, ack, false, true);
      if state != Close {
        state := Closing;
      }
    }

    // ----- check_tcp_session, monitor_tcp_session

    method CheckExpiry(sessions: nat, maxsessions: nat, now: int)
      requires maxsessions > 0
      modifies this`out, this`state, this`remoteSeq
      ensures Abs() == TimeOut(old(Abs()), sessions, maxsessions, now)
    {
      var timeout := Timeout(state, sessions, maxsessions);
      if state != Closing && state != Close && time + timeout < now {
        if state == Listen {
          state := Closing;
        } else {
          WriteRst();
        }
      }
    }

    method CloseSocket(now: int)
      modifies this`state, this`socket, this`time
      ensures Abs() == FinishClosing(old(Abs()), now)
    {
      if state == Closing {
        if socket >= 0 {
          socket := -1;
        }
        time := now;
        state := Close;
      }
    }

    method CheckTimer(sessions: nat, maxsessions: nat, now: int) returns (del: bool)
      requires maxsessions > 0
      modifies this`out, this`state, this`remoteSeq, this`socket, this`time, this`sent, this`received
      ensures Abs() == Tcp.CheckTimer(old(Abs()), sessions, maxsessions, now)
      ensures del == Lingered(Abs(), now)
    {
      CheckExpiry(sessions, maxsessions, now);
      CloseSocket(now);
      if state == Closing || state == Close {
        sent, received := 0, 0;
      }
      del := state == Close && time + TCP_KEEP_TIMEOUT < now;
    }

    method KeepAlive(m: MonitorEnv)
      modifies this`out, this`state, this`remoteSeq, this`lastKeepAlive
      ensures Abs() == Tcp.KeepAlive(old(Abs()), m)
    {
      if m.ms - lastKeepAlive > EPOLL_MIN_CHECK {
        lastKeepAlive := m.ms;
        remoteSeq := Minus(remoteSeq, 1);
        Write([], false, false, m.writeOk);
        remoteSeq := Plus(remoteSeq, 1);
      }
    }

    method WantedEvents(room: u32) returns (wanted: Events)
      requires Valid()
      ensures wanted == Wanted(Abs(), room)
    {
      wanted := Events(false, false);
      if state == Listen {
        if connect == Requested && dport == HTTPS {
          wanted := Events(true, false);
        } else {
          wanted := Events(false, true);
        }
      } else if state == Established || state == CloseWait {
        wanted := Events(Windows.SendWindow(acked, localSeq, sendWindow) > 0,
                         HeadReady(if socket < 0 then 0 else room));
      }
    }

    method Monitor(m: MonitorEnv) returns (recheck: bool)
      requires Valid()
      modifies this`out, this`state, this`remoteSeq, this`lastKeepAlive, this`events
      ensures (Abs(), recheck) == Tcp.Monitor(old(Abs()), m)
    {
      recheck := false;
      var wanted := WantedEvents(m.room);
      if state == Established || state == CloseWait {
        recheck := !wanted.input || (forward != null && !wanted.output);
        if !wanted.input {
          KeepAlive(m);
        }
      }
      if wanted != events {
        events := wanted;
        if !m.modOk {
          state := Closing;
        }
      }
    }

    predicate HeadReady(room: u32)
      requires Valid()
      reads this, spine
      ensures HeadReady(room) == Ready(ListOf(items), remoteSeq, room)
    {
      forward != null && Plus(forward.seqNo, forward.sent) == remoteSeq && |forward.data| - forward.sent < room
    }

    // ----- check_tcp_socket

    /** k more bytes of the head segment are sent; a segment that is sent to its end is unlinked. */
    method AdvanceHead(k: nat)
      requires Valid() && forward != null && k <= |forward.data| - forward.sent
      modifies this`forward, this`spine, this`items, forward
      ensures Valid()
      ensures k == Unsent(old(items[0])) ==> spine == old(spine[1..]) && items == old(items[1..])
      ensures k < Unsent(old(items[0])) ==>
              spine == old(spine) && items == old(items[0 := items[0].(sent := items[0].sent + k)])
    {
      Acyclic(forward, spine, items);
      var s := forward;
      s.sent := s.sent + k;
      if s.sent == |s.data| {
        forward := s.next;
        spine, items := spine[1..], items[1..];
      } else {
        items := items[0 := items[0].(sent := s.sent)];
      }
    }

    /** The head segment after send() returned n for its unsent bytes. */
    method SendHead(n: int) returns (k: nat)
      requires Valid() && forward != null
      modifies this`sent, this`remoteSeq, this`forward, this`spine, this`items, this`accepted, this`wire, forward
      ensures Valid()
      ensures k == Counted(n, Unsent(old(items[0])))
      ensures remoteSeq == Plus(old(items[0]).seqNo, old(items[0]).sent + k) && sent == old(sent) + k
      ensures accepted == old(accepted) + Piece(old(items[0]), k)
      ensures wire == old(wire) + if n < 0 then [] else Piece(old(items[0]), k)
      ensures k == Unsent(old(items[0])) ==> spine == old(spine[1..]) && items == old(items[1..])
      ensures k < Unsent(old(items[0])) ==>
              spine == old(spine) && items == old(items[0 := items[0].(sent := items[0].sent + k)])
    {
      var len := |forward.data| - forward.sent;
      k := if n < 0 || n > len then len else n;
      ghost var piece := Piece(items[0], k);
      accepted, wire := accepted + piece, wire + if n < 0 then [] else piece;
      sent, remoteSeq := sent + k, Plus(forward.seqNo, forward.sent + k);
      AdvanceHead(k);
    }

    /** One turn of the forwarding loop; end is what the whole loop will have done. */
    method SendTurn(room: u32, sends: seq<int>, ghost end: Pass, ghost fwd: bool) returns (more: bool, room': u32)
      requires Valid() && HeadReady(room)
      requires Resumes(end, Forward(ListOf(items), remoteSeq, room, sends), accepted, wire, fwd)
      modifies this`sent, this`remoteSeq, this`forward, this`spine, this`items, this`accepted, this`wire, forward
      ensures Valid() && sent - |accepted| == old(sent - |accepted|)
      ensures spine == if more then old(spine[1..]) else old(spine)
      ensures more ==> Resumes(end, Forward(ListOf(items), remoteSeq, room', Rest(sends)), accepted, wire, true)
      ensures !more ==> end == Pass(ListOf(items), remoteSeq, accepted, wire, true)
    {
      var n, len := Next(sends), |forward.data| - forward.sent;
      ghost var v := items;
      ResumesStep(end, v, remoteSeq, room, sends, accepted, wire, fwd);
      var k := SendHead(n);
      room', more := room - k, k == len;
      assert more ==> items == v[1..] && remoteSeq == Plus(v[0].seqNo, v[0].sent + k);
    }

    /** The forwarding loop; each turn sends the head of the queue or leaves the loop. */
    method ForwardLoop(room: u32, sends: seq<int>) returns (fwd: bool, ghost p: Pass)
      requires Valid()
      modifies this`sent, this`remoteSeq, this`forward, this`spine, this`items, this`accepted, this`wire, spine
      ensures Valid() && forall k :: 0 <= k < |spine| ==> spine[k] in old(spine)
      ensures p == Forward(old(ListOf(items)), old(remoteSeq), room, sends)
      ensures Pass(p.queue, p.remoteSeq, old(accepted) + p.accepted, old(wire) + p.wire, p.any)
           == Pass(ListOf(items), remoteSeq, accepted, wire, fwd)
      ensures sent == old(sent) + |p.accepted|
    {
      p := Forward(ListOf(items), remoteSeq, room, sends);
      ghost var end := Pass(p.queue, p.remoteSeq, accepted + p.accepted, wire + p.wire, p.any);
      var bufferSize, results, more := room, sends, true;
      fwd := false;
      while more && HeadReady(bufferSize)
        invariant Valid() && forall k :: 0 <= k < |spine| ==> spine[k] in old(spine)
        invariant sent - |accepted| == old(sent - |accepted|)
        invariant more ==> Resumes(end, Forward(ListOf(items), remoteSeq, bufferSize, results), accepted, wire, fwd)
        invariant !more ==> end == Pass(ListOf(items), remoteSeq, accepted, wire, fwd)
        decreases more, |spine|
      {
        more, bufferSize := SendTurn(bufferSize, results, end, fwd);
        fwd, results := true, Rest(results);
      }
    }

    method TryForward(e: SocketEvent) returns (fwd: bool)
      requires Valid()
      modifies this`sent, this`remoteSeq, this`forward, this`spine, this`items, this`accepted, this`wire, spine
      ensures Valid() && forall k :: 0 <= k < |spine| ==> spine[k] in old(spine)
      ensures (Abs(), fwd) == Tcp.TryForward(old(Abs()), e)
    {
      fwd := false;
      if e.output {
        ghost var p;
        fwd, p := ForwardLoop(if socket < 0 then 0 else e.room, e.sends);
        assert Abs() == old(Abs()).(forward := p.queue, remoteSeq := p.remoteSeq, sent := old(sent) + |p.accepted|,
                                    accepted := old(accepted) + p.accepted, wire := old(wire) + p.wire);
      }
    }

    method Announce(fwd: bool, e: SocketEvent)
      requires Valid()
      modifies this`recvWindow, this`remoteSeq, this`out, this`state, this`time
      ensures Abs() == Tcp.Announce(old(Abs()), fwd, e)
    {
      var window := GetReceiveWindow(e.room2);
      var prev := recvWindow;
      recvWindow := window;
      if fwd || (prev == 0 && window > 0) {
        Acknowledge(fwd, e);
      }
    }

    method Acknowledge(fwd: bool, e: SocketEvent)
      requires Valid()
      modifies this`remoteSeq, this`out, this`state, this`time
      ensures Abs() == Tcp.Acknowledge(old(Abs()), fwd, e)
    {
      if fwd && forward == null && state == CloseWait {
        remoteSeq := Plus(remoteSeq, 1);
      }
      Write([], false, false, e.ackOk);
      if e.ackOk {
        time := e.now;
      }
    }

    method Connected(e: SocketEvent)
      modifies this`connect, this`remoteSeq, this`localSeq, this`out, this`state, this`time
      ensures Abs() == Tcp.Connected(old(Abs()), e)
    {
      if e.input {
        if e.recv.Bytes? && connect == Requested {
          connect, state := Tunnelled, SynRecv;
        } else {
          WriteRst();
        }
      } else {
        remoteSeq := Plus(remoteSeq, 1);
        Write([], true, false, e.ackOk);
        if e.ackOk {
          time, localSeq, state := e.now, Plus(localSeq, 1), SynRecv;
        }
      }
    }

    method EndOfFile(ok: bool)
      requires Valid()
      modifies this`remoteSeq, this`localSeq, this`out, this`state, this`socket
      ensures Abs() == Tcp.EndOfFile(old(Abs()), ok)
    {
      if forward == null {
        Write([], false, true, ok);
        if ok {
          localSeq := Plus(localSeq, 1);
        }
        if state == Established {
          state := FinWait1;
        } else if state == CloseWait {
          state := LastAck;
        }
      } else {
        WriteRst();
      }
      socket := -1;
    }

    method ReadSocket(e: SocketEvent)
      requires Valid()
      modifies this`remoteSeq, this`localSeq, this`received, this`out, this`state, this`socket, this`time
      ensures Abs() == Tcp.ReadSocket(old(Abs()), e)
    {
      var window := Windows.SendWindow(acked, localSeq, sendWindow);
      if !e.input || window == 0 {
        return;
      }
      time := e.now;
      var size := if window > mss then mss else window;
      match e.recv
      case Failed(retry) =>
        if !retry {
          WriteRst();
        }
      case Bytes(data) =>
        var n := Min(|data|, size);
        if n == 0 {
          EndOfFile(e.writeOk);
        } else {
          received := received + n;
          Write(data[..n], false, false, e.writeOk);
          if e.writeOk {
            localSeq := Plus(localSeq, n);
          }
        }
    }

    method CheckSocket(e: SocketEvent)
      requires Valid()
      modifies this, spine
      ensures Valid() && forall k :: 0 <= k < |spine| ==> spine[k] in old(spine)
      ensures Abs() == Tcp.CheckSocket(old(Abs()), e)
    {
      if e.error {
        time := e.now;
        WriteRst();
      } else if state == Listen {
        Connected(e);
      } else {
        Serve(e);
      }
    }

    /** The part of check_tcp_socket for a connected session. */
    method Serve(e: SocketEvent)
      requires Valid() && state != Listen && !e.error
      modifies this, spine
      ensures Valid() && forall k :: 0 <= k < |spine| ==> spine[k] in old(spine)
      ensures Abs() == Tcp.CheckSocket(old(Abs()), e)
    {
      var fwd := TryForward(e);
      AfterForward(fwd, e);
    }

    method AfterForward(fwd: bool, e: SocketEvent)
      requires Valid()
      modifies this`recvWindow, this`remoteSeq, this`localSeq, this`received, this`out, this`state, this`socket,
               this`time
      ensures Abs() == Tcp.AfterForward(old(Abs()), fwd, e)
    {
      Announce(fwd, e);
      if state == Established || state == CloseWait {
        ReadSocket(e);
      }
    }

    // ----- handle_tcp

    method RequestTunnel(e: PacketEnv)
      modifies this`connect, this`remoteSeq, this`out, this`state
      ensures Abs() == Tcp.RequestTunnel(old(Abs()), e)
    {
      if dport == HTTPS && connect == NotSent && e.hostKnown {
        if socket >= 0 && e.sendOk {
          connect, state := Requested, Listen;
        } else {
          WriteRst();
        }
      }
    }

    method HandleFin(ok: bool)
      requires Valid()
      modifies this`remoteSeq, this`out, this`state
      ensures Abs() == Tcp.HandleFin(old(Abs()), ok)
    {
      if state == Established {
        if forward == null {
          remoteSeq := Plus(remoteSeq, 1);
          Write([], false, false, ok);
          if ok {
            state := CloseWait;
          }
        } else {
          state := CloseWait;
        }
      } else if state == FinWait1 {
        remoteSeq := Plus(remoteSeq, 1);
        Write([], false, false, ok);
        if ok {
          state := Close;
        }
      }
    }

    method HandleFlags(p: Packet, e: PacketEnv)
      requires Valid()
      modifies this`remoteSeq, this`out, this`state, this`acked
      ensures Abs() == Tcp.HandleFlags(old(Abs()), p, e)
    {
      if p.rst {
        state := Closing;
      } else if !p.ack || p.ackSeq == localSeq {
        if p.syn {
        } else if p.fin {
          HandleFin(e.writeOk);
        } else if p.ack {
          acked := p.ackSeq;
          if state == SynRecv {
            state := Established;
          } else if state == LastAck {
            state := Closing;
          }
        }
      } else if Plus(p.ackSeq, 1) == localSeq {
      } else if CompareU32(p.ackSeq, localSeq) < 0 {
        if CompareU32(p.ackSeq, acked) > 0 {
          acked := p.ackSeq;
        }
      } else {
        WriteRst();
      }
    }

    method HandleTcp(p: Packet, e: PacketEnv)
      requires Valid()
      modifies this, spine
      ensures Valid() && forall k :: 0 <= k < |spine| ==> spine[k] in old(spine) || fresh(spine[k])
      ensures Abs() == Tcp.HandleTcp(old(Abs()), p, e)
    {
      if p.urg {
        return;
      }
      RequestTunnel(e);
      if dport == HTTPS && connect != Tunnelled {
        QueueSegment(p);
        return;
      }
      if state == Closing || state == Close {
        WriteRst();
      } else {
        HandleSegment(p, e);
      }
    }

    method HandleSegment(p: Packet, e: PacketEnv)
      requires Valid()
      modifies this, spine
      ensures Valid() && forall k :: 0 <= k < |spine| ==> spine[k] in old(spine) || fresh(spine[k])
      ensures Abs() == Tcp.HandleSegment(old(Abs()), p, e)
    {
      time, sendWindow := e.now, ScaledWindow(p.window, sendScale);
      ghost var t := Abs();
      assert Tcp.HandleSegment(old(Abs()), p, e)
          == if p.data == [] then Tcp.HandleFlags(t, p, e)
             else if socket < 0 || state == CloseWait then Tcp.WriteRst(t)
             else Tcp.HandleFlags(Tcp.QueueTcp(t, p), p, e);
      if p.data == [] {
        HandleFlags(p, e);
      } else if socket < 0 || state == CloseWait {
        WriteRst();
      } else {
        QueueSegment(p);
        HandleFlags(p, e);
      }
    }
  }

  /** What the event loop does of its own accord: poll set-up, timer, termination. */
  method Housekeep(s: TcpSession, ev: Event)
    requires s.Valid() && !ev.FromTun? && !ev.FromSocket?
    modifies s, s.spine
    ensures s.Valid() && s.spine == old(s.spine)
    ensures s.Abs() == Step(old(s.Abs()), ev)
  {
    match ev
    case Poll(m) =>
      if s.socket >= 0 {
        var _ := s.Monitor(m);
      }
    case Timer(sessions, maxsessions, now) =>
      if maxsessions > 0 {
        var _ := s.CheckTimer(sessions, maxsessions, now);
      }
    case Terminate =>
      if s.state != Closing && s.state != Close {
        s.WriteRst();
      }
  }

  /** One step of the event loop on one session. */
  method HandleEvent(s: TcpSession, ev: Event)
    requires s.Valid()
    modifies s, s.spine
    ensures s.Valid() && forall k :: 0 <= k < |s.spine| ==> s.spine[k] in old(s.spine) || fresh(s.spine[k])
    ensures s.Abs() == Step(old(s.Abs()), ev)
  {
    match ev
    case FromTun(p, pe) =>
      s.HandleTcp(p, pe);
    case FromSocket(se) =>
      s.CheckSocket(se);
    case _ =>
      Housekeep(s, ev);
  }

  /** A whole run of one session, so that what is proved of Run holds of the object. */
  method HandleEvents(s: TcpSession, evs: seq<Event>)
    requires s.Valid()
    modifies s, s.spine
    ensures s.Valid() && s.Abs() == Run(old(s.Abs()), evs)
  {
    var i := 0;
    while i < |evs|
      invariant i <= |evs| && s.Valid()
      invariant forall k :: 0 <= k < |s.spine| ==> s.spine[k] in old(s.spine) || fresh(s.spine[k])
      invariant Run(s.Abs(), evs[i..]) == Run(old(s.Abs()), evs)
    {
      assert evs[i..][0] == evs[i] && evs[i..][1..] == evs[i + 1..];
      HandleEvent(s, evs[i]);
      i := i + 1;
    }
  }

  ghost function Piece(g: Seg, k: nat): seq<byte>
    requires k <= Unsent(g)
  {
    g.data[g.sent..g.sent + k]
  }

  /** A whole pass, as what was handed on before and the pass that remains. */
  ghost predicate Resumes(full: Pass, rest: Pass, acc: seq<byte>, took: seq<byte>, fwd: bool) {
    full == Pass(rest.queue, rest.remoteSeq, acc + rest.accepted, took + rest.wire, fwd || rest.any)
  }

  /** A turn that sends the rest of the head leaves a pass over the tail. */
  lemma SentWhole(v: seq<Seg>, remoteSeq: u32, room: int, sends: seq<int>)
    requires v != [] && Ready(ListOf(v), remoteSeq, room) && Counted(Next(sends), Unsent(v[0])) == Unsent(v[0])
    ensures var k := Unsent(v[0]);
            var p := Forward(ListOf(v), remoteSeq, room, sends);
            var more := Forward(ListOf(v[1..]), Plus(v[0].seqNo, v[0].sent + k), room - k, Rest(sends));
            && p.any && p.queue == more.queue && p.remoteSeq == more.remoteSeq
            && p.accepted == Piece(v[0], k) + more.accepted
            && p.wire == (if Next(sends) < 0 then [] else Piece(v[0], k)) + more.wire
  {
    ForwardTurn(ListOf(v), Cons(0, Nil), remoteSeq, room, sends);
    assert v[0].data[v[0].sent..] == Piece(v[0], Unsent(v[0]));
  }

  lemma ResumesStep(full: Pass, v: seq<Seg>, remoteSeq: u32, room: int, sends: seq<int>, acc: seq<byte>,
                    took: seq<byte>, fwd: bool)
    requires v != [] && Ready(ListOf(v), remoteSeq, room)
    requires Resumes(full, Forward(ListOf(v), remoteSeq, room, sends), acc, took, fwd)
    ensures var n, k := Next(sends), Counted(Next(sends), Unsent(v[0]));
            var acc', took' := acc + Piece(v[0], k), took + (if n < 0 then [] else Piece(v[0], k));
            var remote := Plus(v[0].seqNo, v[0].sent + k);
            && (k < Unsent(v[0]) ==>
                  full == Pass(ListOf(v[0 := v[0].(sent := v[0].sent + k)]), remote, acc', took', true))
            && (k == Unsent(v[0]) ==>
                  Resumes(full, Forward(ListOf(v[1..]), remote, room - k, Rest(sends)), acc', took', true))
  {
    var n, k := Next(sends), Counted(Next(sends), Unsent(v[0]));
    var taken := if n < 0 then [] else Piece(v[0], k);
    if k < Unsent(v[0]) {
      var p := Forward(ListOf(v), remoteSeq, room, sends);
      assert v[0 := v[0].(sent := v[0].sent + k)][1..] == v[1..];
      assert p.accepted == Piece(v[0], k) && p.wire == taken;
    } else {
      SentWhole(v, remoteSeq, room, sends);
      ResumesTurn(full, Forward(ListOf(v), remoteSeq, room, sends),
                  Forward(ListOf(v[1..]), Plus(v[0].seqNo, v[0].sent + k), room - k, Rest(sends)),
                  Piece(v[0], k), taken, acc, took, fwd);
    }
  }

  lemma ResumesTurn(full: Pass, p: Pass, more: Pass, piece: seq<byte>, taken: seq<byte>,
                    acc: seq<byte>, took: seq<byte>, fwd: bool)
    requires Resumes(full, p, acc, took, fwd) && p.any
    requires p.queue == more.queue && p.remoteSeq == more.remoteSeq
    requires p.accepted == piece + more.accepted && p.wire == taken + more.wire
    ensures Resumes(full, more, acc + piece, took + taken, true)
  {
    assert acc + p.accepted == acc + piece + more.accepted;
    assert took + p.wire == took + taken + more.wire;
  }
}
