/** The reassembly list of a TCP session as a value: queue_tcp and the forwarding loop of tcp.c. */
module Reassembly {
  import opened Words
  import opened Serial
  import opened Lists

  type Payload = s: seq<byte> | |s| < 0x1_0000

  datatype SegmentValue = Segment(seqNo: u32, data: Payload, sent: u16, psh: bool)

  /** A queued segment; sent counts the leading bytes already handed to the socket. */
  type Seg = g: SegmentValue | g.sent <= |g.data| witness Segment(0, [], 0, false)

  type Queue = List<Seg>

  function Unsent(g: Seg): nat {
    |g.data| - g.sent
  }

  /** The walk of queue_tcp: past smaller sequence numbers, then insert, lengthen or leave. */
  function Insert(q: Queue, seqNo: u32, data: Payload, psh: bool): Queue {
    if q.Nil? then Cons(Segment(seqNo, data, 0, psh), Nil)
    else if CompareU32(q.head.seqNo, seqNo) < 0 then Cons(q.head, Insert(q.tail, seqNo, data, psh))
    else if CompareU32(q.head.seqNo, seqNo) > 0 then Cons(Segment(seqNo, data, 0, psh), q)
    else if |q.head.data| < |data| then Cons(q.head.(data := data), q.tail)
    else q
  }

  function Enqueue(q: Queue, remoteSeq: u32, seqNo: u32, data: Payload, psh: bool): Queue {
    if CompareU32(seqNo, remoteSeq) < 0 then q else Insert(q, seqNo, data, psh)
  }

  /** The outcome of one forwarding pass: accepted is what the relay counts as forwarded
      (and acknowledges), wire what the socket really took. */
  datatype Pass = Pass(queue: Queue, remoteSeq: u32, accepted: seq<byte>, wire: seq<byte>, any: bool)

  /** The byte count used after send() returned n for len bytes. The test `sent > len` compares a
      signed with an unsigned size, so -1 counts as larger than any length. */
  function Counted(n: int, len: nat): (k: nat)
    ensures k <= len
  {
    if n < 0 || n > len then len else n
  }

  function Next(sends: seq<int>): int {
    if sends == [] then 0 else sends[0]
  }

  function Rest(sends: seq<int>): seq<int> {
    if sends == [] then [] else sends[1..]
  }

  /** The head of the queue is the next piece of the stream and fits the socket buffer. */
  predicate Ready(q: Queue, remoteSeq: u32, room: int) {
    q.Cons? && Plus(q.head.seqNo, q.head.sent) == remoteSeq && Unsent(q.head) < room
  }

  function Forward(q: Queue, remoteSeq: u32, room: int, sends: seq<int>): Pass {
    if !Ready(q, remoteSeq, room) then Pass(q, remoteSeq, [], [], false)
    else
      var g, n := q.head, Next(sends);
      var k := Counted(n, Unsent(g));
      var piece := g.data[g.sent..g.sent + k];
      var taken := if n < 0 then [] else piece;
      var remote := Plus(g.seqNo, g.sent + k);
      if k < Unsent(g) then
        Pass(Cons(g.(sent := g.sent + k), q.tail), remote, piece, taken, true)
      else
        var more := Forward(q.tail, remote, room - k, Rest(sends));
        Pass(more.queue, more.remoteSeq, piece + more.accepted, taken + more.wire, true)
  }

  /** Some send() of this pass fails although it was given data. */
  predicate LosesData(q: Queue, remoteSeq: u32, room: int, sends: seq<int>) {
    Ready(q, remoteSeq, room) &&
    var n := Next(sends);
    var k := Counted(n, Unsent(q.head));
    || (n < 0 && Unsent(q.head) > 0)
    || (k == Unsent(q.head) && LosesData(q.tail, Plus(q.head.seqNo, q.head.sent + k), room - k, Rest(sends)))
  }

  /** The socket received every byte the relay counts as forwarded if and only if no send() failed
      on data; a failed one leaves a gap for good. */
  lemma {:induction false} WireIffNoLoss(q: Queue, remoteSeq: u32, room: int, sends: seq<int>)
    ensures var p := Forward(q, remoteSeq, room, sends);
            && |p.wire| <= |p.accepted|
            && (p.wire == p.accepted <==> !LosesData(q, remoteSeq, room, sends))
            && (|p.wire| == |p.accepted| <==> p.wire == p.accepted)
  {
    if Ready(q, remoteSeq, room) {
      var k := Counted(Next(sends), Unsent(q.head));
      if k == Unsent(q.head) {
        WireIffNoLoss(q.tail, Plus(q.head.seqNo, q.head.sent + k), room - k, Rest(sends));
      }
    }
  }

  // ----- positions in the peer's byte stream

  /** An arriving segment may start this far ahead of the forwarded bytes, or less. */
  const AHEAD := 0x7FFF_FFFE - 0xFFFF

  ghost predicate IsSlice(data: seq<byte>, off: int, stream: seq<byte>) {
    0 <= off && off + |data| <= |stream| && data == stream[off..off + |data|]
  }

  /** A segment that starts at off is a slice of the stream, if it does not start before it. */
  ghost predicate InStream(data: seq<byte>, off: int, stream: seq<byte>) {
    off >= 0 ==> IsSlice(data, off, stream)
  }

  /** Every segment of the queue is a slice of one stream, starting at the position given for it; one that
      starts before the stream, at the number of the SYN, is untouched. */
  ghost predicate Slices(q: Queue, offs: List<int>, stream: seq<byte>) {
    && q.Cons? == offs.Cons?
    && (q.Cons? ==>
          && InStream(q.head.data, offs.head, stream) && (offs.head < 0 ==> q.head.sent == 0)
          && Slices(q.tail, offs.tail, stream))
  }

  /** Untouched segments at increasing positions between lo and hi. */
  ghost predicate Rising(q: Queue, first: u32, offs: List<int>, lo: int, hi: int) {
    && q.Cons? == offs.Cons?
    && (q.Cons? ==>
          && lo < offs.head < hi && q.head.seqNo == At(first, offs.head) && q.head.sent == 0
          && Rising(q.tail, first, offs.tail, offs.head, hi))
  }

  /** The first segment of a queue that has forwarded pos bytes: it may be partly sent, and then
      it is sent exactly up to pos. */
  ghost predicate HeadPlaced(g: Seg, first: u32, o: int, pos: int) {
    && pos - 0xFFFF <= o < pos + AHEAD
    && g.seqNo == At(first, o)
    && (g.sent > 0 ==> o + g.sent == pos)
  }

  /** A queue of a session that has forwarded pos bytes of a stream whose first byte has sequence
      number first; offs gives the stream position of each segment. */
  ghost predicate Placed(q: Queue, first: u32, offs: List<int>, pos: int) {
    && q.Cons? == offs.Cons?
    && (q.Cons? ==>
          && HeadPlaced(q.head, first, offs.head, pos)
          && Rising(q.tail, first, offs.tail, offs.head, pos + AHEAD))
  }

  /** Strictly increasing in serial order, and only the first segment may be partly sent. */
  ghost predicate SerialOrder(q: Queue) {
    q.Cons? && q.tail.Cons? ==>
      CompareU32(q.head.seqNo, q.tail.head.seqNo) < 0 && q.tail.head.sent == 0 && SerialOrder(q.tail)
  }

  // ----- queueing

  /** The positions of the queue after a segment at off has been queued. */
  ghost function InsertOffset(offs: List<int>, off: int): List<int> {
    if offs.Nil? || offs.head > off then Cons(off, offs)
    else if offs.head < off then Cons(offs.head, InsertOffset(offs.tail, off))
    else offs
  }

  lemma {:induction false} InsertRising(q: Queue, first: u32, offs: List<int>, lo: int, hi: int,
                                        off: int, data: Payload, psh: bool)
    requires Rising(q, first, offs, lo, hi) && lo < off < hi && hi - lo <= 0x7FFF_FFFE
    ensures Rising(Insert(q, At(first, off), data, psh), first, InsertOffset(offs, off), lo, hi)
  {
    if q.Cons? {
      CompareOffsets(first, offs.head, off);
      if offs.head < off {
        InsertRising(q.tail, first, offs.tail, offs.head, hi, off, data, psh);
      }
    }
  }

  /** Queueing keeps the queue placed, and never replaces a segment that is partly sent. */
  lemma InsertPlaced(q: Queue, first: u32, offs: List<int>, pos: int, off: int, data: Payload, psh: bool)
    requires Placed(q, first, offs, pos) && pos <= off < pos + AHEAD
    ensures Placed(Insert(q, At(first, off), data, psh), first, InsertOffset(offs, off), pos)
    ensures q.Cons? && q.head.sent > 0 ==> Insert(q, At(first, off), data, psh).head == q.head
  {
    if q.Cons? {
      CompareOffsets(first, offs.head, off);
      if offs.head < off {
        InsertRising(q.tail, first, offs.tail, offs.head, pos + AHEAD, off, data, psh);
      }
    }
  }

  lemma {:induction false} InsertRisingSlices(q: Queue, first: u32, offs: List<int>, lo: int, hi: int,
                                              off: int, data: Payload, psh: bool, stream: seq<byte>)
    requires Rising(q, first, offs, lo, hi) && lo < off < hi && hi - lo <= 0x7FFF_FFFE
    requires Slices(q, offs, stream) && InStream(data, off, stream)
    ensures Slices(Insert(q, At(first, off), data, psh), InsertOffset(offs, off), stream)
  {
    if q.Cons? {
      CompareOffsets(first, offs.head, off);
      if offs.head < off {
        InsertRisingSlices(q.tail, first, offs.tail, offs.head, hi, off, data, psh, stream);
      }
    }
  }

  lemma InsertSlices(q: Queue, first: u32, offs: List<int>, pos: int, off: int, data: Payload, psh: bool,
                     stream: seq<byte>)
    requires Placed(q, first, offs, pos) && pos <= off < pos + AHEAD
    requires Slices(q, offs, stream) && InStream(data, off, stream)
    ensures Slices(Insert(q, At(first, off), data, psh), InsertOffset(offs, off), stream)
  {
    if q.Cons? {
      CompareOffsets(first, offs.head, off);
      if offs.head < off {
        InsertRisingSlices(q.tail, first, offs.tail, offs.head, pos + AHEAD, off, data, psh, stream);
      }
    }
  }

  lemma {:induction false} RisingSerial(g: Seg, o: int, q: Queue, first: u32, offs: List<int>, hi: int)
    requires g.seqNo == At(first, o) && Rising(q, first, offs, o, hi) && hi - o <= 0x7FFF_FFFE
    ensures SerialOrder(Cons(g, q))
    decreases q
  {
    if q.Cons? {
      CompareOffsets(first, o, offs.head);
      RisingSerial(q.head, offs.head, q.tail, first, offs.tail, hi);
    }
  }

  lemma PlacedSerial(q: Queue, first: u32, offs: List<int>, pos: int)
    requires Placed(q, first, offs, pos)
    ensures SerialOrder(q)
  {
    if q.Cons? {
      RisingSerial(q.head, offs.head, q.tail, first, offs.tail, pos + AHEAD);
    }
  }

  // ----- forwarding

  lemma {:induction false} RisingWiden(q: Queue, first: u32, offs: List<int>, lo: int, hi: int, hi': int)
    requires Rising(q, first, offs, lo, hi) && hi <= hi'
    ensures Rising(q, first, offs, lo, hi')
  {
    if q.Cons? {
      RisingWiden(q.tail, first, offs.tail, offs.head, hi, hi');
    }
  }

  /** The head of a placed queue that is ready is sent exactly up to pos. */
  lemma ReadyAtPos(q: Queue, first: u32, offs: List<int>, pos: int, room: int, k: nat)
    requires k < 0x1_0000 && Placed(q, first, offs, pos) && Ready(q, At(first, pos), room)
    ensures offs.head + q.head.sent == pos
    ensures Plus(q.head.seqNo, q.head.sent + k) == At(first, pos + k)
  {
    AtPlus(first, offs.head, q.head.sent);
    AtInjective(first, offs.head + q.head.sent, pos);
    AtPlus(first, offs.head, q.head.sent + k);
  }

  /** The positions of the segments a pass leaves queued. */
  ghost function Left(q: Queue, offs: List<int>, remoteSeq: u32, room: int, sends: seq<int>): List<int> {
    if !Ready(q, remoteSeq, room) || offs.Nil? then offs
    else
      var k := Counted(Next(sends), Unsent(q.head));
      if k < Unsent(q.head) then offs
      else Left(q.tail, offs.tail, Plus(q.head.seqNo, q.head.sent + k), room - k, Rest(sends))
  }

  /** Each segment the pass sends begins, or continues, exactly where the one before it ended. */
  ghost predicate Contiguous(q: Queue, offs: List<int>, pos: int, remoteSeq: u32, room: int, sends: seq<int>) {
    Ready(q, remoteSeq, room) ==>
      && offs.Cons? && offs.head + q.head.sent == pos
      && var k := Counted(Next(sends), Unsent(q.head));
         (k == Unsent(q.head) ==>
            Contiguous(q.tail, offs.tail, pos + k, Plus(q.head.seqNo, q.head.sent + k), room - k, Rest(sends)))
  }

  /** One turn of the loop that sends the rest of the head segment. */
  lemma ForwardTurn(q: Queue, offs: List<int>, remoteSeq: u32, room: int, sends: seq<int>)
    requires Ready(q, remoteSeq, room) && offs.Cons? && Counted(Next(sends), Unsent(q.head)) == Unsent(q.head)
    ensures var p := Forward(q, remoteSeq, room, sends);
            var remote := Plus(q.head.seqNo, |q.head.data|);
            var more := Forward(q.tail, remote, room - Unsent(q.head), Rest(sends));
            && p.queue == more.queue && p.remoteSeq == more.remoteSeq && p.any
            && p.accepted == q.head.data[q.head.sent..] + more.accepted
            && p.wire == (if Next(sends) < 0 then [] else q.head.data[q.head.sent..]) + more.wire
            && Left(q, offs, remoteSeq, room, sends) ==
               Left(q.tail, offs.tail, remote, room - Unsent(q.head), Rest(sends))
  {
    var g, k := q.head, Unsent(q.head);
    assert g.sent + k == |g.data| && g.data[g.sent..g.sent + k] == g.data[g.sent..];
    assert Plus(g.seqNo, g.sent + k) == Plus(g.seqNo, |g.data|);
  }

  lemma SentAll(q: Queue, first: u32, offs: List<int>, pos: int)
    requires Placed(q, first, offs, pos) && q.Cons? && offs.head + q.head.sent == pos
    ensures Placed(q.tail, first, offs.tail, pos + Unsent(q.head))
  {
    RisingWiden(q.tail, first, offs.tail, offs.head, pos + AHEAD, pos + Unsent(q.head) + AHEAD);
  }

  lemma SentPart(q: Queue, first: u32, offs: List<int>, pos: int, k: nat)
    requires Placed(q, first, offs, pos) && q.Cons? && offs.head + q.head.sent == pos && k <= Unsent(q.head)
    ensures Placed(Cons(q.head.(sent := q.head.sent + k), q.tail), first, offs, pos + k)
  {
    RisingWiden(q.tail, first, offs.tail, offs.head, pos + AHEAD, pos + k + AHEAD);
  }

  lemma {:induction false} PassContiguous(q: Queue, first: u32, offs: List<int>, pos: int,
                                          remoteSeq: u32, room: int, sends: seq<int>)
    requires Placed(q, first, offs, pos) && remoteSeq == At(first, pos)
    ensures Contiguous(q, offs, pos, remoteSeq, room, sends)
    decreases q
  {
    if Ready(q, remoteSeq, room) {
      var k := Counted(Next(sends), Unsent(q.head));
      ReadyAtPos(q, first, offs, pos, room, k);
      if k == Unsent(q.head) {
        SentAll(q, first, offs, pos);
        PassContiguous(q.tail, first, offs.tail, pos + k, Plus(q.head.seqNo, q.head.sent + k), room - k, Rest(sends));
      }
    }
  }

  /** A pass leaves a placed queue behind the bytes it hands on. */
  lemma {:induction false} ForwardPlaced(q: Queue, first: u32, offs: List<int>, pos: int,
                                         remoteSeq: u32, room: int, sends: seq<int>)
    returns (p: Pass, left: List<int>, end: int)
    requires Placed(q, first, offs, pos)
    requires Contiguous(q, offs, pos, remoteSeq, room, sends)
    ensures p == Forward(q, remoteSeq, room, sends) && left == Left(q, offs, remoteSeq, room, sends)
    ensures end == pos + |p.accepted| && Placed(p.queue, first, left, end)
    decreases q
  {
    p, left, end := Forward(q, remoteSeq, room, sends), Left(q, offs, remoteSeq, room, sends), pos;
    if Ready(q, remoteSeq, room) {
      var k := Counted(Next(sends), Unsent(q.head));
      if k == Unsent(q.head) {
        SentAll(q, first, offs, pos);
        var remote := Plus(q.head.seqNo, q.head.sent + k);
        var more, left', end' := ForwardPlaced(q.tail, first, offs.tail, pos + k, remote, room - k, Rest(sends));
        end := end';
        assert p.queue == more.queue && left == left' && |p.accepted| == k + |more.accepted|;
      } else {
        SentPart(q, first, offs, pos, k);
        end := pos + k;
      }
    }
  }

  /** remote_seq advances by exactly the bytes handed on. */
  lemma {:induction false} ForwardCounts(q: Queue, first: u32, pos: int, remoteSeq: u32, room: int, sends: seq<int>)
    requires remoteSeq == At(first, pos)
    ensures var p := Forward(q, remoteSeq, room, sends);
            p.remoteSeq == At(first, pos + |p.accepted|)
    decreases q
  {
    if Ready(q, remoteSeq, room) {
      var k := Counted(Next(sends), Unsent(q.head));
      var remote := Plus(q.head.seqNo, q.head.sent + k);
      AtPlus(first, pos, k);
      if k == Unsent(q.head) {
        ForwardCounts(q.tail, first, pos + k, remote, room - k, Rest(sends));
        assert pos + |Forward(q, remoteSeq, room, sends).accepted|
            == pos + k + |Forward(q.tail, remote, room - k, Rest(sends)).accepted|;
      }
    }
  }

  lemma SliceOfSlice(data: seq<byte>, off: int, i: nat, k: nat, stream: seq<byte>)
    requires IsSlice(data, off, stream) && i + k <= |data|
    ensures IsSlice(data[i..i + k], off + i, stream)
  {
    var whole, part := stream[off..off + |data|], stream[off + i..off + i + k];
    assert forall j :: 0 <= j < k ==> part[j] == whole[i + j];
  }

  lemma SliceConcat(a: seq<byte>, b: seq<byte>, off: int, stream: seq<byte>)
    requires IsSlice(a, off, stream) && IsSlice(b, off + |a|, stream)
    ensures IsSlice(a + b, off, stream)
  {
    assert stream[off..off + |a| + |b|] == stream[off..off + |a|] + stream[off + |a|..off + |a| + |b|];
  }

  lemma {:induction false} LeftSlices(q: Queue, offs: List<int>, pos: int,
                                      remoteSeq: u32, room: int, sends: seq<int>, stream: seq<byte>)
    requires Contiguous(q, offs, pos, remoteSeq, room, sends) && pos >= 0
    requires Slices(q, offs, stream)
    ensures Slices(Forward(q, remoteSeq, room, sends).queue, Left(q, offs, remoteSeq, room, sends), stream)
    decreases q
  {
    if Ready(q, remoteSeq, room) {
      var k := Counted(Next(sends), Unsent(q.head));
      if k == Unsent(q.head) {
        LeftSlices(q.tail, offs.tail, pos + k, Plus(q.head.seqNo, q.head.sent + k), room - k, Rest(sends), stream);
      }
    }
  }

  /** One pass over slices of a stream hands on the next bytes of that stream. */
  lemma {:induction false} ForwardSlices(q: Queue, offs: List<int>, pos: int,
                                         remoteSeq: u32, room: int, sends: seq<int>, stream: seq<byte>)
    requires Contiguous(q, offs, pos, remoteSeq, room, sends)
    requires Slices(q, offs, stream) && 0 <= pos <= |stream|
    ensures IsSlice(Forward(q, remoteSeq, room, sends).accepted, pos, stream)
    decreases q
  {
    if Ready(q, remoteSeq, room) {
      var k := Counted(Next(sends), Unsent(q.head));
      var remote := Plus(q.head.seqNo, q.head.sent + k);
      SliceOfSlice(q.head.data, offs.head, q.head.sent, k, stream);
      if k == Unsent(q.head) {
        ForwardSlices(q.tail, offs.tail, pos + k, remote, room - k, Rest(sends), stream);
        SliceConcat(q.head.data[q.head.sent..q.head.sent + k],
                    Forward(q.tail, remote, room - k, Rest(sends)).accepted, pos, stream);
      }
    }
  }

  /** Before the SYN is counted nothing matches remote_seq, so nothing is forwarded. */
  lemma ForwardBeforeSyn(q: Queue, first: u32, offs: List<int>, room: int, sends: seq<int>)
    requires Rising(q, first, offs, -1, AHEAD)
    ensures Forward(q, At(first, -1), room, sends) == Pass(q, At(first, -1), [], [], false)
  {
    if Ready(q, At(first, -1), room) {
      AtInjective(first, offs.head, -1);
    }
  }
}
