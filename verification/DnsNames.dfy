/** Domain names as RFC 1035 writes them (sections 3.1 and 4.1.4), and the proof that get_qname reads them. */
module DnsNames {
  import opened Words
  import opened Bytes
  import opened Lists
  import opened Dns

  /** A label without its length. */
  type Label = l: seq<byte> | 1 <= |l| <= 63 witness [DOT]

  type Labels = List<Label>

  /** Not the root, and within the 255 bytes of a name. */
  predicate IsName(labels: Labels) {
    labels.Cons? && |Wire(labels)| + 1 <= 255
  }

  /** Each label behind its length. */
  function Wire(labels: Labels): seq<byte> {
    if labels.Nil? then [] else [|labels.head|] + labels.head + Wire(labels.tail)
  }

  /** The text of a name: its labels joined by dots. */
  function Joined(labels: Labels): (text: seq<byte>)
    ensures labels.Cons? ==> |text| + 1 == |Wire(labels)|
  {
    if labels.Nil? then []
    else if labels.tail.Nil? then labels.head
    else labels.head + [DOT] + Joined(labels.tail)
  }

  function Dotted(labels: Labels): (dotted: seq<byte>)
    ensures |dotted| == |Wire(labels)|
  {
    if labels.Nil? then [] else labels.head + [DOT] + Dotted(labels.tail)
  }

  predicate HasAt(data: seq<byte>, at: nat, bytes: seq<byte>) {
    at + |bytes| <= |data| && forall i {:trigger bytes[i]} :: 0 <= i < |bytes| ==> data[at + i] == bytes[i]
  }

  function Root(): seq<byte> {
    [0]
  }

  /** A compression pointer to offset target. */
  function Pointer(target: nat): seq<byte>
    requires target < 0x4000
  {
    [0xC0 + target / 0x100, target % 0x100]
  }

  // ----- the text

  lemma Regroup(a: seq<byte>, b: seq<byte>, c: seq<byte>)
    ensures a + b + c == a + (b + c)
  {
  }

  lemma {:induction false} DottedIsJoined(labels: Labels)
    requires labels.Cons?
    ensures Dotted(labels) == Joined(labels) + [DOT]
  {
    if labels.tail.Cons? {
      DottedIsJoined(labels.tail);
      Regroup(labels.head + [DOT], Joined(labels.tail), [DOT]);
    }
  }

  lemma {:induction false} Appended(a: Labels, b: Labels)
    ensures Dotted(Append(a, b)) == Dotted(a) + Dotted(b) && Wire(Append(a, b)) == Wire(a) + Wire(b)
  {
    if a.Cons? {
      Appended(a.tail, b);
      Regroup(a.head + [DOT], Dotted(a.tail), Dotted(b));
      Regroup([|a.head|] + a.head, Wire(a.tail), Wire(b));
    }
  }

  lemma Parts(data: seq<byte>, at: nat, a: seq<byte>, b: seq<byte>)
    requires HasAt(data, at, a + b)
    ensures HasAt(data, at, a) && HasAt(data, at + |a|, b)
  {
    assert forall i {:trigger a[i]} :: 0 <= i < |a| ==> data[at + i] == (a + b)[i];
    assert forall i {:trigger b[i]} :: 0 <= i < |b| ==> data[at + |a| + i] == (a + b)[|a| + i];
  }

  // ----- the loop

  lemma {:induction false} WalkFollowed(data: seq<byte>, r: Reader, n: nat, end: Reader, status: Status, steps: nat)
    requires Walk(data, r, n) == Go(end) && Turn(data, end) == Stop(status) && steps >= n
    ensures Follow(data, r, steps) == Result(end, status)
    decreases n
  {
    if n > 0 {
      WalkFollowed(data, Turn(data, r).next, n - 1, end, status, steps - 1);
    }
  }

  lemma {:induction false} WalksOn(data: seq<byte>, r: Reader, m: nat, mid: Reader, n: nat, end: Reader)
    requires Walk(data, r, m) == Go(mid) && Walk(data, mid, n) == Go(end)
    ensures Walk(data, r, m + n) == Go(end)
    decreases m
  {
    if m > 0 {
      WalksOn(data, Turn(data, r).next, m - 1, mid, n, end);
    }
  }

  /** The reader behind some labels. */
  function Behind(r: Reader, labels: Labels): Reader
    requires |r.text| + |Wire(labels)| <= DNS_QNAME_MAX && r.ptr + |Wire(labels)| <= 0xFFFF
  {
    r.(ptr := r.ptr + |Wire(labels)|, text := r.text + Dotted(labels))
  }

  function BehindLabel(r: Reader, text: Label): Reader
    requires |r.text| + |text| + 1 <= DNS_QNAME_MAX && r.ptr + |text| + 1 <= 0xFFFF
  {
    r.(ptr := r.ptr + |text| + 1, text := r.text + (text + [DOT]))
  }

  lemma LabelTaken(data: seq<byte>, r: Reader, text: Label)
    requires |data| <= 0xFFFF && HasAt(data, r.ptr, [|text|] + text) && |r.text| + |text| + 1 <= DNS_QNAME_MAX
    ensures Turn(data, r) == Go(BehindLabel(r, text))
  {
    Parts(data, r.ptr, [|text|], text);
    assert data[r.ptr + 0] == [|text|][0];
    assert data[r.ptr + 1..r.ptr + 1 + |text|] == text;
  }

  lemma FirstBehind(data: seq<byte>, r: Reader, labels: Labels)
    requires labels.Cons? && |data| <= 0xFFFF
    requires HasAt(data, r.ptr, Wire(labels)) && |r.text| + |Wire(labels)| <= DNS_QNAME_MAX
    ensures var next := BehindLabel(r, labels.head);
            && HasAt(data, r.ptr, [|labels.head|] + labels.head) && HasAt(data, next.ptr, Wire(labels.tail))
            && |next.text| + |Wire(labels.tail)| <= DNS_QNAME_MAX
            && Behind(next, labels.tail) == Behind(r, labels)
  {
    Parts(data, r.ptr, [|labels.head|] + labels.head, Wire(labels.tail));
    Regroup(r.text, labels.head + [DOT], Dotted(labels.tail));
  }

  lemma {:induction false} LabelsTaken(data: seq<byte>, r: Reader, labels: Labels)
    requires |data| <= 0xFFFF && HasAt(data, r.ptr, Wire(labels)) && |r.text| + |Wire(labels)| <= DNS_QNAME_MAX
    ensures Walk(data, r, Length(labels)) == Go(Behind(r, labels))
    decreases labels
  {
    if labels.Nil? {
      assert Behind(r, labels) == r;
    } else {
      FirstBehind(data, r, labels);
      LabelTaken(data, r, labels.head);
      LabelsTaken(data, BehindLabel(r, labels.head), labels.tail);
    }
  }

  /** What a reader of a whole name returns. */
  function Answer(off: u16, labels: Labels, was: Buffer): Outcome
    requires IsName(labels)
  {
    Outcome(Past(off), Joined(labels) + [0] + was[|Joined(labels)| + 1..])
  }

  /** At the root the last dot becomes the terminator. */
  lemma RootReached(data: seq<byte>, r: Reader, labels: Labels, was: Buffer)
    requires IsName(labels) && HasAt(data, r.ptr, Root()) && |data| <= 0xFFFF
    requires r.text == Dotted(labels) && r.base == was[0 := 0]
    ensures var past := if r.jumped then r.off else r.ptr + 1;
            Turn(data, r) == Stop(Past(past)) && Result(r, Past(past)) == Answer(past, labels, was)
  {
    DottedIsJoined(labels);
    assert data[r.ptr + 0] == Root()[0];
    var n := |Joined(labels)|;
    assert Overlay(r.base, r.text)[n := 0] == Joined(labels) + [0] + was[n + 1..];
  }

  lemma Completed(data: seq<byte>, off: u16, n: nat, end: Reader, labels: Labels, was: Buffer, past: u16, steps: nat)
    requires Walk(data, Start(off, was), n) == Go(end) && steps >= n
    requires IsName(labels) && HasAt(data, end.ptr, Root()) && |data| <= 0xFFFF
    requires end.text == Dotted(labels) && end.base == was[0 := 0]
    requires past == if end.jumped then end.off else end.ptr + 1
    ensures Follow(data, Start(off, was), steps) == Answer(past, labels, was)
  {
    RootReached(data, end, labels, was);
    WalkFollowed(data, Start(off, was), n, end, Past(past), steps);
  }

  lemma CompletedVia(data: seq<byte>, off: u16, m: nat, mid: Reader, n: nat, end: Reader,
                     labels: Labels, was: Buffer, past: u16, steps: nat)
    requires Walk(data, Start(off, was), m) == Go(mid) && Walk(data, mid, n) == Go(end) && steps >= m + n
    requires IsName(labels) && HasAt(data, end.ptr, Root()) && |data| <= 0xFFFF
    requires end.text == Dotted(labels) && end.base == was[0 := 0]
    requires past == if end.jumped then end.off else end.ptr + 1
    ensures Follow(data, Start(off, was), steps) == Answer(past, labels, was)
  {
    WalksOn(data, Start(off, was), m, mid, n, end);
    Completed(data, off, m + n, end, labels, was, past, steps);
  }

  // ----- names

  /** From the start of a name over its labels. */
  lemma NameWalk(data: seq<byte>, off: u16, labels: Labels, next: seq<byte>, was: Buffer) returns (end: Reader)
    requires |data| <= 0xFFFF && |Wire(labels)| <= DNS_QNAME_MAX && HasAt(data, off, Wire(labels) + next)
    ensures Walk(data, Start(off, was), Length(labels)) == Go(end)
    ensures end.ptr == off + |Wire(labels)| && HasAt(data, end.ptr, next) && !end.jumped && end.off == off
    ensures end.text == Dotted(labels) && end.base == was[0 := 0]
  {
    Parts(data, off, Wire(labels), next);
    end := Behind(Start(off, was), labels);
    LabelsTaken(data, Start(off, was), labels);
  }

  /** A name written out is read whole, and the offset returned is the one behind its root. */
  lemma NameRead(data: seq<byte>, off: u16, labels: Labels, was: Buffer, steps: nat)
    requires |data| <= 0xFFFF && steps >= Length(labels) && IsName(labels) && HasAt(data, off, Wire(labels) + Root())
    ensures Follow(data, Start(off, was), steps) == Answer(off + |Wire(labels)| + 1, labels, was)
  {
    var end := NameWalk(data, off, labels, Root(), was);
    Completed(data, off, Length(labels), end, labels, was, off + |Wire(labels)| + 1, steps);
  }

  lemma PointerTaken(data: seq<byte>, r: Reader, target: nat)
    requires target < 0x4000 && HasAt(data, r.ptr, Pointer(target))
    ensures Turn(data, r).Go? && Jump(data, r) == Turn(data, r).next && Turn(data, r).next.ptr == target
  {
    assert data[r.ptr + 0] == Pointer(target)[0] && data[r.ptr + 1] == Pointer(target)[1];
  }

  /** From a pointer over the labels it points to. */
  lemma PointerWalk(data: seq<byte>, r: Reader, target: nat, labels: Labels) returns (end: Reader)
    requires |data| <= 0xFFFF && target < 0x4000 && !r.jumped && r.off + 2 <= 0xFFFF
    requires HasAt(data, r.ptr, Pointer(target)) && HasAt(data, target, Wire(labels) + Root())
    requires |r.text| + |Wire(labels)| <= DNS_QNAME_MAX
    ensures Walk(data, r, 1 + Length(labels)) == Go(end)
    ensures end.jumped && end.off == r.off + 2 && HasAt(data, end.ptr, Root())
    ensures end.text == r.text + Dotted(labels) && end.base == r.base
  {
    Parts(data, target, Wire(labels), Root());
    PointerTaken(data, r, target);
    LabelsTaken(data, Jump(data, r), labels);
    end := Behind(Jump(data, r), labels);
  }

  /** From the start of a name over its own labels, its pointer, and the labels it points to. */
  lemma CompressedWalk(data: seq<byte>, off: u16, front: Labels, target: nat, back: Labels, labels: Labels, was: Buffer)
    returns (at: Reader, end: Reader)
    requires |data| <= 0xFFFF && target < 0x4000 && labels == Append(front, back) && IsName(labels)
    requires HasAt(data, off, Wire(front) + Pointer(target)) && HasAt(data, target, Wire(back) + Root())
    ensures Walk(data, Start(off, was), Length(front)) == Go(at) && Walk(data, at, 1 + Length(back)) == Go(end)
    ensures off + 2 <= 0xFFFF && end.jumped && end.off == off + 2 && HasAt(data, end.ptr, Root())
    ensures end.text == Dotted(labels) && end.base == was[0 := 0]
  {
    Appended(front, back);
    at := NameWalk(data, off, front, Pointer(target), was);
    end := PointerWalk(data, at, target, back);
  }

  /** A name that ends in a pointer to another name is read as the labels of both, but the offset returned is
      the one behind a pointer at its start. */
  lemma CompressedRead(data: seq<byte>, off: u16, front: Labels, target: nat, back: Labels, labels: Labels,
                       was: Buffer, steps: nat)
    requires |data| <= 0xFFFF && target < 0x4000 && labels == Append(front, back) && IsName(labels)
    requires steps >= Length(front) + (1 + Length(back))
    requires HasAt(data, off, Wire(front) + Pointer(target)) && HasAt(data, target, Wire(back) + Root())
    ensures off + 2 <= 0xFFFF && Follow(data, Start(off, was), steps) == Answer(off + 2, labels, was)
  {
    var at, end := CompressedWalk(data, off, front, target, back, labels, was);
    CompletedVia(data, off, Length(front), at, 1 + Length(back), end, labels, was, off + 2, steps);
  }

  /** So the offset is right exactly for a name that is only a pointer. */
  lemma OffsetRightIff(data: seq<byte>, off: u16, front: Labels, target: nat, back: Labels, was: Buffer, steps: nat)
    requires |data| <= 0xFFFF && steps >= Length(front) + 1 + Length(back) && target < 0x4000 &&
             IsName(Append(front, back))
    requires HasAt(data, off, Wire(front) + Pointer(target)) && HasAt(data, target, Wire(back) + Root())
    ensures Follow(data, Start(off, was), steps).status == Past(off + |Wire(front) + Pointer(target)|) <==> front.Nil?
  {
    CompressedRead(data, off, front, target, back, Append(front, back), was, steps);
  }

  /** What the caller finds in the buffer is the text of the name. */
  lemma TextOfAnswer(off: u16, labels: Labels, was: Buffer)
    requires IsName(labels) && 0 !in Joined(labels)
    ensures UpToNul(Answer(off, labels, was).qname) == Joined(labels)
  {
    TextReadBack(Joined(labels), was[|Joined(labels)| + 1..]);
  }
}
