/** When get_qname ends: what its loop does depends on ptr and noff alone, and these take TURNS values. */
module DnsLoops {
  import opened Words
  import opened Lists
  import opened Dns
  import opened DnsNames

  /** ptr and noff as one number. */
  function Control(r: Reader): (c: nat)
    ensures c < TURNS
  {
    r.ptr * 0x100 + |r.text|
  }

  /** The same control does the same, whatever text and buffer are. */
  lemma SameTurn(data: seq<byte>, r: Reader, r': Reader)
    requires Control(r) == Control(r')
    ensures Turn(data, r).Go? <==> Turn(data, r').Go?
    ensures Turn(data, r).Go? ==> Control(Turn(data, r).next) == Control(Turn(data, r').next)
  {
    assert r.ptr == r'.ptr && |r.text| == |r'.text|;
  }

  /** One more turn at the end of a walk. */
  lemma {:induction false} WalkNext(data: seq<byte>, r: Reader, n: nat)
    ensures Walk(data, r, n + 1).Go? ==> Walk(data, r, n).Go?
    ensures Walk(data, r, n).Go? ==> Walk(data, r, n + 1) == Turn(data, Walk(data, r, n).next)
    decreases n
  {
    if n == 0 {
      assert Walk(data, r, 0) == Go(r);
      match Turn(data, r)
      case Stop(_) =>
      case Go(next) => assert Walk(data, next, 0) == Go(next);
    } else if Turn(data, r).Go? {
      WalkNext(data, Turn(data, r).next, n - 1);
    }
  }

  lemma {:induction false} WalkPrefix(data: seq<byte>, r: Reader, m: nat, n: nat)
    requires m <= n && Walk(data, r, n).Go?
    ensures Walk(data, r, m).Go?
    decreases n
  {
    if m < n {
      WalkNext(data, r, n - 1);
      WalkPrefix(data, r, m, n - 1);
    }
  }

  /** The loop is unfinished after n turns exactly if it can take one more. */
  lemma {:induction false} UnfinishedIff(data: seq<byte>, r: Reader, n: nat)
    ensures Follow(data, r, n).status == Unfinished <==> Walk(data, r, n + 1).Go?
    decreases n
  {
    match Turn(data, r)
    case Stop(status) =>
      assert status != Unfinished;
    case Go(next) =>
      if n == 0 {
        assert Walk(data, next, 0) == Go(next);
      } else {
        UnfinishedIff(data, next, n - 1);
      }
  }

  /** After i and after j turns ptr and noff are the same. */
  ghost predicate Repeats(data: seq<byte>, r: Reader, i: nat, j: nat) {
    && i < j && Walk(data, r, i).Go? && Walk(data, r, j).Go?
    && Control(Walk(data, r, i).next) == Control(Walk(data, r, j).next)
  }

  /** Then the loop never ends. */
  lemma {:induction false} RepeatsForEver(data: seq<byte>, r: Reader, i: nat, j: nat, n: nat)
    requires Repeats(data, r, i, j)
    ensures Walk(data, r, n).Go?
    ensures n >= j ==> Walk(data, r, n - (j - i)).Go?
                       && Control(Walk(data, r, n).next) == Control(Walk(data, r, n - (j - i)).next)
    decreases n
  {
    if n <= j {
      WalkPrefix(data, r, n, j);
    } else {
      var k := n - 1 - (j - i);
      RepeatsForEver(data, r, i, j, n - 1);
      RepeatsForEver(data, r, i, j, k + 1);
      WalkNext(data, r, n - 1);
      WalkNext(data, r, k);
      SameTurn(data, Walk(data, r, n - 1).next, Walk(data, r, k).next);
    }
  }

  /** Of more than bound numbers below bound two are the same. */
  lemma {:induction false} Pigeonhole(bound: nat, holes: seq<nat>) returns (i: nat, j: nat)
    requires |holes| > bound && forall k :: 0 <= k < |holes| ==> holes[k] < bound
    ensures i < j < |holes| && holes[i] == holes[j]
    decreases bound
  {
    var n := |holes| - 1;
    if k :| 0 <= k < n && holes[k] == holes[n] {
      return k, n;
    }
    var last, top := holes[n], bound - 1;
    var rest := seq(n, k requires 0 <= k < n => if holes[k] == top then last else holes[k]);
    i, j := Pigeonhole(bound - 1, rest);
  }

  ghost function Controls(data: seq<byte>, r: Reader, n: nat): (cs: seq<nat>)
    requires Walk(data, r, n).Go?
    ensures |cs| == n + 1
    ensures forall k :: 0 <= k <= n ==> Walk(data, r, k).Go? && cs[k] == Control(Walk(data, r, k).next)
    decreases n
  {
    if n == 0 then [Control(r)]
    else
      WalkNext(data, r, n - 1);
      Controls(data, r, n - 1) + [Control(Walk(data, r, n).next)]
  }

  /** A loop that has taken TURNS turns has repeated itself. */
  lemma LongWalkRepeats(data: seq<byte>, r: Reader) returns (i: nat, j: nat)
    requires Walk(data, r, TURNS).Go?
    ensures Repeats(data, r, i, j)
  {
    i, j := Pigeonhole(TURNS, Controls(data, r, TURNS));
  }

  /** TURNS turns decide: if the loop has not ended by then it never does. */
  lemma EndsIff(data: seq<byte>, r: Reader)
    ensures (exists n: nat :: Follow(data, r, n).status != Unfinished) <==> Follow(data, r, TURNS).status != Unfinished
  {
    if Follow(data, r, TURNS).status == Unfinished {
      UnfinishedIff(data, r, TURNS);
      WalkPrefix(data, r, TURNS, TURNS + 1);
      var i, j := LongWalkRepeats(data, r);
      forall n: nat ensures Follow(data, r, n).status == Unfinished {
        UnfinishedIff(data, r, n);
        RepeatsForEver(data, r, i, j, n + 1);
      }
    }
  }

  /** It runs for ever exactly if ptr and noff come back to what they were. */
  lemma RunsForEverIff(data: seq<byte>, r: Reader)
    ensures Follow(data, r, TURNS).status == Unfinished <==> exists i, j :: Repeats(data, r, i, j)
  {
    UnfinishedIff(data, r, TURNS);
    if Follow(data, r, TURNS).status == Unfinished {
      WalkPrefix(data, r, TURNS, TURNS + 1);
      var i, j := LongWalkRepeats(data, r);
    } else if i, j :| Repeats(data, r, i, j) {
      RepeatsForEver(data, r, i, j, TURNS + 1);
    }
  }

  // ----- loops

  /** A pointer to itself. */
  lemma SelfPointerLoops(data: seq<byte>, r: Reader)
    requires r.ptr < 0x4000 && HasAt(data, r.ptr, Pointer(r.ptr))
    ensures Follow(data, r, TURNS).status == Unfinished
  {
    PointerTaken(data, r, r.ptr);
    var next := Turn(data, r).next;
    assert Walk(data, next, 0) == Go(next);
    CameBack(data, r, 1, next);
  }

  /** Labels that fill the buffer, 256 bytes with their dots, and a pointer back to them: noff wraps to 0, and the
      loop does not notice that the text is too long. */
  lemma FullCycleLoops(data: seq<byte>, r: Reader, labels: Labels, last: Label)
    requires |data| <= 0xFFFF && r.text == [] && r.ptr < 0x4000
    requires |Wire(labels)| + 1 + |last| == 0x100
    requires HasAt(data, r.ptr, Wire(labels) + ([|last|] + last + Pointer(r.ptr)))
    ensures Follow(data, r, TURNS).status == Unfinished
  {
    var mid := CycleStart(data, r, labels, [|last|] + last + Pointer(r.ptr));
    var end := CycleEnd(data, mid, last, r.ptr);
    CameBackVia(data, r, Length(labels), mid, 2, end);
  }

  lemma CameBackVia(data: seq<byte>, r: Reader, m: nat, mid: Reader, n: nat, end: Reader)
    requires n > 0 && Walk(data, r, m) == Go(mid) && Walk(data, mid, n) == Go(end)
    requires end.ptr == r.ptr && |end.text| == |r.text|
    ensures Follow(data, r, TURNS).status == Unfinished
  {
    WalksOn(data, r, m, mid, n, end);
    CameBack(data, r, m + n, end);
  }

  /** From the first label to the last. */
  lemma CycleStart(data: seq<byte>, r: Reader, labels: Labels, rest: seq<byte>) returns (mid: Reader)
    requires |data| <= 0xFFFF && r.text == [] && |Wire(labels)| <= DNS_QNAME_MAX
    requires HasAt(data, r.ptr, Wire(labels) + rest)
    ensures Walk(data, r, Length(labels)) == Go(mid)
    ensures mid.ptr == r.ptr + |Wire(labels)| && |mid.text| == |Wire(labels)| && HasAt(data, mid.ptr, rest)
  {
    Parts(data, r.ptr, Wire(labels), rest);
    LabelsTaken(data, r, labels);
    mid := Behind(r, labels);
  }

  lemma CameBack(data: seq<byte>, r: Reader, n: nat, end: Reader)
    requires n > 0 && Walk(data, r, n) == Go(end) && Control(end) == Control(r)
    ensures Follow(data, r, TURNS).status == Unfinished
  {
    assert Walk(data, r, 0) == Go(r);
    assert Repeats(data, r, 0, n);
    RunsForEverIff(data, r);
  }

  /** From the last label over the pointer. */
  lemma CycleEnd(data: seq<byte>, r: Reader, last: Label, target: nat) returns (end: Reader)
    requires |data| <= 0xFFFF && target < 0x4000 && |r.text| + 1 + |last| == 0x100
    requires HasAt(data, r.ptr, [|last|] + last + Pointer(target))
    ensures Walk(data, r, 2) == Go(end) && end.ptr == target && end.text == []
  {
    Parts(data, r.ptr, [|last|] + last, Pointer(target));
    LastTaken(data, r, last);
    var wrapped := TakeLabel(data, r, |last|);
    PointerTaken(data, wrapped, target);
    end := Turn(data, wrapped).next;
    assert Walk(data, end, 0) == Go(end);
    assert Walk(data, wrapped, 1) == Go(end);
  }

  lemma LastTaken(data: seq<byte>, r: Reader, last: Label)
    requires |data| <= 0xFFFF && HasAt(data, r.ptr, [|last|] + last) && |r.text| + 1 + |last| == 0x100
    ensures Fits(data, r, |last|) && Turn(data, r) == Go(TakeLabel(data, r, |last|))
    ensures TakeLabel(data, r, |last|).text == [] && TakeLabel(data, r, |last|).ptr == Short(r.ptr + |last| + 1)
  {
    Parts(data, r.ptr, [|last|], last);
    assert data[r.ptr + 0] == [|last|][0];
  }
}
