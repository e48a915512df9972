/** The Internet checksum: calc_checksum of util.c, which adds the 16-bit words of a buffer in the byte order
    of the (little-endian) host, against the one's complement sum of RFC 1071 in network byte order. */
module Checksums {
  import opened Words
  import opened Bytes

  const ONES: u16 := 0xFFFF

  /** ~x of a uint16_t. */
  function Complement(x: u16): u16 {
    ONES - x
  }

  /** One's complement addition: the carry out of bit 15 is added back at bit 0. */
  function OnesAdd(a: u16, b: u16): u16 {
    if a + b > ONES then a + b - ONES else a + b
  }

  /** The sum of RFC 1071 over words in host order; an odd last byte is a word with a zero high byte. */
  function Checksum(start: u16, b: seq<byte>): u16
    decreases |b|
  {
    if |b| == 0 then start
    else if |b| == 1 then OnesAdd(start, b[0])
    else Checksum(OnesAdd(start, Word(b[0], b[1])), b[2..])
  }

  /** The same sum as a receiver takes it, over words in network order. */
  function NetworkSum(start: u16, b: seq<byte>): u16
    decreases |b|
  {
    if |b| == 0 then start
    else if |b| == 1 then OnesAdd(start, Word(0, b[0]))
    else NetworkSum(OnesAdd(start, Word(b[1], b[0])), b[2..])
  }

  /** A buffer with its checksum in place is accepted when its sum is all ones. */
  predicate Verifies(b: seq<byte>) {
    NetworkSum(0, b) == ONES
  }

  // ----- the sum modulo 65535

  /** The plain integer sum of the words. */
  function WordSum(b: seq<byte>): nat {
    if |b| == 0 then 0
    else if |b| == 1 then b[0]
    else Word(b[0], b[1]) + WordSum(b[2..])
  }

  /** The word that is 0 for 0 alone, and otherwise congruent to n modulo 65535. */
  function Residue(n: nat): u16 {
    if n == 0 then 0 else 1 + (n - 1) % 0xFFFF
  }

  lemma ResidueUnique(n: nat, r: u16, k: nat)
    requires n == r + 0xFFFF * k
    requires n == 0 <==> r == 0
    ensures Residue(n) == r
  {
  }

  /** Casting out 65535s from a part of a sum does not change the result. */
  lemma ResidueAdds(m: nat, n: nat)
    ensures Residue(Residue(m) + n) == Residue(m + n)
  {
    if m > 0 {
      var k, r := (m - 1) / 0xFFFF, Residue(m + n);
      assert m == Residue(m) + 0xFFFF * k;
      var j := (Residue(m) + n - 1) / 0xFFFF;
      ResidueUnique(m + n, Residue(Residue(m) + n), j + k);
    }
  }

  lemma OnesAddIsResidue(a: u16, b: u16)
    ensures OnesAdd(a, b) == Residue(a + b)
  {
    ResidueUnique(a + b, OnesAdd(a, b), if a + b > ONES then 1 else 0);
  }

  lemma {:induction false} ChecksumIsResidue(start: u16, b: seq<byte>)
    ensures Checksum(start, b) == Residue(start + WordSum(b))
    decreases |b|
  {
    if |b| == 0 {
      ResidueUnique(start, start, 0);
    } else if |b| == 1 {
      OnesAddIsResidue(start, b[0]);
    } else {
      var w := Word(b[0], b[1]);
      ChecksumIsResidue(OnesAdd(start, w), b[2..]);
      OnesAddIsResidue(start, w);
      ResidueAdds(start + w, WordSum(b[2..]));
    }
  }

  /** The checksum is congruent to the sum of the words, and 0 only if that sum is 0. */
  lemma {:induction false} ChecksumCongruent(b: seq<byte>)
    ensures Checksum(0, b) % 0xFFFF == WordSum(b) % 0xFFFF
    ensures Checksum(0, b) == 0 <==> WordSum(b) == 0
  {
    ChecksumIsResidue(0, b);
    ResidueCongruent(WordSum(b));
  }

  lemma ResidueCongruent(n: nat)
    ensures Residue(n) % 0xFFFF == n % 0xFFFF && (Residue(n) == 0 <==> n == 0)
  {
    if n > 0 {
      var q, r := (n - 1) / 0xFFFF, (n - 1) % 0xFFFF;
      assert n == 0xFFFF * q + r + 1;
    }
  }

  // ----- the program

  /** Room for every buffer whose words cannot overflow a uint32_t. */
  const CAPACITY := 0x1_FFFC

  lemma {:induction false} WordSumBounded(b: seq<byte>)
    ensures WordSum(b) <= 0xFFFF * ((|b| + 1) / 2)
  {
    if |b| > 1 {
      WordSumBounded(b[2..]);
    }
  }

  method CalcChecksum(start: u16, buffer: seq<byte>) returns (r: u16)
    ensures r == Residue(W(start + WordSum(buffer)))
    ensures |buffer| <= CAPACITY ==> r == Checksum(start, buffer)
  {
    var sum: u32 := start;
    var buf, len := 0, |buffer|;
    while len > 1
      invariant 0 <= len && buf + len == |buffer|
      invariant W(sum + WordSum(buffer[buf..])) == W(start + WordSum(buffer))
    {
      WordTaken(sum, buffer[buf..]);
      sum := W(sum + Word(buffer[buf], buffer[buf + 1]));
      buf, len := buf + 2, len - 2;
    }
    if len > 0 {
      sum := W(sum + buffer[buf]);
    }
    ghost var total := W(start + WordSum(buffer));
    while sum / 0x1_0000 != 0
      invariant Residue(sum) == Residue(total)
      decreases sum
    {
      ResidueFolds(sum);
      sum := sum % 0x1_0000 + sum / 0x1_0000;
    }
    ResidueUnique(sum, sum, 0);
    r := sum;
    if |buffer| <= CAPACITY {
      NoOverflow(start, buffer);
    }
  }

  lemma WordTaken(sum: u32, b: seq<byte>)
    requires |b| > 1
    ensures W(W(sum + Word(b[0], b[1])) + WordSum(b[2..])) == W(sum + WordSum(b))
  {
    WrapAbsorbs(sum + Word(b[0], b[1]), WordSum(b[2..]));
  }

  lemma {:induction false} NoOverflow(start: u16, b: seq<byte>)
    requires |b| <= CAPACITY
    ensures Residue(W(start + WordSum(b))) == Checksum(start, b)
  {
    WordSumBounded(b);
    ChecksumIsResidue(start, b);
  }

  lemma ResidueFolds(sum: u32)
    ensures Residue(sum % 0x1_0000 + sum / 0x1_0000) == Residue(sum)
  {
    var high, folded := sum / 0x1_0000, sum % 0x1_0000 + sum / 0x1_0000;
    if folded > 0 {
      assert folded == Residue(folded) + 0xFFFF * ((folded - 1) / 0xFFFF);
      ResidueUnique(sum, Residue(folded), (folded - 1) / 0xFFFF + high);
    }
  }

  // ----- composition

  lemma {:induction false} WordSumAppend(a: seq<byte>, b: seq<byte>)
    requires |a| % 2 == 0
    ensures WordSum(a + b) == WordSum(a) + WordSum(b)
  {
    if |a| == 0 {
      assert a + b == b;
    } else {
      WordSumAppend(a[2..], b);
      assert (a + b)[2..] == a[2..] + b;
    }
  }

  /** Chaining over pieces of even length is one pass over their concatenation. */
  lemma {:induction false} Chaining(start: u16, a: seq<byte>, b: seq<byte>)
    requires |a| % 2 == 0
    ensures Checksum(Checksum(start, a), b) == Checksum(start, a + b)
  {
    ChainedSum(start, a, b);
    ChecksumIsResidue(start, a + b);
    WordSumAppend(a, b);
  }

  /** The sums of the bytes at even and at odd places. */
  function Evens(b: seq<byte>): nat {
    if |b| == 0 then 0 else b[0] + Odds(b[1..])
  }

  function Odds(b: seq<byte>): nat {
    if |b| == 0 then 0 else Evens(b[1..])
  }

  lemma {:induction false} WordSumOfPlaces(b: seq<byte>)
    ensures WordSum(b) == Evens(b) + 0x100 * Odds(b)
  {
    if |b| > 1 {
      assert b[1..][1..] == b[2..];
      WordSumOfPlaces(b[2..]);
    }
  }

  /** Behind an odd piece the bytes of the next change places. */
  lemma {:induction false} PlacesAfterOdd(a: seq<byte>, b: seq<byte>)
    ensures |a| % 2 == 0 ==> Evens(a + b) == Evens(a) + Evens(b) && Odds(a + b) == Odds(a) + Odds(b)
    ensures |a| % 2 == 1 ==> Evens(a + b) == Evens(a) + Odds(b) && Odds(a + b) == Odds(a) + Evens(b)
  {
    if |a| == 0 {
      assert a + b == b;
    } else {
      assert (a + b)[1..] == a[1..] + b;
      PlacesAfterOdd(a[1..], b);
    }
  }

  /** Chaining behind a piece of odd length works exactly if the sum of the next piece is a multiple of 257, which
      is to say that its checksum has two equal bytes. */
  lemma {:induction false} OddChainingIff(start: u16, a: seq<byte>, b: seq<byte>)
    requires |a| % 2 == 1
    ensures Checksum(Checksum(start, a), b) == Checksum(start, a + b) <==> WordSum(b) % 0x101 == 0
  {
    ChainedSum(start, a, b);
    ChecksumIsResidue(start, a + b);
    SumAfterOdd(a, b);
    SwappedSumIff(start + WordSum(a), Evens(b), Odds(b));
  }

  lemma {:induction false} ChainedSum(start: u16, a: seq<byte>, b: seq<byte>)
    ensures Checksum(Checksum(start, a), b) == Residue(start + WordSum(a) + WordSum(b))
  {
    ChecksumIsResidue(start, a);
    ChecksumIsResidue(Checksum(start, a), b);
    ResidueAdds(start + WordSum(a), WordSum(b));
  }

  lemma {:induction false} SumAfterOdd(a: seq<byte>, b: seq<byte>)
    requires |a| % 2 == 1
    ensures WordSum(a + b) == WordSum(a) + (0x100 * Evens(b) + Odds(b)) && WordSum(b) == Evens(b) + 0x100 * Odds(b)
  {
    WordSumOfPlaces(a);
    WordSumOfPlaces(b);
    WordSumOfPlaces(a + b);
    PlacesAfterOdd(a, b);
  }

  lemma SwappedSumIff(n: nat, even: nat, odd: nat)
    ensures Residue(n + (even + 0x100 * odd)) == Residue(n + (0x100 * even + odd)) <==>
            (even + 0x100 * odd) % 0x101 == 0
  {
    var x, y := n + (even + 0x100 * odd), n + (0x100 * even + odd);
    ResidueCongruent(x);
    ResidueCongruent(y);
    var d := even - odd;
    assert y - x == 0xFF * d && even + 0x100 * odd == d + 0x101 * odd;
    if d % 0x101 == 0 {
      assert y == x + 0xFFFF * (d / 0x101);
      SameResidue(x, y, d / 0x101);
    }
  }

  lemma SameResidue(x: nat, y: nat, q: int)
    requires y == x + 0xFFFF * q && (x == 0 <==> y == 0)
    ensures Residue(x) == Residue(y)
  {
    if x > 0 {
      var k := (x - 1) / 0xFFFF;
      assert x == Residue(x) + 0xFFFF * k;
      assert y == Residue(x) + 0xFFFF * (k + q);
    }
  }

  function Swap(x: u16): u16 {
    x % 0x100 * 0x100 + x / 0x100
  }

  lemma SwapWord(low: int, high: int)
    requires 0 <= low < 0x100 && 0 <= high < 0x100
    ensures Swap(Word(low, high)) == Word(high, low)
  {
  }

  lemma SwapAdds(a: u16, b: u16)
    ensures OnesAdd(Swap(a), Swap(b)) == Swap(OnesAdd(a, b))
  {
    var a0, a1, b0, b1 := a % 0x100, a / 0x100, b % 0x100, b / 0x100;
    SwapWord(a0, a1);
    SwapWord(b0, b1);
    var low, high := a0 + b0, a1 + b1;
    assert a + b == Word(low, high) && Swap(a) + Swap(b) == Word(high, low);
    if low <= 0xFF {
      if high <= 0xFF {
        SwapWord(low, high);
      } else if low == 0xFF {
        SwapWord(0, high - 0xFF);
      } else {
        SwapWord(low + 1, high - 0x100);
      }
    } else if high < 0xFF {
      SwapWord(low - 0x100, high + 1);
    } else {
      SwapWord(low - 0xFF, high - 0xFF);
    }
  }

  /** Byte order independence (section 2 (B) of RFC 1071): the sum of the swapped words is the swapped sum. */
  lemma {:induction false} ByteOrder(start: u16, b: seq<byte>)
    ensures NetworkSum(Swap(start), b) == Swap(Checksum(start, b))
    decreases |b|
  {
    if |b| == 1 {
      SwapTaken(start, b[0], 0);
    } else if |b| > 1 {
      SwapTaken(start, b[0], b[1]);
      ByteOrder(OnesAdd(start, Word(b[0], b[1])), b[2..]);
    }
  }

  lemma SwapTaken(start: u16, low: byte, high: byte)
    ensures OnesAdd(Swap(start), Word(high, low)) == Swap(OnesAdd(start, Word(low, high)))
  {
    SwapWord(low, high);
    SwapAdds(start, Word(low, high));
  }

  lemma {:induction false} VerifiesInHostOrder(b: seq<byte>)
    ensures Verifies(b) <==> Checksum(0, b) == ONES
  {
    ByteOrder(0, b);
    var c := Checksum(0, b);
    assert Swap(c) == ONES ==> c % 0x100 == 0xFF && c / 0x100 == 0xFF;
  }

  // ----- the finished packet

  /** Storing the complement of the sum, taken with a zero checksum field, makes a buffer verify. */
  lemma {:induction false} ComplementVerifies(pre: seq<byte>, post: seq<byte>)
    requires |pre| % 2 == 0
    ensures Verifies(pre + Le16(Complement(Checksum(0, pre + Le16(0) + post))) + post)
  {
    var blank := pre + Le16(0) + post;
    var check := Complement(Checksum(0, blank));
    var full := pre + Le16(check) + post;
    FieldSum(pre, 0, post);
    FieldSum(pre, check, post);
    ChecksumIsResidue(0, blank);
    ChecksumIsResidue(0, full);
    ComplementSum(WordSum(blank));
    VerifiesInHostOrder(full);
  }

  lemma ComplementSum(n: nat)
    ensures Residue(n + Complement(Residue(n))) == ONES
  {
    if n > 0 {
      var k := (n - 1) / 0xFFFF;
      assert n == Residue(n) + 0xFFFF * k;
      ResidueUnique(n + Complement(Residue(n)), ONES, k);
    }
  }

  lemma {:induction false} FieldSum(pre: seq<byte>, field: u16, post: seq<byte>)
    requires |pre| % 2 == 0
    ensures WordSum(pre + Le16(field) + post) == WordSum(pre) + field + WordSum(post)
  {
    WordSumAppend(pre + Le16(field), post);
    WordSumAppend(pre, Le16(field));
    assert WordSum(Le16(field)[2..]) == 0;
  }

  /** What the check detects: a changed word passes only as the other representation of zero. */
  lemma {:induction false} DetectsChangedWord(pre: seq<byte>, was: u16, now: u16, post: seq<byte>)
    requires |pre| % 2 == 0 && Verifies(pre + Le16(was) + post)
    ensures Verifies(pre + Le16(now) + post) <==>
            now == was || (was == 0 && now == ONES) || (was == ONES && now == 0 && WordSum(pre) + WordSum(post) > 0)
  {
    var a, b := pre + Le16(was) + post, pre + Le16(now) + post;
    FieldSum(pre, was, post);
    FieldSum(pre, now, post);
    AllOnesIff(a);
    AllOnesIff(b);
    OneWord(WordSum(pre) + WordSum(post), was, now);
  }

  lemma {:induction false} AllOnesIff(b: seq<byte>)
    ensures Verifies(b) <==> WordSum(b) > 0 && WordSum(b) % 0xFFFF == 0
  {
    VerifiesInHostOrder(b);
    ChecksumCongruent(b);
  }

  lemma OneWord(rest: nat, was: u16, now: u16)
    requires rest + was > 0 && (rest + was) % 0xFFFF == 0
    ensures rest + now > 0 && (rest + now) % 0xFFFF == 0 <==>
            now == was || (was == 0 && now == ONES) || (was == ONES && now == 0 && rest > 0)
  {
    var k := (rest + was) / 0xFFFF;
    assert rest + now == 0xFFFF * k + (now - was);
  }
}
