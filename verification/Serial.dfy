/** Serial number comparison: compare_u32 of util.c. */
module Serial {
  import opened Words

  /** The int a uint32_t is converted to. */
  function Signed(x: u32): int {
    if x < 0x8000_0000 then x else x - 0x1_0000_0000
  }

  /** compare_u32 with the two signed subtractions taken exactly. */
  function CompareU32(s1: u32, s2: u32): int {
    if s1 == s2 then 0
    else
      var i1, i2 := Signed(s1), Signed(s2);
      if (i1 < i2 && i2 - i1 < 0x7FFF_FFFF) || (i1 > i2 && i1 - i2 > 0x7FFF_FFFF) then -1 else 1
  }

  /** compare_u32 with the subtractions wrapping at 32 bits, as two's complement hardware does. */
  function CompareWrapped(s1: u32, s2: u32): int {
    if s1 == s2 then 0
    else
      var i1, i2 := Signed(s1), Signed(s2);
      if (i1 < i2 && Signed(W(i2 - i1)) < 0x7FFF_FFFF) || (i1 > i2 && Signed(W(i1 - i2)) > 0x7FFF_FFFF) then -1 else 1
  }

  /** How far s2 lies ahead of s1 on the circle of 2^32 serial numbers. */
  function Ahead(s1: u32, s2: u32): u32 {
    Minus(s2, s1)
  }

  /** The comparison is a function of the distance, except at the two middle distances,
      where the sign of the numbers decides. */
  lemma CompareByDistance(s1: u32, s2: u32)
    ensures CompareU32(s1, s2) == 0 <==> Ahead(s1, s2) == 0
    ensures 1 <= Ahead(s1, s2) <= 0x7FFF_FFFE ==> CompareU32(s1, s2) == -1
    ensures Ahead(s1, s2) >= 0x8000_0001 ==> CompareU32(s1, s2) == 1
    ensures Ahead(s1, s2) in {0x7FFF_FFFF, 0x8000_0000} ==>
              CompareU32(s1, s2) == if Signed(s1) > Signed(s2) then -1 else 1
  {
  }

  /** The machine result is the exact one precisely when the signed difference fits in an int. */
  lemma WrappedAgreesIffFits(s1: u32, s2: u32)
    ensures CompareWrapped(s1, s2) == CompareU32(s1, s2) <==>
            -0x7FFF_FFFF <= Signed(s1) - Signed(s2) <= 0x7FFF_FFFF
  {
    var i1, i2 := Signed(s1), Signed(s2);
    if i1 < i2 {
      assert W(i2 - i1) == i2 - i1;
    } else {
      assert W(i1 - i2) == i1 - i2;
    }
  }

  /** Swapping the arguments negates the result unless the signed numbers are exactly INT_MAX apart. */
  lemma AntisymmetricIff(s1: u32, s2: u32)
    ensures CompareU32(s1, s2) == -CompareU32(s2, s1) <==>
            Signed(s1) - Signed(s2) !in {-0x7FFF_FFFF, 0x7FFF_FFFF}
  {
    CompareByDistance(s1, s2);
    CompareByDistance(s2, s1);
  }

  /** The sequence number of position p in a byte stream whose position 0 has number first. */
  ghost function At(first: u32, p: int): u32
    decreases if p < 0 then -p else p
  {
    if p == 0 then first
    else if p > 0 then Plus(At(first, p - 1), 1)
    else Minus(At(first, p + 1), 1)
  }

  lemma AtIsSum(first: u32, p: int)
    ensures At(first, p) == W(first + p)
    decreases if p < 0 then -p else p
  {
    if p > 0 {
      AtIsSum(first, p - 1);
      PlusWraps(first + p - 1, 1);
    } else if p < 0 {
      AtIsSum(first, p + 1);
      MinusWraps(first + p + 1, 1);
    }
  }

  /** uint32_t addition moves along the stream. */
  lemma AtPlus(first: u32, p: int, n: u32)
    ensures At(first, p + n) == Plus(At(first, p), n)
  {
    AtIsSum(first, p);
    AtIsSum(first, p + n);
    PlusWraps(first + p, n);
  }

  lemma AtInjective(first: u32, a: int, b: int)
    requires At(first, a) == At(first, b) && -0x1_0000_0000 < a - b < 0x1_0000_0000
    ensures a == b
  {
    AtIsSum(first, a);
    AtIsSum(first, b);
    WrapInjective(first, a, b);
  }

  /** Positions of one byte stream less than 2^31 - 1 apart are ordered as the integers are. */
  lemma CompareOffsets(first: u32, a: int, b: int)
    requires -0x7FFF_FFFE <= a - b <= 0x7FFF_FFFE
    ensures CompareU32(At(first, a), At(first, b)) == if a < b then -1 else if a == b then 0 else 1
  {
    AtIsSum(first, a);
    AtIsSum(first, b);
    MinusWraps(first + b, first + a);
    CompareByDistance(W(first + a), W(first + b));
    if a <= b {
      assert W(b - a) == b - a;
    } else {
      assert W(b - a) == b - a + 0x1_0000_0000;
    }
  }

  /** Hence a strict total order on any set of serial numbers within 2^31 - 2 of one base. */
  lemma StrictTotalOrder(base: u32, x: u32, y: u32, z: u32)
    requires Ahead(base, x) <= 0x7FFF_FFFE && Ahead(base, y) <= 0x7FFF_FFFE && Ahead(base, z) <= 0x7FFF_FFFE
    ensures CompareU32(x, y) == 0 <==> x == y
    ensures CompareU32(x, y) < 0 <==> CompareU32(y, x) > 0
    ensures CompareU32(x, y) < 0 && CompareU32(y, z) < 0 ==> CompareU32(x, z) < 0
  {
    CompareFromBase(base, x, y);
    CompareFromBase(base, y, x);
    CompareFromBase(base, y, z);
    CompareFromBase(base, x, z);
  }

  lemma CompareFromBase(base: u32, x: u32, y: u32)
    requires Ahead(base, x) <= 0x7FFF_FFFE && Ahead(base, y) <= 0x7FFF_FFFE
    ensures CompareU32(x, y) == if Ahead(base, x) < Ahead(base, y) then -1 else if x == y then 0 else 1
    ensures x == y <==> Ahead(base, x) == Ahead(base, y)
  {
    CompareByDistance(x, y);
  }
}
