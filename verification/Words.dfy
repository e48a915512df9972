/** Fixed-width words of the C sources and the 32-bit serial numbers built from them. */
module Words {

  type byte = x: int | 0 <= x < 0x100
  type u16 = x: int | 0 <= x < 0x1_0000
  type u32 = x: int | 0 <= x < 0x1_0000_0000

  /** What an assignment to a uint32_t keeps of x. */
  function W(x: int): u32 {
    x % 0x1_0000_0000
  }

  /** What an assignment to a uint16_t keeps of a length or an offset. */
  function Short(x: nat): u16 {
    x % 0x1_0000
  }

  /** uint32_t addition of a word and a count. */
  function Plus(a: u32, n: u32): u32 {
    if a + n < 0x1_0000_0000 then a + n else a + n - 0x1_0000_0000
  }

  /** uint32_t subtraction. */
  function Minus(a: u32, b: u32): u32 {
    if a >= b then a - b else a - b + 0x1_0000_0000
  }

  function Min(a: int, b: int): int {
    if a <= b then a else b
  }

  /** C integer division, which truncates toward zero. */
  function TruncDiv(a: int, b: int): int
    requires b > 0
  {
    if a >= 0 then a / b else -((-a) / b)
  }

  lemma PlusWraps(x: int, n: u32)
    ensures Plus(W(x), n) == W(x + n)
  {
  }

  lemma MinusWraps(x: int, y: int)
    ensures Minus(W(x), W(y)) == W(x - y)
  {
    var qx, qy := x / 0x1_0000_0000, y / 0x1_0000_0000;
    assert x - y == W(x) - W(y) + (qx - qy) * 0x1_0000_0000;
  }

  lemma WrapAbsorbs(x: int, y: int)
    ensures W(W(x) + y) == W(x + y)
  {
    var q := x / 0x1_0000_0000;
    assert W(x) + y == x + y - q * 0x1_0000_0000;
  }

  /** Two offsets less than 2^32 apart that give the same word are the same offset. */
  lemma WrapInjective(base: int, a: int, b: int)
    requires W(base + a) == W(base + b)
    requires -0x1_0000_0000 < a - b < 0x1_0000_0000
    ensures a == b
  {
    var qa, qb := (base + a) / 0x1_0000_0000, (base + b) / 0x1_0000_0000;
    assert a - b == (qa - qb) * 0x1_0000_0000;
    assert qa - qb == 0;
  }
}
