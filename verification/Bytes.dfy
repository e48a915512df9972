/** Words as the bytes that hold them, optional values, and C strings. */
module Bytes {
  import opened Words

  datatype Option<+T> = None | Some(value: T)

  /** The 16-bit word of two bytes. */
  function Word(low: int, high: int): int {
    low + 0x100 * high
  }

  function Le16(x: u16): seq<byte> {
    [x % 0x100, x / 0x100]
  }

  function Be16(x: u16): seq<byte> {
    [x / 0x100, x % 0x100]
  }

  function Be32(x: u32): seq<byte> {
    Be16(x / 0x1_0000) + Be16(x % 0x1_0000)
  }

  function Be16At(b: seq<byte>, i: nat): u16
    requires i + 2 <= |b|
  {
    Word(b[i + 1], b[i])
  }

  function Be32At(b: seq<byte>, i: nat): u32
    requires i + 4 <= |b|
  {
    Be16At(b, i + 2) + 0x1_0000 * (Be16At(b, i) as int)
  }

  // ----- C strings

  /** The text of a C string: what precedes the first NUL. */
  function UpToNul(s: seq<byte>): (text: seq<byte>)
    ensures text <= s && 0 !in text
    ensures |text| < |s| ==> s[|text|] == 0
  {
    if |s| == 0 || s[0] == 0 then [] else [s[0]] + UpToNul(s[1..])
  }

  function Zeros(n: nat): (s: seq<byte>)
    ensures |s| == n && forall i :: 0 <= i < n ==> s[i] == 0
  {
    seq(n, _ => 0)
  }

  /** A NUL-free text followed by a NUL is read back whole. */
  lemma {:induction false} TextReadBack(text: seq<byte>, rest: seq<byte>)
    requires 0 !in text
    ensures UpToNul(text + [0] + rest) == text
  {
    if |text| > 0 {
      TextReadBack(text[1..], rest);
      assert (text + [0] + rest)[1..] == text[1..] + [0] + rest;
    }
  }

  lemma {:induction false} AllText(s: seq<byte>)
    requires 0 !in s
    ensures UpToNul(s) == s
  {
    if |s| > 0 {
      AllText(s[1..]);
    }
  }

  /** strncpy(dst, src, |src|), where dst starts at the array's start. */
  method StrNCpy(dst: array<byte>, src: seq<byte>)
    requires |src| <= dst.Length
    modifies dst
    ensures dst[..|src|] == UpToNul(src) + Zeros(|src| - |UpToNul(src)|)
    ensures dst[|src|..] == old(dst[|src|..])
  {
    var i := 0;
    while i < |src| && src[i] != 0
      invariant 0 <= i <= |src|
      invariant 0 !in src[..i]
      invariant dst[..i] == src[..i]
      invariant dst[|src|..] == old(dst[|src|..])
    {
      dst[i] := src[i];
      i := i + 1;
    }
    ghost var text := src[..i];
    assert UpToNul(src) == text by {
      if i < |src| {
        TextReadBack(text, src[i + 1..]);
        assert src == text + [0] + src[i + 1..];
      } else {
        AllText(src);
      }
    }
    while i < |src|
      invariant |text| <= i <= |src|
      invariant dst[..i] == text + Zeros(i - |text|)
      invariant dst[|src|..] == old(dst[|src|..])
    {
      dst[i] := 0;
      i := i + 1;
    }
  }
}
