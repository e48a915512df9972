/** Domain names in DNS messages: get_qname of dns.c. */
module Dns {
  import opened Words
  import opened Bytes

  const DNS_QNAME_MAX := 255
  const DOT: byte := 46

  /** The number of values that ptr and noff can take together. */
  const TURNS := 0x100_0000

  /** The caller's buffer for the text of a name. */
  type Buffer = b: seq<byte> | |b| == DNS_QNAME_MAX + 1 witness Zeros(DNS_QNAME_MAX + 1)

  type Text = t: seq<byte> | |t| <= DNS_QNAME_MAX

  /** The variables of get_qname between two turns of its loop. The buffer starts with text and goes on as
      base does; noff, a uint8_t, is the length of text. */
  datatype Reader = Reader(ptr: u16, text: Text, jumped: bool, off: u16, base: Buffer)

  /** Past: the offset returned; Invalid: -1; OutOfBounds: the next read is not in the message;
      Unfinished: the turns are used up, and after TURNS of them the loop never ends. */
  datatype Status = Past(off: u16) | Invalid | OutOfBounds | Unfinished

  datatype Outcome = Outcome(status: Status, qname: Buffer)

  /** The loop ends, or goes on. */
  datatype Turned = Stop(status: Status) | Go(next: Reader)

  function Overlay(base: Buffer, text: Text): Buffer {
    text + base[|text|..]
  }

  /** What is returned, and the buffer: in a name read to its end the last dot becomes the terminator. */
  function Result(r: Reader, status: Status): Outcome {
    var n, qname := |r.text|, Overlay(r.base, r.text);
    Outcome(status, if status.Past? && n > 0 then qname[n - 1 := 0] else qname)
  }

  /** At the end of the name. */
  function Finished(r: Reader): Status {
    if |r.text| == 0 then Invalid else Past(if r.jumped then r.off else Short(r.ptr + 1))
  }

  function Jump(data: seq<byte>, r: Reader): Reader
    requires r.ptr + 1 < |data|
  {
    r.(ptr := Word(data[r.ptr + 1], data[r.ptr] % 0x40), jumped := true,
       off := if r.jumped then r.off else Short(r.off + 2))
  }

  predicate Fits(data: seq<byte>, r: Reader, len: nat) {
    r.ptr + 1 + len <= |data| && |r.text| + len <= DNS_QNAME_MAX
  }

  /** Append a label and a dot. A text that fills the buffer makes noff wrap to 0. */
  function TakeLabel(data: seq<byte>, r: Reader, len: nat): Reader
    requires Fits(data, r, len)
  {
    var text := r.text + (data[r.ptr + 1..r.ptr + 1 + len] + [DOT]);
    if |text| == DNS_QNAME_MAX + 1 then r.(ptr := Short(r.ptr + len + 1), base := text, text := [])
    else r.(ptr := Short(r.ptr + len + 1), text := text)
  }

  /** One turn of the loop, or what ends it. */
  function Turn(data: seq<byte>, r: Reader): Turned {
    if r.ptr >= |data| then Stop(OutOfBounds)
    else
      var len := data[r.ptr];
      if len == 0 then Stop(Finished(r))
      else if len >= 0x40 then
        if r.ptr + 1 < |data| then Go(Jump(data, r)) else Stop(OutOfBounds)
      else if Fits(data, r, len) then Go(TakeLabel(data, r, len))
      else Stop(Invalid)
  }

  /** At most steps turns of the loop. */
  function Follow(data: seq<byte>, r: Reader, steps: nat): Outcome
    decreases steps
  {
    match Turn(data, r)
    case Stop(status) => Result(r, status)
    case Go(next) => if steps == 0 then Result(r, Unfinished) else Follow(data, next, steps - 1)
  }

  /** The bound on the turns only matters when it is reached. */
  lemma {:induction false} MoreSteps(data: seq<byte>, r: Reader, steps: nat, more: nat)
    requires Follow(data, r, steps).status != Unfinished && more >= steps
    ensures Follow(data, r, more) == Follow(data, r, steps)
    decreases steps
  {
    if Turn(data, r).Go? {
      MoreSteps(data, Turn(data, r).next, steps - 1, more - 1);
    }
  }

  /** The reader after n turns of the loop, or what ends it before. */
  function Walk(data: seq<byte>, r: Reader, n: nat): Turned
    decreases n
  {
    if n == 0 then Go(r)
    else
      match Turn(data, r)
      case Stop(status) => Stop(status)
      case Go(next) => Walk(data, next, n - 1)
  }

  function Start(off: u16, was: Buffer): Reader {
    Reader(off, [], false, off, was[0 := 0])
  }

  /** The buffer and the variables after a label has been stored. */
  lemma LabelStored(data: seq<byte>, r: Reader, len: nat, text: seq<byte>, was: seq<byte>, now: seq<byte>)
    requires Fits(data, r, len) && text == data[r.ptr + 1..r.ptr + 1 + len] && was == Overlay(r.base, r.text)
    requires |now| == |was| && now[..|r.text| + len + 1] == was[..|r.text|] + (text + [DOT])
    requires now[|r.text| + len + 1..] == was[|r.text| + len + 1..]
    ensures var next := TakeLabel(data, r, len);
            && now == Overlay(next.base, next.text) && |next.text| == (|r.text| + len + 1) % 0x100
            && next.ptr == Short(r.ptr + len + 1) && next.jumped == r.jumped && next.off == r.off
  {
    var n, next := |r.text| + len + 1, TakeLabel(data, r, len);
    assert was[..|r.text|] == r.text;
    assert was[n..] == r.base[n..];
    assert now == now[..n] + now[n..];
    assert next.text == [] ==> now == next.base + [];
  }

  /** Copy a label behind the text, and a dot behind the label. */
  method StoreLabel(qname: array<byte>, noff: nat, text: seq<byte>)
    requires noff + |text| < qname.Length
    modifies qname
    ensures qname[..noff + |text| + 1] == old(qname[..noff]) + (text + [DOT])
    ensures qname[noff + |text| + 1..] == old(qname[noff + |text| + 1..])
  {
    for i := 0 to |text|
      invariant qname[..noff + i] == old(qname[..noff]) + text[..i]
      invariant qname[noff + i..] == old(qname[noff + i..])
    {
      ghost var rest := qname[noff + i..];
      qname[noff + i] := text[i];
      assert qname[noff + i + 1..] == rest[1..];
    }
    ghost var rest := qname[noff + |text|..];
    qname[noff + |text|] := DOT;
    assert qname[noff + |text| + 1..] == rest[1..];
  }

  /** The branch of the loop for a label. */
  method CopyLabel(data: seq<byte>, ptr: nat, noff: nat, len: nat, qname: array<byte>, ghost r: Reader)
    returns (ghost next: Reader)
    requires qname.Length == DNS_QNAME_MAX + 1 && qname[..] == Overlay(r.base, r.text)
    requires ptr == r.ptr && noff == |r.text| && Fits(data, r, len)
    modifies qname
    ensures next == TakeLabel(data, r, len) && qname[..] == Overlay(next.base, next.text)
    ensures |next.text| == (noff + len + 1) % 0x100 && next.ptr == Short(ptr + len + 1)
    ensures next.jumped == r.jumped && next.off == r.off
  {
    ghost var was := qname[..];
    StoreLabel(qname, noff, data[ptr + 1..ptr + 1 + len]);
    LabelStored(data, r, len, data[ptr + 1..ptr + 1 + len], was, qname[..]);
    next := TakeLabel(data, r, len);
  }

  /** get_qname, given up where it would go on for ever. */
  method GetQname(data: seq<byte>, start: u16, qname: array<byte>) returns (status: Status)
    requires qname.Length == DNS_QNAME_MAX + 1
    modifies qname
    ensures Outcome(status, qname[..]) == Follow(data, Start(start, old(qname[..])), TURNS)
  {
    qname[0] := 0;
    var off: u16, c, noff: byte, ptr: u16 := start, false, 0, start;
    var turns := TURNS;
    ghost var r := Start(start, old(qname[..]));
    ghost var result := Follow(data, r, turns);
    assert qname[..] == Overlay(r.base, r.text);
    if ptr >= |data| {
      return OutOfBounds;
    }
    var len := data[ptr];
    while len != 0
      invariant 0 <= turns && ptr < |data| && len == data[ptr]
      invariant ptr == r.ptr && noff == |r.text| && c == r.jumped && off == r.off
      invariant qname[..] == Overlay(r.base, r.text)
      invariant Follow(data, r, turns) == result
      decreases turns
    {
      if len >= 0x40 {
        if ptr + 1 >= |data| {
          return OutOfBounds;
        }
        if turns == 0 {
          return Unfinished;
        }
        r := Jump(data, r);
        ptr := Word(data[ptr + 1], len % 0x40);
        if !c {
          c := true;
          off := Short(off + 2);
        }
      } else if ptr + 1 + len <= |data| && noff + len <= DNS_QNAME_MAX {
        if turns == 0 {
          return Unfinished;
        }
        r := CopyLabel(data, ptr, noff, len, qname, r);
        noff := (noff + len + 1) % 0x100;
        ptr := Short(ptr + len + 1);
      } else {
        return Invalid;
      }
      turns := turns - 1;
      assert Follow(data, r, turns) == result;
      if ptr >= |data| {
        return OutOfBounds;
      }
      len := data[ptr];
    }
    assert result == Result(r, Finished(r));
    if noff == 0 {
      return Invalid;
    }
    qname[noff - 1] := 0;
    assert qname[..] == Overlay(r.base, r.text)[noff - 1 := 0];
    return Past(if c then off else Short(ptr + 1));
  }
}
