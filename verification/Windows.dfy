/** Window arithmetic of tcp.c: scaled windows, get_send_window and get_receive_window. */
module Windows {
  import opened Words
  import opened Serial
  import opened Reassembly

  /** A window scale option; section 2.3 of RFC 7323 allows at most 14. */
  type Scale = s: nat | s <= 14

  /** The largest window: 0xFFFF shifted by 14. */
  const MAX_WINDOW := 0x3FFF_C000

  function Shl(x: nat, s: nat): nat {
    if s == 0 then x else 2 * Shl(x, s - 1)
  }

  function Shr(x: nat, s: nat): nat {
    if s == 0 then x else Shr(x, s - 1) / 2
  }

  lemma {:induction false} ShlMonotone(x: nat, y: nat, s: nat)
    requires x <= y
    ensures Shl(x, s) <= Shl(y, s)
  {
    if s > 0 {
      ShlMonotone(x, y, s - 1);
    }
  }

  lemma {:induction false} ShlGrows(x: nat, s: nat, t: nat)
    requires s <= t
    ensures Shl(x, s) <= Shl(x, t)
  {
    if s < t {
      ShlGrows(x, s, t - 1);
    }
  }

  lemma {:induction false} ShlAdds(x: nat, y: nat, s: nat)
    ensures Shl(x + y, s) == Shl(x, s) + Shl(y, s)
  {
    if s > 0 {
      ShlAdds(x, y, s - 1);
    }
  }

  /** Shifting right and back again rounds down by less than one unit of the scale. */
  lemma {:induction false} ShrRounds(x: nat, s: nat)
    ensures Shl(Shr(x, s), s) <= x < Shl(Shr(x, s) + 1, s)
  {
    if s > 0 {
      var y, h := Shr(x, s - 1), Shr(x, s);
      ShrRounds(x, s - 1);
      ShlMonotone(2 * h, y, s - 1);
      ShlMonotone(y + 1, 2 * (h + 1), s - 1);
      ShlAdds(h, h, s - 1);
      ShlAdds(h + 1, h + 1, s - 1);
    }
  }

  /** The window field of a header as a window in bytes. */
  function ScaledWindow(field: u16, s: Scale): (window: u32)
    ensures window <= MAX_WINDOW
  {
    ShlMonotone(field, 0xFFFF, s);
    ShlGrows(0xFFFF, s, 14);
    assert Shl(0xFFFF, 14) == MAX_WINDOW;
    Shl(field, s)
  }

  /** get_send_window: what the peer's window leaves for bytes it has not acknowledged yet. */
  function SendWindow(acked: u32, localSeq: u32, window: u32): u32 {
    var behind := if CompareU32(acked, localSeq) <= 0 then Minus(localSeq, acked) else acked;
    if behind < window then window - behind else 0
  }

  /** Bytes queued and not yet sent, without a bound. */
  function Queued(q: Queue): nat {
    if q.Nil? then 0 else Unsent(q.head) + Queued(q.tail)
  }

  /** The same sum as the loop of get_receive_window computes it, in a uint32_t. */
  function Toforward(q: Queue): u32 {
    if q.Nil? then 0 else Plus(Toforward(q.tail), Unsent(q.head))
  }

  lemma {:induction false} ToforwardIsSum(q: Queue)
    ensures Toforward(q) == W(Queued(q))
  {
    if q.Cons? {
      ToforwardIsSum(q.tail);
      PlusWraps(Queued(q.tail), Unsent(q.head));
    }
  }

  /** The window for toforward queued bytes and a free socket buffer of room bytes. */
  function FreeWindow(toforward: u32, room: u32, s: Scale): (window: u32)
    ensures window <= ScaledWindow(0xFFFF, s)
  {
    var free := Min(room, ScaledWindow(0xFFFF, s));
    var window := if toforward < free then free - toforward else 0;
    if Shr(window, s) == 0 then 0 else window
  }

  /** get_receive_window. */
  function ReceiveWindow(q: Queue, room: u32, s: Scale): (window: u32)
    ensures window <= ScaledWindow(0xFFFF, s)
  {
    FreeWindow(Toforward(q), room, s)
  }

  /** The window field of an outgoing header. */
  function WindowField(window: u32, s: Scale): u16 {
    Shr(window, s) % 0x1_0000
  }

  /** The field loses no bits, is zero exactly when the window is, and is no larger. */
  lemma FieldIsExact(window: u32, s: Scale)
    requires window <= ScaledWindow(0xFFFF, s)
    ensures var field := WindowField(window, s);
            field == Shr(window, s) && ScaledWindow(field, s) <= window
  {
    ShrRounds(window, s);
    if Shr(window, s) > 0xFFFF {
      ShlMonotone(0x1_0000, Shr(window, s), s);
      ShlAdds(0xFFFF, 1, s);
      ShlPositive(s);
    }
  }

  /** What the peer makes of the field together with the queued bytes, counted in the 32 bits of the source,
      never exceeds the free socket buffer; below 2^32 queued bytes that is their true number. */
  lemma WindowIsHonest(q: Queue, room: u32, s: Scale)
    ensures var window := ReceiveWindow(q, room, s);
            var field := WindowField(window, s);
            && field == Shr(window, s)
            && (field == 0 <==> window == 0)
            && ScaledWindow(field, s) <= window
            && (window > 0 ==> ScaledWindow(field, s) + W(Queued(q)) <= room)
            && (window > 0 && Queued(q) < 0x1_0000_0000 ==> ScaledWindow(field, s) + Queued(q) <= room)
  {
    var n := Queued(q);
    ToforwardIsSum(q);
    FieldIsExact(ReceiveWindow(q, room, s), s);
    ShlPositive(s);
    assert n < 0x1_0000_0000 ==> W(n) == n;
  }

  /** And it tells all that is free but less than one unit of the scale, up to what the field can say. */
  lemma WindowIsGenerous(q: Queue, room: u32, s: Scale)
    requires Queued(q) < 0x1_0000_0000
    ensures ScaledWindow(WindowField(ReceiveWindow(q, room, s), s), s) + Queued(q) + Shl(1, s)
          > Min(room, ScaledWindow(0xFFFF, s))
  {
    var window := ReceiveWindow(q, room, s);
    var free := Min(room, ScaledWindow(0xFFFF, s)) - Queued(q);
    ToforwardIsSum(q);
    assert Toforward(q) == Queued(q);
    FieldIsExact(window, s);
    ShlPositive(s);
    if free > 0 {
      ShrRounds(free, s);
      ShlAdds(Shr(free, s), 1, s);
      assert window == if Shr(free, s) == 0 then 0 else free;
    }
  }

  lemma {:induction false} ShlPositive(s: nat)
    ensures Shl(1, s) >= 1 && Shr(0, s) == 0
  {
    if s > 0 {
      ShlPositive(s - 1);
    }
  }

  /** While the unacknowledged bytes span less than half the circle the fallback of get_send_window
      is not taken, and filling the window never exceeds it. */
  lemma SendWindowExact(acked: u32, localSeq: u32, window: u32)
    requires Minus(localSeq, acked) <= 0x7FFF_FFFE
    ensures CompareU32(acked, localSeq) <= 0
    ensures SendWindow(acked, localSeq, window) ==
            if Minus(localSeq, acked) < window then window - Minus(localSeq, acked) else 0
  {
    CompareByDistance(acked, localSeq);
  }
}
