/** Reassembly does not depend on the order of arrival: for segments cut from one stream at fixed places
    the queue is always the sorted set of the segments that have arrived and are not yet forwarded. */
module Segmentation {
  import opened Words
  import opened Serial
  import opened Lists
  import opened Reassembly

  /** A stream cut into non-empty pieces; the first byte has sequence number first. */
  datatype Cut = Cut(first: u32, pieces: seq<Payload>, psh: seq<bool>) {
    ghost predicate Valid() {
      |psh| == |pieces| && forall k :: 0 <= k < |pieces| ==> pieces[k] != []
    }

    /** Stream position at which piece k starts. */
    ghost function Start(k: nat): nat
      requires k <= |pieces|
    {
      if k == 0 then 0 else Start(k - 1) + |pieces[k - 1]|
    }

    ghost function Text(m: nat, k: nat): seq<byte>
      requires m <= k <= |pieces|
      decreases k - m
    {
      if m == k then [] else pieces[m] + Text(m + 1, k)
    }

    ghost function SegmentOf(k: nat): Seg
      requires Valid() && k < |pieces|
    {
      Segment(At(first, Start(k)), pieces[k], 0, psh[k])
    }

    /** The pieces of arrived from index m on, in stream order. */
    ghost function Waiting(arrived: set<nat>, m: nat): Queue
      requires Valid() && m <= |pieces|
      decreases |pieces| - m
    {
      if m == |pieces| then Nil
      else if m in arrived then Cons(SegmentOf(m), Waiting(arrived, m + 1))
      else Waiting(arrived, m + 1)
    }

    /** The queue once the first m pieces and p bytes of piece m have been forwarded. */
    ghost function Pending(arrived: set<nat>, m: nat, p: nat): Queue
      requires Valid() && m <= |pieces|
      requires p > 0 ==> m < |pieces| && p < |pieces[m]|
    {
      if p == 0 then Waiting(arrived, m)
      else Cons(SegmentOf(m).(sent := p), Waiting(arrived, m + 1))
    }

    /** The serial distance between where pieces m and k start can be told by compare_u32. */
    ghost predicate Near(m: nat, k: nat)
      requires k <= |pieces| && m <= |pieces|
    {
      -AHEAD <= Start(k) - Start(m) <= 0x7FFF_FFFE
    }

    ghost predicate InReach(arrived: set<nat>, m: nat)
      requires m <= |pieces|
    {
      forall k :: k in arrived ==> k < |pieces| && (m <= k ==> Start(k) <= Start(m) + 0x7FFF_FFFE)
    }

    lemma {:induction false} StartRises(m: nat, k: nat)
      requires Valid() && m < k <= |pieces|
      ensures Start(m) + |pieces[m]| <= Start(k)
      decreases k
    {
      if m < k - 1 {
        StartRises(m, k - 1);
      }
    }

    lemma {:induction false} WaitingDependsOn(a: set<nat>, b: set<nat>, m: nat)
      requires Valid() && m <= |pieces|
      requires forall j :: m <= j ==> (j in a <==> j in b)
      ensures Waiting(a, m) == Waiting(b, m)
      decreases |pieces| - m
    {
      if m < |pieces| {
        WaitingDependsOn(a, b, m + 1);
      }
    }

    lemma {:induction false} WaitingHead(arrived: set<nat>, m: nat) returns (j: nat)
      requires Valid() && m <= |pieces| && Waiting(arrived, m).Cons?
      ensures m <= j < |pieces| && j in arrived && Waiting(arrived, m).head == SegmentOf(j)
      decreases |pieces| - m
    {
      if m in arrived {
        j := m;
      } else {
        j := WaitingHead(arrived, m + 1);
      }
    }

    lemma {:induction false} InsertWaiting(arrived: set<nat>, lo: nat, m: nat, k: nat)
      requires Valid() && lo <= m <= k < |pieces| && InReach(arrived, lo) && Near(lo, k)
      ensures Insert(Waiting(arrived, m), At(first, Start(k)), pieces[k], psh[k]) == Waiting(arrived + {k}, m)
      decreases |pieces| - m
    {
      if lo < m {
        StartRises(lo, m);
      }
      if m < k {
        StartRises(m, k);
        CompareOffsets(first, Start(m), Start(k));
        InsertWaiting(arrived, lo, m + 1, k);
      } else {
        WaitingDependsOn(arrived, arrived + {k}, m + 1);
        if k !in arrived && Waiting(arrived, m + 1).Cons? {
          var j := WaitingHead(arrived, m + 1);
          StartRises(k, j);
          CompareOffsets(first, Start(j), Start(k));
        }
      }
    }

    /** One arrival, wherever the forwarding has got to: a new piece joins the sorted set, a duplicate
        or a piece already forwarded changes nothing. */
    lemma Arrival(arrived: set<nat>, m: nat, p: nat, k: nat)
      requires Valid() && m <= |pieces| && k < |pieces|
      requires p > 0 ==> m < |pieces| && p < |pieces[m]|
      requires InReach(arrived, m) && Near(m, k)
      ensures Enqueue(Pending(arrived, m, p), At(first, Start(m) + p), At(first, Start(k)), pieces[k], psh[k])
              == Pending(arrived + {k}, m, p)
    {
      assert p > 0 && k > m ==>
               Waiting(arrived + {k}, m + 1) == Insert(Waiting(arrived, m + 1), At(first, Start(k)), pieces[k], psh[k])
      by {
        if p > 0 && m < k {
          InsertWaiting(arrived, m, m + 1, k);
        }
      }
      if k < m || (k == m && p > 0) {
        OldArrival(m, p, k);
        WaitingDependsOn(arrived, arrived + {k}, if p > 0 then m + 1 else m);
      } else {
        NewArrival(m, p, k);
        if p == 0 {
          InsertWaiting(arrived, m, m, k);
        }
      }
    }

    lemma OldArrival(m: nat, p: nat, k: nat)
      requires Valid() && k <= m <= |pieces| && k < |pieces| && Near(m, k)
      requires if k == m then p > 0 && p < |pieces[m]| else p <= 0xFFFF
      ensures CompareU32(At(first, Start(k)), At(first, Start(m) + p)) < 0
    {
      if k < m {
        StartRises(k, m);
      }
      CompareOffsets(first, Start(k), Start(m) + p);
    }

    lemma NewArrival(m: nat, p: nat, k: nat)
      requires Valid() && m <= k < |pieces| && p < |pieces[m]| && Near(m, k)
      requires k == m ==> p == 0
      ensures CompareU32(At(first, Start(k)), At(first, Start(m) + p)) >= 0
      ensures m < k ==> CompareU32(At(first, Start(m)), At(first, Start(k))) < 0
    {
      if m < k {
        StartRises(m, k);
      }
      CompareOffsets(first, Start(k), Start(m) + p);
      CompareOffsets(first, Start(m), Start(k));
    }

    ghost function ArriveAll(q: Queue, remoteSeq: u32, order: seq<nat>): Queue
      requires Valid() && forall i :: 0 <= i < |order| ==> order[i] < |pieces|
      decreases order
    {
      if order == [] then q
      else
        var k := order[0];
        ArriveAll(Enqueue(q, remoteSeq, At(first, Start(k)), pieces[k], psh[k]), remoteSeq, order[1..])
    }

    ghost function Elements(order: seq<nat>): set<nat> {
      if order == [] then {} else {order[0]} + Elements(order[1..])
    }

    /** Any order of arrival, with any duplicates, gives the queue of the set of pieces. */
    lemma {:induction false} AnyOrder(arrived: set<nat>, m: nat, p: nat, order: seq<nat>)
      requires Valid() && m <= |pieces|
      requires p > 0 ==> m < |pieces| && p < |pieces[m]|
      requires InReach(arrived, m)
      requires forall i :: 0 <= i < |order| ==> order[i] < |pieces| && Near(m, order[i])
      ensures ArriveAll(Pending(arrived, m, p), At(first, Start(m) + p), order) ==
              Pending(arrived + Elements(order), m, p)
      decreases order
    {
      if order == [] {
        assert arrived + Elements(order) == arrived;
      } else {
        Arrival(arrived, m, p, order[0]);
        AnyOrder(arrived + {order[0]}, m, p, order[1..]);
        assert arrived + Elements(order) == arrived + {order[0]} + Elements(order[1..]);
      }
    }

    /** The first piece from m on that has not arrived. */
    ghost function FirstMissing(arrived: set<nat>, m: nat): (k: nat)
      requires m <= |pieces|
      ensures m <= k <= |pieces|
      ensures forall j :: m <= j < k ==> j in arrived
      ensures k < |pieces| ==> k !in arrived
      decreases |pieces| - m
    {
      if m < |pieces| && m in arrived then FirstMissing(arrived, m + 1) else m
    }

    /** One pass with enough socket space and no short or failed send delivers exactly the text up to
        the first missing piece, and leaves the rest of the sorted set queued. */
    lemma {:induction false} FullPass(arrived: set<nat>, m: nat, p: nat, room: int, sends: seq<int>)
      requires Valid() && m <= |pieces|
      requires p > 0 ==> m in arrived && m < |pieces| && p < |pieces[m]|
      requires InReach(arrived, m)
      requires room > |Text(m, FirstMissing(arrived, m))|
      requires |sends| >= |pieces| - m && forall i :: 0 <= i < |sends| ==> sends[i] >= 0x1_0000
      ensures Delivers(Forward(Pending(arrived, m, p), At(first, Start(m) + p), room, sends), arrived, m, p)
      decreases |pieces| - m
    {
      var q, remote := Pending(arrived, m, p), At(first, Start(m) + p);
      if m < |pieces| && m in arrived {
        HeadReady(arrived, m, p, room);
        assert Next(sends) == sends[0] && Rest(sends) == sends[1..];
        ForwardTurn(q, Cons(0, Nil), remote, room, sends);
        FullPass(arrived, m + 1, 0, room - (|pieces[m]| - p), sends[1..]);
        var more := Forward(q.tail, Plus(q.head.seqNo, |q.head.data|), room - Unsent(q.head), Rest(sends));
        DeliversTurn(Forward(q, remote, room, sends), more, arrived, m, p);
      } else {
        HeadMissing(arrived, m, room);
      }
    }

    ghost predicate Delivers(pass: Pass, arrived: set<nat>, m: nat, p: nat)
      requires Valid() && m <= |pieces|
      requires p > 0 ==> m in arrived && m < |pieces| && p < |pieces[m]|
    {
      var k := FirstMissing(arrived, m);
      && pass.queue == Waiting(arrived, k)
      && pass.remoteSeq == At(first, Start(k))
      && p <= |Text(m, k)| && pass.accepted == Text(m, k)[p..] && pass.wire == pass.accepted
    }

    lemma DeliversTurn(pass: Pass, more: Pass, arrived: set<nat>, m: nat, p: nat)
      requires Valid() && m < |pieces| && m in arrived && p < |pieces[m]|
      requires pass.queue == more.queue && pass.remoteSeq == more.remoteSeq
      requires pass.accepted == pieces[m][p..] + more.accepted && pass.wire == pieces[m][p..] + more.wire
      requires Delivers(more, arrived, m + 1, 0)
      ensures Delivers(pass, arrived, m, p)
    {
      var k := FirstMissing(arrived, m);
      assert Text(m, k)[p..] == pieces[m][p..] + Text(m + 1, k);
    }

    lemma HeadReady(arrived: set<nat>, m: nat, p: nat, room: int)
      requires Valid() && m in arrived && m < |pieces| && p < |pieces[m]| && |pieces[m]| - p < room
      ensures Ready(Pending(arrived, m, p), At(first, Start(m) + p), room)
      ensures Plus(SegmentOf(m).seqNo, |pieces[m]|) == At(first, Start(m + 1))
    {
      AtPlus(first, Start(m), p);
      AtPlus(first, Start(m), |pieces[m]|);
    }

    lemma HeadMissing(arrived: set<nat>, m: nat, room: int)
      requires Valid() && m <= |pieces| && m !in arrived && InReach(arrived, m)
      ensures !Ready(Waiting(arrived, m), At(first, Start(m)), room)
    {
      if Waiting(arrived, m).Cons? {
        var j := WaitingHead(arrived, m);
        StartRises(m, j);
        if Ready(Waiting(arrived, m), At(first, Start(m)), room) {
          AtInjective(first, Start(j), Start(m));
        }
      }
    }

    // ----- arrivals and passes in any order

    ghost function All(): seq<byte> {
      Text(0, |pieces|)
    }

    /** The first m pieces and p bytes of the next have been handed on. */
    ghost predicate Reached(m: nat, p: nat) {
      m <= |pieces| && (p > 0 ==> m < |pieces| && p < |pieces[m]|)
    }

    lemma {:induction false} TextSplits(m: nat, k: nat, n: nat)
      requires m <= k <= n <= |pieces|
      ensures Text(m, n) == Text(m, k) + Text(k, n)
      decreases k - m
    {
      if m < k {
        TextSplits(m + 1, k, n);
      }
    }

    lemma {:induction false} TextLength(k: nat)
      requires k <= |pieces|
      ensures |Text(0, k)| == Start(k)
    {
      if k > 0 {
        TextLength(k - 1);
        TextSplits(0, k - 1, k);
        assert Text(k - 1, k) == pieces[k - 1];
      }
    }

    /** Where piece k lies in the whole text. */
    lemma PieceAt(k: nat)
      requires k < |pieces|
      ensures Start(k) + |pieces[k]| == Start(k + 1) <= |All()|
      ensures All()[Start(k)..Start(k + 1)] == pieces[k]
    {
      TextSplits(0, k, |pieces|);
      TextLength(k);
      assert Text(k, |pieces|) == pieces[k] + Text(k + 1, |pieces|);
    }

    lemma PartAt(k: nat, i: nat, j: nat)
      requires k < |pieces| && i <= j <= |pieces[k]|
      ensures Start(k) + j <= |All()| && All()[Start(k) + i..Start(k) + j] == pieces[k][i..j]
    {
      PieceAt(k);
      assert All()[Start(k) + i..Start(k) + j] == All()[Start(k)..Start(k + 1)][i..j];
    }

    lemma {:induction false} StartWithin(k: nat)
      requires k <= |pieces|
      ensures Start(k) <= |All()|
    {
      TextSplits(0, k, |pieces|);
      TextLength(k);
    }

    lemma PlaceWithin(m: nat, p: nat)
      requires Reached(m, p)
      ensures Start(m) + p <= |All()|
    {
      StartWithin(m);
      if m < |pieces| {
        PieceAt(m);
      }
    }

    /** A pass that started at position from ends p bytes into piece m. */
    ghost predicate Lands(pass: Pass, arrived: set<nat>, from: nat, m: nat, p: nat)
      requires Valid()
    {
      && Reached(m, p) && InReach(arrived, m) && (p > 0 ==> m in arrived) && from <= Start(m) + p <= |All()|
      && pass.queue == Pending(arrived, m, p) && pass.remoteSeq == At(first, Start(m) + p)
      && pass.accepted == All()[from..Start(m) + p]
    }

    /** Any pass, with short or failed sends and little room, hands on the next bytes of the text and leaves the
        queue of the same pieces behind them. */
    lemma {:induction false} AnyPass(arrived: set<nat>, m: nat, p: nat, room: int, sends: seq<int>)
      returns (m': nat, p': nat)
      requires Valid() && Reached(m, p) && InReach(arrived, m) && (p > 0 ==> m in arrived)
      ensures Lands(Forward(Pending(arrived, m, p), At(first, Start(m) + p), room, sends), arrived, Start(m) + p,
                    m', p')
      decreases |pieces| - m
    {
      var q, remote := Pending(arrived, m, p), At(first, Start(m) + p);
      if Ready(q, remote, room) {
        if m !in arrived || m == |pieces| {
          HeadMissing(arrived, m, room);
        }
        var k := Counted(Next(sends), Unsent(q.head));
        if k == Unsent(q.head) {
          ReachGrows(arrived, m);
          m', p' := AnyPass(arrived, m + 1, 0, room - k, Rest(sends));
          PieceLands(arrived, m, p, room, sends, m', p');
        } else {
          PiecePart(arrived, m, p, room, sends, k);
          m', p' := m, p + k;
        }
      } else {
        m', p' := m, p;
        PlaceWithin(m, p);
      }
    }

    lemma LandsBefore(pass: Pass, more: Pass, arrived: set<nat>, from: nat, mid: nat, m: nat, p: nat)
      requires Valid() && from <= mid <= |All()| && Lands(more, arrived, mid, m, p)
      requires pass.queue == more.queue && pass.remoteSeq == more.remoteSeq
      requires pass.accepted == All()[from..mid] + more.accepted
      ensures Lands(pass, arrived, from, m, p)
    {
      JoinParts(from, mid, Start(m) + p);
    }

    lemma PieceLands(arrived: set<nat>, m: nat, p: nat, room: int, sends: seq<int>, m': nat, p': nat)
      requires Valid() && Reached(m, p) && m in arrived && m < |pieces|
      requires Ready(Pending(arrived, m, p), At(first, Start(m) + p), room)
      requires Counted(Next(sends), |pieces[m]| - p) == |pieces[m]| - p
      requires Lands(Forward(Pending(arrived, m + 1, 0), At(first, Start(m + 1)), room - (|pieces[m]| - p),
                             Rest(sends)),
                     arrived, Start(m + 1), m', p')
      ensures Lands(Forward(Pending(arrived, m, p), At(first, Start(m) + p), room, sends), arrived, Start(m) + p,
                    m', p')
    {
      PieceDone(arrived, m, p, room, sends);
      RestOfPiece(m, p);
      LandsBefore(Forward(Pending(arrived, m, p), At(first, Start(m) + p), room, sends),
                  Forward(Pending(arrived, m + 1, 0), At(first, Start(m + 1)), room - (|pieces[m]| - p), Rest(sends)),
                  arrived, Start(m) + p, Start(m + 1), m', p');
    }

    /** A turn that sends the rest of a piece. */
    lemma PieceDone(arrived: set<nat>, m: nat, p: nat, room: int, sends: seq<int>)
      requires Valid() && Reached(m, p) && m in arrived && m < |pieces|
      requires Ready(Pending(arrived, m, p), At(first, Start(m) + p), room)
      requires Counted(Next(sends), |pieces[m]| - p) == |pieces[m]| - p
      ensures var pass := Forward(Pending(arrived, m, p), At(first, Start(m) + p), room, sends);
              var more := Forward(Pending(arrived, m + 1, 0), At(first, Start(m + 1)), room - (|pieces[m]| - p),
                                  Rest(sends));
              && pass.queue == more.queue && pass.remoteSeq == more.remoteSeq
              && pass.accepted == pieces[m][p..] + more.accepted
    {
      AtPlus(first, Start(m), |pieces[m]|);
      ForwardTurn(Pending(arrived, m, p), Cons(0, Nil), At(first, Start(m) + p), room, sends);
    }

    lemma RestOfPiece(m: nat, p: nat)
      requires Valid() && m < |pieces| && p < |pieces[m]|
      ensures Start(m) + p <= Start(m + 1) <= |All()| && All()[Start(m) + p..Start(m + 1)] == pieces[m][p..]
    {
      PartAt(m, p, |pieces[m]|);
      PieceAt(m);
      assert pieces[m][p..] == pieces[m][p..|pieces[m]|];
    }

    lemma ReachGrows(arrived: set<nat>, m: nat)
      requires Valid() && m < |pieces| && InReach(arrived, m)
      ensures InReach(arrived, m + 1)
    {
      StartRises(m, m + 1);
    }

    /** A turn that sends a part of it ends the pass. */
    lemma PiecePart(arrived: set<nat>, m: nat, p: nat, room: int, sends: seq<int>, k: nat)
      requires Valid() && Reached(m, p) && InReach(arrived, m) && m in arrived && m < |pieces|
      requires Ready(Pending(arrived, m, p), At(first, Start(m) + p), room)
      requires k == Counted(Next(sends), |pieces[m]| - p) < |pieces[m]| - p
      ensures Lands(Forward(Pending(arrived, m, p), At(first, Start(m) + p), room, sends), arrived, Start(m) + p,
                    m, p + k)
    {
      AtPlus(first, Start(m), p + k);
      PartAt(m, p, p + k);
    }

    lemma JoinParts(i: nat, j: nat, k: nat)
      requires i <= j <= k <= |All()|
      ensures All()[i..j] + All()[j..k] == All()[i..k]
    {
    }
  }

  /** A piece arrives, or the forwarding loop runs. */
  datatype Move = Arrives(k: nat) | Passes(room: int, sends: seq<int>)

  datatype Progress = Progress(queue: Queue, remoteSeq: u32, handed: seq<byte>)

  ghost predicate Playable(c: Cut, moves: seq<Move>) {
    c.Valid() && forall i :: 0 <= i < |moves| && moves[i].Arrives? ==> moves[i].k < |c.pieces|
  }

  ghost function Play(c: Cut, s: Progress, moves: seq<Move>): Progress
    requires Playable(c, moves)
    decreases |moves|
  {
    if moves == [] then s else Play(c, PlayOne(c, s, moves[0]), moves[1..])
  }

  ghost function PlayOne(c: Cut, s: Progress, move: Move): Progress
    requires c.Valid() && (move.Arrives? ==> move.k < |c.pieces|)
  {
    match move
    case Arrives(k) =>
      Progress(Enqueue(s.queue, s.remoteSeq, At(c.first, c.Start(k)), c.pieces[k], c.psh[k]), s.remoteSeq, s.handed)
    case Passes(room, sends) =>
      var pass := Forward(s.queue, s.remoteSeq, room, sends);
      Progress(pass.queue, pass.remoteSeq, s.handed + pass.accepted)
  }

  /** Every piece arrives near the bytes handed on so far. */
  ghost predicate NearHanded(c: Cut, s: Progress, moves: seq<Move>)
    requires Playable(c, moves)
    decreases |moves|
  {
    moves != [] ==>
      && (moves[0].Arrives? ==> |s.handed| - AHEAD <= c.Start(moves[0].k) <= |s.handed| + AHEAD)
      && NearHanded(c, PlayOne(c, s, moves[0]), moves[1..])
  }

  ghost function Arrivals(moves: seq<Move>): set<nat> {
    if moves == [] then {} else (if moves[0].Arrives? then {moves[0].k} else {}) + Arrivals(moves[1..])
  }

  /** A queue and a position that belong together. */
  ghost predicate Fits(c: Cut, s: Progress, arrived: set<nat>, m: nat, p: nat)
    requires c.Valid()
  {
    && c.Reached(m, p) && c.InReach(arrived, m) && (p > 0 ==> m in arrived)
    && s.queue == c.Pending(arrived, m, p) && s.remoteSeq == At(c.first, c.Start(m) + p)
    && c.Start(m) + p <= |c.All()| && s.handed == c.All()[..c.Start(m) + p]
  }

  lemma PlayStep(c: Cut, s: Progress, arrived: set<nat>, m: nat, p: nat, move: Move) returns (m': nat, p': nat)
    requires c.Valid() && Fits(c, s, arrived, m, p)
    requires move.Arrives? ==> move.k < |c.pieces| && |s.handed| - AHEAD <= c.Start(move.k) <= |s.handed| + AHEAD
    ensures Fits(c, PlayOne(c, s, move), if move.Arrives? then arrived + {move.k} else arrived, m', p')
  {
    m', p' := m, p;
    match move
    case Arrives(k) =>
      c.Arrival(arrived, m, p, k);
    case Passes(room, sends) =>
      m', p' := c.AnyPass(arrived, m, p, room, sends);
      c.StartWithin(m);
      assert s.handed + c.All()[c.Start(m) + p..c.Start(m') + p'] == c.All()[..c.Start(m') + p'];
  }

  /** However arrivals and passes alternate, the bytes handed on are a prefix of the text, and the queue is that of
      the pieces that have arrived, from there on. */
  lemma {:induction false} Interleaved(c: Cut, s: Progress, arrived: set<nat>, m: nat, p: nat, moves: seq<Move>)
    returns (m': nat, p': nat)
    requires Playable(c, moves) && Fits(c, s, arrived, m, p) && NearHanded(c, s, moves)
    ensures Fits(c, Play(c, s, moves), arrived + Arrivals(moves), m', p')
    decreases |moves|
  {
    if moves == [] {
      assert arrived + Arrivals(moves) == arrived;
      return m, p;
    }
    var arrived1 := if moves[0].Arrives? then arrived + {moves[0].k} else arrived;
    m', p' := PlayStep(c, s, arrived, m, p, moves[0]);
    m', p' := Interleaved(c, PlayOne(c, s, moves[0]), arrived1, m', p', moves[1..]);
    assert arrived + Arrivals(moves) == arrived1 + Arrivals(moves[1..]);
  }

  /** A number of bytes belongs to one piece and one place in it. */
  lemma PlaceUnique(c: Cut, m: nat, p: nat, n: nat, o: nat)
    requires c.Valid() && c.Reached(m, p) && c.Reached(n, o) && c.Start(m) + p == c.Start(n) + o
    ensures m == n && p == o
  {
    if m < n {
      c.StartRises(m, n);
    } else if n < m {
      c.StartRises(n, m);
    }
  }

  /** So the queue depends only on which pieces have arrived and how many bytes have been handed on, and not on the
      order of arrivals, duplicates and passes. */
  lemma OrderDoesNotMatter(c: Cut, s: Progress, arrived: set<nat>, m: nat, p: nat, moves: seq<Move>, moves': seq<Move>)
    requires Playable(c, moves) && Playable(c, moves') && Fits(c, s, arrived, m, p)
    requires NearHanded(c, s, moves) && NearHanded(c, s, moves')
    requires Arrivals(moves) == Arrivals(moves') && |Play(c, s, moves).handed| == |Play(c, s, moves').handed|
    ensures Play(c, s, moves) == Play(c, s, moves')
  {
    var n, o := Interleaved(c, s, arrived, m, p, moves);
    var n', o' := Interleaved(c, s, arrived, m, p, moves');
    PlaceUnique(c, n, o, n', o');
  }
}
