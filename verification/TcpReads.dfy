/** From the server to the client: what the relay reads from the socket is what it writes to the tun device. */
module TcpReads {
  import opened Words
  import opened Serial
  import opened Reassembly
  import opened Windows
  import opened Tcp
  import opened TcpSafety
  import opened TcpBooks
  import opened TcpTunnel
  import opened TcpFlags

  /** The bytes recv() has to give. */
  function Answer(e: SocketEvent): seq<byte> {
    if e.recv.Bytes? then e.recv.data else []
  }

  /** What recv() answers to the request for Size bytes, if the socket is read. */
  function Taken(t: Tcb, ev: Event): seq<byte> {
    if ev.FromSocket? && !ev.se.error && Reads(t, ev.se) then Answer(ev.se)[..Min(|Answer(ev.se)|, Size(t))] else []
  }

  // ----- one step

  lemma {:induction false} DataAppend(a: seq<Emitted>, b: seq<Emitted>)
    ensures DataOf(a + b) == DataOf(a) + DataOf(b)
  {
    if b == [] {
      assert a + b == a;
    } else {
      var n := |b| - 1;
      assert (a + b)[..|a + b| - 1] == a + b[..n];
      DataAppend(a, b[..n]);
    }
  }

  lemma {:induction false} NoData(es: seq<Emitted>, ks: seq<Kind>)
    requires Suits(es, ks) && Data !in ks
    ensures DataOf(es) == []
  {
    if es != [] {
      var n := |es| - 1;
      assert KindOf(es[n]) == ks[n] && es[n].data == [];
      NoData(es[..n], ks[..n]);
    }
  }

  /** A step that writes no data packet leaves the data as it is. */
  lemma SpokeNoData(out: seq<Emitted>, out': seq<Emitted>, ks: seq<Kind>)
    requires Spoke(out, out', ks) && Data !in ks
    ensures DataOf(out') == DataOf(out)
  {
    assert out' == out + out'[|out|..];
    DataAppend(out, out'[|out|..]);
    NoData(out'[|out|..], ks);
  }

  /** The packet written for bytes that are read. */
  lemma ReadWrites(t: Tcb, e: SocketEvent)
    requires DataState(t) && e.input && SendWindow(t.acked, t.localSeq, t.sendWindow) > 0 && Answer(e) != [] &&
             Size(t) > 0
    ensures var t', n := ReadSocket(t, e), Min(|Answer(e)|, Size(t));
            && t'.out == t.out + [DataPacket(t, Answer(e)[..n])] && t'.received == t.received + n
  {
  }

  lemma ReadTakes(t: Tcb, e: SocketEvent)
    requires DataState(t)
    ensures var t' := ReadSocket(t, e);
            var taken := if e.input && SendWindow(t.acked, t.localSeq, t.sendWindow) > 0
                         then Answer(e)[..Min(|Answer(e)|, Size(t))] else [];
            DataOf(t'.out) == DataOf(t.out) + taken && t'.received == t.received + |taken|
  {
    if e.input && SendWindow(t.acked, t.localSeq, t.sendWindow) > 0 && Answer(e) != [] && Size(t) > 0 {
      ReadWrites(t, e);
      assert (t.out + [ReadSocket(t, e).out[|t.out|]])[..|t.out|] == t.out;
    } else {
      ReadSpoke(t, e);
      SpokeNoData(t.out, ReadSocket(t, e).out,
                  if !e.input || SendWindow(t.acked, t.localSeq, t.sendWindow) == 0 then []
                  else match e.recv
                       case Failed(retry) => if retry then [] else [Rst]
                       case Bytes(data) => if t.forward.Nil? then [Fin] else [Rst]);
      ReadsNothing(t, e);
    }
  }

  lemma ReadsNothing(t: Tcb, e: SocketEvent)
    requires !(e.input && SendWindow(t.acked, t.localSeq, t.sendWindow) > 0 && Answer(e) != [] && Size(t) > 0)
    ensures ReadSocket(t, e).received == t.received
  {
  }

  lemma ServeTakes(t: Tcb, e: SocketEvent)
    requires !e.error && t.state != Listen
    ensures var t' := CheckSocket(t, e);
            DataOf(t'.out) == DataOf(t.out) + Taken(t, FromSocket(e)) &&
              t'.received == t.received + |Taken(t, FromSocket(e))|
  {
    var (t1, fwd) := TryForward(t, e);
    ForwardLeaves(t, e);
    AnnounceSpoke(t1, fwd, e);
    AnnounceLeaves(t1, fwd, e);
    var t2 := Announce(t1, fwd, e);
    SpokeNoData(t.out, t2.out, if Announces(t, e) then [Ack] else []);
    if DataState(t2) {
      ReadTakes(t2, e);
    }
  }

  /** A socket event writes to the tun device exactly the bytes read from the socket, and nothing else writes data. */
  lemma StepTakes(t: Tcb, ev: Event)
    requires Sound(t)
    ensures DataOf(Step(t, ev).out) == DataOf(t.out) + Taken(t, ev)
    ensures ev.FromSocket? ==> Step(t, ev).received == t.received + |Taken(t, ev)|
    ensures ev.FromSocket? && Step(t, ev).received > t.received ==>
              Taken(t, ev) == Answer(ev.se)[..Step(t, ev).received - t.received]
  {
    StepSpoke(t, ev);
    if ev.FromSocket? && !ev.se.error && t.state != Listen {
      ServeTakes(t, ev.se);
    } else {
      SpokeNoData(t.out, Step(t, ev).out, Kinds(t, ev));
    }
  }

  /** Data is written in one packet at most. */
  lemma TakenInOnePacket(t: Tcb, e: SocketEvent)
    requires Sound(t) && Taken(t, FromSocket(e)) != []
    ensures var out := CheckSocket(t, e).out;
            |out| > |t.out| && out[|out| - 1].data == Taken(t, FromSocket(e))
  {
    var (t1, fwd) := TryForward(t, e);
    ForwardLeaves(t, e);
    AnnounceSpoke(t1, fwd, e);
    AnnounceLeaves(t1, fwd, e);
    ReadSpoke(Announce(t1, fwd, e), e);
  }

  /** A socket with data that is read gives some of it, exactly unless the peer announced an MSS of 0: recv() is then
      asked for no bytes, and its answer is taken for the end of the data. */
  lemma NothingTakenIff(t: Tcb, e: SocketEvent)
    requires Sound(t) && !e.error && Reads(t, e) && Answer(e) != []
    ensures Taken(t, FromSocket(e)) == [] <==> t.mss == 0
    ensures t.mss == 0 ==> Fin in Kinds(t, FromSocket(e)) || Rst in Kinds(t, FromSocket(e))
    ensures t.mss > 0 ==> Data in Kinds(t, FromSocket(e))
  {
    var ks := ReadKinds(t, e);
    assert ks[|ks| - 1] in Kinds(t, FromSocket(e));
  }

  // ----- runs

  /** All bytes read in a run. */
  function AllTaken(t: Tcb, evs: seq<Event>): seq<byte>
    decreases |evs|
  {
    if evs == [] then [] else Taken(t, evs[0]) + AllTaken(Step(t, evs[0]), evs[1..])
  }

  lemma {:induction false} RunTakes(t: Tcb, evs: seq<Event>)
    requires Sound(t)
    ensures DataOf(Run(t, evs).out) == DataOf(t.out) + AllTaken(t, evs)
    decreases |evs|
  {
    if evs != [] {
      var t1 := Step(t, evs[0]);
      StepTakes(t, evs[0]);
      StepSound(t, evs[0]);
      RunTakes(t1, evs[1..]);
      Regroup(DataOf(t.out), Taken(t, evs[0]), AllTaken(t1, evs[1..]));
    }
  }

  lemma Regroup(a: seq<byte>, b: seq<byte>, c: seq<byte>)
    ensures a + b + c == a + (b + c)
  {
  }

  /** recv() answers with the bytes of the server's stream that follow the n read so far. */
  ghost predicate Serves(t: Tcb, evs: seq<Event>, n: nat, stream: seq<byte>)
    decreases |evs|
  {
    evs != [] ==>
      && (Taken(t, evs[0]) != [] ==> IsSlice(Answer(evs[0].se), n, stream))
      && Serves(Step(t, evs[0]), evs[1..], n + |Taken(t, evs[0])|, stream)
  }

  lemma TakesNext(t: Tcb, evs: seq<Event>, n: nat, stream: seq<byte>)
    requires n <= |stream| && evs != [] && Serves(t, evs, n, stream)
    ensures var taken := Taken(t, evs[0]);
            IsSlice(taken, n, stream) && Serves(Step(t, evs[0]), evs[1..], n + |taken|, stream)
  {
    if Taken(t, evs[0]) != [] {
      SliceOfSlice(Answer(evs[0].se), n, 0, |Taken(t, evs[0])|, stream);
    }
  }

  lemma {:induction false} RunServed(t: Tcb, evs: seq<Event>, n: nat, stream: seq<byte>)
    requires n <= |stream| && Serves(t, evs, n, stream)
    ensures IsSlice(AllTaken(t, evs), n, stream)
    decreases |evs|
  {
    if evs != [] {
      var t1, taken := Step(t, evs[0]), Taken(t, evs[0]);
      TakesNext(t, evs, n, stream);
      RunServed(t1, evs[1..], n + |taken|, stream);
      SliceConcat(taken, AllTaken(t1, evs[1..]), n, stream);
    }
  }

  /** Every data packet is the slice of the stream that its sequence number says. */
  ghost predicate InPlace(e: Emitted, first: u32, stream: seq<byte>) {
    e.data != [] ==> exists pos :: IsSlice(e.data, pos, stream) && e.seqNo == At(first, pos)
  }

  lemma {:induction false} TiledInPlace(out: seq<Emitted>, first: u32, stream: seq<byte>)
    requires Tiled(out, first) && DataOf(out) <= stream
    ensures forall i :: 0 <= i < |out| ==> InPlace(out[i], first, stream)
  {
    if out != [] {
      var n := |out| - 1;
      TiledInPlace(out[..n], first, stream);
      var before := DataOf(out[..n]);
      assert DataOf(out) == before + out[n].data;
      if out[n].data != [] {
        assert out[n].data == stream[|before|..|before| + |out[n].data|];
        assert IsSlice(out[n].data, |before|, stream);
      }
      forall i | 0 <= i < |out| ensures InPlace(out[i], first, stream) {
        if i < n {
          assert out[i] == out[..n][i];
        }
      }
    }
  }

  /** From the SYN on, for every port: the data written is exactly the data read, a prefix of the server's stream; and
      every data packet of a session to another port than that of HTTPS carries the slice of the stream its number says,
      as do those of an HTTPS session that answered its SYN before it asked for its tunnel. */
  lemma ServedFromSyn(p: Packet, dport: u16, mss: u16, scale: Scale, isn: u32, socket: nat, room: u32, now: int,
                      evs: seq<Event>, stream: seq<byte>)
    ensures var t := NewSession(p, dport, mss, scale, isn, socket, room, now);
            var t' := Run(t, evs);
            && DataOf(t'.out) == AllTaken(t, evs)
            && (Serves(t, evs, 0, stream) ==> DataOf(t'.out) <= stream)
            && (Serves(t, evs, 0, stream) && (dport != HTTPS || (t'.connect == Tunnelled && AnsweredFirst(evs))) ==>
                  forall i :: 0 <= i < |t'.out| ==> InPlace(t'.out[i], LocalFirst(t'), stream))
  {
    var t := NewSession(p, dport, mss, scale, isn, socket, room, now);
    var t' := Run(t, evs);
    RunTakes(t, evs);
    if Serves(t, evs, 0, stream) {
      RunServed(t, evs, 0, stream);
      if dport != HTTPS {
        AccountsFromSyn(p, dport, mss, scale, isn, socket, room, now, evs);
        TiledInPlace(t'.out, LocalFirst(t'), stream);
      } else if t'.connect == Tunnelled && AnsweredFirst(evs) {
        TunnelAccountsIff(p, mss, scale, isn, socket, room, now, evs);
        TiledInPlace(t'.out, LocalFirst(t'), stream);
      }
    }
  }
}
