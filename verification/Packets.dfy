/** The packets written to the tun device: write_tcp of tcp.c and write_udp of udp.c, byte by byte, and the
    receiver's view of them. */
module Packets {
  import opened Words
  import opened Bytes
  import opened Flows
  import opened Checksums
  import Tcp
  import Windows

  const IPDEFTTL: byte := 64
  const IPPROTO_TCP: byte := 6
  const IPPROTO_UDP: byte := 17

  // ----- the bytes of a packet; packets travel from daddr to saddr

  /** The IPv4 header up to its checksum. */
  function Ip4Front(protocol: byte, length: nat): seq<byte> {
    [0x45, 0] + Be16(Short(length)) + [0, 0, 0, 0, IPDEFTTL, protocol]
  }

  function Ip4Header(h: Hosts, protocol: byte, length: nat, check: u16): seq<byte> {
    Ip4Front(protocol, length) + Le16(check) + (h.daddr + h.saddr)
  }

  function Ip6Header(h: Hosts, protocol: byte, length: nat): seq<byte> {
    [0x60, 0, 0, 0] + Be16(Short(length)) + [protocol, IPDEFTTL] + (h.daddr + h.saddr)
  }

  /** The IP header in front of length bytes, with its checksum. */
  function IpHeader(h: Hosts, protocol: byte, length: nat): seq<byte> {
    if h.version == 4 then
      Ip4Header(h, protocol, 20 + length, Complement(Checksum(0, Ip4Header(h, protocol, 20 + length, 0))))
    else Ip6Header(h, protocol, length)
  }

  /** The pseudo header as the program lays it out. For IPv6 the addresses are exchanged and the 16-bit length
      lands in the first half of the 32-bit field. */
  function Pseudo(h: Hosts, protocol: byte, length: nat): seq<byte> {
    if h.version == 4 then h.daddr + h.saddr + ([0, protocol] + Be16(Short(length)))
    else h.saddr + h.daddr + (Be16(Short(length)) + [0, 0] + [0, 0, 0, protocol])
  }

  function Flags(e: Tcp.Emitted): byte {
    (if e.fin then 1 else 0) + (if e.syn then 2 else 0) + (if e.rst then 4 else 0) + (if e.ack then 16 else 0)
  }

  /** MSS (stored in host order), window scale, end of options. */
  function Options(e: Tcp.Emitted, mss: u16, scale: byte): seq<byte> {
    if e.syn then [2, 4] + Le16(mss) + [3, 3, scale, 0] else []
  }

  function TcpFront(f: Flow, e: Tcp.Emitted): seq<byte> {
    Be16(f.dport) + Be16(f.sport) + Be32(e.seqNo) + Be32(e.ackNo) + [if e.syn then 0x70 else 0x50, Flags(e)] +
      Be16(e.window)
  }

  function TcpBack(e: Tcp.Emitted, mss: u16, scale: byte): seq<byte> {
    [0, 0] + Options(e, mss, scale) + e.data
  }

  function UdpFront(f: Flow, data: seq<byte>): seq<byte> {
    Be16(f.dport) + Be16(f.sport) + Be16(Short(8 + |data|))
  }

  /** A transport segment with the checksum of its pseudo header and itself. */
  function SegmentCheck(h: Hosts, protocol: byte, front: seq<byte>, back: seq<byte>): u16 {
    Complement(Checksum(0, Pseudo(h, protocol, |front| + 2 + |back|) + front + Le16(0) + back))
  }

  function IpPacket(h: Hosts, protocol: byte, front: seq<byte>, back: seq<byte>): seq<byte> {
    IpHeader(h, protocol, |front| + 2 + |back|)
    + (front + Le16(SegmentCheck(h, protocol, front, back)) + back)
  }

  function TcpPacket(f: Flow, e: Tcp.Emitted, mss: u16, scale: byte): seq<byte> {
    IpPacket(f.hosts, IPPROTO_TCP, TcpFront(f, e), TcpBack(e, mss, scale))
  }

  function UdpPacket(f: Flow, data: seq<byte>): seq<byte> {
    IpPacket(f.hosts, IPPROTO_UDP, UdpFront(f, data), data)
  }

  // ----- the receiver

  function HeaderLength(h: Hosts): nat {
    if h.version == 4 then 20 else 40
  }

  /** An IP header as its receiver reads it (section 3.1 of RFC 791, section 3 of RFC 8200); length is that of the whole
      packet. */
  datatype Ip = Ip(version: nat, headerLength: nat, length: nat, fragment: bool, ttl: byte, protocol: byte,
                   source: seq<byte>, destination: seq<byte>)

  function ReadIp(b: seq<byte>): Option<Ip> {
    if |b| >= 20 && b[0] / 16 == 4 then
      Some(Ip(4, b[0] % 16 * 4, Be16At(b, 2), b[6] % 0x40 != 0 || b[7] != 0, b[8], b[9], b[12..16], b[16..20]))
    else if |b| >= 40 && b[0] / 16 == 6 then
      Some(Ip(6, 40, 40 + Be16At(b, 4), false, b[7], b[6], b[8..24], b[24..40]))
    else None
  }

  /** The pseudo header of RFC 9293, section 3.1, and RFC 8200, section 8.1. */
  function StandardPseudo(version: nat, source: seq<byte>, destination: seq<byte>, protocol: byte,
                          length: nat): seq<byte> {
    if version == 4 then source + destination + ([0, protocol] + Be16(Short(length)))
    else source + destination + ([0, 0] + Be16(Short(length)) + [0, 0, 0, protocol])
  }

  /** The receiver's checks, on nothing but the packet: an IPv4 header sums to all ones, and so does what is behind the
      header, with the standard pseudo header of the addresses and the protocol read in it. */
  predicate Accepted(packet: seq<byte>) {
    match ReadIp(packet)
    case None => false
    case Some(ip) =>
      && ip.headerLength <= |packet| && !ip.fragment && ip.ttl > 0
      && (ip.version == 4 ==> Verifies(packet[..ip.headerLength]))
      && Verifies(StandardPseudo(ip.version, ip.source, ip.destination, ip.protocol, |packet| - ip.headerLength)
                  + packet[ip.headerLength..])
  }

  /** What the receiver reads: a packet from the address the session talks to, for its own. */
  function Expected(h: Hosts, protocol: byte, length: nat): Ip {
    if h.version == 4 then Ip(4, 20, Short(20 + length), false, 64, protocol, h.daddr, h.saddr)
    else Ip(6, 40, 40 + Short(length), false, 64, protocol, h.daddr, h.saddr)
  }

  lemma HeaderRead(h: Hosts, protocol: byte, length: nat, segment: seq<byte>)
    requires Addressed(h)
    ensures |IpHeader(h, protocol, length)| == HeaderLength(h)
    ensures ReadIp(IpHeader(h, protocol, length) + segment) == Some(Expected(h, protocol, length))
  {
    var ip := IpHeader(h, protocol, length);
    var b := ip + segment;
    assert forall i :: 0 <= i < |ip| ==> b[i] == ip[i];
    if h.version == 4 {
      Header4Fields(h, protocol, 20 + length, Complement(Checksum(0, Ip4Header(h, protocol, 20 + length, 0))));
      assert b[12..16] == ip[12..16] && b[16..20] == ip[16..20];
    } else {
      Header6Fields(h, protocol, length);
      assert b[8..24] == ip[8..24] && b[24..40] == ip[24..40];
    }
  }

  lemma Header4Fields(h: Hosts, protocol: byte, length: nat, check: u16)
    requires Addressed(h) && h.version == 4
    ensures var b := Ip4Header(h, protocol, length, check);
            && |b| == 20 && b[0] == 0x45 && Be16At(b, 2) == Short(length) && b[6] == b[7] == 0 && b[8] == 64
            && b[9] == protocol && b[12..16] == h.daddr && b[16..20] == h.saddr
  {
  }

  lemma Header6Fields(h: Hosts, protocol: byte, length: nat)
    requires Addressed(h) && h.version != 4
    ensures var b := Ip6Header(h, protocol, length);
            && |b| == 40 && b[0] == 0x60 && Be16At(b, 4) == Short(length) && b[6] == protocol && b[7] == 64
            && b[8..24] == h.daddr && b[24..40] == h.saddr
  {
  }

  /** The exchanged halves of the IPv6 pseudo header do not change its sum. */
  lemma {:induction false} PseudoSum(h: Hosts, protocol: byte, length: nat)
    requires Addressed(h)
    ensures |Pseudo(h, protocol, length)| % 2 == 0 &&
            |StandardPseudo(h.version, h.daddr, h.saddr, protocol, length)| % 2 == 0
    ensures WordSum(Pseudo(h, protocol, length)) ==
            WordSum(StandardPseudo(h.version, h.daddr, h.saddr, protocol, length))
  {
    if h.version != 4 {
      var l, p := Be16(Short(length)), [0, 0, 0, protocol];
      WordSumAppend(h.saddr + h.daddr, l + [0, 0] + p);
      WordSumAppend(h.saddr, h.daddr);
      WordSumAppend(h.daddr + h.saddr, [0, 0] + l + p);
      WordSumAppend(h.daddr, h.saddr);
      WordSumAppend(l + [0, 0], p);
      WordSumAppend([0, 0] + l, p);
      WordSumAppend(l, [0, 0]);
      WordSumAppend([0, 0], l);
    }
  }

  lemma Regroup(a: seq<byte>, b: seq<byte>, c: seq<byte>, d: seq<byte>)
    ensures a + b + c + d == a + (b + c + d)
  {
  }

  /** Exchanging the pseudo header for one of the same sum does not matter to the receiver. */
  lemma {:induction false} SameSumVerifies(a: seq<byte>, b: seq<byte>, segment: seq<byte>)
    requires |a| % 2 == 0 && |b| % 2 == 0 && WordSum(a) == WordSum(b) && Verifies(a + segment)
    ensures Verifies(b + segment)
  {
    WordSumAppend(a, segment);
    WordSumAppend(b, segment);
    AllOnesIff(a + segment);
    AllOnesIff(b + segment);
  }

  lemma {:induction false} CheckedVerifies(pseudo: seq<byte>, standard: seq<byte>, front: seq<byte>, check: u16,
                                           back: seq<byte>)
    requires |pseudo| % 2 == 0 && |standard| % 2 == 0 && |front| % 2 == 0 && WordSum(pseudo) == WordSum(standard)
    requires check == Complement(Checksum(0, pseudo + front + Le16(0) + back))
    ensures Verifies(standard + (front + Le16(check) + back))
  {
    assert Verifies(pseudo + (front + Le16(check) + back)) by {
      ComplementVerifies(pseudo + front, back);
      Regroup(pseudo, front, Le16(check), back);
    }
    SameSumVerifies(pseudo, standard, front + Le16(check) + back);
  }

  lemma {:induction false} SegmentVerifies(h: Hosts, protocol: byte, front: seq<byte>, back: seq<byte>)
    requires Addressed(h) && |front| % 2 == 0
    ensures Verifies(StandardPseudo(h.version, h.daddr, h.saddr, protocol, |front| + 2 + |back|)
                     + (front + Le16(SegmentCheck(h, protocol, front, back)) + back))
  {
    var length := |front| + 2 + |back|;
    PseudoSum(h, protocol, length);
    CheckedVerifies(Pseudo(h, protocol, length), StandardPseudo(h.version, h.daddr, h.saddr, protocol, length),
                    front, SegmentCheck(h, protocol, front, back), back);
  }

  lemma AcceptedIf(h: Hosts, protocol: byte, segment: seq<byte>)
    requires Addressed(h) && (h.version == 4 ==> Verifies(IpHeader(h, protocol, |segment|)))
    requires Verifies(StandardPseudo(h.version, h.daddr, h.saddr, protocol, |segment|) + segment)
    ensures Accepted(IpHeader(h, protocol, |segment|) + segment)
  {
    var ip := IpHeader(h, protocol, |segment|);
    HeaderRead(h, protocol, |segment|, segment);
    assert (ip + segment)[..|ip|] == ip && (ip + segment)[|ip|..] == segment;
  }

  /** Every packet of the program passes the receiver's checks, whatever its payload. */
  lemma PacketAccepted(h: Hosts, protocol: byte, front: seq<byte>, back: seq<byte>)
    requires Addressed(h) && |front| % 2 == 0
    ensures Accepted(IpPacket(h, protocol, front, back))
  {
    var segment := front + Le16(SegmentCheck(h, protocol, front, back)) + back;
    assert |segment| == |front| + 2 + |back|;
    if h.version == 4 {
      ComplementVerifies(Ip4Front(protocol, 20 + |segment|), h.daddr + h.saddr);
    }
    SegmentVerifies(h, protocol, front, back);
    AcceptedIf(h, protocol, segment);
  }

  lemma TcpAccepted(f: Flow, e: Tcp.Emitted, mss: u16, scale: byte)
    requires Addressed(f.hosts)
    ensures Accepted(TcpPacket(f, e, mss, scale))
  {
    PacketAccepted(f.hosts, IPPROTO_TCP, TcpFront(f, e), TcpBack(e, mss, scale));
  }

  lemma UdpAccepted(f: Flow, data: seq<byte>)
    requires Addressed(f.hosts)
    ensures Accepted(UdpPacket(f, data))
  {
    PacketAccepted(f.hosts, IPPROTO_UDP, UdpFront(f, data), data);
  }

  /** The length field of the IP header is the true length exactly when it fits in 16 bits. */
  lemma LengthFieldIff(h: Hosts, protocol: byte, front: seq<byte>, back: seq<byte>)
    requires Addressed(h)
    ensures var packet := IpPacket(h, protocol, front, back);
            |packet| >= HeaderLength(h) &&
            if h.version == 4 then Be16At(packet, 2) == |packet| <==> |packet| <= 0xFFFF
            else Be16At(packet, 4) == |packet| - 40 <==> |packet| - 40 <= 0xFFFF
  {
  }

  /** A TCP segment as its receiver reads it (section 3.1 of RFC 9293). */
  function ReadTcp(b: seq<byte>): (e: Tcp.Emitted)
    requires |b| >= 20
  {
    var flags, offset := b[13], b[12] / 16 * 4;
    Tcp.Emitted(Be32At(b, 4), Be32At(b, 8), flags / 2 % 2 == 1, flags / 16 % 2 == 1, flags % 2 == 1, flags / 4 % 2 == 1,
                Be16At(b, 14), if offset <= |b| then b[offset..] else [])
  }

  /** The receiver reads exactly the packet the relay meant to send, from the host and port the session talks to and
      for its own. */
  lemma TcpRoundTrip(f: Flow, e: Tcp.Emitted, mss: u16, scale: byte)
    requires Addressed(f.hosts)
    ensures var packet := TcpPacket(f, e, mss, scale);
            var n := HeaderLength(f.hosts);
            && |packet| >= n + 20
            && ReadIp(packet) == Some(Expected(f.hosts, 6, |packet| - n))
            && ReadTcp(packet[n..]) == e
            && Be16At(packet, n) == f.dport && Be16At(packet, n + 2) == f.sport
  {
    var front, back := TcpFront(f, e), TcpBack(e, mss, scale);
    var check := SegmentCheck(f.hosts, IPPROTO_TCP, front, back);
    var ip, segment := IpHeader(f.hosts, IPPROTO_TCP, |front| + 2 + |back|), front + Le16(check) + back;
    HeaderRead(f.hosts, IPPROTO_TCP, |front| + 2 + |back|, segment);
    assert (ip + segment)[HeaderLength(f.hosts)..] == segment;
    ReadBack(f, e, mss, scale, check);
    FieldsAfter(ip, segment);
  }

  /** A UDP datagram as its receiver reads it (RFC 768). */
  datatype Udp = Udp(source: u16, destination: u16, length: u16, data: seq<byte>)

  function ReadUdp(b: seq<byte>): Udp
    requires |b| >= 8
  {
    Udp(Be16At(b, 0), Be16At(b, 2), Be16At(b, 4), b[8..])
  }

  /** So does the receiver of a datagram; its length is told if it fits in 16 bits. */
  lemma UdpRoundTrip(f: Flow, data: seq<byte>)
    requires Addressed(f.hosts)
    ensures var packet := UdpPacket(f, data);
            var n := HeaderLength(f.hosts);
            && |packet| == n + 8 + |data|
            && ReadIp(packet) == Some(Expected(f.hosts, 17, 8 + |data|))
            && ReadUdp(packet[n..]) == Udp(f.dport, f.sport, Short(8 + |data|), data)
  {
    var front := UdpFront(f, data);
    var check := SegmentCheck(f.hosts, IPPROTO_UDP, front, data);
    var ip, segment := IpHeader(f.hosts, IPPROTO_UDP, |front| + 2 + |data|), front + Le16(check) + data;
    HeaderRead(f.hosts, IPPROTO_UDP, |front| + 2 + |data|, segment);
    assert (ip + segment)[HeaderLength(f.hosts)..] == segment;
    DatagramRead(f, data, check);
  }

  lemma DatagramRead(f: Flow, data: seq<byte>, check: u16)
    ensures var segment := UdpFront(f, data) + Le16(check) + data;
            |segment| == 8 + |data| && ReadUdp(segment) == Udp(f.dport, f.sport, Short(8 + |data|), data)
  {
    assert (UdpFront(f, data) + Le16(check) + data)[8..] == data;
  }

  /** The options of a SYN as its receiver reads them (section 3.1 of RFC 9293, section 2 of RFC 7323). */
  datatype Announced = Announced(mss: Option<u16>, scale: Option<byte>)

  function ReadOptions(b: seq<byte>): Announced {
    if b == [] || b[0] == 0 then Announced(None, None)
    else if b[0] == 1 then ReadOptions(b[1..])
    else if |b| < 2 || b[1] < 2 || b[1] > |b| then Announced(None, None)
    else
      var rest := ReadOptions(b[b[1]..]);
      if b[0] == 2 && b[1] == 4 then rest.(mss := Some(Be16At(b, 2)))
      else if b[0] == 3 && b[1] == 3 then rest.(scale := Some(b[2]))
      else rest
  }

  /** Behind the header of a SYN the receiver reads the window scale as it is and the MSS with its bytes exchanged, and
      behind any other header it reads no option. */
  lemma OptionsRead(f: Flow, e: Tcp.Emitted, mss: u16, scale: byte)
    requires Addressed(f.hosts)
    ensures var packet := TcpPacket(f, e, mss, scale);
            var segment := packet[HeaderLength(f.hosts)..];
            && |segment| >= 20 && 20 <= segment[12] / 16 * 4 <= |segment|
            && ReadOptions(segment[20..segment[12] / 16 * 4])
               == if e.syn then Announced(Some(Swap(mss)), Some(scale)) else Announced(None, None)
  {
    var front, back := TcpFront(f, e), TcpBack(e, mss, scale);
    var check := SegmentCheck(f.hosts, IPPROTO_TCP, front, back);
    var ip, segment := IpHeader(f.hosts, IPPROTO_TCP, |front| + 2 + |back|), front + Le16(check) + back;
    HeaderRead(f.hosts, IPPROTO_TCP, |front| + 2 + |back|, segment);
    assert (ip + segment)[HeaderLength(f.hosts)..] == segment;
    OptionsPlaced(f, e, mss, scale, check);
    OptionsParsed(e, mss, scale);
  }

  lemma OptionsPlaced(f: Flow, e: Tcp.Emitted, mss: u16, scale: byte, check: u16)
    ensures var segment := TcpFront(f, e) + Le16(check) + TcpBack(e, mss, scale);
            && |segment| >= 20 && 20 <= segment[12] / 16 * 4 <= |segment|
            && segment[20..segment[12] / 16 * 4] == Options(e, mss, scale)
  {
    var segment := TcpFront(f, e) + Le16(check) + TcpBack(e, mss, scale);
    FrontFields(f, e);
    assert segment[12] == TcpFront(f, e)[12];
    assert segment == TcpFront(f, e) + Le16(check) + [0, 0] + Options(e, mss, scale) + e.data;
  }

  lemma OptionsParsed(e: Tcp.Emitted, mss: u16, scale: byte)
    ensures ReadOptions(Options(e, mss, scale))
         == if e.syn then Announced(Some(Swap(mss)), Some(scale)) else Announced(None, None)
  {
    if e.syn {
      var options := Options(e, mss, scale);
      assert options[4..] == [3, 3, scale, 0] && [3, 3, scale, 0][3..] == [0];
      assert ReadOptions([0]) == Announced(None, None);
      assert ReadOptions([3, 3, scale, 0]) == Announced(None, Some(scale));
      assert Be16At(options, 2) == Swap(mss);
    }
  }

  lemma FieldsAfter(ip: seq<byte>, segment: seq<byte>)
    requires |segment| >= 4
    ensures Be16At(ip + segment, |ip|) == Be16At(segment, 0)
    ensures Be16At(ip + segment, |ip| + 2) == Be16At(segment, 2)
  {
  }

  lemma ReadBack(f: Flow, e: Tcp.Emitted, mss: u16, scale: byte, check: u16)
    ensures var segment := TcpFront(f, e) + Le16(check) + TcpBack(e, mss, scale);
            && |segment| >= 20
            && ReadTcp(segment) == e && Be16At(segment, 0) == f.dport && Be16At(segment, 2) == f.sport
  {
    var front, back := TcpFront(f, e), TcpBack(e, mss, scale);
    var segment := front + Le16(check) + back;
    assert segment[..16] == front;
    ReadFront(f, e, segment);
    assert segment == front + Le16(check) + ([0, 0] + Options(e, mss, scale)) + e.data;
  }

  /** All but the data is in the first 16 bytes. */
  lemma ReadFront(f: Flow, e: Tcp.Emitted, b: seq<byte>)
    requires |b| >= 20 && b[..16] == TcpFront(f, e)
    ensures Be16At(b, 0) == f.dport && Be16At(b, 2) == f.sport
    ensures var offset := if e.syn then 28 else 20;
            ReadTcp(b) == e.(data := if offset <= |b| then b[offset..] else [])
  {
    var front := TcpFront(f, e);
    FrontFields(f, e);
    FlagBits(e);
    assert forall i :: 0 <= i < 16 ==> b[i] == front[i];
  }

  lemma FlagBits(e: Tcp.Emitted)
    ensures var flags := Flags(e);
            && (flags % 2 == 1 <==> e.fin) && (flags / 2 % 2 == 1 <==> e.syn)
            && (flags / 4 % 2 == 1 <==> e.rst) && (flags / 16 % 2 == 1 <==> e.ack)
  {
  }

  lemma FrontFields(f: Flow, e: Tcp.Emitted)
    ensures var b := TcpFront(f, e);
            && |b| == 16 && Be16At(b, 0) == f.dport && Be16At(b, 2) == f.sport
            && Be32At(b, 4) == e.seqNo && Be32At(b, 8) == e.ackNo && Be16At(b, 14) == e.window
            && b[12] == (if e.syn then 0x70 else 0x50) && b[13] == Flags(e)
  {
  }

  /** A UDP checksum that comes out as zero is sent as zero, which means no checksum: this happens exactly when
      the sum over pseudo header and datagram is a multiple of 65535. */
  lemma UdpChecksumAbsentIff(f: Flow, data: seq<byte>)
    requires Addressed(f.hosts)
    ensures var sum := WordSum(Pseudo(f.hosts, IPPROTO_UDP, 8 + |data|)) + WordSum(UdpFront(f, data)) + WordSum(data);
            SegmentCheck(f.hosts, IPPROTO_UDP, UdpFront(f, data), data) == 0 <==> sum > 0 && sum % 0xFFFF == 0
  {
    var pseudo, front := Pseudo(f.hosts, IPPROTO_UDP, 8 + |data|), UdpFront(f, data);
    PseudoSum(f.hosts, IPPROTO_UDP, 8 + |data|);
    FieldSum(pseudo + front, 0, data);
    WordSumAppend(pseudo, front);
    AllOnesIff(pseudo + front + Le16(0) + data);
    VerifiesInHostOrder(pseudo + front + Le16(0) + data);
  }

  /** Such datagrams exist. */
  lemma UdpChecksumCanBeAbsent() returns (f: Flow, data: seq<byte>)
    ensures Addressed(f.hosts) && SegmentCheck(f.hosts, IPPROTO_UDP, UdpFront(f, data), data) == 0
  {
    var zero: seq<byte> := [0, 0, 0, 0];
    f, data := Flow(Hosts(4, zero, zero), 0, 0), [0xFF, 0xDA];
    assert Pseudo(f.hosts, IPPROTO_UDP, 10) == zero + zero + [0, 17, 0, 10];
    WordSumAppend(zero + zero, [0, 17, 0, 10]);
    WordSumAppend(zero, zero);
    assert UdpFront(f, data) == zero + [0, 10];
    WordSumAppend(zero, [0, 10]);
    UdpChecksumAbsentIff(f, data);
  }

  /** The MSS option is stored without htons: the peer reads it with its bytes exchanged. */
  lemma MssReadSwapped(f: Flow, e: Tcp.Emitted, mss: u16, scale: byte)
    requires Addressed(f.hosts) && e.syn
    ensures var packet := TcpPacket(f, e, mss, scale);
            var option := HeaderLength(f.hosts) + 22;
            && |packet| >= option + 2
            && [packet[option], packet[option + 1]] == Le16(mss)
            && Be16At(packet, option) == Swap(mss)
  {
    var front, back := TcpFront(f, e), TcpBack(e, mss, scale);
    var check := SegmentCheck(f.hosts, IPPROTO_TCP, front, back);
    var ip := IpHeader(f.hosts, IPPROTO_TCP, |front| + 2 + |back|);
    BehindCheck(ip, front, check, back);
    var packet := TcpPacket(f, e, mss, scale);
    assert packet[|ip| + 22] == packet[|ip| + 18..][4] && packet[|ip| + 23] == packet[|ip| + 18..][5];
  }

  lemma BehindCheck(ip: seq<byte>, front: seq<byte>, check: u16, back: seq<byte>)
    ensures (ip + (front + Le16(check) + back))[|ip| + |front| + 2..] == back
  {
  }

  // ----- the program

  /** memcpy, and assignment to the fields of a header: bytes are stored behind those already built. */
  method Put(buffer: array<byte>, at: nat, bytes: seq<byte>)
    requires at + |bytes| <= buffer.Length
    modifies buffer
    ensures buffer[..at + |bytes|] == old(buffer[..at]) + bytes
    ensures buffer[at + |bytes|..] == old(buffer[at + |bytes|..])
  {
    for i := 0 to |bytes|
      invariant buffer[..at + i] == old(buffer[..at]) + bytes[..i]
      invariant buffer[at + i..] == old(buffer[at + i..])
    {
      ghost var rest := buffer[at + i..];
      buffer[at + i] := bytes[i];
      assert buffer[at + i + 1..] == rest[1..];
    }
  }

  /** A checksum is stored once the bytes around it are in place. */
  method PutCheck(buffer: array<byte>, at: nat, check: u16)
    requires at + 2 <= buffer.Length
    modifies buffer
    ensures buffer[..] == old(buffer[..at]) + Le16(check) + old(buffer[at + 2..])
  {
    buffer[at] := check % 0x100;
    buffer[at + 1] := check / 0x100;
  }

  method BuildIp4(buffer: array<byte>, h: Hosts, protocol: byte)
    requires Addressed(h) && h.version == 4 && buffer.Length >= 20
    modifies buffer
    ensures buffer[..20] == IpHeader(h, protocol, buffer.Length - 20)
  {
    Put(buffer, 0, Ip4Front(protocol, buffer.Length));
    Put(buffer, 10, Le16(0));
    Put(buffer, 12, h.daddr + h.saddr);
    var csum := CalcChecksum(0, buffer[..20]);
    ghost var front, blank := Ip4Front(protocol, buffer.Length), Ip4Header(h, protocol, buffer.Length, 0);
    assert buffer[..20] == blank;
    assert buffer[..10] == blank[..10] == front;
    assert buffer[12..20] == blank[12..] == h.daddr + h.saddr;
    PutCheck(buffer, 10, Complement(csum));
  }

  /** The IP header, and the sum of the pseudo header. */
  method BuildIp(buffer: array<byte>, h: Hosts, protocol: byte) returns (csum: u16)
    requires Addressed(h) && buffer.Length >= HeaderLength(h)
    modifies buffer
    ensures buffer[..HeaderLength(h)] == IpHeader(h, protocol, buffer.Length - HeaderLength(h))
    ensures csum == Checksum(0, Pseudo(h, protocol, buffer.Length - HeaderLength(h)))
  {
    if h.version == 4 {
      BuildIp4(buffer, h, protocol);
    } else {
      Put(buffer, 0, Ip6Header(h, protocol, buffer.Length - 40));
    }
    csum := CalcChecksum(0, Pseudo(h, protocol, buffer.Length - HeaderLength(h)));
  }

  /** Summing the pieces of a segment one after the other sums the segment. */
  lemma {:induction false} PiecesSum(pseudo: seq<byte>, header: seq<byte>, options: seq<byte>, data: seq<byte>)
    requires |pseudo| % 2 == 0 && |header| % 2 == 0 && |options| % 2 == 0
    ensures Checksum(Checksum(Checksum(Checksum(0, pseudo), header), options), data)
            == Checksum(0, pseudo + header + options + data)
  {
    Chaining(0, pseudo, header);
    Chaining(0, pseudo + header, options);
    Chaining(0, pseudo + header + options, data);
  }

  /** So the program's running sum ends with the check of the whole segment. */
  lemma {:induction false} RunningSum(h: Hosts, protocol: byte, front: seq<byte>, back: seq<byte>,
                                      header: seq<byte>, options: seq<byte>, data: seq<byte>)
    requires Addressed(h) && |header| % 2 == 0 && |options| % 2 == 0
    requires header + options + data == front + Le16(0) + back
    ensures var start := Checksum(0, Pseudo(h, protocol, |header| + |options| + |data|));
            Complement(Checksum(Checksum(Checksum(start, header), options), data))
            == SegmentCheck(h, protocol, front, back)
  {
    var pseudo := Pseudo(h, protocol, |front| + 2 + |back|);
    assert |header + options + data| == |front| + 2 + |back|;
    PseudoSum(h, protocol, |front| + 2 + |back|);
    PiecesSum(pseudo, header, options, data);
    assert pseudo + header + options + data == pseudo + (header + options + data);
    assert pseudo + front + Le16(0) + back == pseudo + (front + Le16(0) + back);
  }

  /** The TCP header with its checksum still zero. */
  function BlankHeader(f: Flow, e: Tcp.Emitted): seq<byte> {
    TcpFront(f, e) + Le16(0) + [0, 0]
  }

  lemma TcpPieces(f: Flow, e: Tcp.Emitted, mss: u16, scale: byte)
    ensures |TcpFront(f, e)| == 16 && |BlankHeader(f, e)| == 20
    ensures |Options(e, mss, scale)| == if e.syn then 8 else 0
    ensures BlankHeader(f, e) + Options(e, mss, scale) + e.data == TcpFront(f, e) + Le16(0) + TcpBack(e, mss, scale)
  {
  }

  /** The UDP header with its checksum still zero. */
  function BlankUdp(f: Flow, data: seq<byte>): seq<byte> {
    UdpFront(f, data) + Le16(0)
  }

  lemma UdpPieces(f: Flow, data: seq<byte>)
    ensures |UdpFront(f, data)| == 6 && |BlankUdp(f, data)| == 8
    ensures BlankUdp(f, data) + [] + data == UdpFront(f, data) + Le16(0) + data
  {
  }

  lemma CheckStored(ip: seq<byte>, front: seq<byte>, check: u16, back: seq<byte>, b: seq<byte>)
    requires b == ip + (front + Le16(0) + back)
    ensures b[..|ip| + |front|] + Le16(check) + b[|ip| + |front| + 2..] == ip + (front + Le16(check) + back)
  {
  }

  /** write_tcp: the packet the session state asks for, as Tcp.Emit records it. The caller passes at most an
      mss, a uint16_t, of data. */
  method WriteTcp(f: Flow, t: Tcp.Tcb, mss: u16, data: seq<byte>, syn: bool, ack: bool, fin: bool, rst: bool)
    returns (buffer: array<byte>)
    requires Addressed(f.hosts) && |data| <= 0xFFFF
    ensures fresh(buffer)
    ensures buffer[..] == TcpPacket(f, Tcp.Emit(t, syn, ack, fin, rst, data).out[|t.out|], mss, t.recvScale)
  {
    var e := Tcp.Emitted(t.localSeq, if ack then t.remoteSeq else 0, syn, ack, fin, rst,
                         Windows.WindowField(t.recvWindow, t.recvScale), data);
    buffer := BuildTcp(f, e, mss, t.recvScale);
  }

  method BuildTcp(f: Flow, e: Tcp.Emitted, mss: u16, scale: byte) returns (buffer: array<byte>)
    requires Addressed(f.hosts) && |e.data| <= 0xFFFF
    ensures fresh(buffer)
    ensures buffer[..] == TcpPacket(f, e, mss, scale)
  {
    var optlen := if e.syn then 8 else 0;
    var ip := HeaderLength(f.hosts);
    buffer := new byte[ip + 20 + optlen + |e.data|];
    var csum := BuildIp(buffer, f.hosts, IPPROTO_TCP);
    ghost var front, back := TcpFront(f, e), TcpBack(e, mss, scale);
    TcpPieces(f, e, mss, scale);
    csum := PutSegment(buffer, f.hosts, IPPROTO_TCP, csum, BlankHeader(f, e), Options(e, mss, scale), e.data, front,
                       back);
    CheckStored(IpHeader(f.hosts, IPPROTO_TCP, |front| + 2 + |back|), front, Complement(csum), back, buffer[..]);
    PutCheck(buffer, ip + 16, Complement(csum));
  }

  /** The transport header, its options and the data behind the IP header, and the sum continued over them. */
  method PutSegment(buffer: array<byte>, h: Hosts, protocol: byte, start: u16,
                    header: seq<byte>, options: seq<byte>, data: seq<byte>,
                    ghost front: seq<byte>, ghost back: seq<byte>)
    returns (csum: u16)
    requires Addressed(h) && HeaderLength(h) + |header| + |options| + |data| == buffer.Length
    requires |header| <= CAPACITY && |options| <= CAPACITY && |data| <= CAPACITY
    requires |header| % 2 == 0 && |options| % 2 == 0
    requires header + options + data == front + Le16(0) + back
    requires start == Checksum(0, Pseudo(h, protocol, |header| + |options| + |data|))
    modifies buffer
    ensures buffer[..] == old(buffer[..HeaderLength(h)]) + (front + Le16(0) + back)
    ensures Complement(csum) == SegmentCheck(h, protocol, front, back)
  {
    var at := HeaderLength(h);
    ghost var ip := buffer[..at];
    Put(buffer, at, header);
    Put(buffer, at + |header|, options);
    Put(buffer, at + |header| + |options|, data);
    assert buffer[..] == buffer[..buffer.Length] == ip + header + options + data;
    Regroup(ip, header, options, data);
    csum := SumPieces(start, header, options, data);
    RunningSum(h, protocol, front, back, header, options, data);
  }

  method SumPieces(start: u16, header: seq<byte>, options: seq<byte>, data: seq<byte>) returns (csum: u16)
    requires |header| <= CAPACITY && |options| <= CAPACITY && |data| <= CAPACITY
    ensures csum == Checksum(Checksum(Checksum(start, header), options), data)
  {
    csum := CalcChecksum(start, header);
    csum := CalcChecksum(csum, options);
    csum := CalcChecksum(csum, data);
  }

  /** write_udp. */
  method WriteUdp(f: Flow, data: seq<byte>) returns (buffer: array<byte>)
    requires Addressed(f.hosts) && |data| <= 0xFFFF
    ensures fresh(buffer)
    ensures buffer[..] == UdpPacket(f, data)
  {
    var ip := HeaderLength(f.hosts);
    buffer := new byte[ip + 8 + |data|];
    var csum := BuildIp(buffer, f.hosts, IPPROTO_UDP);
    ghost var front := UdpFront(f, data);
    UdpPieces(f, data);
    csum := PutSegment(buffer, f.hosts, IPPROTO_UDP, csum, BlankUdp(f, data), [], data, front, data);
    CheckStored(IpHeader(f.hosts, IPPROTO_UDP, |front| + 2 + |data|), front, Complement(csum), data, buffer[..]);
    PutCheck(buffer, ip + 6, Complement(csum));
  }
}
