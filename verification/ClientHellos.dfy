/** ClientHello records as RFC 5246 and RFC 6066 write them, and the proof that tls.c reads their server name. */
module ClientHellos {
  import opened Words
  import opened Bytes
  import opened Tls

  /** An entry of a server name list: section 3 of RFC 6066. */
  datatype ServerName = ServerName(nameType: byte, name: seq<byte>)

  datatype Extension = ServerNames(names: seq<ServerName>) | Other(extensionType: u16, body: seq<byte>)

  /** Section 7.4.1.2 of RFC 5246; a client may leave out the extensions altogether. */
  datatype ClientHello = ClientHello(minor: byte, version: seq<byte>, random: seq<byte>, sessionId: seq<byte>,
                                     ciphers: seq<byte>, compression: seq<byte>, extensions: Option<seq<Extension>>)

  // ----- encoding

  function Vec8(b: seq<byte>): seq<byte> {
    [|b| % 0x100] + b
  }

  function Vec16(b: seq<byte>): seq<byte> {
    Be16(|b| % 0x1_0000) + b
  }

  function EncodeNames(names: seq<ServerName>): seq<byte> {
    if |names| == 0 then [] else [names[0].nameType] + Vec16(names[0].name) + EncodeNames(names[1..])
  }

  function EncodeExtension(e: Extension): seq<byte> {
    match e
    case ServerNames(names) => [0, 0] + Vec16(Vec16(EncodeNames(names)))
    case Other(extensionType, body) => Be16(extensionType) + Vec16(body)
  }

  function EncodeExtensions(es: seq<Extension>): seq<byte> {
    if |es| == 0 then [] else EncodeExtension(es[0]) + EncodeExtensions(es[1..])
  }

  function ExtensionBlock(h: ClientHello): seq<byte> {
    match h.extensions { case None => [] case Some(es) => Vec16(EncodeExtensions(es)) }
  }

  function EncodeBody(h: ClientHello): seq<byte> {
    h.version + h.random + Vec8(h.sessionId) + Vec16(h.ciphers) + Vec8(h.compression)
    + ExtensionBlock(h)
  }

  /** Handshake header and body. */
  function EncodeHandshake(h: ClientHello): seq<byte> {
    var length := |EncodeBody(h)|;
    [1, length / 0x1_0000 % 0x100] + Be16(length % 0x1_0000) + EncodeBody(h)
  }

  function EncodeRecord(h: ClientHello): seq<byte> {
    [0x16, 3, h.minor] + Vec16(EncodeHandshake(h))
  }

  /** Every length fits its field, a host_name has at least one byte, and the type of server_name, 0, is not
      used for anything else. */
  predicate WellFormed(h: ClientHello) {
    && |h.version| == 2 && |h.random| == 32 && |h.sessionId| <= 0xFF && |h.compression| <= 0xFF
    && |EncodeHandshake(h)| <= 0xFFFF
    && (h.extensions.Some? ==> forall e <- h.extensions.value :: WellFormedExtension(e))
  }

  predicate WellFormedExtension(e: Extension) {
    match e
    case ServerNames(names) => forall n <- names :: n.nameType == 0 ==> |n.name| > 0
    case Other(extensionType, _) => extensionType != 0
  }

  // ----- the name a server is asked for

  function HostOf(names: seq<ServerName>): Option<seq<byte>> {
    if |names| == 0 then None
    else if names[0].nameType == 0 then Some(names[0].name)
    else HostOf(names[1..])
  }

  function HostOfExtensions(es: seq<Extension>): Option<seq<byte>> {
    if |es| == 0 then None
    else
      match es[0]
      case ServerNames(names) => HostOf(names)
      case Other(_, _) => HostOfExtensions(es[1..])
  }

  /** The first host_name of the first server_name extension. */
  function HostOfHello(h: ClientHello): Option<seq<byte>> {
    if h.extensions.Some? then HostOfExtensions(h.extensions.value) else None
  }

  /** The part of a name that the buffer takes. */
  function Shortened(host: Option<seq<byte>>): Option<seq<byte>> {
    match host
    case None => None
    case Some(name) => Some(name[..Min(|name|, FQDN_MAX)])
  }

  // ----- the parsers invert the encoding

  lemma {:induction false} NamesFound(names: seq<ServerName>)
    requires WellFormedExtension(ServerNames(names)) && |EncodeNames(names)| <= 0xFFFF
    ensures HostIn(EncodeNames(names)) == Shortened(HostOf(names))
  {
    if |names| > 0 {
      var b, n, rest := EncodeNames(names), names[0], EncodeNames(names[1..]);
      assert b[1..] == Vec16(n.name) + rest;
      assert Be16At(b, 1) == |n.name|;
      assert b[3 + |n.name|..] == rest;
      assert b[3..3 + |n.name|] == n.name;
      assert b[3..3 + Min(|n.name|, FQDN_MAX)] == n.name[..Min(|n.name|, FQDN_MAX)];
      NamesFound(names[1..]);
    }
  }

  lemma {:induction false} ExtensionsFound(es: seq<Extension>)
    requires (forall e <- es :: WellFormedExtension(e)) && |EncodeExtensions(es)| <= 0xFFFF
    ensures HostInExtensions(EncodeExtensions(es)) == Shortened(HostOfExtensions(es))
  {
    if |es| > 0 {
      var b, rest := EncodeExtensions(es), EncodeExtensions(es[1..]);
      ExtensionsFound(es[1..]);
      assert WellFormedExtension(es[0]);
      match es[0]
      case ServerNames(names) =>
        var body := Vec16(EncodeNames(names));
        OneExtension([0, 0], body, rest);
        assert body[2..] == EncodeNames(names);
        NamesFound(names);
      case Other(extensionType, body) =>
        OneExtension(Be16(extensionType), body, rest);
        assert extensionType == Be16At(b[..2], 0);
    }
  }

  lemma OneExtension(kind: seq<byte>, body: seq<byte>, rest: seq<byte>)
    requires |kind| == 2 && |body| <= 0xFFFF
    ensures var b := kind + Vec16(body) + rest;
            && |b| == 4 + |body| + |rest| && b[..2] == kind && Be16At(b, 2) == |body|
            && b[4..4 + |body|] == body && b[4 + |body|..] == rest
  {
    var b := kind + Vec16(body) + rest;
    assert b[2..4] == Be16(|body|);
  }

  lemma Skip1Skips(pre: seq<byte>, v: seq<byte>, post: seq<byte>)
    requires |v| <= 0xFF
    ensures Skip1(pre + Vec8(v) + post, |pre|) == Some(|pre + Vec8(v)|)
  {
  }

  lemma Skip2Skips(pre: seq<byte>, v: seq<byte>, post: seq<byte>)
    requires |v| <= 0xFFFF
    ensures Skip2(pre + Vec16(v) + post, |pre|) == Some(|pre + Vec16(v)|)
    ensures (pre + Vec16(v) + post)[|pre| + 2..|pre| + 2 + |v|] == v
  {
    var b := pre + Vec16(v) + post;
    assert b[|pre|..|pre| + 2] == Be16(|v|);
  }

  /** The 43 bytes before the session id. */
  function FixedPart(h: ClientHello): seq<byte> {
    var length := |EncodeBody(h)|;
    [0x16, 3, h.minor] + Be16(|EncodeHandshake(h)| % 0x1_0000)
    + ([1, length / 0x1_0000 % 0x100] + Be16(length % 0x1_0000)) + h.version + h.random
  }

  lemma RecordParts(h: ClientHello)
    ensures EncodeRecord(h) == FixedPart(h) + Vec8(h.sessionId) + Vec16(h.ciphers) + Vec8(h.compression) +
            ExtensionBlock(h)
  {
  }

  lemma ExtensionsLocated(fixed: seq<byte>, sessionId: seq<byte>, ciphers: seq<byte>, compression: seq<byte>,
                          ext: seq<byte>)
    requires |fixed| == 43 && |sessionId| <= 0xFF && |ciphers| <= 0xFFFF && |compression| <= 0xFF
    ensures var pre := fixed + Vec8(sessionId) + Vec16(ciphers) + Vec8(compression);
            ExtensionsAt(pre + ext) == Some(|pre|)
  {
    var b := fixed + Vec8(sessionId) + Vec16(ciphers) + Vec8(compression) + ext;
    assert b == fixed + Vec8(sessionId) + (Vec16(ciphers) + Vec8(compression) + ext);
    Skip1Skips(fixed, sessionId, Vec16(ciphers) + Vec8(compression) + ext);
    assert b == fixed + Vec8(sessionId) + Vec16(ciphers) + (Vec8(compression) + ext);
    Skip2Skips(fixed + Vec8(sessionId), ciphers, Vec8(compression) + ext);
    Skip1Skips(fixed + Vec8(sessionId) + Vec16(ciphers), compression, ext);
  }

  lemma HelloFound(h: ClientHello)
    requires WellFormed(h)
    ensures HostInHello(EncodeRecord(h)) == Shortened(HostOfHello(h))
  {
    var ext := ExtensionBlock(h);
    var pre := FixedPart(h) + Vec8(h.sessionId) + Vec16(h.ciphers) + Vec8(h.compression);
    RecordParts(h);
    ExtensionsLocated(FixedPart(h), h.sessionId, h.ciphers, h.compression, ext);
    assert ExtensionsAt(pre + ext) == Some(|pre|);
    if h.extensions.Some? {
      var es := EncodeExtensions(h.extensions.value);
      assert pre + ext == pre + Vec16(es) + [];
      Skip2Skips(pre, es, []);
      ExtensionsFound(h.extensions.value);
    }
  }

  /** The record header gives the end of the record, whatever follows it. */
  lemma RecordCut(signed: bool, minor: byte, handshake: seq<byte>, tail: seq<byte>)
    requires 1 <= |handshake| <= 0xFFFF && handshake[0] == 1
    ensures var record := [0x16, 3, minor] + Vec16(handshake);
            HostInRecord(signed, record + tail) == HostInHello(record)
  {
    var record := [0x16, 3, minor] + Vec16(handshake);
    var data := record + tail;
    Skip2Skips([0x16, 3, minor], handshake, tail);
    assert Be16At(data, 3) == |handshake|;
    assert data[5] == handshake[0];
    assert data[..5 + |handshake|] == record;
  }

  /** The parser finds the server name of every well-formed ClientHello, whatever follows its record: with any
      session id, ciphers, compression methods and extensions, and any entries before the first host_name. */
  lemma RecordFound(signed: bool, h: ClientHello, tail: seq<byte>)
    requires WellFormed(h)
    ensures HostInRecord(signed, EncodeRecord(h) + tail) == Shortened(HostOfHello(h))
  {
    RecordCut(signed, h.minor, EncodeHandshake(h), tail);
    HelloFound(h);
  }

  lemma TextOfOutput(name: seq<byte>, was: seq<byte>)
    requires |name| <= FQDN_MAX < |was| && 0 !in name
    ensures Shortened(Some(name)) == Some(name) && UpToNul(Output(Some(name), was)) == name
  {
    assert name[..Min(|name|, FQDN_MAX)] == name;
    AllText(name);
    assert Output(Some(name), was) == name + [0] + was[|name| + 1..];
    TextReadBack(name, was[|name| + 1..]);
  }

  /** So a name of 1 to 255 bytes without NUL is what the caller reads from its buffer. */
  lemma NameExtracted(signed: bool, h: ClientHello, tail: seq<byte>, was: seq<byte>)
    requires WellFormed(h) && |was| > FQDN_MAX
    requires HostOfHello(h).Some? && |HostOfHello(h).value| <= FQDN_MAX && 0 !in HostOfHello(h).value
    ensures var host := HostInRecord(signed, EncodeRecord(h) + tail);
            UpToNul(Output(host, was)) == HostOfHello(h).value
  {
    RecordFound(signed, h, tail);
    TextOfOutput(HostOfHello(h).value, was);
  }

  /** Without a server name the buffer is left alone. */
  lemma NothingExtracted(signed: bool, h: ClientHello, tail: seq<byte>, was: seq<byte>)
    requires WellFormed(h) && HostOfHello(h).None?
    ensures var host := HostInRecord(signed, EncodeRecord(h) + tail); host.None? && Output(host, was) == was
  {
    RecordFound(signed, h, tail);
  }
}
