/** The server name of a TLS ClientHello: tls.c, which copies it into a buffer of its caller. */
module Tls {
  import opened Words
  import opened Bytes

  const FQDN_MAX := 255
  const TLS_HEADER_LEN := 5

  // ----- what the parsers find

  /** The first host_name in a list of server names, cut off at FQDN_MAX. */
  function HostIn(names: seq<byte>): (host: Option<seq<byte>>)
    ensures host.Some? ==> |host.value| <= FQDN_MAX
    decreases |names|
  {
    if |names| <= 3 then None
    else
      var len := Be16At(names, 1);
      if 3 + len > |names| then None
      else if names[0] == 0 then Some(names[3..3 + Min(len, FQDN_MAX)])
      else HostIn(names[3 + len..])
  }

  function HostInNames(body: seq<byte>): Option<seq<byte>> {
    if |body| < 2 then None else HostIn(body[2..])
  }

  function HostInExtensions(b: seq<byte>): (host: Option<seq<byte>>)
    ensures host.Some? ==> |host.value| <= FQDN_MAX
    decreases |b|
  {
    if |b| < 4 then None
    else
      var len := Be16At(b, 2);
      if 4 + len > |b| then None
      else if b[0] == 0 && b[1] == 0 then HostInNames(b[4..4 + len])
      else HostInExtensions(b[4 + len..])
  }

  /** The value of a char, which is signed on some machines. */
  function Char(signed: bool, b: byte): int {
    if signed && b >= 0x80 then b - 0x100 else b
  }

  /** A record that is all there and starts a ClientHello. */
  predicate IsClientHello(signed: bool, data: seq<byte>) {
    && |data| >= TLS_HEADER_LEN
    && data[0] == 0x16 && Char(signed, data[1]) >= 3
    && 1 <= Be16At(data, 3) <= |data| - TLS_HEADER_LEN
    && data[5] == 1
  }

  /** The position behind a vector with a length of one byte. */
  function Skip1(b: seq<byte>, pos: nat): Option<nat> {
    if pos + 1 > |b| then None else Some(pos + 1 + b[pos])
  }

  /** The position behind a vector with a length of two bytes. */
  function Skip2(b: seq<byte>, pos: nat): Option<nat> {
    if pos + 2 > |b| then None else Some(pos + 2 + Be16At(b, pos))
  }

  /** Where the extensions start: behind session id, cipher suites and compression methods. */
  function ExtensionsAt(b: seq<byte>): Option<nat> {
    match Skip1(b, 43)
    case None => None
    case Some(ciphers) =>
      match Skip2(b, ciphers)
      case None => None
      case Some(compression) => Skip1(b, compression)
  }

  function HostInHello(b: seq<byte>): (host: Option<seq<byte>>)
    ensures host.Some? ==> |host.value| <= FQDN_MAX
  {
    match ExtensionsAt(b)
    case None => None
    case Some(pos) =>
      if pos + 2 > |b| || pos + 2 + Be16At(b, pos) > |b| then None
      else HostInExtensions(b[pos + 2..pos + 2 + Be16At(b, pos)])
  }

  function HostInRecord(signed: bool, data: seq<byte>): (host: Option<seq<byte>>)
    ensures host.Some? ==> |host.value| <= FQDN_MAX
  {
    if IsClientHello(signed, data) then HostInHello(data[..TLS_HEADER_LEN + Be16At(data, 3)]) else None
  }

  /** What the caller's buffer holds afterwards: the name, cut off at a NUL and filled up with NULs to its
      length, and a terminator. */
  function Output(host: Option<seq<byte>>, was: seq<byte>): seq<byte>
    requires host.Some? ==> |host.value| < |was|
  {
    match host
    case None => was
    case Some(name) => UpToNul(name) + Zeros(|name| - |UpToNul(name)|) + [0] + was[|name| + 1..]
  }

  // ----- the parsers

  /** strncpy and the terminator behind it. */
  method CopyName(name: seq<byte>, hostname: array<byte>)
    requires |name| <= FQDN_MAX < hostname.Length
    modifies hostname
    ensures hostname[..] == Output(Some(name), old(hostname[..]))
  {
    StrNCpy(hostname, name);
    ghost var tail := hostname[|name|..];
    hostname[|name|] := 0;
    assert hostname[|name| + 1..] == tail[1..] == old(hostname[..])[|name| + 1..];
    assert hostname[..] == hostname[..|name|] + [0] + hostname[|name| + 1..];
  }

  method ParseServerNameExtension(data: seq<byte>, hostname: array<byte>)
    requires hostname.Length > FQDN_MAX
    modifies hostname
    ensures hostname[..] == Output(HostInNames(data), old(hostname[..]))
  {
    var pos := 2;
    while pos + 3 < |data|
      invariant 2 <= pos
      invariant hostname[..] == old(hostname[..])
      invariant HostInNames(data) == if pos <= |data| then HostIn(data[pos..]) else None
    {
      ghost var rest := data[pos..];
      var len := Be16At(data, pos + 1);
      assert Be16At(rest, 1) == len;
      if pos + 3 + len > |data| {
        return;
      }
      if data[pos] == 0 {
        len := Min(len, FQDN_MAX);
        assert rest[3..3 + len] == data[pos + 3..pos + 3 + len];
        CopyName(data[pos + 3..pos + 3 + len], hostname);
        return;
      }
      assert rest[3 + len..] == data[pos + 3 + len..];
      pos := pos + 3 + len;
    }
  }

  method ParseExtensions(data: seq<byte>, hostname: array<byte>)
    requires hostname.Length > FQDN_MAX
    modifies hostname
    ensures hostname[..] == Output(HostInExtensions(data), old(hostname[..]))
  {
    var pos := 0;
    while pos + 4 <= |data|
      invariant hostname[..] == old(hostname[..])
      invariant HostInExtensions(data) == if pos <= |data| then HostInExtensions(data[pos..]) else None
    {
      ghost var rest := data[pos..];
      var len := Be16At(data, pos + 2);
      assert Be16At(rest, 2) == len;
      if data[pos] == 0 && data[pos + 1] == 0 {
        if pos + 4 + len > |data| {
          return;
        }
        assert rest[4..4 + len] == data[pos + 4..pos + 4 + len];
        ParseServerNameExtension(data[pos + 4..pos + 4 + len], hostname);
        return;
      }
      if pos + 4 + len <= |data| {
        assert rest[4 + len..] == data[pos + 4 + len..];
      }
      pos := pos + 4 + len;
    }
  }

  method ParseTlsHeader(signed: bool, data: seq<byte>, hostname: array<byte>)
    requires hostname.Length > FQDN_MAX
    modifies hostname
    ensures hostname[..] == Output(HostInRecord(signed, data), old(hostname[..]))
  {
    if |data| < TLS_HEADER_LEN {
      return;
    }
    if data[0] >= 0x80 && data[2] == 1 {
      return;
    }
    if data[0] != 0x16 {
      return;
    }
    var major, minor := Char(signed, data[1]), Char(signed, data[2]);
    if major < 3 {
      return;
    }
    var len := Be16At(data, 3) + TLS_HEADER_LEN;
    var dataLen := Min(|data|, len);
    if dataLen < len {
      return;
    }
    if TLS_HEADER_LEN + 1 > dataLen {
      return;
    }
    if data[TLS_HEADER_LEN] != 1 {
      return;
    }
    ParseFields(data[..dataLen], major == 3 && minor == 0, hostname);
  }

  /** The rest of parse_tls_header: the fields behind the fixed ones. */
  method ParseFields(b: seq<byte>, ssl3: bool, hostname: array<byte>)
    requires hostname.Length > FQDN_MAX
    modifies hostname
    ensures hostname[..] == Output(HostInHello(b), old(hostname[..]))
  {
    var pos := TLS_HEADER_LEN + 38;
    ghost var at, host := ExtensionsAt(b), HostInHello(b);
    // session id
    if pos + 1 > |b| {
      assert at.None? && host.None?;
      return;
    }
    pos := pos + 1 + b[pos];
    // cipher suites
    if pos + 2 > |b| {
      assert at.None? && host.None?;
      return;
    }
    pos := pos + 2 + Be16At(b, pos);
    // compression methods
    if pos + 1 > |b| {
      assert at.None? && host.None?;
      return;
    }
    pos := pos + 1 + b[pos];
    assert at == Some(pos);
    if pos == |b| && ssl3 {
      assert host.None?;
      return;
    }
    // extensions
    if pos + 2 > |b| {
      assert host.None?;
      return;
    }
    var len := Be16At(b, pos);
    pos := pos + 2;
    if pos + len > |b| {
      assert host.None?;
      return;
    }
    assert host == HostInExtensions(b[pos..pos + len]);
    ParseExtensions(b[pos..pos + len], hostname);
  }
}
