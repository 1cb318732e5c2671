/**
 * The SOCKS5 success reply that handleTCPConnect writes on the local
 * connection (internal/socks/tcp_handle.go): VER, REP, RSV, ATYP, BND.ADDR,
 * BND.PORT, as laid out in section 6 of RFC 1928, with BND taken from the
 * connection's local address.
 */
module Reply {
  import opened Wrappers
  import opened NetIP

  const Ver: Byte := 0x05
  const RepSuccess: Byte := 0x00
  const Rsv: Byte := 0x00
  const AtypIPv4: Byte := 0x01
  const AtypDomain: Byte := 0x03
  const AtypIPv6: Byte := 0x04

  /** Go's int on a 64-bit target. */
  type Int64 = x: int | -0x8000_0000_0000_0000 <= x < 0x8000_0000_0000_0000

  /** A net.TCPAddr (the zone is not used by the encoder). */
  datatype TCPAddr = TCPAddr(ip: IP, port: Int64)

  /**
   * BND.PORT: byte(port>>8) then byte(port&0xff). Go's >> on a signed int is
   * a floor division and byte() keeps the low eight bits, which are Dafny's
   * Euclidean / and % by a positive divisor.
   */
  function PortBytes(port: Int64): (r: seq<Byte>)
    ensures |r| == 2 && r[0] as int * 256 + r[1] as int == port % 65536
  {
    PortSplit(port);
    [(port / 256) % 256, port % 256]
  }

  lemma PortSplit(p: int)
    ensures ((p / 256) % 256) * 256 + p % 256 == p % 65536
  {
  }

  /** ATYP and BND.ADDR: IPv4 when the address has a 4-byte form, else IPv6
      when it has a 16-byte form, else its String() as a length-prefixed name
      whose length byte keeps only the low eight bits. */
  function BoundAddress(ip: IP): seq<Byte> {
    if To4(ip).Some? then [AtypIPv4] + To4(ip).value
    else if To16(ip).Some? then [AtypIPv6] + To16(ip).value
    else
      var host := String(ip);
      [AtypDomain, |host| % 256] + host
  }

  /** The whole success reply for the given local address. */
  function ReplyFrame(local: TCPAddr): seq<Byte> {
    [Ver, RepSuccess, Rsv] + BoundAddress(local.ip) + PortBytes(local.port)
  }

  /** The layout of the reply: header, ATYP and address by the form the
      address has, length, and the port in the last two bytes. */
  lemma ReplyLayout(local: TCPAddr)
    ensures var f := ReplyFrame(local);
      && |f| >= 7 && f[..3] == [Ver, RepSuccess, Rsv]
      && (To4(local.ip).Some? ==>
            |f| == 10 && f[3] == AtypIPv4 && f[4..8] == To4(local.ip).value)
      && (To4(local.ip).None? && To16(local.ip).Some? ==>
            |f| == 22 && f[3] == AtypIPv6 && f[4..20] == local.ip)
      && (To16(local.ip).None? ==>
            var host := String(local.ip);
            |f| == 7 + |host| && f[3] == AtypDomain && f[4] == |host| % 256 && f[5..5 + |host|] == host)
      && f[|f| - 2] as int * 256 + f[|f| - 1] as int == local.port % 65536
  {
    var f := ReplyFrame(local);
    var a := BoundAddress(local.ip);
    var p := PortBytes(local.port);
    assert f == [Ver, RepSuccess, Rsv] + a + p;
    assert f[|f| - 2] == p[0] && f[|f| - 1] == p[1];
    assert f[3..3 + |a|] == a;
    if To4(local.ip).Some? {
      assert f[4..8] == a[1..];
    } else if To16(local.ip).Some? {
      assert f[4..20] == a[1..];
    } else {
      var host := String(local.ip);
      assert f[5..5 + |host|] == a[2..];
    }
  }

  /**
   * The reply as the source builds it: successive appends to the pooled
   * buffer, which is empty when taken from the pool.
   */
  method EncodeReply(local: TCPAddr) returns (buf: seq<Byte>)
    ensures buf == ReplyFrame(local)
    ensures |buf| >= 7 && buf[..3] == [Ver, RepSuccess, Rsv]
    ensures To4(local.ip).Some? ==>
      |buf| == 10 && buf[3] == AtypIPv4 && buf[4..8] == To4(local.ip).value
    ensures To4(local.ip).None? && To16(local.ip).Some? ==>
      |buf| == 22 && buf[3] == AtypIPv6 && buf[4..20] == local.ip
    ensures To16(local.ip).None? ==>
      var host := String(local.ip);
      |buf| == 7 + |host| && buf[3] == AtypDomain && buf[4] == |host| % 256 && buf[5..5 + |host|] == host
    ensures buf[|buf| - 2] as int * 256 + buf[|buf| - 1] as int == local.port % 65536
  {
    buf := [];
    buf := buf + [Ver];
    buf := buf + [RepSuccess];
    buf := buf + [0x00];
    ghost var header := buf;
    assert header == [Ver, RepSuccess, Rsv];
    var ip4 := To4(local.ip);
    if ip4.Some? {
      buf := buf + [AtypIPv4];
      buf := buf + ip4.value;
      assert buf == header + ([AtypIPv4] + ip4.value);
    } else {
      var ip6 := To16(local.ip);
      if ip6.Some? {
        buf := buf + [AtypIPv6];
        buf := buf + ip6.value;
        assert buf == header + ([AtypIPv6] + ip6.value);
      } else {
        var host := String(local.ip);
        buf := buf + [AtypDomain];
        buf := buf + [|host| % 256];
        buf := buf + host;
        assert buf == header + ([AtypDomain, |host| % 256] + host);
      }
    }
    assert buf == header + BoundAddress(local.ip);
    buf := buf + [(local.port / 256) % 256, local.port % 256];
    ReplyLayout(local);
  }

  // ---- a client-side reading of the reply, the encoder's partner ----

  /** BND.ADDR as a client reads it. */
  datatype BoundAddr = IPv4Addr(octets: seq<Byte>) | IPv6Addr(octets: seq<Byte>) | DomainName(name: seq<Byte>)

  /** A parsed reply: REP, BND.ADDR and BND.PORT. */
  datatype ReplyMsg = ReplyMsg(rep: Byte, bound: BoundAddr, port: int)

  /**
   * Parses a byte sequence that should hold exactly one reply, following
   * section 6 of RFC 1928: a version-5 header with a zero reserved byte, a
   * known ATYP, an address of the length ATYP (or the domain length byte)
   * announces, and a big-endian port.
   */
  function ParseReply(f: seq<Byte>): (r: Option<ReplyMsg>)
    ensures r.Some? ==> |f| >= 7 && f[0] == Ver && f[2] == Rsv && r.value.rep == f[1]
    ensures r.Some? ==> 0 <= r.value.port < 65536
  {
    if |f| < 5 || f[0] != Ver || f[2] != Rsv then None
    else if f[3] == AtypIPv4 && |f| == 10 then
      Some(ReplyMsg(f[1], IPv4Addr(f[4..8]), f[8] as int * 256 + f[9] as int))
    else if f[3] == AtypIPv6 && |f| == 22 then
      Some(ReplyMsg(f[1], IPv6Addr(f[4..20]), f[20] as int * 256 + f[21] as int))
    else if f[3] == AtypDomain && |f| == 7 + f[4] as int then
      Some(ReplyMsg(f[1], DomainName(f[5..5 + f[4] as int]), f[5 + f[4] as int] as int * 256 + f[6 + f[4] as int] as int))
    else None
  }

  /** What the client should read back as BND.ADDR for a local IP. */
  function ExpectedBound(ip: IP): BoundAddr {
    if To4(ip).Some? then IPv4Addr(To4(ip).value)
    else if To16(ip).Some? then IPv6Addr(ip)
    else DomainName(String(ip))
  }

  /** Round trip: a client parses the encoded reply back to success, the
      address form the encoder chose and the port (modulo 2^16), as long as
      the domain fallback's name fits its one-byte length. */
  lemma ReplyRoundTrip(local: TCPAddr)
    requires |local.ip| < 128
    ensures ParseReply(ReplyFrame(local)) == Some(ReplyMsg(RepSuccess, ExpectedBound(local.ip), local.port % 65536))
  {
    var ip := local.ip;
    if To4(ip).Some? {
      ParseFixed(To4(ip).value, AtypIPv4, local.port);
    } else if To16(ip).Some? {
      ParseFixed(ip, AtypIPv6, local.port);
    } else {
      ParseDomain(String(ip), local.port);
    }
  }

  lemma ParseFixed(addr: seq<Byte>, atyp: Byte, port: Int64)
    requires (atyp == AtypIPv4 && |addr| == 4) || (atyp == AtypIPv6 && |addr| == 16)
    ensures var f := [Ver, RepSuccess, Rsv] + ([atyp] + addr) + PortBytes(port);
      ParseReply(f) == Some(ReplyMsg(RepSuccess, if atyp == AtypIPv4 then IPv4Addr(addr) else IPv6Addr(addr), port % 65536))
  {
    var f := [Ver, RepSuccess, Rsv] + ([atyp] + addr) + PortBytes(port);
    assert f[4..4 + |addr|] == addr;
    assert f[4 + |addr|] == PortBytes(port)[0] && f[5 + |addr|] == PortBytes(port)[1];
  }

  lemma ParseDomain(host: seq<Byte>, port: Int64)
    requires |host| < 256
    ensures var f := [Ver, RepSuccess, Rsv] + ([AtypDomain, |host| % 256] + host) + PortBytes(port);
      ParseReply(f) == Some(ReplyMsg(RepSuccess, DomainName(host), port % 65536))
  {
    var f := [Ver, RepSuccess, Rsv] + ([AtypDomain, |host| % 256] + host) + PortBytes(port);
    assert f[4] == |host|;
    assert f[5..5 + |host|] == host;
    assert f[5 + |host|] == PortBytes(port)[0] && f[6 + |host|] == PortBytes(port)[1];
  }

  /** The one case the round trip excludes: a fallback name of 256 bytes or
      more gets a length byte that disagrees with it, and the reply no longer
      parses. (A TCP local address is 4 or 16 bytes, so this needs an address
      slice of at least 128 bytes.) */
  lemma OversizedNameUnparseable(local: TCPAddr)
    requires |local.ip| >= 128
    ensures ParseReply(ReplyFrame(local)) == None
  {
  }
}
