/**
 * The parts of Go's net.IP that the reply encoder of
 * internal/socks/tcp_handle.go relies on: To4, To16, and String for a slice
 * that is neither 4 nor 16 bytes long (the only slices that reach the
 * domain fallback).
 */
module NetIP {
  import opened Wrappers

  type Byte = x: int | 0 <= x < 256

  /** A net.IP is a byte slice: 4 bytes for IPv4, 16 for IPv6, anything else is invalid. */
  type IP = seq<Byte>

  /** The 12-byte prefix of an IPv4-mapped IPv6 address (::ffff:a.b.c.d). */
  const V4InV6Prefix: seq<Byte> := [0, 0, 0, 0, 0, 0, 0, 0, 0, 0, 0xff, 0xff]

  predicate IsZeros(s: seq<Byte>) {
    forall i :: 0 <= i < |s| ==> s[i] == 0
  }

  /** ip.To4(): the 4-byte form, present for a 4-byte slice or an IPv4-mapped 16-byte one. */
  function To4(ip: IP): (r: Option<IP>)
    ensures r.Some? <==> |ip| == 4 || (|ip| == 16 && ip[..12] == V4InV6Prefix)
    ensures r.Some? ==> |r.value| == 4 && r.value == ip[|ip| - 4..]
  {
    if |ip| == 4 then Some(ip)
    else if |ip| == 16 && IsZeros(ip[..10]) && ip[10] == 0xff && ip[11] == 0xff then
      assert ip[..12] == ip[..10] + [ip[10], ip[11]];
      Some(ip[12..16])
    else
      assert |ip| == 16 && ip[..12] == V4InV6Prefix ==> IsZeros(ip[..10]) by {
        if |ip| == 16 && ip[..12] == V4InV6Prefix {
          forall i | 0 <= i < 10 ensures ip[..10][i] == 0 {
            assert ip[..10][i] == ip[..12][i];
          }
        }
      }
      None
  }

  /** ip.To16(): the 16-byte form; a 4-byte slice becomes its IPv4-mapped form (net.IPv4). */
  function To16(ip: IP): (r: Option<IP>)
    ensures r.Some? <==> |ip| == 4 || |ip| == 16
    ensures r.Some? ==> |r.value| == 16 && To4(r.value) == To4(ip)
    ensures |ip| == 16 ==> r == Some(ip)
  {
    if |ip| == 4 then
      assert (V4InV6Prefix + ip)[..12] == V4InV6Prefix;
      assert (V4InV6Prefix + ip)[12..] == ip;
      Some(V4InV6Prefix + ip)
    else if |ip| == 16 then Some(ip)
    else None
  }

  const LowerHex: seq<Byte> := [48, 49, 50, 51, 52, 53, 54, 55, 56, 57, 97, 98, 99, 100, 101, 102]  // "0123456789abcdef"

  /** hexString: two lower-case hex digits per byte, high nibble first. */
  function HexString(b: seq<Byte>): (s: seq<Byte>)
    ensures |s| == 2 * |b|
    ensures forall i :: 0 <= i < |b| ==> s[2 * i] == LowerHex[b[i] / 16] && s[2 * i + 1] == LowerHex[b[i] % 16]
    ensures forall i :: 0 <= i < |s| ==> s[i] < 128
  {
    if b == [] then []
    else
      var rest := HexString(b[1..]);
      var s := [LowerHex[b[0] / 16], LowerHex[b[0] % 16]] + rest;
      assert forall k :: 0 <= k < 16 ==> LowerHex[k] < 128;
      assert forall i :: 2 <= i < |s| ==> s[i] == rest[i - 2];
      assert forall i :: 1 <= i < |b| ==> b[i] == b[1..][i - 1] && 2 * i == 2 * (i - 1) + 2;
      s
  }

  /**
   * ip.String() as bytes, for a slice that is neither 4 nor 16 bytes long:
   * "<nil>" for an empty slice, otherwise "?" followed by its hex digits.
   */
  function String(ip: IP): (host: seq<Byte>)
    requires |ip| != 4 && |ip| != 16
    ensures |host| == if |ip| == 0 then 5 else 1 + 2 * |ip|
    ensures forall i :: 0 <= i < |host| ==> host[i] < 128
  {
    if |ip| == 0 then [60, 110, 105, 108, 62]  // "<nil>"
    else [63] + HexString(ip)                 // '?'
  }
}
