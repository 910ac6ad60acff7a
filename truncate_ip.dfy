/**
 * `truncateIp` of src/utils/truncateIP.ts: the coarse network prefix a refresh token is
 * bound to. An IPv4 address keeps its first three octets and gets `.0`; an IPv6 address
 * keeps its first four 16-bit groups and gets zeros for the other four. The address parser
 * (ipaddr.js) is an oracle: a presented address comes with what the parser made of it.
 */
module TruncateIp {
  import opened Wrappers
  import opened Numerals

  type Octet = x: int | 0 <= x < 256
  type Group = x: int | 0 <= x < 65536
  type Octets = s: seq<Octet> | |s| == 4 witness [0, 0, 0, 0]
  type Groups = s: seq<Group> | |s| == 8 witness [0, 0, 0, 0, 0, 0, 0, 0]

  /** A parsed address, by the kind the parser reports. */
  datatype Address = IPv4(octets: Octets) | IPv6(parts: Groups) | OtherKind

  /** A presented address: its text, and the parse result (None when the parser throws). */
  datatype ClientIp = ClientIp(text: string, parsed: Option<Address>)

  /** The IPv4 truncation on octets: the last octet becomes 0. */
  function ZeroLastOctet(o: Octets): (t: Octets)
    ensures t[..3] == o[..3] && t[3] == 0
  {
    o[..3] + [0]
  }

  /** The IPv6 truncation on groups: `parts.slice(0, 4).concat(new Array(4).fill(0))`. */
  function ZeroLastGroups(g: Groups): (t: Groups)
    ensures t[..4] == g[..4]
    ensures forall i :: 4 <= i < 8 ==> t[i] == 0
  {
    g[..4] + [0, 0, 0, 0]
  }

  /** `flatMap(seg => [seg >> 8, seg & 0xff])`: each group as its high and low byte. */
  function ToBytes(g: seq<Group>): (b: seq<Octet>)
    ensures |b| == 2 * |g|
    decreases |g|
  {
    if g == [] then [] else [g[0] / 256, g[0] % 256] + ToBytes(g[1..])
  }

  /** `fromByteArray`: consecutive byte pairs, high byte first, make the groups. */
  function FromBytes(b: seq<Octet>): (g: seq<Group>)
    requires |b| % 2 == 0
    ensures |g| == |b| / 2
    decreases |b|
  {
    if b == [] then [] else var high: int := b[0]; [high * 256 + b[1]] + FromBytes(b[2..])
  }

  /** Going through bytes loses nothing: every group is recovered from its two bytes. */
  lemma {:induction false} BytesRoundTrip(g: seq<Group>)
    ensures FromBytes(ToBytes(g)) == g
    decreases |g|
  {
    if g != [] {
      BytesRoundTrip(g[1..]);
      assert ToBytes(g)[2..] == ToBytes(g[1..]);
    }
  }

  /** The dotted-decimal form of four octets. */
  function Ipv4Text(o: Octets): string {
    Decimal(o[0]) + "." + Decimal(o[1]) + "." + Decimal(o[2]) + "." + Decimal(o[3])
  }

  /** Groups in lower-case hexadecimal joined by colons. */
  function HexFields(h: seq<Group>): (s: string)
    requires h != []
    decreases |h|
  {
    if |h| == 1 then Hex(h[0]) else Hex(h[0]) + ":" + HexFields(h[1..])
  }

  /** `h` without its trailing zero groups. */
  function Significant(h: seq<Group>): (p: seq<Group>)
    ensures |p| <= |h| && p == h[..|p|]
    ensures p == [] || p[|p| - 1] != 0
    ensures forall i :: |p| <= i < |h| ==> h[i] == 0
    decreases |h|
  {
    if h == [] || h[|h| - 1] != 0 then h else Significant(h[..|h| - 1])
  }

  /**
   * The RFC 5952 text of an address whose last four groups are zero: the longest zero run
   * is the tail, together with any zero groups just before it, and it is written `::`.
   */
  function TailZeroText(g: Groups): string
    requires forall i :: 4 <= i < 8 ==> g[i] == 0
  {
    var p := Significant(g[..4]);
    if p == [] then "::" else HexFields(p) + "::"
  }

  /** `truncateIp(ip)`. A parse failure or an unknown kind gives the input back. */
  function Truncate(ip: ClientIp): (r: string)
    ensures ip.parsed.None? ==> r == ip.text
    ensures ip.parsed == Some(OtherKind) ==> r == ip.text
    ensures ip.parsed.Some? && ip.parsed.value.IPv4? ==>
              r == Ipv4Text(ZeroLastOctet(ip.parsed.value.octets))
    ensures ip.parsed.Some? && ip.parsed.value.IPv6? ==>
              r == TailZeroText(ZeroLastGroups(ip.parsed.value.parts))
  {
    match ip.parsed
    case None => ip.text
    case Some(IPv4(o)) =>
      Decimal(o[0]) + "." + Decimal(o[1]) + "." + Decimal(o[2]) + ".0"
    case Some(IPv6(g)) =>
      var truncated := ZeroLastGroups(g);
      BytesRoundTrip(truncated);
      var rebuilt: Groups := FromBytes(ToBytes(truncated));
      TailZeroText(rebuilt)
    case Some(OtherKind) => ip.text
  }

  /** The IPv4 result does not depend on the last octet. */
  lemma LastOctetIgnored(text1: string, text2: string, o1: Octets, o2: Octets)
    requires o1[..3] == o2[..3]
    ensures Truncate(ClientIp(text1, Some(IPv4(o1)))) == Truncate(ClientIp(text2, Some(IPv4(o2))))
  {
    assert o1[0] == o2[0] && o1[1] == o2[1] && o1[2] == o2[2];
  }

  /** The IPv6 result depends only on the first four groups. */
  lemma LastGroupsIgnored(text1: string, text2: string, g1: Groups, g2: Groups)
    requires g1[..4] == g2[..4]
    ensures Truncate(ClientIp(text1, Some(IPv6(g1)))) == Truncate(ClientIp(text2, Some(IPv6(g2))))
  {
    assert ZeroLastGroups(g1) == ZeroLastGroups(g2);
  }

  /** Truncating an already truncated address changes nothing, for both families. */
  lemma TruncationIdempotent(o: Octets, g: Groups)
    ensures ZeroLastOctet(ZeroLastOctet(o)) == ZeroLastOctet(o)
    ensures ZeroLastGroups(ZeroLastGroups(g)) == ZeroLastGroups(g)
  {
  }

  /** 203.0.113.77 is bound as 203.0.113.0. */
  lemma DocumentationAddressExample()
    ensures Truncate(ClientIp("203.0.113.77", Some(IPv4([203, 0, 113, 77])))) == "203.0.113.0"
  {
    assert Decimal(20) == "20";
    assert Decimal(203) == "203";
    assert Decimal(11) == "11";
    assert Decimal(113) == "113";
  }

  /** An address whose first four groups end in zeros is written with the zeros folded into `::`. */
  lemma Ipv6Example()
    ensures TailZeroText([0x2001, 0xdb8, 0, 0, 0, 0, 0, 0]) == "2001:db8::"
  {
    var h: seq<Group> := [0x2001, 0xdb8, 0, 0];
    assert h[..3] == [0x2001, 0xdb8, 0];
    assert h[..3][..2] == [0x2001, 0xdb8];
    var g: Groups := [0x2001, 0xdb8, 0, 0, 0, 0, 0, 0];
    assert g[..4] == h;
    assert Significant(h) == [0x2001, 0xdb8];
    assert HexFields([0x2001, 0xdb8]) == Hex(0x2001) + ":" + Hex(0xdb8) by {
      assert [0x2001, 0xdb8][1..] == [0xdb8];
    }
    ExampleHex();
  }

  lemma ExampleHex()
    ensures Hex(0x2001) == "2001" && Hex(0xdb8) == "db8"
  {
    assert Hex(0x2001) == "2001" by {
      assert Hex(0x200) == "200" by { assert Hex(0x20) == "20"; }
    }
    assert Hex(0xdb8) == "db8" by { assert Hex(0xdb) == "db"; }
  }

  /** The all-zero address, and any address with only zeros in its first four groups, becomes `::`. */
  lemma Ipv6ZeroPrefixExample(g: Groups)
    requires g[..4] == [0, 0, 0, 0]
    ensures Truncate(ClientIp("::", Some(IPv6(g)))) == "::"
  {
    var z: seq<Group> := [0, 0, 0, 0];
    assert z[..3] == [0, 0, 0] && z[..3][..2] == [0, 0] && z[..3][..2][..1] == [0] && [0][..0] == [];
  }
}
