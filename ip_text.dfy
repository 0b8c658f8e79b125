/**
 * The text form of IPv4 addresses: `IpAddress.toString()` prints the dotted quad, and
 * `IpAddress.valueOf(String)` reads it with the rule of the Guava parser ONOS relies on:
 * exactly four dot-separated parts, each one to three decimal digits with no leading zero and
 * a value of at most 255.
 */
module IpText {
  import opened Wrappers
  import opened Net
  import opened JavaText

  const IPV4_LIMIT: nat := 0x1_0000_0000

  /** The four octets of a 32-bit address, most significant first. */
  function Octets(bits: nat): (o: seq<nat>)
    requires bits < IPV4_LIMIT
    ensures |o| == 4 && forall k :: 0 <= k < 4 ==> o[k] < 256
  {
    var a := bits / 256;
    var b := a / 256;
    [b / 256, b % 256, a % 256, bits % 256]
  }

  function FromOctets(o: seq<nat>): nat
    requires |o| == 4
  {
    o[0] * 0x100_0000 + o[1] * 0x1_0000 + o[2] * 0x100 + o[3]
  }

  lemma OctetsRoundTrip(bits: nat)
    requires bits < IPV4_LIMIT
    ensures FromOctets(Octets(bits)) == bits
  {
    var a := bits / 256;
    var b := a / 256;
    assert bits == 256 * a + bits % 256;
    assert a == 256 * b + a % 256;
    assert b == 256 * (b / 256) + b % 256;
  }

  /** The dotted-quad text of an IPv4 address. */
  function Ipv4ToText(bits: nat): string
    requires bits < IPV4_LIMIT
  {
    var o := Octets(bits);
    Join([NatToDecimal(o[0]), NatToDecimal(o[1]), NatToDecimal(o[2]), NatToDecimal(o[3])], '.')
  }

  /** One part of a dotted quad. */
  function ParseOctet(p: string): (r: Option<nat>)
    ensures r.Some? ==> r.value < 256
  {
    if 1 <= |p| <= 3 && AllDigits(p) && !(|p| > 1 && p[0] == '0') && DecimalValue(p) <= 255
    then Some(DecimalValue(p))
    else None
  }

  /** A dotted quad, or `None` where the parser throws. */
  function ParseIpv4(s: string): (r: Option<nat>)
    ensures r.Some? ==> r.value < IPV4_LIMIT
  {
    var parts := SplitAll(s, '.');
    if |parts| != 4 then None
    else
      match (ParseOctet(parts[0]), ParseOctet(parts[1]), ParseOctet(parts[2]), ParseOctet(parts[3]))
      case (Some(o0), Some(o1), Some(o2), Some(o3)) => Some(FromOctets([o0, o1, o2, o3]))
      case _ => None
  }

  lemma OctetTextRoundTrip(o: nat)
    requires o < 256
    ensures ParseOctet(NatToDecimal(o)) == Some(o)
  {
    DecimalCanonical(o);
    DecimalRoundTrip(o);
  }

  /** What `toString` prints for an IPv4 address, `valueOf` reads back. */
  lemma Ipv4TextRoundTrip(bits: nat)
    requires bits < IPV4_LIMIT
    ensures ParseIpv4(Ipv4ToText(bits)) == Some(bits)
  {
    var o := Octets(bits);
    var parts := [NatToDecimal(o[0]), NatToDecimal(o[1]), NatToDecimal(o[2]), NatToDecimal(o[3])];
    forall k | 0 <= k < 4
      ensures '.' !in parts[k] && ParseOctet(parts[k]) == Some(o[k])
    {
      OctetTextRoundTrip(o[k]);
      assert AllDigits(parts[k]);
    }
    SplitAllJoin(parts, '.');
    OctetsRoundTrip(bits);
  }

  /** `IpAddress.toString()`; only the IPv4 form is modelled. */
  function IpToText(a: IpAddress): string
    requires a.version == V4 && a.bits < IPV4_LIMIT
  {
    Ipv4ToText(a.bits)
  }

  /** `IpAddress.valueOf(String)` for text without a colon, which the parser reads as IPv4. */
  function ParseIpAddress(s: string): (r: Option<IpAddress>)
    requires ':' !in s
    ensures r.Some? ==> r.value.version == V4 && ValidIp(r.value)
  {
    match ParseIpv4(s)
    case Some(bits) => Some(IpAddress(V4, bits))
    case None => None
  }
}
