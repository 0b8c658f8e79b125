/**
 * `IpGatewayAndMask`: a default gateway address and the length of the subnet behind it,
 * written "a.b.c.d/len" in the CIDR notation of section 3.1 of RFC 4632. As an `IpPrefix` it
 * also holds the masked subnet address.
 */
module GatewayMask {
  import opened Wrappers
  import opened JavaText
  import opened Net
  import opened IpText

  /** The unmasked gateway address and the prefix length. */
  datatype IpGatewayAndMask = IpGatewayAndMask(gateway: IpAddress, prefixLength: nat)

  /** What the `IpPrefix` constructor accepts: a length within the address width. */
  predicate Valid(g: IpGatewayAndMask)
  {
    ValidIp(g.gateway) && g.prefixLength <= Width(g.gateway.version)
  }

  /** A value the constructor accepted: what every configured gateway holds. */
  type GatewayAndMask = g: IpGatewayAndMask | Valid(g) witness IpGatewayAndMask(IpAddress(V4, 0), 0)

  /** Why `valueOf(String)` throws. */
  datatype ParseError =
    | MalformedPrefix      // not exactly two "/"-separated parts
    | BadAddress           // `IpAddress.valueOf` rejects the first part
    | BadNumber            // `Integer.parseInt` rejects the second part
    | BadPrefixLength      // the `IpPrefix` constructor rejects the length

  /** The protected constructor, through `valueOf(IpAddress, int)`: it checks the prefix length. */
  function Make(gw: IpAddress, len: int): (r: Result<IpGatewayAndMask, ParseError>)
    requires ValidIp(gw)
    ensures r.Ok? <==> 0 <= len <= Width(gw.version)
    ensures r.Ok? ==> Valid(r.value) && r.value.gateway == gw && r.value.prefixLength == len
    ensures r.Err? ==> r.error == BadPrefixLength
  {
    if 0 <= len <= Width(gw.version) then Ok(IpGatewayAndMask(gw, len)) else Err(BadPrefixLength)
  }

  /** `address()`, inherited from `IpPrefix`: the gateway with its host bits cleared. */
  function Address(g: IpGatewayAndMask): IpAddress
    requires Valid(g)
  {
    MakeMasked(g.gateway, g.prefixLength)
  }

  /**
   * `getIpPrefix()`: the prefix rebuilt from the masked address, which is the gateway's own
   * subnet and contains the gateway.
   */
  function GetIpPrefix(g: IpGatewayAndMask): (p: IpPrefix)
    requires Valid(g)
    ensures p == PrefixOf(g.gateway, g.prefixLength)
    ensures Contains(p, g.gateway)
    ensures forall ip :: Contains(p, ip) <==> ip.version == g.gateway.version && MakeMasked(ip, g.prefixLength) == Address(g)
  {
    MaskedTwice(g.gateway, g.prefixLength);
    ContainsIff(g.gateway, g.prefixLength, g.gateway);
    forall ip
      ensures Contains(PrefixOf(g.gateway, g.prefixLength), ip)
              <==> ip.version == g.gateway.version && MakeMasked(ip, g.prefixLength) == Address(g)
    {
      ContainsIff(g.gateway, g.prefixLength, ip);
    }
    PrefixOf(Address(g), g.prefixLength)
  }

  /**
   * `valueOf(String)`: split on "/" into exactly two parts, read the address and the length.
   * Only text without a colon (an IPv4 address) is modelled.
   */
  function ValueOf(s: string): (r: Result<IpGatewayAndMask, ParseError>)
    requires ':' !in s
    ensures r.Ok? ==> Valid(r.value) && r.value.gateway.version == V4
    ensures |JavaSplit(s, '/')| != 2 ==> r == Err(MalformedPrefix)
    ensures r.Ok? ==> (|JavaSplit(s, '/')| == 2
      && ParseIpv4(JavaSplit(s, '/')[0]) == Some(r.value.gateway.bits)
      && ParseInt(JavaSplit(s, '/')[1]) == Some(r.value.prefixLength as int))
  {
    var parts := JavaSplit(s, '/');
    if |parts| != 2 then Err(MalformedPrefix)
    else
      assert ':' !in parts[0] by { JavaSplitAvoids(s, '/', ':'); }
      match ParseIpAddress(parts[0])
      case None => Err(BadAddress)
      case Some(gw) =>
        match ParseInt(parts[1])
        case None => Err(BadNumber)
        case Some(len) => Make(gw, len)
  }

  lemma JavaSplitAvoids(s: string, sep: char, c: char)
    requires c !in s
    ensures forall k :: 0 <= k < |JavaSplit(s, sep)| ==> c !in JavaSplit(s, sep)[k]
  {
    if sep in s {
      JoinSplitAll(s, sep);
      var all := SplitAll(s, sep);
      forall k | 0 <= k < |all| ensures c !in all[k] {
        JoinContains(all, sep, k);
      }
    }
  }

  /** Every part is a piece of the joined text. */
  lemma {:induction false} JoinContains(parts: seq<string>, sep: char, k: nat)
    requires k < |parts|
    ensures forall ch :: ch in parts[k] ==> ch in Join(parts, sep)
  {
    if k > 0 {
      JoinContains(parts[1..], sep, k - 1);
    }
  }

  /** `equals`: the same prefix length and the same gateway address. */
  predicate Equals(a: IpGatewayAndMask, b: IpGatewayAndMask)
  {
    a.prefixLength == b.prefixLength && a.gateway == b.gateway
  }

  /** `equals` is the structural equality of the value. */
  lemma EqualsIsIdentityOfValues(a: IpGatewayAndMask, b: IpGatewayAndMask)
    ensures Equals(a, b) <==> a == b
  {
  }

  /** `toString`: the gateway's text, "/", the prefix length in decimal (IPv4 only). */
  function ToString(g: IpGatewayAndMask): string
    requires Valid(g) && g.gateway.version == V4
  {
    Join([IpToText(g.gateway), IntToDecimal(g.prefixLength)], '/')
  }

  lemma Ipv4TextChars(bits: nat, c: char)
    requires bits < IPV4_LIMIT && c != '.' && !IsDigit(c)
    ensures c !in Ipv4ToText(bits)
  {
    var o := Octets(bits);
    var parts := [NatToDecimal(o[0]), NatToDecimal(o[1]), NatToDecimal(o[2]), NatToDecimal(o[3])];
    forall k | 0 <= k < 4 ensures c !in parts[k] {
      assert AllDigits(parts[k]);
    }
    JoinAvoids(parts, '.', c);
  }

  /** What `toString` prints, `valueOf` reads back as an equal value. */
  lemma ToStringRoundTrip(g: IpGatewayAndMask)
    requires Valid(g) && g.gateway.version == V4
    ensures ':' !in ToString(g)
    ensures ValueOf(ToString(g)) == Ok(g)
  {
    var addr := IpToText(g.gateway);
    var len := IntToDecimal(g.prefixLength);
    var parts := [addr, len];
    Ipv4TextChars(g.gateway.bits, '/');
    Ipv4TextChars(g.gateway.bits, ':');
    assert AllDigits(len);
    JoinAvoids(parts, '/', ':');
    JavaSplitJoin(parts, '/');
    Ipv4TextRoundTrip(g.gateway.bits);
    ParseIntRoundTrip(g.prefixLength);
  }
}
