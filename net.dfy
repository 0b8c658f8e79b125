/**
 * The ONOS value types the engine handles: MAC addresses, VLAN identifiers, edge locations,
 * IP addresses and prefixes, and host records.
 *
 * The source compares some of these objects with Java's `==` (MacAddress at
 * NorthBoundMacFlow.java:54, the gateway location at AccessPoint.java:195 and the connect-point
 * location at SDNWLANConnectPoint.java:123), which is identity, and others with `equals`, which
 * compares values. To keep both, a MacAddress and a Location carry the identity of the Java
 * object that holds them in `instance`: `==` on the datatype is Java's `==`, and `SameMac` and
 * `SameLocation` are Java's `equals`.
 */
module Net {

  /** A MAC address: its 48 bits and the Java object holding them. */
  datatype MacAddress = MacAddress(bits: nat, instance: nat)

  /** The shared `MacAddress.NONE` object (a4:23:05:00:00:00). */
  const MAC_NONE: MacAddress := MacAddress(0xA4_23_05_00_00_00, 0)

  /** The shared `MacAddress.ZERO` object (00:00:00:00:00:00). */
  const MAC_ZERO: MacAddress := MacAddress(0, 1)

  /** `MacAddress.equals`. */
  predicate SameMac(a: MacAddress, b: MacAddress) { a.bits == b.bits }

  /** A VLAN identifier, as the 16-bit value `VlanId.toShort` gives. */
  type VlanId = int

  /** `VlanId.NONE`, whose short value is 0xffff, that is -1. */
  const VLAN_NONE: VlanId := -1

  /** An edge connect point (device and port) and the Java object holding it. */
  datatype Location = Location(device: nat, port: nat, instance: nat)

  /** The shared `HostLocation.NONE` object: device `none`, port 0. */
  const LOCATION_NONE: Location := Location(0, 0, 0)

  /**
   * `equals` on connect points: same device and port. The host location's timestamp is not
   * modelled, and a `HostLocation` is taken to equal a plain connect point at the same device
   * and port.
   */
  predicate SameLocation(a: Location, b: Location) { a.device == b.device && a.port == b.port }

  datatype IpVersion = V4 | V6

  function Width(v: IpVersion): nat
  {
    match v
    case V4 => 32
    case V6 => 128
  }

  datatype IpAddress = IpAddress(version: IpVersion, bits: nat)

  /** 2 to the power of the address width. */
  function Limit(v: IpVersion): nat
  {
    match v
    case V4 => 0x1_0000_0000
    case V6 => 0x1_0000_0000_0000_0000_0000_0000_0000_0000
  }

  predicate ValidIp(a: IpAddress) { a.bits < Limit(a.version) }

  /** `x` with its lowest `n` bits cleared. */
  function ClearLowBits(x: nat, n: nat): (r: nat)
    ensures r <= x
  {
    if n == 0 then x else 2 * ClearLowBits(x / 2, n - 1)
  }

  lemma {:induction false} ClearLowBitsTwice(x: nat, n: nat)
    ensures ClearLowBits(ClearLowBits(x, n), n) == ClearLowBits(x, n)
  {
    if n > 0 {
      var y := ClearLowBits(x / 2, n - 1);
      assert (2 * y) / 2 == y;
      ClearLowBitsTwice(x / 2, n - 1);
    }
  }

  /** `IpAddress.makeMasked(a, len)`: the address with all but the first `len` bits cleared. */
  function MakeMasked(a: IpAddress, len: nat): (r: IpAddress)
    requires len <= Width(a.version)
    ensures r.version == a.version && r.bits <= a.bits
  {
    IpAddress(a.version, ClearLowBits(a.bits, Width(a.version) - len))
  }

  /** Masking an address again with the same length changes nothing. */
  lemma MaskedTwice(a: IpAddress, len: nat)
    requires len <= Width(a.version)
    ensures MakeMasked(MakeMasked(a, len), len) == MakeMasked(a, len)
  {
    ClearLowBitsTwice(a.bits, Width(a.version) - len);
  }

  /** An IP prefix: the masked address and the prefix length. */
  datatype IpPrefix = IpPrefix(address: IpAddress, prefixLength: nat)

  /** `IpPrefix.valueOf(a, len)` for a length the address family allows. */
  function PrefixOf(a: IpAddress, len: nat): (p: IpPrefix)
    requires len <= Width(a.version)
    ensures p.prefixLength == len && p.address.version == a.version
  {
    IpPrefix(MakeMasked(a, len), len)
  }

  predicate IsIp6(p: IpPrefix) { p.address.version == V6 }

  /** `IpPrefix.contains(ip)`: same address family, and `ip` masked to the length is the prefix. */
  predicate Contains(p: IpPrefix, ip: IpAddress)
  {
    ip.version == p.address.version && p.prefixLength <= Width(ip.version)
    && MakeMasked(ip, p.prefixLength) == p.address
  }

  /**
   * A prefix built from an address contains exactly the addresses of the same family that
   * agree with it on the first `len` bits; the address itself and the prefix's own (masked)
   * address are among them.
   */
  lemma ContainsIff(a: IpAddress, len: nat, ip: IpAddress)
    requires len <= Width(a.version)
    ensures Contains(PrefixOf(a, len), ip)
        <==> ip.version == a.version && MakeMasked(ip, len) == MakeMasked(a, len)
    ensures Contains(PrefixOf(a, len), a)
    ensures Contains(PrefixOf(a, len), PrefixOf(a, len).address)
  {
    MaskedTwice(a, len);
  }

  /** An ONOS host record: MAC, VLAN, location and IP addresses. */
  datatype Host = Host(mac: MacAddress, vlan: VlanId, location: Location, ipAddresses: set<IpAddress>)
}
