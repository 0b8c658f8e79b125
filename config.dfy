/**
 * The configuration the engine is built from: one entry per access point, each naming its
 * edge connections, its VLAN stack and the default gateways behind it, plus the application
 * settings (flow priorities and the removed-host timeout).
 */
module Config {
  import opened Net
  import opened IngressVlans
  import GatewayMask

  /**
   * A configured default gateway. The class overrides neither `equals` nor `hashCode`, so two
   * gateway configurations are equal only when they are the same object.
   */
  class GatewayConfig {
    const name: string
    const gatewayAndMask: GatewayMask.GatewayAndMask
    const ingressVlans: Vlans

    constructor(name: string, gatewayAndMask: GatewayMask.GatewayAndMask, ingressVlans: Vlans)
      ensures this.name == name && this.gatewayAndMask == gatewayAndMask && this.ingressVlans == ingressVlans
    {
      this.name := name;
      this.gatewayAndMask := gatewayAndMask;
      this.ingressVlans := ingressVlans;
    }
  }

  /** A configured access point: its MAC, VLAN stack, gateways and edge connections, in order. */
  datatype AccessPointConfig = AccessPointConfig(
    name: string,
    mac: MacAddress,
    ingressVlans: Vlans,
    gateways: seq<GatewayConfig>,
    connections: seq<Location>)

  /**
   * What the configuration parser guarantees of an entry it accepts: a MAC other than
   * 00:00:00:00:00:00, at least one connection and at least one gateway. (Every gateway
   * prefix fits its address by its type.)
   */
  predicate ValidAccessPointConfig(c: AccessPointConfig)
  {
    !SameMac(c.mac, MAC_ZERO) && |c.connections| >= 1 && |c.gateways| >= 1
  }

  const DEFAULT_GATEWAY_FLOW_PRIORITY: int := 10000
  const DEFAULT_ROAMING_UNICAST_FLOW_PRIORITY: int := 20000
  const DEFAULT_REMOVED_HOST_TIMEOUT_SECONDS: int := 30
  const DEFAULT_REMOVED_HOST_DELAY_GRANULARITY: int := 5

  /**
   * The application configuration as read: the two flow priorities, the removed-host timeout
   * in seconds and the access points keyed by the bits of their MAC.
   */
  datatype SdnwlanConfig = SdnwlanConfig(
    gatewayFlowPriority: int,
    roamingUnicastPriority: int,
    removedHostTimeout: int,
    accessPoints: map<nat, AccessPointConfig>)

  /** Every entry is valid and filed under its own MAC. */
  predicate ValidSdnwlanConfig(c: SdnwlanConfig)
  {
    forall k :: k in c.accessPoints ==> ValidAccessPointConfig(c.accessPoints[k]) && c.accessPoints[k].mac.bits == k
  }
}
