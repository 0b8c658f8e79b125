/**
 * `SDNWLANConnectPoint`: an edge location of the SDN network together with the VLAN stack
 * frames carry there. Equality compares the location object by identity (`==`), modelled by
 * the `instance` the location carries, and the stacks by value.
 */
module ConnectPoints {
  import opened Net
  import opened IngressVlans

  datatype ConnectPoint = ConnectPoint(location: Location, ingressVlans: Vlans)

  /** The access-point constructor: the AP's first connection and the AP's VLAN stack. */
  function ForAccessPoint(connections: seq<Location>, apVlans: Vlans): (cp: ConnectPoint)
    requires |connections| >= 1
    ensures cp.location == connections[0] && cp.ingressVlans == apVlans
  {
    ConnectPoint(connections[0], apVlans)
  }

  /**
   * The roaming constructor: where the host is now (the roaming AP's first connection) with
   * the VLAN stack of its home AP.
   */
  function ForRoaming(roamingConnections: seq<Location>, homeVlans: Vlans): (cp: ConnectPoint)
    requires |roamingConnections| >= 1
    ensures cp.location == roamingConnections[0] && cp.ingressVlans == homeVlans
  {
    ForAccessPoint(roamingConnections, homeVlans)
  }

  /**
   * The gateway constructor: the location learned for the gateway host, `HostLocation.NONE`
   * until the host service finds it, with the gateway configuration's VLAN stack.
   */
  function ForGateway(learned: Location, configVlans: Vlans): (cp: ConnectPoint)
    ensures cp.location == learned && cp.ingressVlans == configVlans
  {
    ConnectPoint(learned, configVlans)
  }

  /** `equals`: the same location object and equal VLAN stacks. */
  predicate Equals(a: ConnectPoint, b: ConnectPoint)
  {
    a.location == b.location && a.ingressVlans == b.ingressVlans
  }

  /**
   * `equals` is the equality of the two components, so it is an equivalence; two points at
   * the same device and port are still different when their location objects differ.
   */
  lemma EqualsMeansSameParts(a: ConnectPoint, b: ConnectPoint)
    ensures Equals(a, b) <==> a == b
    ensures a.location.instance != b.location.instance ==> !Equals(a, b)
  {
  }

  /** A host at its home AP gets the same point from the roaming constructor as from the AP one. */
  lemma RoamingAtHomeIsAccessPoint(connections: seq<Location>, vlans: Vlans)
    requires |connections| >= 1
    ensures Equals(ForRoaming(connections, vlans), ForAccessPoint(connections, vlans))
  {
  }
}
