/**
 * The flow descriptors: a northbound flow carries traffic from an AP towards a default gateway,
 * a southbound flow carries it back. Each builds one point-to-point intent.
 */
module Flows {
  import opened Wrappers
  import opened Net
  import opened Intents
  import opened IngressVlans
  import opened ConnectPoints

  /** The concrete flow class and the field it matches on. */
  datatype FlowKind =
    | NorthBoundMac(gatewayMac: MacAddress)
    | SouthBoundIpSubnet(ipPrefix: IpPrefix)
    | SouthBoundMac(hostMac: MacAddress)

  datatype Flow = Flow(appId: nat, ingress: ConnectPoint, egress: ConnectPoint, kind: FlowKind)

  /** Why the `Flow` constructor throws. */
  datatype FlowError = NullIngress | NullEgress

  /** `checkCtorParams`: the ingress point is checked first, then the egress point. */
  function CheckedFlow(appId: nat, ingress: Option<ConnectPoint>, egress: Option<ConnectPoint>, kind: FlowKind)
    : (r: Result<Flow, FlowError>)
    ensures ingress.None? ==> r == Err(NullIngress)
    ensures ingress.Some? && egress.None? ==> r == Err(NullEgress)
    ensures ingress.Some? && egress.Some? ==>
      r.Ok? && r.value.appId == appId && r.value.ingress == ingress.value
      && r.value.egress == egress.value && r.value.kind == kind
  {
    if ingress.None? then Err(NullIngress)
    else if egress.None? then Err(NullEgress)
    else Ok(Flow(appId, ingress.value, egress.value, kind))
  }

  /** `new NorthBoundMacFlow(appId, sbPoint, nbPoint, mac)`: from the AP side to the gateway side. */
  function NewNorthBoundMacFlow(appId: nat, sbPoint: Option<ConnectPoint>, nbPoint: Option<ConnectPoint>,
                                mac: MacAddress): (r: Result<Flow, FlowError>)
    ensures r.Ok? <==> sbPoint.Some? && nbPoint.Some?
    ensures r.Ok? ==> r.value.ingress == sbPoint.value && r.value.egress == nbPoint.value
                      && r.value.kind == NorthBoundMac(mac)
  {
    CheckedFlow(appId, sbPoint, nbPoint, NorthBoundMac(mac))
  }

  /** `new SouthBoundIpSubnetFlow(appId, nbPoint, sbPoint, prefix)`: from the gateway side to the AP side. */
  function NewSouthBoundIpSubnetFlow(appId: nat, nbPoint: Option<ConnectPoint>, sbPoint: Option<ConnectPoint>,
                                     prefix: IpPrefix): (r: Result<Flow, FlowError>)
    ensures r.Ok? <==> sbPoint.Some? && nbPoint.Some?
    ensures r.Ok? ==> r.value.ingress == nbPoint.value && r.value.egress == sbPoint.value
                      && r.value.kind == SouthBoundIpSubnet(prefix)
  {
    CheckedFlow(appId, nbPoint, sbPoint, SouthBoundIpSubnet(prefix))
  }

  /** `new SouthBoundMacFlow(appId, nbPoint, sbPoint, hostMac)`: from the gateway side to the AP side. */
  function NewSouthBoundMacFlow(appId: nat, nbPoint: Option<ConnectPoint>, sbPoint: Option<ConnectPoint>,
                                hostMac: MacAddress): (r: Result<Flow, FlowError>)
    ensures r.Ok? <==> sbPoint.Some? && nbPoint.Some?
    ensures r.Ok? ==> r.value.ingress == nbPoint.value && r.value.egress == sbPoint.value
                      && r.value.kind == SouthBoundMac(hostMac)
  {
    CheckedFlow(appId, nbPoint, sbPoint, SouthBoundMac(hostMac))
  }

  /** `Flow.equals`: equal ingress and egress points; the application id is not compared. */
  predicate FlowEquals(a: Flow, b: Flow)
  {
    ConnectPoints.Equals(a.ingress, b.ingress) && ConnectPoints.Equals(a.egress, b.egress)
  }

  /**
   * `equals` of the concrete classes: the same class, `Flow.equals`, and the class's own field
   * equal (MACs by value).
   */
  predicate Equals(a: Flow, b: Flow)
  {
    FlowEquals(a, b) &&
    match (a.kind, b.kind)
    case (NorthBoundMac(m1), NorthBoundMac(m2)) => SameMac(m1, m2)
    case (SouthBoundIpSubnet(p1), SouthBoundIpSubnet(p2)) => p1 == p2
    case (SouthBoundMac(m1), SouthBoundMac(m2)) => SameMac(m1, m2)
    case _ => false
  }

  /**
   * Flow equality is an equivalence that ignores the application id, and flows of different
   * classes are never equal.
   */
  lemma EqualsIsEquivalence(a: Flow, b: Flow, c: Flow)
    ensures Equals(a, a)
    ensures Equals(a, b) ==> Equals(b, a)
    ensures Equals(a, b) && Equals(b, c) ==> Equals(a, c)
    ensures Equals(a, b) <==> Equals(a.(appId := b.appId + 1), b)
    ensures a.kind.NorthBoundMac? != b.kind.NorthBoundMac? ==> !Equals(a, b)
    ensures a.kind.SouthBoundMac? != b.kind.SouthBoundMac? ==> !Equals(a, b)
  {
  }

  /** The selector and treatment shared by all three classes, given the class's own criteria. */
  function BuildIntent(f: Flow, leading: seq<Criterion>, priority: int): (i: Intent)
    ensures i.appId == f.appId && i.priority == priority
    ensures i.ingressPoint == f.ingress.location && i.egressPoint == f.egress.location
    ensures i.selector == leading + VlanMatches(f.ingress.ingressVlans.vlanList)
    ensures i.treatment == VlanMatchAndTreatment(f.ingress.ingressVlans, f.egress.ingressVlans).1
  {
    var vt := VlanMatchAndTreatment(f.ingress.ingressVlans, f.egress.ingressVlans);
    PointToPointIntent(f.appId, leading + vt.0, vt.1, f.ingress.location, f.egress.location, priority)
  }

  /** The ether type matched for a prefix: IPv6 for an IPv6 prefix, IPv4 otherwise. */
  function EthTypeOf(p: IpPrefix): (t: int)
    ensures t == ETH_TYPE_IPV6 <==> IsIp6(p)
    ensures t == ETH_TYPE_IPV4 <==> !IsIp6(p)
  {
    if IsIp6(p) then ETH_TYPE_IPV6 else ETH_TYPE_IPV4
  }

  /**
   * `getIntent(priority)`. The northbound MAC flow returns null when its MAC is the shared
   * `MacAddress.ZERO` or `MacAddress.NONE` object (compared by reference); the southbound flows
   * always build an intent.
   */
  function GetIntent(f: Flow, priority: int): (r: Option<Intent>)
    ensures f.kind.NorthBoundMac? ==>
      (r.None? <==> f.kind.gatewayMac == MAC_ZERO || f.kind.gatewayMac == MAC_NONE)
    ensures !f.kind.NorthBoundMac? ==> r.Some?
    ensures r.Some? ==>
      r.value.appId == f.appId && r.value.priority == priority
      && r.value.ingressPoint == f.ingress.location && r.value.egressPoint == f.egress.location
      && r.value.treatment == VlanMatchAndTreatment(f.ingress.ingressVlans, f.egress.ingressVlans).1
    ensures r.Some? && f.kind.NorthBoundMac? ==>
      r.value.selector == [MatchEthDst(f.kind.gatewayMac)] + VlanMatches(f.ingress.ingressVlans.vlanList)
    ensures r.Some? && f.kind.SouthBoundMac? ==>
      r.value.selector == [MatchEthDst(f.kind.hostMac)] + VlanMatches(f.ingress.ingressVlans.vlanList)
    ensures r.Some? && f.kind.SouthBoundIpSubnet? ==>
      r.value.selector == [MatchEthType(EthTypeOf(f.kind.ipPrefix)), MatchIpDst(f.kind.ipPrefix)]
                          + VlanMatches(f.ingress.ingressVlans.vlanList)
  {
    match f.kind
    case NorthBoundMac(mac) =>
      if mac != MAC_ZERO && mac != MAC_NONE then Some(BuildIntent(f, [MatchEthDst(mac)], priority)) else None
    case SouthBoundIpSubnet(prefix) =>
      Some(BuildIntent(f, [MatchEthType(EthTypeOf(prefix)), MatchIpDst(prefix)], priority))
    case SouthBoundMac(mac) =>
      Some(BuildIntent(f, [MatchEthDst(mac)], priority))
  }

  /**
   * Because the test is by reference, a MAC object that equals `MacAddress.NONE` in value but is
   * a different object still yields an intent, one matching the unknown-gateway address.
   */
  lemma NoneByValueStillBuilds(f: Flow, priority: int)
    requires f.kind == NorthBoundMac(MacAddress(MAC_NONE.bits, 7))
    ensures SameMac(f.kind.gatewayMac, MAC_NONE)
    ensures GetIntent(f, priority).Some?
    ensures GetIntent(f, priority).value.selector[0] == MatchEthDst(f.kind.gatewayMac)
  {
  }
}
