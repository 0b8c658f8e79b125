/**
 * `SDNWLANConnectPointPair`: the key of the per-AP and per-host intent maps. It pairs the point
 * closest to the host with the point at the other end of the path and the subnet served.
 */
module ConnectPointPairs {
  import opened Net
  import opened ConnectPoints

  datatype ConnectPointPair = ConnectPointPair(
    hostAccessPoint: ConnectPoint,
    remoteAccessPoint: ConnectPoint,
    subnet: IpPrefix)

  /** `equals`: equal subnets, equal host points and equal remote points, position by position. */
  predicate Equals(a: ConnectPointPair, b: ConnectPointPair)
  {
    a.subnet == b.subnet
    && ConnectPoints.Equals(a.hostAccessPoint, b.hostAccessPoint)
    && ConnectPoints.Equals(a.remoteAccessPoint, b.remoteAccessPoint)
  }

  /**
   * `equals` is the equality of the three components, and the pair is ordered: swapping two
   * different points gives a different key.
   */
  lemma EqualsIsComponentwise(a: ConnectPointPair, b: ConnectPointPair)
    ensures Equals(a, b) <==> a == b
    ensures a.hostAccessPoint != a.remoteAccessPoint
            ==> !Equals(a, ConnectPointPair(a.remoteAccessPoint, a.hostAccessPoint, a.subnet))
  {
    EqualsMeansSameParts(a.hostAccessPoint, b.hostAccessPoint);
    EqualsMeansSameParts(a.remoteAccessPoint, b.remoteAccessPoint);
    EqualsMeansSameParts(a.hostAccessPoint, a.remoteAccessPoint);
  }
}
