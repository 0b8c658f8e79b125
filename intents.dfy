/**
 * The parts of an ONOS point-to-point intent the engine builds: selector criteria, treatment
 * instructions, the two edge locations and the priority; and the submit/withdraw calls the
 * engine makes on the intent service.
 */
module Intents {
  import opened Net

  const ETH_TYPE_IPV4: int := 0x0800
  const ETH_TYPE_IPV6: int := 0x86dd

  /** One `match...` call on a selector builder. */
  datatype Criterion =
    | MatchEthDst(mac: MacAddress)
    | MatchEthType(ethType: int)
    | MatchIpDst(prefix: IpPrefix)
    | MatchVlanId(vid: VlanId)

  /** One call on a treatment builder. */
  datatype Instruction = PushVlan | SetVlanId(vid: VlanId) | PopVlan

  datatype Intent = PointToPointIntent(
    appId: nat,
    selector: seq<Criterion>,
    treatment: seq<Instruction>,
    ingressPoint: Location,
    egressPoint: Location,
    priority: int)

  /** A call on the intent service. */
  datatype IntentEvent = Submit(intent: Intent) | Withdraw(intent: Intent)
}
