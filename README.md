# sdnwlan mobility engine in Dafny

This project models the core of `sdnwlan`, an ONOS application that gives Wi-Fi hosts
mobility across access points (APs) of an SDN fabric.

The application manager (`APManager`) keeps three things:
- a map from MAC to `AccessPoint`;
- a directory from IP address to `DefaultGateway`;
- the settings: flow priorities and the removed-host timeout.

Host events from ONOS drive the engine:
- A host event for a gateway (one whose address a known gateway has) is learned by that
  gateway. A gateway whose MAC and location become known starts its owner APs, which then build
  their default-gateway intents.
- Any other host is a mobile host. It is filed at the AP serving its subnet (its home). When it
  is seen at another AP it roams there, and roaming intents are built through its home AP's
  gateways. A removed host is stamped with a removal time, and a timer task purges it from every
  AP once the timeout has passed.

Module by module:
- `JavaInt`, `JavaText`, `Net`, `IpText`: the Java and ONOS value semantics the core relies on.
  These cover 32-bit `int` and `short` arithmetic, `String.split`, `Integer.parseInt`,
  `String.format("%d")`, IPv4 text, prefixes and masks.
- `IngressVlans`, `GatewayMask`, `ConnectPoints`, `ConnectPointPairs`, `Flows`: the value classes.
  Their equality and hashing, their parsers and printers, VLAN push/pop treatments, and the
  three flow classes with their intents.
- `Config`, `Services`, `HostInfos`: configuration entries, the ONOS intent and host-monitor
  services as call logs, and the per-host record.
- `FlowTables`: the intent tables on values. Adding default-gateway flows, dropping them, and
  adding and withdrawing roaming flows are folds, and their laws are proved: idempotence,
  drop-undoes-add, and what each fold adds or removes.
- `Mobility`: the classes `DefaultGateway`, `AccessPoint` and `MobileHost`, with their fields
  updated in place. Each method is proved against the `FlowTables` folds.
- `Purging`: `purgeHost` and the timer sweep of `PurgeHostTask`.
- `Manager`: the class `APManager` and the logic of its event handlers.

Some modelling conventions:
- ONOS compares some objects by reference: `MacAddress.NONE` and `ZERO` in
  `NorthBoundMacFlow.getIntent`, and `HostLocation.NONE`. Java reference identity is therefore
  modelled by an `instance` tag in the value. `==` is Java `==`, and `SameMac`/`SameLocation`
  are `equals`.
- Hash-map and hash-set iteration order is unspecified. Loops visit keys in an arbitrary
  enumeration, and contracts hold for every order.
- A null dereference that the code can reach on a valid input is modelled as an outcome
  (`Completion.NullPointer`) and not as a precondition. There are four such cases:
  - A mobile host first seen away from home. The three-argument `MobileHost` constructor never
    passes the host record to its superclass, so `addHost` dereferences a null record.
    `AdoptHost` returns `NullPointer` exactly then.
  - Roaming flows towards a home gateway whose MAC is still a placeholder. The northbound intent
    is null, and `putIfAbsent(pair, null)` throws after the southbound intent was stored
    (`FlowTables.RoamingRun`). A host without a home AP throws there too.
  - `setCurrentAccessPoint` when the current point is null and the host has a home AP:
    `currentAccessPoint.removeHost` dereferences null (`MobileHost.Moved`).
  - A removal event for a host no AP files, a gateway's included. `onHostRemoved` tests the
    event's host for null instead of the host it looked up, then calls `setRemovedTime` on
    that null host (APManager.java:733-738). `Manager.APManager.OnHostRemoved` returns
    `NullPointer` exactly then. This case is a row under "## Findings", with
    `Manager.APManager.RemoveFoundHost` as the corrected handler.
  Each outcome is passed up through the handlers that call these.
- The manager's invariant is `Manager.APManager.Consistent`. Every event handler and the purge
  task need it and keep it, and so does reconfiguration. It says three things. The manager is
  well formed (`Valid`). Every host an AP files has a record, is keyed by its MAC and uses the
  manager's intent service (`HostsFiled`). Every owner of a filed gateway uses that service and
  can start (`PointsStartable`).
- `SouthBoundFlow.java` is not part of this model. Its southbound flows are taken to run
  from the gateway side to the AP side, as their constructors' argument names say.

## Model

| member | source | states |
|---|---|---|
| JavaInt.Wrap32 | src/main/java/net/bcsw/sdnwlan/APManager.java:878 | the result is the 32-bit two's complement value congruent to the input modulo 2^32 |
| JavaInt.ToShort | src/main/java/net/bcsw/sdnwlan/IngressVlans.java:88 | the `(short)` cast keeps the low 16 bits as two's complement: in range and congruent modulo 2^16 |
| JavaInt.IntInc | src/main/java/net/bcsw/sdnwlan/MobileHost.java:123 | `timesMoved++` on an `int`: one more, except that `Integer.MAX_VALUE` wraps to `MIN_VALUE` |
| JavaInt.IntMul | src/main/java/net/bcsw/sdnwlan/APManager.java:878 | `hostRemovedTimeout * 1000` is an `int`, the true product whenever that fits |
| JavaText.NatToDecimal | src/main/java/net/bcsw/sdnwlan/IngressVlans.java:169 | `%d` of a non-negative number is a non-empty string of decimal digits |
| JavaText.IntToDecimal | src/main/java/net/bcsw/sdnwlan/IpGatewayAndMask.java:90 | `%d` of an int is non-empty, all digits but for a leading minus |
| JavaText.DecimalRoundTrip | src/main/java/net/bcsw/sdnwlan/IngressVlans.java:169 | the digits printed for n read back as n |
| JavaText.DecimalCanonical | src/main/java/net/bcsw/sdnwlan/IngressVlans.java:169 | printed numbers have no leading zero, and at most three digits below 1000 |
| JavaText.ParseInt | src/main/java/net/bcsw/sdnwlan/IpGatewayAndMask.java:59 | a value `Integer.parseInt` returns is an `int`, read from an optional sign and decimal digits; other text is a `NumberFormatException` |
| JavaText.ParseIntRoundTrip | src/main/java/net/bcsw/sdnwlan/IpGatewayAndMask.java:59 | what `%d` prints, `parseInt` reads back |
| JavaText.SplitAll | src/main/java/net/bcsw/sdnwlan/IpGatewayAndMask.java:53 | at least one part, and no part contains the separator |
| JavaText.JoinAvoids | src/main/java/net/bcsw/sdnwlan/IpGatewayAndMask.java:53 | a character in no part, other than the separator, is not in the joined text |
| JavaText.SplitAllJoin | src/main/java/net/bcsw/sdnwlan/IpGatewayAndMask.java:53 | splitting a join of separator-free parts gives the parts back |
| JavaText.JoinSplitAll | src/main/java/net/bcsw/sdnwlan/IpGatewayAndMask.java:53 | joining the parts of a split with the separator gives the text back |
| JavaText.JavaSplitJoin | src/main/java/net/bcsw/sdnwlan/IpGatewayAndMask.java:53 | `String.split` (trailing empty parts dropped) of such a join, the last part non-empty, gives the parts back |
| Net.ClearLowBits | src/main/java/net/bcsw/sdnwlan/IpGatewayAndMask.java:38 | clearing the low bits never increases the value |
| Net.ClearLowBitsTwice | src/main/java/net/bcsw/sdnwlan/IpGatewayAndMask.java:38 | clearing the same bits twice is clearing them once |
| Net.MakeMasked | src/main/java/net/bcsw/sdnwlan/IpGatewayAndMask.java:38 | masking keeps the address family and does not increase the address |
| Net.MaskedTwice | src/main/java/net/bcsw/sdnwlan/IpGatewayAndMask.java:38 | masking is idempotent |
| Net.PrefixOf | src/main/java/net/bcsw/sdnwlan/IpGatewayAndMask.java:38 | `IpPrefix.valueOf(a, len)` has length len and a's family |
| Net.ContainsIff | src/main/java/net/bcsw/sdnwlan/APManager.java:507-523 | a prefix contains exactly the same-family addresses that agree on its first len bits, including the address it was built from and its own masked address |
| IpText.Octets | src/main/java/net/bcsw/sdnwlan/IpGatewayAndMask.java:86-92 | four octets, each below 256 |
| IpText.OctetsRoundTrip | src/main/java/net/bcsw/sdnwlan/IpGatewayAndMask.java:86-92 | the octets of an address rebuild it |
| IpText.ParseOctet | src/main/java/net/bcsw/sdnwlan/IpGatewayAndMask.java:52-62 | one dotted-quad part parses to a value below 256 or fails |
| IpText.ParseIpv4 | src/main/java/net/bcsw/sdnwlan/IpGatewayAndMask.java:52-62 | a parsed dotted quad is a 32-bit value; malformed text fails |
| IpText.OctetTextRoundTrip | src/main/java/net/bcsw/sdnwlan/IpGatewayAndMask.java:86-92 | a printed octet reads back |
| IpText.Ipv4TextRoundTrip | src/main/java/net/bcsw/sdnwlan/IpGatewayAndMask.java:86-92 | what `toString` prints for an IPv4 address, `IpAddress.valueOf` reads back |
| IpText.ParseIpAddress | src/main/java/net/bcsw/sdnwlan/IpGatewayAndMask.java:52-62 | text without a colon is read as IPv4: every address it returns is a valid IPv4 address |
| IngressVlans.WithoutNoneMembers | src/main/java/net/bcsw/sdnwlan/IngressVlans.java:52-61 | exactly the non-NONE entries survive, in order; a list without NONE is kept |
| IngressVlans.FromList | src/main/java/net/bcsw/sdnwlan/IngressVlans.java:52-61 | the list constructor: a null list gives the empty stack, otherwise the non-NONE entries |
| IngressVlans.FromVlan | src/main/java/net/bcsw/sdnwlan/IngressVlans.java:63-67 | one tag, or the empty stack for NONE |
| IngressVlans.FromStacked | src/main/java/net/bcsw/sdnwlan/IngressVlans.java:77-83 | S-tag then C-tag, each unless NONE |
| IngressVlans.FromJsonArray | src/main/java/net/bcsw/sdnwlan/IngressVlans.java:85-90 | a missing array gives the empty stack; otherwise it fails exactly when some JSON integer cast to `short` is a value `VlanId.vlanId` rejects, naming that value, and else keeps one entry per integer, each the cast value, an all-ones low half being NONE |
| IngressVlans.NoneShort | src/main/java/net/bcsw/sdnwlan/IngressVlans.java:88 | an integer whose low 16 bits are all set casts to the short -1, which is NONE |
| IngressVlans.Shorts | src/main/java/net/bcsw/sdnwlan/IngressVlans.java:88 | one `(short)` cast per integer, position by position |
| IngressVlans.JsonKeepsNone | src/main/java/net/bcsw/sdnwlan/IngressVlans.java:52-90 | for every integer with all low 16 bits set: it is NONE, `VlanId.vlanId` accepts it (so the JSON constructor keeps it), and the single-tag and list constructors drop it |
| IngressVlans.ToStringRoundTrip | src/main/java/net/bcsw/sdnwlan/IngressVlans.java:164-173 | the printed text reads back to the stack, so it determines the stack |
| IngressVlans.VlanMatchAndTreatment | src/main/java/net/bcsw/sdnwlan/IngressVlans.java:100-137 | one VLAN match per ingress tag; no treatment for equal stacks; a push and set per egress tag for an empty ingress; one pop per tag for an empty egress; nothing otherwise |
| IngressVlans.TreatmentRestoresEgress | src/main/java/net/bcsw/sdnwlan/IngressVlans.java:100-137 | in the cases the source handles (equal stacks, one pushed tag, popping every tag), a frame entering with the ingress stack leaves with the egress stack |
| IngressVlans.PushedStackIsReversed | src/main/java/net/bcsw/sdnwlan/IngressVlans.java:124 | pushing egress [100, 200] in list order leaves the frame with [200, 100] |
| IngressVlans.UnhandledCaseKeepsIngress | src/main/java/net/bcsw/sdnwlan/IngressVlans.java:131-133 | two different non-empty stacks get no treatment, so frames keep the ingress stack |
| GatewayMask.Make | src/main/java/net/bcsw/sdnwlan/IpGatewayAndMask.java:31-50 | succeeds exactly for a prefix length within the family's width, keeping the unmasked gateway |
| GatewayMask.GetIpPrefix | src/main/java/net/bcsw/sdnwlan/IpGatewayAndMask.java:38 | the prefix is the gateway's own subnet: it contains the gateway, and exactly the addresses whose mask equals the gateway's |
| GatewayMask.ValueOf | src/main/java/net/bcsw/sdnwlan/IpGatewayAndMask.java:52-62 | text that does not split into two parts is malformed; otherwise it is the parsed address and length, checked |
| GatewayMask.EqualsIsIdentityOfValues | src/main/java/net/bcsw/sdnwlan/IpGatewayAndMask.java:69-83 | `equals` is equality of gateway and length |
| GatewayMask.ToStringRoundTrip | src/main/java/net/bcsw/sdnwlan/IpGatewayAndMask.java:86-92 | `valueOf(toString(g))` gives g back |
| ConnectPoints.ForAccessPoint | src/main/java/net/bcsw/sdnwlan/SDNWLANConnectPoint.java:52-59 | the AP's first connection with the AP's VLANs |
| ConnectPoints.ForRoaming | src/main/java/net/bcsw/sdnwlan/SDNWLANConnectPoint.java:70-77 | the roaming AP's first connection with the home AP's VLANs |
| ConnectPoints.ForGateway | src/main/java/net/bcsw/sdnwlan/SDNWLANConnectPoint.java:86-93 | the gateway's learned location with its configured VLANs |
| ConnectPoints.EqualsMeansSameParts | src/main/java/net/bcsw/sdnwlan/SDNWLANConnectPoint.java:109-127 | `equals` is equality of location and VLANs, and different location objects are never equal |
| ConnectPoints.RoamingAtHomeIsAccessPoint | src/main/java/net/bcsw/sdnwlan/SDNWLANConnectPoint.java:52-77 | a host roaming at its own home gets the AP's own point |
| ConnectPointPairs.EqualsIsComponentwise | src/main/java/net/bcsw/sdnwlan/SDNWLANConnectPointPair.java:45-60 | `equals` is equality of the three parts, and swapping two different points gives a different key |
| Flows.CheckedFlow | src/main/java/net/bcsw/sdnwlan/flows/Flow.java:37-53 | a null ingress is reported first, then a null egress; otherwise the flow has both points |
| Flows.NewNorthBoundMacFlow | src/main/java/net/bcsw/sdnwlan/flows/NorthBoundMacFlow.java:22-29 | built exactly when both points are present, from the AP side to the gateway side |
| Flows.NewSouthBoundIpSubnetFlow | src/main/java/net/bcsw/sdnwlan/flows/SouthBoundIpSubnetFlow.java:42-49 | built exactly when both points are present, from the gateway side to the AP side |
| Flows.NewSouthBoundMacFlow | src/main/java/net/bcsw/sdnwlan/flows/SouthBoundMacFlow.java:41-48 | built exactly when both points are present, from the gateway side to the AP side |
| Flows.EqualsIsEquivalence | src/main/java/net/bcsw/sdnwlan/flows/Flow.java:95-104 | flow equality is an equivalence that ignores the application id, and flows of different classes are never equal |
| Flows.BuildIntent | src/main/java/net/bcsw/sdnwlan/flows/NorthBoundMacFlow.java:56-68 | the intent has the flow's app id, priority and points; its selector is the class criteria plus the ingress VLAN matches; its treatment is the VLAN treatment |
| Flows.EthTypeOf | src/main/java/net/bcsw/sdnwlan/flows/SouthBoundIpSubnetFlow.java:80 | IPv6 ether type exactly for an IPv6 prefix |
| Flows.GetIntent | src/main/java/net/bcsw/sdnwlan/flows/NorthBoundMacFlow.java:49-71 | the northbound MAC flow gives null exactly for the shared ZERO/NONE objects; southbound flows always give an intent; each selector starts with its class's criterion |
| Flows.NoneByValueStillBuilds | src/main/java/net/bcsw/sdnwlan/flows/NorthBoundMacFlow.java:54 | a MAC equal to NONE in value but a different object still gets an intent |
| HostInfos.HostInfo.constructor | src/main/java/net/bcsw/sdnwlan/SDNWLANHostInfo.java:30-42 | the record, creation time `now`, last move at creation, no removal, no moves |
| HostInfos.HostInfo.GetMacAddress | src/main/java/net/bcsw/sdnwlan/SDNWLANHostInfo.java:69-71 | the record's MAC (a record must be present) |
| HostInfos.HostInfo.SetRemovedTime | src/main/java/net/bcsw/sdnwlan/SDNWLANHostInfo.java:131-138 | the removal time becomes the given time; the move fields stay |
| FlowTables.PutIfAbsent | src/main/java/net/bcsw/sdnwlan/AccessPoint.java:211-230 | the key is added with the intent and one submit is logged exactly when it was absent; otherwise nothing changes |
| FlowTables.AddPair | src/main/java/net/bcsw/sdnwlan/AccessPoint.java:211-230 | each table gets the pair when it lacked it, with a submit per addition; existing entries are kept |
| FlowTables.DefaultStep | src/main/java/net/bcsw/sdnwlan/AccessPoint.java:181-233 | nothing for an unlocated or latched gateway; otherwise the latch is set and the subnet and gateway-MAC intents are added |
| FlowTables.DefaultFold | src/main/java/net/bcsw/sdnwlan/AccessPoint.java:143-157 | `onStartup` on values yields one latch per gateway |
| FlowTables.DefaultFoldStep | src/main/java/net/bcsw/sdnwlan/AccessPoint.java:143-157 | the sweep over one more gateway is the shorter sweep then that gateway's step |
| FlowTables.DefaultFoldLatches | src/main/java/net/bcsw/sdnwlan/AccessPoint.java:181-233 | after startup a latch is set exactly when it was set or the gateway's location is known |
| FlowTables.DefaultFoldTables | src/main/java/net/bcsw/sdnwlan/AccessPoint.java:143-157 | startup only adds entries, keeps the tables agreeing, submits once per added entry and withdraws nothing |
| FlowTables.StepsCompose | src/main/java/net/bcsw/sdnwlan/AccessPoint.java:181-233 | two adding steps in a row add what each adds |
| FlowTables.DefaultFoldNoop | src/main/java/net/bcsw/sdnwlan/AccessPoint.java:181-233 | a sweep over unlocated or latched gateways changes nothing |
| FlowTables.StartupIdempotent | src/main/java/net/bcsw/sdnwlan/AccessPoint.java:143-157 | running startup again with the same gateways submits nothing and changes nothing |
| FlowTables.DropStep | src/main/java/net/bcsw/sdnwlan/AccessPoint.java:240-262 | nothing unless latched; otherwise the latch clears, the pair leaves both tables, and the northbound and then the southbound intent are withdrawn |
| FlowTables.DropFold | src/main/java/net/bcsw/sdnwlan/AccessPoint.java:292-300 | the drop sweep yields one latch per gateway |
| FlowTables.DropFoldStep | src/main/java/net/bcsw/sdnwlan/AccessPoint.java:292-300 | the drop sweep over one more gateway is the shorter sweep then that gateway's step |
| FlowTables.DropFoldClears | src/main/java/net/bcsw/sdnwlan/AccessPoint.java:292-300 | after `dropAllFlows` every latch is clear, the tables lost exactly the latched gateways' pairs, and only withdraws were made |
| FlowTables.DropUndoesAdd | src/main/java/net/bcsw/sdnwlan/AccessPoint.java:181-262 | dropping right after adding restores the latch and tables and withdraws the two submitted intents, northbound first |
| FlowTables.DropGateMatchesSouth | src/main/java/net/bcsw/sdnwlan/AccessPoint.java:250-258 | with agreeing tables the southbound withdraw happens exactly when there is a southbound entry |
| FlowTables.RoamingEntry | src/main/java/net/bcsw/sdnwlan/MobileHost.java:161-199 | the pair of current point and gateway point, a southbound intent on the host MAC and a northbound one on the gateway MAC |
| FlowTables.RoamingEntries | src/main/java/net/bcsw/sdnwlan/MobileHost.java:161-199 | one entry per home gateway, in order |
| FlowTables.AddFold | src/main/java/net/bcsw/sdnwlan/MobileHost.java:161-199 | the fold of `AddPair` over the entries |
| FlowTables.AddFoldCovers | src/main/java/net/bcsw/sdnwlan/MobileHost.java:161-199 | after the fold every entry's pair has both intents |
| FlowTables.AddFoldTables | src/main/java/net/bcsw/sdnwlan/MobileHost.java:161-199 | the fold only adds entries, keeps the tables agreeing and only submits |
| FlowTables.AddFoldNoop | src/main/java/net/bcsw/sdnwlan/MobileHost.java:161-199 | a fold over entries already present changes nothing |
| FlowTables.RoamingFoldStep | src/main/java/net/bcsw/sdnwlan/MobileHost.java:161-199 | the roaming fold over one more gateway adds that gateway's entry |
| FlowTables.RoamingStep | src/main/java/net/bcsw/sdnwlan/MobileHost.java:167-197 | one gateway's turn is for its pair, and has a northbound intent exactly when the gateway's MAC is a real one |
| FlowTables.RoamingSteps | src/main/java/net/bcsw/sdnwlan/MobileHost.java:167-197 | one turn per home gateway, in order, each for that gateway's pair |
| FlowTables.RoamingStepsAt | src/main/java/net/bcsw/sdnwlan/MobileHost.java:167-197 | the turn at position i is gateway i's turn |
| FlowTables.RoamingStepsPrefix | src/main/java/net/bcsw/sdnwlan/MobileHost.java:167-197 | the turns of a prefix of the gateways are that prefix of the turns |
| FlowTables.RunStep | src/main/java/net/bcsw/sdnwlan/MobileHost.java:188-197 | a thrown run stays as it is; a run completes a turn exactly when it had completed and the turn has a northbound intent |
| FlowTables.RunAll | src/main/java/net/bcsw/sdnwlan/MobileHost.java:167-197 | a run over turns completes exactly when every turn has a northbound intent |
| FlowTables.RunAllSnoc | src/main/java/net/bcsw/sdnwlan/MobileHost.java:167-197 | the run over one more turn is one more `RunStep` |
| FlowTables.RunAllStays | src/main/java/net/bcsw/sdnwlan/MobileHost.java:195 | once the run over a prefix has thrown, the later turns change nothing |
| FlowTables.RoamingRun | src/main/java/net/bcsw/sdnwlan/MobileHost.java:161-199 | adding a host's roaming flows completes exactly when every home gateway's MAC is a real one |
| FlowTables.RunStepAddsEntry | src/main/java/net/bcsw/sdnwlan/MobileHost.java:183-197 | a gateway with a real MAC adds exactly its roaming entry to a completed run |
| FlowTables.RoamingRunSnoc | src/main/java/net/bcsw/sdnwlan/MobileHost.java:167-197 | the run over one more gateway is one more `RunStep` |
| FlowTables.RoamingRunIsFold | src/main/java/net/bcsw/sdnwlan/MobileHost.java:161-199 | when every MAC is real the run completes with exactly the tables and calls of `RoamingFold` |
| FlowTables.RoamingRunStays | src/main/java/net/bcsw/sdnwlan/MobileHost.java:195 | once the run over a prefix of the gateways has thrown, the rest change nothing |
| FlowTables.RoamingRunStopsAt | src/main/java/net/bcsw/sdnwlan/MobileHost.java:183-197 | at the first placeholder MAC the run has the earlier gateways' entries plus that gateway's southbound intent, stored and submitted, and throws at `putIfAbsent(pair, null)` |
| FlowTables.StopKeeps | src/main/java/net/bcsw/sdnwlan/MobileHost.java:183-197 | where the run stops, the earlier pairs have both intents, the stopping pair a southbound one, every old entry is kept and only submits are made |
| FlowTables.RoamingRunThrows | src/main/java/net/bcsw/sdnwlan/MobileHost.java:161-199 | a run that throws stops at the first placeholder MAC, with the tables and calls `StopKeeps` states |
| FlowTables.FirstPlaceholder | src/main/java/net/bcsw/sdnwlan/MobileHost.java:167-197 | the first gateway with a placeholder MAC, all before it real |
| FlowTables.RoamingFoldAdds | src/main/java/net/bcsw/sdnwlan/MobileHost.java:150-199 | adding roaming flows gives every home gateway's pair both intents, keeps every entry, keeps the tables agreeing and only submits |
| FlowTables.RoamingIdempotent | src/main/java/net/bcsw/sdnwlan/MobileHost.java:150-199 | adding the roaming flows again submits nothing |
| FlowTables.WithdrawAll | src/main/java/net/bcsw/sdnwlan/MobileHost.java:223-229 | one withdraw per visited key |
| FlowTables.WithdrawAllAt | src/main/java/net/bcsw/sdnwlan/MobileHost.java:223-229 | the i-th call withdraws the i-th key's intent |
| FlowTables.WithdrawAllCovers | src/main/java/net/bcsw/sdnwlan/MobileHost.java:223-229 | withdrawing in the order of a key enumeration withdraws each intent of the table |
| FlowTables.WithdrawsAllIntents | src/main/java/net/bcsw/sdnwlan/MobileHost.java:223-229 | dropping a host's roaming flows withdraws only and every intent of its two tables, one call per entry |
| FlowTables.FlattenWithdrawsOnly | src/main/java/net/bcsw/sdnwlan/APManager.java:338-342 | runs that each withdraw only intents of two tables, one after the other, withdraw only those intents |
| Mobility.Settings.constructor | src/main/java/net/bcsw/sdnwlan/APManager.java:104-109 | the settings start at the configuration defaults |
| Mobility.SdnViewOfGatewayVlans | src/main/java/net/bcsw/sdnwlan/DefaultGateway.java:68-79 | a non-empty stack is kept; a missing or empty one is seen as [NONE] |
| Mobility.RemoveFirst | src/main/java/net/bcsw/sdnwlan/DefaultGateway.java:136-139 | `List.remove` takes out one occurrence when there is one and otherwise keeps the list |
| Mobility.ViewOf | src/main/java/net/bcsw/sdnwlan/AccessPoint.java:181-233 | the gateway's learned location and MAC and its configured VLANs |
| Mobility.DefaultGateway.constructor | src/main/java/net/bcsw/sdnwlan/DefaultGateway.java:53-66 | the configuration, no owners, unlatched, and a record with the NONE location and MAC |
| Mobility.DefaultGateway.SetDefaultFlowsInstalled | src/main/java/net/bcsw/sdnwlan/DefaultGateway.java:103-106 | compare-and-set: the latch becomes b, and the result says whether it changed |
| Mobility.DefaultGateway.AddAccessPoint | src/main/java/net/bcsw/sdnwlan/DefaultGateway.java:116-127 | the owner list grows by the point, and the call reports success |
| Mobility.DefaultGateway.RemoveAccessPoint | src/main/java/net/bcsw/sdnwlan/DefaultGateway.java:136-139 | the first occurrence goes, and the result says whether there was one |
| Mobility.DefaultGateway.EqualsAgreesWithHash | src/main/java/net/bcsw/sdnwlan/DefaultGateway.java:201-214 | equality is having the same configuration, and equal gateways hash alike |
| Mobility.DefaultGateway.UpdateHost | src/main/java/net/bcsw/sdnwlan/DefaultGateway.java:159-198 | the record is replaced. When the old record was unknown and the new one is fully known with a change, every owner is started and ends ready, and each owner listed once with gateways of its own has its latches and tables folded by `DefaultFold` from where they were; otherwise nothing else changes |
| Mobility.StartOwners | src/main/java/net/bcsw/sdnwlan/DefaultGateway.java:181-183 | every AP of the list ends started, shared gateways keep their records and owners, and each AP listed once with gateways of its own has latches and tables exactly `DefaultFold` of its starting state |
| Mobility.StartAccessPoint | src/main/java/net/bcsw/sdnwlan/AccessPoint.java:143-157 | an AP's `onStartup`, seen from outside: it ends started, its latches and tables are `DefaultFold` of their old values and the intent log grows by that fold's events (`StartLogged`); its host maps and its gateways' records stay |
| Mobility.StartOne | src/main/java/net/bcsw/sdnwlan/AccessPoint.java:143-157 | the i-th AP of a list starts as `StartLogged` states; the others keep their state, and the list's earlier APs stay started |
| Mobility.LastConfig | src/main/java/net/bcsw/sdnwlan/AccessPoint.java:64-75 | the configuration kept for a prefix is the last entry with it |
| Mobility.PlaceKeepsLastConfigs | src/main/java/net/bcsw/sdnwlan/AccessPoint.java:64-75 | one `put` keeps every prefix's gateway on its last configuration |
| Mobility.ReplaceKeepsKeys | src/main/java/net/bcsw/sdnwlan/AccessPoint.java:64-75 | replacing under an existing prefix keeps the keys distinct and unchanged |
| Mobility.AppendAddsKey | src/main/java/net/bcsw/sdnwlan/AccessPoint.java:64-75 | putting under a new prefix adds that key at the end |
| Mobility.LastConfigSkips | src/main/java/net/bcsw/sdnwlan/AccessPoint.java:64-75 | a later entry for another prefix does not change a prefix's kept configuration |
| Mobility.NewGateways | src/main/java/net/bcsw/sdnwlan/AccessPoint.java:64-75 | one fresh unlearned gateway per configured prefix, on its last configuration, keys distinct |
| Mobility.AccessPoint.constructor | src/main/java/net/bcsw/sdnwlan/AccessPoint.java:64-75 | one gateway per configured prefix, on its last configuration; empty tables and host maps |
| Mobility.AccessPoint.CanStartIsStartable | src/main/java/net/bcsw/sdnwlan/AccessPoint.java:143-157 | an AP whose gateways are buildable can run `onStartup` |
| Mobility.AccessPoint.AddDefaultGatewayFlows | src/main/java/net/bcsw/sdnwlan/AccessPoint.java:181-233 | tables, latch and log move by exactly `FlowTables.DefaultStep`; records, owners and hosts stay |
| Mobility.AccessPoint.SweepAdvances | src/main/java/net/bcsw/sdnwlan/AccessPoint.java:143-157 | after one gateway's step the sweep is one gateway further |
| Mobility.AccessPoint.OnStartupDone | src/main/java/net/bcsw/sdnwlan/AccessPoint.java:143-157 | a full sweep is `DefaultFold` and leaves every located gateway latched |
| Mobility.AccessPoint.OnStartup | src/main/java/net/bcsw/sdnwlan/AccessPoint.java:143-157 | tables, latches and log are exactly `DefaultFold` of the old state, and every located gateway is latched |
| Mobility.AccessPoint.DropDefaultGatewayFlows | src/main/java/net/bcsw/sdnwlan/AccessPoint.java:240-262 | tables, latch and log move by exactly `FlowTables.DropStep` |
| Mobility.AccessPoint.DropSweepAdvances | src/main/java/net/bcsw/sdnwlan/AccessPoint.java:292-300 | after one gateway's drop the drop sweep is one gateway further |
| Mobility.AccessPoint.DropSweepDone | src/main/java/net/bcsw/sdnwlan/AccessPoint.java:292-300 | a full drop sweep is `DropFold` and leaves every latch clear |
| Mobility.AccessPoint.DropGatewayFlows | src/main/java/net/bcsw/sdnwlan/AccessPoint.java:292-296 | the gateway half of `dropAllFlows` is exactly `DropFold` of the old state; every latch ends clear |
| Mobility.AccessPoint.DropRoamingHostFlows | src/main/java/net/bcsw/sdnwlan/AccessPoint.java:297-299 | every roaming host's roaming intents are withdrawn, the hosts in an enumeration of the map |
| Mobility.AccessPoint.DropAllFlows | src/main/java/net/bcsw/sdnwlan/AccessPoint.java:292-300 | the gateway drop, then the roaming-host drop; host maps unchanged |
| Mobility.AccessPoint.AddHost | src/main/java/net/bcsw/sdnwlan/AccessPoint.java:310-340 | a roaming host is filed among roaming hosts and gets the roaming flows and outcome of `RoamingFlows` unless its MAC is there; a host at home is filed among local hosts unless its MAC is there |
| Mobility.AccessPoint.RemoveHost | src/main/java/net/bcsw/sdnwlan/AccessPoint.java:350-368 | a roaming MAC has the host's roaming intents withdrawn and leaves; a local MAC leaves; nothing else changes |
| Mobility.WithdrawEach | src/main/java/net/bcsw/sdnwlan/MobileHost.java:223-229 | one withdraw per entry, in the returned enumeration of the keys |
| Mobility.DropEachHost | src/main/java/net/bcsw/sdnwlan/AccessPoint.java:297-299 | each host's roaming intents are withdrawn, the hosts in the returned enumeration |
| Mobility.DropHosts | src/main/java/net/bcsw/sdnwlan/AccessPoint.java:297-299 | the withdraw calls of dropping each host in turn |
| Mobility.EnumerateKeys | src/main/java/net/bcsw/sdnwlan/APManager.java:488-500 | a hash-map iteration visits each key once, in some order |
| Mobility.MobileHost.AtHome | src/main/java/net/bcsw/sdnwlan/MobileHost.java:57-65 | the record is kept; the host is at its first home; empty tables |
| Mobility.MobileHost.Away | src/main/java/net/bcsw/sdnwlan/MobileHost.java:67-74 | the record is dropped; the host is at the given point; empty tables |
| Mobility.MobileHost.HomeAccessPoint | src/main/java/net/bcsw/sdnwlan/MobileHost.java:100-102 | null exactly without homes, otherwise a home |
| Mobility.MobileHost.AddRoamingEntry | src/main/java/net/bcsw/sdnwlan/MobileHost.java:166-197 | the tables and log move by exactly one `FlowTables.AddPair` of the gateway's roaming entry |
| Mobility.MobileHost.AddRoamingUnicastFlows | src/main/java/net/bcsw/sdnwlan/MobileHost.java:150-199 | the tables, the log and the outcome are those of `RoamingFlows` from the old tables and home gateways: completes exactly when there is a home AP and no home gateway MAC is a placeholder; no home AP throws with nothing changed; otherwise as `RoamingRunThrows` states |
| Mobility.MobileHost.HomeViews | src/main/java/net/bcsw/sdnwlan/MobileHost.java:167 | what the first home AP's gateways show, in order; the home gateways are learned exactly when there is a home AP and every MAC shown is real |
| Mobility.MobileHost.RoamingFlows | src/main/java/net/bcsw/sdnwlan/MobileHost.java:161-199 | no home AP throws at once and changes nothing; otherwise the `RoamingRun` over the home gateways, which completes exactly when every MAC is real |
| Mobility.MobileHost.AddGatewayEntries | src/main/java/net/bcsw/sdnwlan/MobileHost.java:167-198 | the loop over the home gateways leaves exactly the tables, log and outcome of `RoamingRun` |
| Mobility.MobileHost.RoamingStepAt | src/main/java/net/bcsw/sdnwlan/MobileHost.java:167-198 | one turn of the loop moves the run exactly one `RunStep` |
| Mobility.MobileHost.DropRoamingFlows | src/main/java/net/bcsw/sdnwlan/MobileHost.java:223-229 | every northbound and then every southbound intent is withdrawn, each table in an enumeration of its keys |
| Mobility.MobileHost.SetCurrentAccessPoint | src/main/java/net/bcsw/sdnwlan/MobileHost.java:113-131 | the same point changes nothing. Another point throws exactly when a null current point with a home AP is left, or the host arrives as a new roaming host and its roaming flows throw (`Moved`). The host leaves where it was (unless that was the first home), is at the point, counts the move, and is added there with the roaming flows of `RoamingFlows` when it roams there first |
| Mobility.MobileHost.MoveTo | src/main/java/net/bcsw/sdnwlan/MobileHost.java:115-130 | leaving then arriving: a null current point with a home AP throws before anything changes; otherwise the state each half states, with the outcome of arriving |
| Mobility.MobileHost.LeaveCurrent | src/main/java/net/bcsw/sdnwlan/MobileHost.java:115-118 | the host leaves its point's maps, withdrawing its roaming intents where it roamed, unless that point is the first home |
| Mobility.MobileHost.ArriveAt | src/main/java/net/bcsw/sdnwlan/MobileHost.java:119-129 | the move is recorded and the host is added at the new point as `AddHost` states; it throws exactly when the host arrives as a new roaming host while a home gateway MAC is a placeholder |
| Purging.UptoAll | src/main/java/net/bcsw/sdnwlan/APManager.java:868-889 | over an enumeration of the APs, the sweep collects every expired MAC |
| Purging.SweptAll | src/main/java/net/bcsw/sdnwlan/APManager.java:873-884 | over an enumeration of a point's remaining local hosts, the inner loop meets every expired one |
| Purging.DoneAll | src/main/java/net/bcsw/sdnwlan/APManager.java:868-889 | after the last key every key is done |
| Purging.DoneStep | src/main/java/net/bcsw/sdnwlan/APManager.java:868-889 | the next key is not done yet, and doing it advances by one |
| Purging.Snapshot | src/main/java/net/bcsw/sdnwlan/APManager.java:338-342 | the host maps and tables of every AP, by key |
| Purging.PurgeHost | src/main/java/net/bcsw/sdnwlan/APManager.java:338-342 | every AP loses the host's MAC from both maps; where it roamed its roaming intents are withdrawn; nothing else changes |
| Purging.Sweep | src/main/java/net/bcsw/sdnwlan/APManager.java:866-889 | every AP loses exactly the MACs of the local hosts, at any AP, whose removal time is set and older than the timeout (32-bit millisecond arithmetic); the intent calls made are, host by purged host, withdraws of that expired host's own roaming intents, every one of them when the host roamed at some AP and none when it roamed nowhere (`SweepLogged`); nothing else changes |
| Purging.SweepLoggedSnoc | src/main/java/net/bcsw/sdnwlan/APManager.java:880-882 | one more purged expired host, whose calls withdraw only its own intents, extends the sweep's log |
| Purging.PurgeExpired | src/main/java/net/bcsw/sdnwlan/APManager.java:882 | a purge inside the sweep takes out one more MAC, keeps the removal stamps, and logs only withdraws of the purged host's own intents: all of them when it roamed at some AP, none otherwise |
| Purging.SweepPurge | src/main/java/net/bcsw/sdnwlan/APManager.java:880-882 | a purge inside the sweep keeps the sweep's log in the form `SweepLogged` states |
| Purging.SweepStarts | src/main/java/net/bcsw/sdnwlan/APManager.java:868-889 | before the sweep nothing is gone and the expired hosts are `ExpiredMap` |
| Purging.ExpiredMap | src/main/java/net/bcsw/sdnwlan/APManager.java:876-879 | one entry per access point: the MACs of its expired local hosts |
| Purging.SweepPointStarts | src/main/java/net/bcsw/sdnwlan/APManager.java:872-884 | at the start of a point's turn none of its hosts has been dealt with |
| Purging.SweepPointEnds | src/main/java/net/bcsw/sdnwlan/APManager.java:872-884 | at the end of a point's turn its expired hosts are gone too |
| Manager.RegisterKeeps | src/main/java/net/bcsw/sdnwlan/APManager.java:277-294 | registering gateways keeps every directory entry and adds exactly the new addresses |
| Manager.RegisterFiles | src/main/java/net/bcsw/sdnwlan/APManager.java:277-294 | every address stays filed under a gateway with that address |
| Manager.RegisterFirst | src/main/java/net/bcsw/sdnwlan/APManager.java:283-286 | a new address is filed under the first gateway that has it |
| Manager.RegisterMonitorsOnce | src/main/java/net/bcsw/sdnwlan/APManager.java:290-293 | each new address is monitored once, none already filed is |
| Manager.SoleOwnedAll | src/main/java/net/bcsw/sdnwlan/APManager.java:314-319 | the drop list is exactly the gateways whose only owner was the AP |
| Manager.LastOwnerGoes | src/main/java/net/bcsw/sdnwlan/APManager.java:315-316 | removing the AP empties an owner list exactly when the list was the AP alone |
| Manager.DetachAll | src/main/java/net/bcsw/sdnwlan/APManager.java:314-319 | corrected: every gateway that lists the AP loses it, and those left ownerless are returned in order |
| Manager.ReleaseGateways | src/main/java/net/bcsw/sdnwlan/APManager.java:307-330 | corrected: the gateways detach from the AP; the ownerless leave the directory under their address and stop being monitored |
| Manager.DropAll | src/main/java/net/bcsw/sdnwlan/APManager.java:321-329 | corrected: the dropped gateways' addresses leave the directory, and their monitors stop in order |
| Manager.DropAllAsWritten | src/main/java/net/bcsw/sdnwlan/APManager.java:321-329 | as written: the directory is unchanged, so a dropped gateway's address is still filed while its monitor stop is logged in order |
| Manager.UpdateGateways | src/main/java/net/bcsw/sdnwlan/APManager.java:623-635 | each gateway under one of the host's addresses takes the record and starts its owners when the record becomes known; other gateways keep their records and owners; every owner stays startable and keeps its host maps |
| Manager.UpdateAt | src/main/java/net/bcsw/sdnwlan/APManager.java:628-633 | the gateway under one address takes the record, if there is one; when it starts its owners, each owner listed once with gateways of its own has latches and tables folded by `DefaultFold` |
| Manager.FirstAt | src/main/java/net/bcsw/sdnwlan/APManager.java:491-498 | the first key, in order, whose AP has a connection at the location, or none |
| Manager.Serving | src/main/java/net/bcsw/sdnwlan/APManager.java:507-523 | exactly the APs with a gateway subnet containing one of the addresses |
| Manager.FirstFiling | src/main/java/net/bcsw/sdnwlan/APManager.java:530-542 | the first key, in order, whose AP files a local host under the MAC, or none |
| Manager.Revisit | src/main/java/net/bcsw/sdnwlan/APManager.java:567-570 | a known host's removal time is cleared and it moves to the point, throwing exactly as `SetCurrentAccessPoint` does (`Moved`); the APs it leaves and joins keep their tables and file no host but it anew (`TouchedBy`) |
| Manager.RevisitKnown | src/main/java/net/bcsw/sdnwlan/APManager.java:560-612 | a known host is revisited at a point when it has homes, or at no point when there is none, with the outcome of moving; otherwise left alone and completing. The APs involved change only as `TouchedBy` allows |
| Manager.AdoptHost | src/main/java/net/bcsw/sdnwlan/APManager.java:574-596 | a new host at one of its homes is filed at the first home and, if different, at its point; one first seen away from home is a null dereference |
| Manager.AdoptIfServed | src/main/java/net/bcsw/sdnwlan/APManager.java:561-614 | a new host is adopted only with a point and serving APs, as `Adopted` states; the serving APs and the point keep their tables and roaming maps and file nothing but the new host (`TouchedBy`), and nothing changes when no host is added |
| Manager.AdoptAmong | src/main/java/net/bcsw/sdnwlan/APManager.java:574-596 | seen over all homes, the adoption is exactly `Adopted`; every home and the point keep their tables and roaming maps and file nothing but the new host, and the point files nothing on a null dereference |
| Manager.Filed | src/main/java/net/bcsw/sdnwlan/AccessPoint.java:331-333 | filing keeps existing keys and adds the key only when absent |
| Manager.APManager.OnAddAccessPoint | src/main/java/net/bcsw/sdnwlan/APManager.java:266-298 | a duplicate MAC replaces the AP and stops. Otherwise (`Joined`) the directory and monitor log become `RegisterGateways` of the old ones, each gateway gains the AP as its last owner, and the AP starts: latches and tables are `DefaultFold` of their old values, the intent log grows by its events, and the host maps stay |
| Manager.APManager.AddFresh | src/main/java/net/bcsw/sdnwlan/APManager.java:270-297 | a new MAC: the AP is filed, its gateways are registered and it is started, as `Joined` states |
| Manager.APManager.AddNew | src/main/java/net/bcsw/sdnwlan/APManager.java:277-297 | registering then starting, as `Joined` states |
| Manager.APManager.RegisterAll | src/main/java/net/bcsw/sdnwlan/APManager.java:277-294 | the directory and monitor log become `RegisterGateways` of the old directory; each gateway gains the AP as owner |
| Manager.APManager.OnRemoveAccessPoint | src/main/java/net/bcsw/sdnwlan/APManager.java:307-330 | as written: the drop list is empty and nothing changes, so no gateway is detached or dropped, no monitor stops and the AP stays |
| Manager.APManager.ManagerNotAnOwner | src/main/java/net/bcsw/sdnwlan/APManager.java:314 | no owner list holds the manager |
| Manager.APManager.ReleaseAccessPoint | src/main/java/net/bcsw/sdnwlan/APManager.java:307-330 | corrected: gateways detach from the AP; the ownerless leave and stop being monitored; other entries and the AP map stay |
| Manager.APManager.LocatedAt | src/main/java/net/bcsw/sdnwlan/APManager.java:488-500 | none for the NONE location; otherwise an AP with a connection there, null exactly when there is none |
| Manager.APManager.FoundHost | src/main/java/net/bcsw/sdnwlan/APManager.java:530-542 | null exactly when no AP files the MAC; otherwise the host filed under it |
| Manager.APManager.GetAccessPointByHostLocation | src/main/java/net/bcsw/sdnwlan/APManager.java:488-500 | the loop returns `LocatedAt` |
| Manager.APManager.GetAccessPointsBySubnet | src/main/java/net/bcsw/sdnwlan/APManager.java:507-523 | exactly the APs with a gateway prefix containing one of the addresses |
| Manager.APManager.GetMobileHost | src/main/java/net/bcsw/sdnwlan/APManager.java:530-542 | the loop returns `FoundHost` |
| Manager.APManager.PurgeHost | src/main/java/net/bcsw/sdnwlan/APManager.java:338-342 | as `Purging.PurgeHost` over the AP map; the manager stays `Consistent` |
| Manager.APManager.PurgeSweep | src/main/java/net/bcsw/sdnwlan/APManager.java:866-889 | as `Purging.Sweep`, the intent log included; the next delay is `removeDelay` and the manager stays `Consistent` |
| Manager.APManager.ReconfigureNetwork | src/main/java/net/bcsw/sdnwlan/APManager.java:353-381 | nothing for a missing configuration; otherwise the three settings are taken, `onRemoveAccessPoint` (a no-op) runs for unlisted APs, an AP is built and added for every new MAC as `Configured` states, every gateway filed before stays filed, untouched, the manager stays `Consistent`, and `removeDelay` keeps its value |
| Manager.APManager.ReleaseUnconfigured | src/main/java/net/bcsw/sdnwlan/APManager.java:368-370 | `onRemoveAccessPoint` for exactly the filed APs whose MAC the configuration lacks; nothing changes |
| Manager.APManager.AddConfigured | src/main/java/net/bcsw/sdnwlan/APManager.java:377-379 | every entry with a new MAC gets a fresh AP added, as `Configured` states; every directory entry is kept and the manager stays `Consistent` |
| Manager.APManager.AddEntry | src/main/java/net/bcsw/sdnwlan/APManager.java:378 | `onAddAccessPoint(new AccessPoint(entry))` for a new MAC keeps the manager `Consistent`; every directory entry is kept and the only new owner is the new AP |
| Manager.APManager.AddBuilt | src/main/java/net/bcsw/sdnwlan/APManager.java:378 | adding a freshly built AP, whose gateways nobody owns yet, keeps the manager `Consistent`; the only new owner is that AP |
| Manager.APManager.AttachNew | src/main/java/net/bcsw/sdnwlan/APManager.java:266-298 | `onAddAccessPoint` for a new MAC: the AP is filed, every new directory entry is one of its gateways, and each of its gateways gains it as last owner |
| Manager.APManager.OnDefaultGatewayModified | src/main/java/net/bcsw/sdnwlan/APManager.java:623-635 | as `UpdateGateways`; the manager stays `Consistent`, the owners stay the same and startable, and their host maps stay |
| Manager.APManager.OnHostMoved | src/main/java/net/bcsw/sdnwlan/APManager.java:693-720 | a gateway route learns the record; otherwise a located, known host moves to the point: current point, move count, and a null dereference exactly when `setCurrentAccessPoint` throws (`MovedTo`). The manager stays `Consistent` |
| Manager.APManager.MoveLocalHost | src/main/java/net/bcsw/sdnwlan/APManager.java:700-716 | the lookups, then `setCurrentAccessPoint` when both are found, with its outcome; otherwise nothing is logged and it completes. The manager stays `Consistent` |
| Manager.APManager.MoveFound | src/main/java/net/bcsw/sdnwlan/APManager.java:709-712 | `setCurrentAccessPoint` on a filed host keeps the manager `Consistent`, with the outcome `Moved` states |
| Manager.APManager.FoundMovable | src/main/java/net/bcsw/sdnwlan/APManager.java:700-716 | a filed host can be moved to the AP its location names, or to none |
| Manager.APManager.LookUp | src/main/java/net/bcsw/sdnwlan/APManager.java:554-555 | the location's AP is `LocatedAt` and the local host is `FoundHost` |
| Manager.APManager.OnMobileHostAdded | src/main/java/net/bcsw/sdnwlan/APManager.java:553-614 | the manager stays `Consistent`. A known host is revisited with the outcome of moving, and left untouched when located but homeless; a new one is adopted as `Adopted` states, and every AP keeps its tables and roaming map, those that do not serve the host their local hosts too |
| Manager.APManager.RevisitFound | src/main/java/net/bcsw/sdnwlan/APManager.java:562-612 | a known host is revisited as `Revisited` states and the manager stays `Consistent` |
| Manager.APManager.NewHostAdded | src/main/java/net/bcsw/sdnwlan/APManager.java:575-598 | a new host is adopted as `Adopted` states, the manager stays `Consistent`, and every AP changes only as `TouchedBy` allows |
| Manager.APManager.AdoptAt | src/main/java/net/bcsw/sdnwlan/APManager.java:575-598 | the adoption among the serving APs, as `Adopted` states; APs that do not serve the host keep their local hosts |
| Manager.APManager.OnHostAdded | src/main/java/net/bcsw/sdnwlan/APManager.java:642-655 | a gateway route learns the record; otherwise a known host is revisited as `Revisited` states, and a new host fails exactly when it is located away from its non-empty homes. The manager stays `Consistent` |
| Manager.APManager.OnHostUpdated | src/main/java/net/bcsw/sdnwlan/APManager.java:662-686 | a gateway route learns the record; otherwise nothing changes. The manager stays `Consistent` |
| Manager.APManager.OnHostRemoved | src/main/java/net/bcsw/sdnwlan/APManager.java:727-747 | as written: a null dereference exactly for a host no AP files; otherwise the removal time is `now`, and the host's last move time and move count stay. The manager stays `Consistent` |
| Manager.APManager.RemoveFoundHost | src/main/java/net/bcsw/sdnwlan/APManager.java:727-747 | corrected: a known host gets removal time `now`, keeps its last move time and move count, and stays filed; an unknown host changes nothing |
| Manager.APManager.StampRemoved | src/main/java/net/bcsw/sdnwlan/APManager.java:738 | `setRemovedTime` on a filed host: the removal time is `now`, its last move time and move count stay, it stays filed and the manager stays `Consistent` |

## Left out

- I/O and logging are not modelled. Every `log.*` call and every `toString` used only for logging is left out.
- Concurrency is not modelled. `synchronized` blocks and the concurrent maps are treated as sequential.
- The clock is not modelled. "Now" is a parameter wherever `new Date()` is read, and timers (`Timer.newTimeout`) are left out. The purge task's rescheduling is the returned delay.
- ONOS services are modelled only as call logs. The intent service and host monitor are those logs. The host, device, config and core services, the distributed store, the CLI and the REST layer are left out.
- `activate`, `deactivate`, the device listener and the config factories are left out: they are wiring.
- `AccessPoint.updateConfig`, `onShutdown` and `MobileHost.updateHost` are empty stubs in the source and are left out too. The same holds for `addRoamingUnicastHomeAPFlows`, `addRoamingBroadcastMulticastFlows`, `registerHost` and `unregisterHost`.
- IPv6 text parsing is not modelled. `valueOf` of a textual IPv6 gateway is left out, and only IPv4 dotted quads are read, while IPv6 prefixes are modelled.
- `SouthBoundFlow.java` is not part of this model (see above).
- Manager.APManager.ReconfigureNetwork: states that every old directory entry is kept, untouched, but not which entries the new APs add. Its contract covers the settings, the AP map and the fresh APs too.
- Manager.APManager.OnAddAccessPoint: keeps `Consistent` only for a freshly built AP, which is the one caller in the source (APManager.java:378-379). `Manager.APManager.AddEntry` and `AddBuilt` state that. For any other AP, the method itself states `Valid` and `Joined`, but not `Consistent`: such an AP could already file hosts or share gateways with other APs.
- Mobility.StartOwners: states the folded latches and tables (`StartedFrom`) only for an AP listed once whose gateways no other listed AP holds. It does not state the intent log. Starting APs that share gateways depends on the order in which they start, and this model does not state that fold.
- Mobility.DefaultGateway.UpdateHost: states its owners' folded latches and tables only as `Mobility.StartOwners` does, and does not state the intent log.
- Manager.UpdateOne: states the owners' folded state only as `Mobility.StartOwners` does, and does not state the intent log.
- Manager.UpdateAt: states the owners' folded state only as `Mobility.StartOwners` does, and does not state the intent log.
- Manager.UpdateGateways: states, for every owner, only that it stays startable and keeps its host maps. It does not state the folded tables or the intent log. A host with several addresses can start the same owners more than once, and the composed folds are not stated.
- Manager.APManager.OnDefaultGatewayModified: states only what `Manager.UpdateGateways` states about the owners: still startable and with the same host maps. It does not state their tables or the intent log.
- Manager.APManager.OnHostMoved: states only the host's new current point and move count. It does not state the intents that moving adds or withdraws, which `SetCurrentAccessPoint` states.
- Manager.APManager.OnMobileHostAdded: takes a ghost snapshot `hosts0` of the serving APs' local hosts. Its contract relates the new maps to that snapshot. On the revisit path it states `Revisited` and `Consistent`, and that a located host without homes is left untouched. It does not state the exact new host maps or intents there. Those are stated one level down: `Manager.Revisit` and `Manager.RevisitKnown` allow an AP only the changes `TouchedBy` names, and `Mobility.MobileHost.SetCurrentAccessPoint` states the intents.
- Manager.APManager.OnHostAdded: needs the same ghost snapshot and states only the outcome of the mobile-host path.
- Manager.AdoptHost: models a host first seen away from home as the null dereference the source performs. No corrected adoption is given.
- Manager.APManager.CurrentShares: the handlers that move a filed host take for granted that its current AP uses the manager's intent service. In the source every AP and host reaches the one ONOS intent service through the service directory.
- Purging.Sweep: states that a purged host that roamed has every roaming intent withdrawn, but not how many times (once per AP where it roamed); `Purging.PurgeHost` states the per-AP calls for one purge.
- IngressVlans.FromJsonArray: takes the integers `asInt` returns; a JSON node that is not a number is not modelled.
- JavaText.ParseInt: reads ASCII digits only. `Integer.parseInt` also accepts the decimal digits of other Unicode scripts (`Character.digit`), which the model rejects.
- Net.SameLocation: takes ONOS `HostLocation.equals` to be "same device and port", whether the other side is a `HostLocation` or a plain `ConnectPoint`, and ignores the host location's timestamp. The location lookup (`Manager.APManager.LocatedAt`, `GetAccessPointByHostLocation`) compares an event's `HostLocation` with `HostLocation.NONE` and, through `List.contains`, with an AP's configured `ConnectPoint`s (APManager.java:491-495). The ONOS value classes are not part of this model. If their `equals` is type- or time-sensitive, that lookup never finds an AP, and every mobile-host path (moving, adopting, revisiting at a point) is unreachable in the source while the model reaches it.
- FlowTables.RealMac: the host handlers' requirements on the gateway route (`Manager.Learnable`, `Mobility.BuildableHost`, `Mobility.AccessPoint.CanStart`, and `RealMac` in `Manager.UpdateOne`) take for granted that an ONOS host event never carries the shared `MacAddress.NONE` or `ZERO` object itself. An equal MAC held by another object is fine. If an event did carry one of them, `NorthBoundMacFlow.getIntent`'s `==` test (NorthBoundMacFlow.java:54) would give a null intent, and the gateway's startup would throw. That null dereference is not modelled.

## Findings

| source | as written | input that shows it | evidently intended | confidence | as-written member | corrected member |
|---|---|---|---|---|---|---|
| src/main/java/net/bcsw/sdnwlan/APManager.java:314 | gateways are filtered by `getAccessPoints().contains(this)`, and `this` is the manager | removing an AP that owns a gateway: the gateway keeps the AP as owner | `contains(accessPoint)` | high, not executed | Manager.APManager.OnRemoveAccessPoint | Manager.APManager.ReleaseAccessPoint |
| src/main/java/net/bcsw/sdnwlan/APManager.java:323 | `defaultGateways.remove(gw)` removes by the gateway object from a map keyed by IP address | any dropped gateway: its entry stays while its monitor stops | remove under the gateway's address | high, not executed | Manager.DropAllAsWritten | Manager.DropAll |
| src/main/java/net/bcsw/sdnwlan/APManager.java:735 | `if (host != null)` tests the event's host instead of the looked-up `mobileHost` | a removal event for a host no AP files: null dereference | `if (mobileHost != null)` | high, not executed | Manager.APManager.OnHostRemoved | Manager.APManager.RemoveFoundHost |
