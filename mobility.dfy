/**
 * The engine's objects that change in place: the application settings, the default gateways,
 * the access points and the mobile hosts. A gateway knows the access points it serves and
 * starts them when it is first located; an access point keeps the default-gateway intents it
 * submitted and the hosts it serves; a mobile host keeps the intents of its roaming flows.
 * Each method is proved to change its object as the value-level functions of `FlowTables`
 * say, and every call on the intent service is recorded in that service's log.
 */
module Mobility {
  import opened Wrappers
  import opened JavaInt
  import opened Net
  import opened Intents
  import opened IngressVlans
  import opened ConnectPoints
  import opened ConnectPointPairs
  import opened Flows
  import opened Config
  import opened Services
  import opened HostInfos
  import opened FlowTables
  import GatewayMask

  /**
   * What `APManager` keeps in static fields and every object reads: the application id, the
   * two flow priorities, the removed-host timeout in seconds and the purge timer's period.
   */
  class Settings {
    const appId: nat
    var gatewayFlowPriority: int
    var roamingUnicastPriority: int
    var hostRemovedTimeout: int
    var removeDelay: int

    constructor(appId: nat)
      ensures this.appId == appId
      ensures gatewayFlowPriority == DEFAULT_GATEWAY_FLOW_PRIORITY
      ensures roamingUnicastPriority == DEFAULT_ROAMING_UNICAST_FLOW_PRIORITY
      ensures hostRemovedTimeout == DEFAULT_REMOVED_HOST_TIMEOUT_SECONDS
      ensures removeDelay == DEFAULT_REMOVED_HOST_DELAY_GRANULARITY
    {
      this.appId := appId;
      gatewayFlowPriority := DEFAULT_GATEWAY_FLOW_PRIORITY;
      roamingUnicastPriority := DEFAULT_ROAMING_UNICAST_FLOW_PRIORITY;
      hostRemovedTimeout := DEFAULT_REMOVED_HOST_TIMEOUT_SECONDS;
      removeDelay := DEFAULT_REMOVED_HOST_DELAY_GRANULARITY;
    }
  }

  /**
   * `getSdnViewOfGatewayVlans`: the VLAN ids frames from the gateway carry as the SDN network
   * sees them; a missing or empty stack is seen as untagged.
   */
  function SdnViewOfGatewayVlans(gwVlans: Option<Vlans>): (vids: seq<VlanId>)
    ensures |vids| >= 1
    ensures gwVlans.Some? && gwVlans.value.vlanList != [] ==> vids == gwVlans.value.vlanList
    ensures gwVlans.None? || gwVlans.value.vlanList == [] ==> vids == [VLAN_NONE]
  {
    if gwVlans.None? || |gwVlans.value.vlanList| == 0 then [VLAN_NONE] else gwVlans.value.vlanList
  }

  /** A host record whose flows can be built once it is located: its MAC is not a placeholder object. */
  predicate BuildableHost(h: Host) { h.location == LOCATION_NONE || RealMac(h.mac) }

  /**
   * The rule `updateHost` applies: the location or the MAC changed, both are now known, and
   * before at least one of them was unknown. Only then are the gateway's access points started.
   */
  predicate StartsAccessPoints(before: Host, after: Host)
  {
    (!SameLocation(before.location, after.location) || !SameMac(before.mac, after.mac))
    && !SameLocation(after.location, LOCATION_NONE) && !SameMac(after.mac, MAC_NONE)
    && (SameLocation(before.location, LOCATION_NONE) || SameMac(before.mac, MAC_NONE))
  }

  /** `List.remove(Object)`: the first occurrence removed, compared by identity. */
  function RemoveFirst<T(==)>(s: seq<T>, x: T): (r: seq<T>)
    ensures x !in s ==> r == s
    ensures x in s ==> multiset(r) == multiset(s) - multiset{x}
  {
    if s == [] then s
    else if s[0] == x then
      assert s == [s[0]] + s[1..];
      s[1..]
    else
      assert s == [s[0]] + s[1..];
      [s[0]] + RemoveFirst(s[1..], x)
  }

  /**
   * What the flow code reads of a gateway: the learned location and MAC, the configured VLANs
   * and the configured subnet.
   */
  function ViewOf(config: GatewayConfig, hostInfo: Host): (v: GatewayView)
    ensures v.location == hostInfo.location && v.mac == hostInfo.mac && v.vlans == config.ingressVlans
  {
    GatewayView(hostInfo.location, hostInfo.mac, config.ingressVlans,
                PrefixOf(config.gatewayAndMask.gateway, config.gatewayAndMask.prefixLength))
  }

  /**
   * `DefaultGateway`: a configured gateway and what the host service has told about it. Until
   * its host is found the record names the shared unknown MAC and `HostLocation.NONE` objects.
   * `installed` is the `defaultFlowsInstalled` latch; `owners` the access points it serves.
   */
  class DefaultGateway {
    const config: GatewayConfig
    var hostInfo: Host
    var installed: bool
    var owners: seq<AccessPoint>

    constructor(config: GatewayConfig)
      ensures this.config == config && Unlearned()
    {
      this.config := config;
      hostInfo := Host(MAC_NONE, SdnViewOfGatewayVlans(Some(config.ingressVlans))[0], LOCATION_NONE, {});
      installed := false;
      owners := [];
    }

    /**
     * As built: the record names the shared unknown MAC and location objects and the first
     * configured ingress VLAN, no flows are latched, and no access point owns the gateway.
     */
    ghost predicate Unlearned()
      reads this
    {
      !installed && owners == []
      && hostInfo == Host(MAC_NONE, SdnViewOfGatewayVlans(Some(config.ingressVlans))[0], LOCATION_NONE, {})
    }


    /** `setDefaultFlowsInstalled`: a compare-and-set that reports whether the latch changed. */
    method SetDefaultFlowsInstalled(b: bool) returns (changed: bool)
      modifies this
      ensures changed <==> old(installed) != b
      ensures installed == b
      ensures hostInfo == old(hostInfo) && owners == old(owners)
    {
      changed := installed != b;
      installed := b;
    }

    /**
     * `addAccessPoint`: the list grows by the point, and the call reports success. Its
     * documentation promises false for a point already in the list, but `ArrayList.add`
     * appends a duplicate and always returns true; the model follows the code, and no caller
     * reads the result.
     */
    method AddAccessPoint(point: AccessPoint) returns (status: bool)
      modifies this
      ensures status && owners == old(owners) + [point]
      ensures hostInfo == old(hostInfo) && installed == old(installed)
    {
      owners := owners + [point];
      status := true;
    }

    /** `removeAccessPoint`: the first occurrence goes; the call reports whether there was one. */
    method RemoveAccessPoint(point: AccessPoint) returns (found: bool)
      modifies this
      ensures found <==> point in old(owners)
      ensures owners == RemoveFirst(old(owners), point)
      ensures hostInfo == old(hostInfo) && installed == old(installed)
    {
      found := point in owners;
      owners := RemoveFirst(owners, point);
    }

    /** `equals`: the same object, or the same configuration object. */
    predicate Equals(other: DefaultGateway)
    {
      this == other || config == other.config
    }

    /** `hashCode` hashes the configured gateway and prefix. */
    function HashKey(): GatewayMask.GatewayAndMask
    {
      config.gatewayAndMask
    }

    /** Equal gateways hash alike, and equality is exactly having the same configuration. */
    lemma EqualsAgreesWithHash(other: DefaultGateway)
      ensures Equals(other) <==> config == other.config
      ensures Equals(other) ==> HashKey() == other.HashKey()
    {
    }

    /** The gateways of the access points in the owner list. */
    ghost function OwnedGateways(): set<DefaultGateway>
      reads this
    {
      GatewaysOf(owners)
    }

    /** The intent services of the access points in the owner list. */
    ghost function OwnersIntents(): set<IntentService>
      reads this
    {
      IntentsOf(owners)
    }

    /**
     * `updateHost(info)`: the record is replaced, and when `StartsAccessPoints` holds of the old
     * and the new record every access point in the owner list is started, in the list's order.
     * Starting an owner builds the northbound intent towards this gateway, which is null for a
     * placeholder MAC object, hence the requirement on the new MAC.
     */
    method UpdateHost(info: Host) returns (starts: bool)
      requires StartsAccessPoints(hostInfo, info) ==>
        RealMac(info.mac) && forall ap :: ap in owners ==> ap.Valid() && ap.CanStart()
      modifies this, owners, OwnedGateways(), OwnersIntents()
      ensures hostInfo == info && owners == old(owners) && starts == StartsAccessPoints(old(hostInfo), info)
      ensures !starts ==> installed == old(installed) && unchanged(owners, OwnedGateways() - {this}, OwnersIntents())
      ensures starts ==> forall ap :: ap in owners ==>
        ap.Valid() && ap.CanStart() && ap.Started() && ap.apHosts == old(ap.apHosts) && ap.roamingHosts == old(ap.roamingHosts)
      ensures starts ==> forall g :: g in OwnedGateways() ==>
        GatewayReady(g) && g.owners == old(g.owners) && (g != this ==> g.hostInfo == old(g.hostInfo))
      ensures starts ==> forall k :: 0 <= k < |owners| && Alone(owners, k) ==> StartedFrom(owners[k])
    {
      starts := StartsAccessPoints(hostInfo, info);
      hostInfo := info;
      if starts {
        label Recorded:
        StartOwners(owners);
        forall k | 0 <= k < |owners| && Alone(owners, k)
          ensures StartedFrom(owners[k])
        {
          var a := owners[k];
          assert old@Recorded(a.Latches()) == old(a.Latches()) && old@Recorded(a.Tables()) == old(a.Tables());
        }
      }
    }
  }

  /** A gateway `onStartup` can reach: unlocated, latched, or with a MAC that builds an intent. */
  ghost predicate GatewayReady(g: DefaultGateway)
    reads g
  {
    g.hostInfo.location == LOCATION_NONE || g.installed || RealMac(g.hostInfo.mac)
  }

  /** The gateways of the access points `aps`. */
  ghost function GatewaysOf(aps: seq<AccessPoint>): set<DefaultGateway>
  {
    set ap, g | ap in aps && g in ap.gateways :: g
  }

  /** The intent services of the access points `aps`. */
  ghost function IntentsOf(aps: seq<AccessPoint>): set<IntentService>
  {
    set ap | ap in aps :: ap.intents
  }

  /**
   * `getAccessPoints().forEach(ap -> ap.onStartup())`: every access point of `aps` is started
   * in turn. Gateways shared between them keep their records and owners, and a gateway started
   * once stays latched, so each access point stays ready for the ones after it.
   */
  method StartOwners(aps: seq<AccessPoint>)
    requires forall ap :: ap in aps ==> ap.Valid() && ap.CanStart()
    modifies aps, GatewaysOf(aps), IntentsOf(aps)
    ensures forall ap :: ap in aps ==> ap.Valid() && ap.CanStart() && ap.Started()
                                       && ap.apHosts == old(ap.apHosts) && ap.roamingHosts == old(ap.roamingHosts)
    ensures forall g :: g in GatewaysOf(aps) ==> GatewayReady(g) && g.hostInfo == old(g.hostInfo) && g.owners == old(g.owners)
    ensures forall k :: 0 <= k < |aps| && Alone(aps, k) ==> StartedFrom(aps[k])
  {
    assert forall k, g :: 0 <= k < |aps| && g in aps[k].gateways ==> g in GatewaysOf(aps);
    ghost var l0 := seq(|aps|, k requires 0 <= k < |aps| reads GatewaysOf(aps) => aps[k].Latches());
    ghost var t0 := seq(|aps|, k requires 0 <= k < |aps| reads aps => aps[k].Tables());
    for i := 0 to |aps|
      invariant forall ap :: ap in aps ==> ap.Valid() && ap.CanStart()
                                           && ap.apHosts == old(ap.apHosts) && ap.roamingHosts == old(ap.roamingHosts)
      invariant forall k :: 0 <= k < i ==> aps[k].Started()
      invariant forall g :: g in GatewaysOf(aps) ==> g.hostInfo == old(g.hostInfo) && g.owners == old(g.owners)
      invariant forall k :: 0 <= k < i && Alone(aps, k) ==> FoldedFrom(aps[k], l0[k], t0[k])
      invariant forall k :: i <= k < |aps| && Alone(aps, k) ==> aps[k].Latches() == l0[k] && aps[k].Tables() == t0[k]
    {
      assert forall g :: g in aps[i].gateways ==> g in GatewaysOf(aps);
      StartNext(aps, i, l0, t0);
    }
    forall g | g in GatewaysOf(aps)
      ensures GatewayReady(g)
    {
      var ap :| ap in aps && g in ap.gateways;
    }
  }

  /**
   * One turn of `StartOwners`: the `i`th access point starts. Every gateway of `aps` keeps its
   * record and owners, and each access point listed once with gateways of its own has its
   * latches and tables from before its turn (`l0`, `t0`) until it starts, and folded from them
   * after.
   */
  method StartNext(aps: seq<AccessPoint>, i: nat, ghost l0: seq<seq<bool>>, ghost t0: seq<FlowTables.Tables>)
    requires i < |aps| == |l0| == |t0| && forall ap :: ap in aps ==> ap.Valid() && ap.CanStart()
    requires forall k :: 0 <= k < i ==> aps[k].Started()
    requires forall k :: 0 <= k < i && Alone(aps, k) ==> FoldedFrom(aps[k], l0[k], t0[k])
    requires forall k :: i <= k < |aps| && Alone(aps, k) ==> aps[k].Latches() == l0[k] && aps[k].Tables() == t0[k]
    modifies aps[i], aps[i].gateways, aps[i].intents
    ensures forall ap :: ap in aps ==> ap.Valid() && ap.CanStart()
                                       && ap.apHosts == old(ap.apHosts) && ap.roamingHosts == old(ap.roamingHosts)
    ensures forall k :: 0 <= k <= i ==> aps[k].Started()
    ensures forall g :: g in GatewaysOf(aps) ==> g.hostInfo == old(g.hostInfo) && g.owners == old(g.owners)
    ensures forall k :: 0 <= k <= i && Alone(aps, k) ==> FoldedFrom(aps[k], l0[k], t0[k])
    ensures forall k :: i < k < |aps| && Alone(aps, k) ==> aps[k].Latches() == l0[k] && aps[k].Tables() == t0[k]
  {
    StartOne(aps, i);
    forall k | 0 <= k <= i && Alone(aps, k)
      ensures FoldedFrom(aps[k], l0[k], t0[k])
    {
      if k == i {
        assert StartedFrom(aps[i]) && old(aps[i].Latches()) == l0[i] && old(aps[i].Tables()) == t0[i];
      } else {
        assert aps[k] != aps[i];
        forall g | g in aps[k].gateways
          ensures unchanged(g)
        {
          assert g !in aps[i].gateways;
        }
        assert forall j :: 0 <= j < |aps[k].gateways| ==> aps[k].gateways[j] in aps[k].gateways;
        assert old(FoldedFrom(aps[k], l0[k], t0[k])) && unchanged(aps[k], aps[k].gateways, aps[k].settings);
      }
    }
    forall g | g in GatewaysOf(aps)
      ensures g.hostInfo == old(g.hostInfo) && g.owners == old(g.owners)
    {
      if g !in aps[i].gateways {
        assert unchanged(g);
      }
    }
  }

  /** `onStartup` on the `i`th access point of `aps`, keeping the others ready and started. */
  method StartOne(aps: seq<AccessPoint>, i: nat)
    requires i < |aps| && forall ap :: ap in aps ==> ap.Valid() && ap.CanStart()
    requires forall k :: 0 <= k < i ==> aps[k].Started()
    modifies aps[i], aps[i].gateways, aps[i].intents
    ensures forall ap :: ap in aps ==> ap.Valid() && ap.CanStart()
                                       && ap.apHosts == old(ap.apHosts) && ap.roamingHosts == old(ap.roamingHosts)
    ensures forall k :: 0 <= k <= i ==> aps[k].Started()
    ensures forall g :: g in aps[i].gateways ==> g.hostInfo == old(g.hostInfo) && g.owners == old(g.owners)
    ensures StartLogged(aps[i])
  {
    var a := aps[i];
    StartAccessPoint(a);
    forall ap | ap in aps && ap != a
      ensures ap.CanStart() && (ap.Started() || !old(ap.Started()))
    {
      forall g | g in ap.gateways
        ensures GatewayReady(g) && (old(g.hostInfo.location != LOCATION_NONE ==> g.installed) ==> (g.hostInfo.location != LOCATION_NONE ==> g.installed))
      {
        if g !in a.gateways {
          assert old(g.installed) == g.installed && old(g.hostInfo) == g.hostInfo;
        }
      }
    }
  }

  /** The `k`th access point of `aps` is listed once and shares no gateway with another one listed. */
  ghost predicate Alone(aps: seq<AccessPoint>, k: int)
    requires 0 <= k < |aps|
  {
    forall j :: 0 <= j < |aps| && j != k ==>
      aps[j] != aps[k] && forall g :: g in aps[j].gateways ==> g !in aps[k].gateways
  }

  /**
   * `a` has run `onStartup` since the earlier state: from the latches and tables it had then,
   * and the records its gateways hold (which starting does not change), its latches and
   * tables are those `DefaultFold` computes.
   */
  twostate predicate StartedFrom(a: AccessPoint)
    reads a, a.gateways, a.settings
  {
    FoldedFrom(a, old(a.Latches()), old(a.Tables()))
  }

  /** `a`'s latches and tables are those `DefaultFold` computes from the latches `l0` and the tables `t0`. */
  ghost predicate FoldedFrom(a: AccessPoint, l0: seq<bool>, t0: FlowTables.Tables)
    reads a, a.gateways, a.settings
  {
    |a.config.connections| >= 1 && Startable(a.Views(), l0)
    && var r := DefaultFold(a.ApPoint(), a.Views(), l0, t0, a.settings.appId, a.settings.gatewayFlowPriority);
       a.Latches() == r.latches && a.Tables() == r.tables
  }

  /**
   * `a` has run `onStartup` since the earlier state, and nothing else has touched its intent
   * service: `StartedFrom` holds, and the log has grown by exactly the intents `DefaultFold`
   * submits.
   */
  twostate predicate StartLogged(a: AccessPoint)
    reads a, a.gateways, a.settings, a.intents
  {
    StartedFrom(a)
    && a.intents.log == old(a.intents.log) + DefaultFold(a.ApPoint(), a.Views(), old(a.Latches()), old(a.Tables()),
                                                          a.settings.appId, a.settings.gatewayFlowPriority).events
  }

  /**
   * `a.onStartup()`, seen from outside the access point: it ends ready and started, its
   * latches and tables as `DefaultFold` computes them and the intents it submits logged.
   */
  method StartAccessPoint(a: AccessPoint)
    requires a.Valid() && a.CanStart()
    modifies a, a.gateways, a.intents
    ensures a.Valid() && a.CanStart() && a.Started() && StartLogged(a)
    ensures a.apHosts == old(a.apHosts) && a.roamingHosts == old(a.roamingHosts)
    ensures forall g :: g in a.gateways ==> GatewayReady(g) && g.hostInfo == old(g.hostInfo) && g.owners == old(g.owners)
  {
    a.CanStartIsStartable();
    a.OnStartup();
    assert a.Views() == old(a.Views());
  }

  /** The prefixes the configured gateways are filed under. */
  ghost function ConfigKeys(gws: seq<GatewayConfig>): set<GatewayMask.GatewayAndMask>
  {
    set j | 0 <= j < |gws| :: gws[j].gatewayAndMask
  }

  /**
   * The configuration the access point keeps for prefix `k`: `Map.put` in list order, so the
   * last entry with that prefix.
   */
  function LastConfig(gws: seq<GatewayConfig>, k: GatewayMask.GatewayAndMask): (c: GatewayConfig)
    requires k in ConfigKeys(gws)
    ensures c.gatewayAndMask == k && c in gws
    ensures gws[|gws| - 1].gatewayAndMask == k ==> c == gws[|gws| - 1]
    decreases |gws|
  {
    var n := |gws| - 1;
    if gws[n].gatewayAndMask == k then gws[n]
    else
      assert k in ConfigKeys(gws[..n]) by {
        var j :| 0 <= j < |gws| && gws[j].gatewayAndMask == k;
        assert gws[..n][j] == gws[j];
      }
      LastConfig(gws[..n], k)
  }

  /** The prefixes a sequence of gateways is filed under. */
  ghost function GatewayKeys(gs: seq<DefaultGateway>): set<GatewayMask.GatewayAndMask>
  {
    set j | 0 <= j < |gs| :: gs[j].config.gatewayAndMask
  }

  /** No two gateways are filed under the same prefix, as in a map keyed by prefix. */
  predicate DistinctKeys(gs: seq<DefaultGateway>)
  {
    forall i, j :: 0 <= i < |gs| && 0 <= j < |gs| && KeyAt(gs, i) == KeyAt(gs, j) ==> i == j
  }

  /** The prefix the gateway at position `i` is filed under. */
  function KeyAt(gs: seq<DefaultGateway>, i: nat): GatewayMask.GatewayAndMask
    requires i < |gs|
  {
    gs[i].config.gatewayAndMask
  }

  /** Where the gateway map holds prefix `k`, or the length when it holds none. */
  function PositionOf(gs: seq<DefaultGateway>, k: GatewayMask.GatewayAndMask): (i: nat)
    ensures i <= |gs|
    ensures i < |gs| ==> gs[i].config.gatewayAndMask == k
    ensures i == |gs| ==> k !in GatewayKeys(gs)
    decreases |gs|
  {
    if gs == [] then 0
    else if gs[0].config.gatewayAndMask == k then 0
    else
      var p := PositionOf(gs[1..], k);
      assert p == |gs[1..]| ==> k !in GatewayKeys(gs) by {
        assert forall j :: 0 < j < |gs| ==> gs[j] == gs[1..][j - 1];
      }
      1 + p
  }

  /**
   * Putting the gateway `g` built from `gc` at position `p` (in place of the gateway with its key,
   * or at the end), keeps every gateway's configuration the last one given for its key.
   */
  lemma PlaceKeepsLastConfigs(gws: seq<GatewayConfig>, gc: GatewayConfig, before: seq<DefaultGateway>, p: nat,
                              g: DefaultGateway, built: seq<DefaultGateway>)
    requires g.config == gc && DistinctKeys(before) && GatewayKeys(before) == ConfigKeys(gws)
    requires forall j :: 0 <= j < |before| ==> before[j].config == LastConfig(gws, before[j].config.gatewayAndMask)
    requires p == PositionOf(before, gc.gatewayAndMask)
    requires built == if p < |before| then before[p := g] else before + [g]
    ensures ConfigKeys(gws + [gc]) == ConfigKeys(gws) + {gc.gatewayAndMask}
    ensures forall j :: 0 <= j < |built| ==> built[j].config == LastConfig(gws + [gc], built[j].config.gatewayAndMask)
  {
    var all := gws + [gc];
    assert forall j :: 0 <= j < |gws| ==> all[j] == gws[j];
    assert all[|gws|] == gc;
    forall j | 0 <= j < |built|
      ensures built[j].config == LastConfig(all, built[j].config.gatewayAndMask)
    {
      if j == p || j == |before| {
        assert built[j] == g;
      } else {
        assert j < |before| && built[j] == before[j];
        assert KeyAt(before, j) != gc.gatewayAndMask by {
          if p < |before| {
            assert KeyAt(before, p) == gc.gatewayAndMask;
          } else {
            assert before[j].config.gatewayAndMask in GatewayKeys(before);
          }
        }
        assert before[j].config.gatewayAndMask in GatewayKeys(before);
        LastConfigSkips(gws, gc, before[j].config.gatewayAndMask);
      }
    }
  }

  /** Putting a gateway under a prefix the map already holds replaces that entry in place. */
  lemma ReplaceKeepsKeys(gs: seq<DefaultGateway>, p: nat, g: DefaultGateway)
    requires DistinctKeys(gs) && p < |gs| && g.config.gatewayAndMask == KeyAt(gs, p)
    ensures DistinctKeys(gs[p := g]) && GatewayKeys(gs[p := g]) == GatewayKeys(gs)
  {
    var r := gs[p := g];
    assert forall j :: 0 <= j < |gs| ==> KeyAt(r, j) == KeyAt(gs, j);
    forall i, j | 0 <= i < |r| && 0 <= j < |r| && KeyAt(r, i) == KeyAt(r, j)
      ensures i == j
    {
      assert KeyAt(gs, i) == KeyAt(gs, j);
    }
    forall k | k in GatewayKeys(r)
      ensures k in GatewayKeys(gs)
    {
      var j :| 0 <= j < |r| && r[j].config.gatewayAndMask == k;
      assert KeyAt(gs, j) == k;
    }
    forall k | k in GatewayKeys(gs)
      ensures k in GatewayKeys(r)
    {
      var j :| 0 <= j < |gs| && gs[j].config.gatewayAndMask == k;
      assert KeyAt(r, j) == k;
    }
  }

  /** Putting a gateway under a new prefix adds it at the end. */
  lemma AppendAddsKey(gs: seq<DefaultGateway>, g: DefaultGateway)
    requires DistinctKeys(gs) && g.config.gatewayAndMask !in GatewayKeys(gs)
    ensures DistinctKeys(gs + [g]) && GatewayKeys(gs + [g]) == GatewayKeys(gs) + {g.config.gatewayAndMask}
  {
    var r := gs + [g];
    assert forall j :: 0 <= j < |gs| ==> KeyAt(r, j) == KeyAt(gs, j) && r[j] == gs[j];
    assert KeyAt(r, |gs|) == g.config.gatewayAndMask;
    forall i, j | 0 <= i < |r| && 0 <= j < |r| && KeyAt(r, i) == KeyAt(r, j)
      ensures i == j
    {
      if i < |gs| && j < |gs| {
        assert KeyAt(gs, i) == KeyAt(gs, j);
      }
    }
  }

  /** A configuration after the last one for `k` does not change which one is kept for `k`. */
  lemma LastConfigSkips(gws: seq<GatewayConfig>, gc: GatewayConfig, k: GatewayMask.GatewayAndMask)
    requires k in ConfigKeys(gws) && gc.gatewayAndMask != k
    ensures k in ConfigKeys(gws + [gc]) && LastConfig(gws + [gc], k) == LastConfig(gws, k)
  {
    var j :| 0 <= j < |gws| && gws[j].gatewayAndMask == k;
    assert (gws + [gc])[j] == gws[j];
    assert (gws + [gc])[..|gws|] == gws;
  }

  /**
   * The gateway map of the `AccessPoint` constructor: a new `DefaultGateway` for each configured
   * gateway, `put` in list order. A prefix seen before keeps its place in the map and gets the
   * new gateway; a new prefix is added.
   */
  method NewGateways(gws: seq<GatewayConfig>) returns (built: seq<DefaultGateway>)
    ensures DistinctKeys(built) && GatewayKeys(built) == ConfigKeys(gws)
    ensures forall j :: 0 <= j < |built| ==> built[j].config == LastConfig(gws, built[j].config.gatewayAndMask)
    ensures forall g :: g in built ==> fresh(g) && g.Unlearned()
  {
    built := [];
    var i := 0;
    while i < |gws|
      invariant 0 <= i <= |gws|
      invariant DistinctKeys(built) && GatewayKeys(built) == ConfigKeys(gws[..i])
      invariant forall j :: 0 <= j < |built| ==> built[j].config == LastConfig(gws[..i], built[j].config.gatewayAndMask)
      invariant forall j :: 0 <= j < |built| ==> fresh(built[j]) && built[j].Unlearned()
    {
      built := PutGateway(gws, i, built);
      i := i + 1;
    }
    assert gws[..|gws|] == gws;
  }

  /** One `put` of `NewGateways`: a new gateway for the `i`th configuration. */
  method PutGateway(gws: seq<GatewayConfig>, i: nat, built: seq<DefaultGateway>) returns (next: seq<DefaultGateway>)
    requires i < |gws| && DistinctKeys(built) && GatewayKeys(built) == ConfigKeys(gws[..i])
    requires forall j :: 0 <= j < |built| ==> built[j].config == LastConfig(gws[..i], built[j].config.gatewayAndMask)
    ensures DistinctKeys(next) && GatewayKeys(next) == ConfigKeys(gws[..i + 1])
    ensures forall j :: 0 <= j < |next| ==> next[j].config == LastConfig(gws[..i + 1], next[j].config.gatewayAndMask)
    ensures forall j :: 0 <= j < |next| ==> next[j] in built || (fresh(next[j]) && next[j].Unlearned())
  {
    var gc := gws[i];
    var g := new DefaultGateway(gc);
    assert gws[..i + 1] == gws[..i] + [gc];
    var p := PositionOf(built, gc.gatewayAndMask);
    if p < |built| {
      ReplaceKeepsKeys(built, p, g);
      next := built[p := g];
    } else {
      AppendAddsKey(built, g);
      next := built + [g];
    }
    PlaceKeepsLastConfigs(gws[..i], gc, built, p, g, next);
  }

  /**
   * `AccessPoint`: a configured access point. Its gateway map, built once from the
   * configuration and never changed, is kept as the sequence of its gateways in the map's
   * iteration order; `south` and `north` are the default-gateway intent tables, `apHosts` and
   * `roamingHosts` the hosts it serves, keyed by the bits of their MAC (`MacAddress.equals`).
   */
  class AccessPoint {
    const config: AccessPointConfig
    const intents: IntentService
    const settings: Settings
    const gateways: seq<DefaultGateway>
    var south: map<ConnectPointPair, Intent>
    var north: map<ConnectPointPair, Intent>
    var apHosts: map<nat, MobileHost>
    var roamingHosts: map<nat, MobileHost>

    /** The access point has a connection, its gateways are filed by prefix, and the tables agree. */
    ghost predicate Valid()
      reads this
    {
      |config.connections| >= 1 && DistinctKeys(gateways) && KeysAgree(Tables())
    }

    function Tables(): FlowTables.Tables
      reads this
    {
      FlowTables.Tables(south, north)
    }

    /** `new SDNWLANConnectPoint(this)`. */
    function ApPoint(): ConnectPoint
      requires |config.connections| >= 1
    {
      ForAccessPoint(config.connections, config.ingressVlans)
    }

    /** What the flow code reads of each gateway, in the map's order. */
    ghost function Views(): (vs: seq<GatewayView>)
      reads gateways
      ensures |vs| == |gateways|
    {
      seq(|gateways|, j requires 0 <= j < |gateways| reads gateways => ViewOf(gateways[j].config, gateways[j].hostInfo))
    }

    /** Each gateway's `defaultFlowsInstalled` latch, in the map's order. */
    ghost function Latches(): (ls: seq<bool>)
      reads gateways
      ensures |ls| == |gateways|
    {
      seq(|gateways|, j requires 0 <= j < |gateways| reads gateways => gateways[j].installed)
    }

    /** Every gateway's flows can be built when `onStartup` reaches it. */
    ghost predicate CanStart()
      reads gateways
    {
      forall g :: g in gateways ==> g.hostInfo.location == LOCATION_NONE || g.installed || RealMac(g.hostInfo.mac)
    }

    /** Every gateway whose location is known has its default flows latched. */
    ghost predicate Started()
      reads gateways
    {
      forall g :: g in gateways ==> g.hostInfo.location != LOCATION_NONE ==> g.installed
    }

    /** Every gateway's MAC builds a northbound intent: what roaming flows towards them need. */
    ghost predicate GatewaysLearned()
      reads gateways
    {
      forall j :: 0 <= j < |gateways| ==> RealMac(gateways[j].hostInfo.mac)
    }

    lemma CanStartIsStartable()
      requires CanStart()
      ensures Startable(Views(), Latches())
    {
      assert forall j :: 0 <= j < |gateways| ==> gateways[j] in gateways;
    }

    /**
     * The constructor: one `DefaultGateway` per configured prefix, the last configuration for a
     * prefix winning; no intents and no hosts yet.
     */
    constructor(config: AccessPointConfig, intents: IntentService, settings: Settings)
      requires |config.connections| >= 1
      ensures this.config == config && this.intents == intents && this.settings == settings
      ensures Valid() && GatewayKeys(gateways) == ConfigKeys(config.gateways)
      ensures forall j :: 0 <= j < |gateways| ==>
        gateways[j].config == LastConfig(config.gateways, gateways[j].config.gatewayAndMask)
      ensures forall g :: g in gateways ==>
        fresh(g) && !g.installed && g.owners == []
        && g.hostInfo.location == LOCATION_NONE && g.hostInfo.mac == MAC_NONE
      ensures south == map[] && north == map[] && apHosts == map[] && roamingHosts == map[]
    {
      var built := NewGateways(config.gateways);
      this.config := config;
      this.intents := intents;
      this.settings := settings;
      gateways := built;
      south := map[];
      north := map[];
      apHosts := map[];
      roamingHosts := map[];
    }

    /**
     * `addDefaultGatewayFlows(gateway)`: one step of `FlowTables.DefaultStep` on this access
     * point's tables and the gateway's latch.
     */
    method AddDefaultGatewayFlows(gateway: DefaultGateway)
      requires |config.connections| >= 1 && KeysAgree(Tables())
      requires gateway.hostInfo.location == LOCATION_NONE || gateway.installed || RealMac(gateway.hostInfo.mac)
      modifies this, gateway, intents
      ensures var s := DefaultStep(ApPoint(), ViewOf(gateway.config, old(gateway.hostInfo)), old(gateway.installed), old(Tables()),
                                   settings.appId, settings.gatewayFlowPriority);
              gateway.installed == s.0 && Tables() == s.1 && intents.log == old(intents.log) + s.2
      ensures KeysAgree(Tables())
      ensures gateway.hostInfo == old(gateway.hostInfo) && gateway.owners == old(gateway.owners)
      ensures apHosts == old(apHosts) && roamingHosts == old(roamingHosts)
    {
      var apPoint := ForAccessPoint(config.connections, config.ingressVlans);
      var gwPoint := ForGateway(gateway.hostInfo.location, gateway.config.ingressVlans);
      if gwPoint.location == LOCATION_NONE {
        return;
      }
      var changed := gateway.SetDefaultFlowsInstalled(true);
      if changed {
        var prefix := GatewayMask.GetIpPrefix(gateway.config.gatewayAndMask);
        var pair := ConnectPointPair(apPoint, gwPoint, prefix);
        var sbFlow := NewSouthBoundIpSubnetFlow(settings.appId, Some(gwPoint), Some(apPoint), prefix);
        var southboundIntent := GetIntent(sbFlow.value, settings.gatewayFlowPriority);
        if pair !in south {
          south := south[pair := southboundIntent.value];
          intents.Submit(southboundIntent.value);
        }
        var nbFlow := NewNorthBoundMacFlow(settings.appId, Some(apPoint), Some(gwPoint), gateway.hostInfo.mac);
        var northboundIntent := GetIntent(nbFlow.value, settings.gatewayFlowPriority);
        if pair !in north {
          north := north[pair := northboundIntent.value];
          intents.Submit(northboundIntent.value);
        }
      }
    }

    /**
     * How far `onStartup`'s sweep has got, with the sweep's outcome `acc` so far given outright:
     * the gateways before position `i` hold its latches, the tables and the intent log hold its
     * tables and events, and the gateways from `i` on are as they were (`v0`, `l0`, `hs0` and
     * `os0` record each gateway's view, latch, host record and owners when the sweep began).
     */
    ghost predicate SweptTo(i: nat, acc: Outcome, v0: seq<GatewayView>, l0: seq<bool>,
                            log0: seq<IntentEvent>, hs0: seq<Host>, os0: seq<seq<AccessPoint>>)
      reads this, gateways, intents
    {
      |config.connections| >= 1 && DistinctKeys(gateways) && KeysAgree(Tables())
      && i <= |gateways| && |v0| == |gateways| && |l0| == |gateways| && |hs0| == |gateways| && |os0| == |gateways|
      && |acc.latches| == i && Tables() == acc.tables && intents.log == log0 + acc.events
      && forall j :: 0 <= j < |gateways| ==>
           v0[j] == ViewOf(gateways[j].config, hs0[j])
           && gateways[j].hostInfo == hs0[j] && gateways[j].owners == os0[j]
           && gateways[j].installed == if j < i then acc.latches[j] else l0[j]
    }

    /** The sweep is one gateway further once the gateway at position `i` has taken its step `s`. */
    lemma SweepAdvances(i: nat, prev: Outcome, s: (bool, FlowTables.Tables, seq<IntentEvent>), v0: seq<GatewayView>,
                        l0: seq<bool>, log0: seq<IntentEvent>, hs0: seq<Host>, os0: seq<seq<AccessPoint>>)
      requires |config.connections| >= 1 && DistinctKeys(gateways) && KeysAgree(Tables())
      requires i < |gateways| && |v0| == |gateways| && |l0| == |gateways| && |hs0| == |gateways| && |os0| == |gateways|
      requires |prev.latches| == i
      requires Tables() == s.1 && intents.log == log0 + prev.events + s.2 && gateways[i].installed == s.0
      requires forall j :: 0 <= j < |gateways| ==>
        v0[j] == ViewOf(gateways[j].config, hs0[j])
        && gateways[j].hostInfo == hs0[j] && gateways[j].owners == os0[j]
        && (j != i ==> gateways[j].installed == if j < i then prev.latches[j] else l0[j])
      ensures SweptTo(i + 1, Outcome(prev.latches + [s.0], s.1, prev.events + s.2), v0, l0, log0, hs0, os0)
    {
      LogAssoc(log0, prev.events, s.2);
      var acc := Outcome(prev.latches + [s.0], s.1, prev.events + s.2);
      forall j | 0 <= j < |gateways|
        ensures gateways[j].installed == if j < i + 1 then acc.latches[j] else l0[j]
      {
        if j < i {
          assert acc.latches[j] == prev.latches[j];
        }
      }
    }

    /**
     * One turn of `onStartup`'s sweep: `addDefaultGatewayFlows` on the gateway at position `i`
     * extends the sweep `acc` by that gateway's `FlowTables.DefaultStep`.
     */
    method StartupStep(i: nat, ghost acc: Outcome, ghost v0: seq<GatewayView>, ghost l0: seq<bool>, ghost t0: FlowTables.Tables,
                       ghost log0: seq<IntentEvent>, ghost hs0: seq<Host>, ghost os0: seq<seq<AccessPoint>>)
      returns (ghost next: Outcome)
      requires i < |gateways| && Startable(v0, l0) && SweptTo(i, acc, v0, l0, log0, hs0, os0)
      requires Startable(v0[..i], l0[..i])
        && acc == DefaultFold(ApPoint(), v0[..i], l0[..i], t0, settings.appId, settings.gatewayFlowPriority)
      modifies this, gateways[i], intents
      ensures SweptTo(i + 1, next, v0, l0, log0, hs0, os0)
      ensures Startable(v0[..i + 1], l0[..i + 1])
        && next == DefaultFold(ApPoint(), v0[..i + 1], l0[..i + 1], t0, settings.appId, settings.gatewayFlowPriority)
      ensures apHosts == old(apHosts) && roamingHosts == old(roamingHosts)
    {
      DefaultFoldStep(ApPoint(), v0, l0, i, t0, settings.appId, settings.gatewayFlowPriority);
      ghost var s := DefaultStep(ApPoint(), v0[i], l0[i], acc.tables, settings.appId, settings.gatewayFlowPriority);
      forall j | 0 <= j < |gateways| && j != i
        ensures gateways[j] != gateways[i]
      {
        assert KeyAt(gateways, j) != KeyAt(gateways, i);
      }
      AddDefaultGatewayFlows(gateways[i]);
      SweepAdvances(i, acc, s, v0, l0, log0, hs0, os0);
      next := Outcome(acc.latches + [s.0], s.1, acc.events + s.2);
    }

    /** A sweep over every gateway is `FlowTables.DefaultFold`, and leaves every located gateway latched. */
    lemma OnStartupDone(v0: seq<GatewayView>, l0: seq<bool>, t0: FlowTables.Tables, log0: seq<IntentEvent>,
                        hs0: seq<Host>, os0: seq<seq<AccessPoint>>, acc: Outcome)
      requires |config.connections| >= 1 && Startable(v0, l0) && |v0| == |gateways|
      requires acc == DefaultFold(ApPoint(), v0, l0, t0, settings.appId, settings.gatewayFlowPriority)
      requires SweptTo(|gateways|, acc, v0, l0, log0, hs0, os0)
      ensures Latches() == acc.latches && Tables() == acc.tables && intents.log == log0 + acc.events
      ensures Valid() && CanStart() && Started()
    {
      DefaultFoldLatches(ApPoint(), v0, l0, t0, settings.appId, settings.gatewayFlowPriority);
      forall g | g in gateways
        ensures g.hostInfo.location != LOCATION_NONE ==> g.installed
      {
        var j :| 0 <= j < |gateways| && gateways[j] == g;
      }
    }

    /**
     * `onStartup`: `addDefaultGatewayFlows` for every gateway, in the map's order; as a whole
     * it is `FlowTables.DefaultFold`.
     */
    method OnStartup()
      requires Valid() && CanStart()
      modifies this, gateways, intents
      ensures Valid() && CanStart() && Started()
      ensures var r := DefaultFold(ApPoint(), old(Views()), old(Latches()), old(Tables()),
                                   settings.appId, settings.gatewayFlowPriority);
              Latches() == r.latches && Tables() == r.tables && intents.log == old(intents.log) + r.events
      ensures forall g :: g in gateways ==> g.hostInfo == old(g.hostInfo) && g.owners == old(g.owners)
      ensures apHosts == old(apHosts) && roamingHosts == old(roamingHosts)
    {
      CanStartIsStartable();
      ghost var v0 := Views();
      ghost var l0 := Latches();
      ghost var hs0 := seq(|gateways|, j requires 0 <= j < |gateways| reads gateways => gateways[j].hostInfo);
      ghost var os0 := seq(|gateways|, j requires 0 <= j < |gateways| reads gateways => gateways[j].owners);
      ghost var acc := Outcome([], Tables(), []);
      assert SweptTo(0, acc, v0, l0, intents.log, hs0, os0);
      var i := 0;
      while i < |gateways|
        invariant SweptTo(i, acc, v0, l0, old(intents.log), hs0, os0)
        invariant Startable(v0[..i], l0[..i])
          && acc == DefaultFold(ApPoint(), v0[..i], l0[..i], old(Tables()), settings.appId, settings.gatewayFlowPriority)
        invariant apHosts == old(apHosts) && roamingHosts == old(roamingHosts)
        decreases |gateways| - i
      {
        acc := StartupStep(i, acc, v0, l0, old(Tables()), old(intents.log), hs0, os0);
        i := i + 1;
      }
      assert v0[..|gateways|] == v0 && l0[..|gateways|] == l0;
      OnStartupDone(v0, l0, old(Tables()), old(intents.log), hs0, os0, acc);
    }


    /**
     * `dropDefaultGatewayFlows(gateway)`: one step of `FlowTables.DropStep` on this access
     * point's tables and the gateway's latch. The southbound withdraw is guarded by the
     * northbound entry, as in the code; the tables agree, so that is the southbound entry too.
     */
    method DropDefaultGatewayFlows(gateway: DefaultGateway)
      requires |config.connections| >= 1 && KeysAgree(Tables())
      modifies this, gateway, intents
      ensures var s := DropStep(ApPoint(), ViewOf(gateway.config, old(gateway.hostInfo)), old(gateway.installed), old(Tables()));
              gateway.installed == s.0 && Tables() == s.1 && intents.log == old(intents.log) + s.2
      ensures KeysAgree(Tables())
      ensures gateway.hostInfo == old(gateway.hostInfo) && gateway.owners == old(gateway.owners)
      ensures apHosts == old(apHosts) && roamingHosts == old(roamingHosts)
    {
      var changed := gateway.SetDefaultFlowsInstalled(false);
      if changed {
        var pair := ConnectPointPair(ForAccessPoint(config.connections, config.ingressVlans),
                                     ForGateway(gateway.hostInfo.location, gateway.config.ingressVlans),
                                     GatewayMask.GetIpPrefix(gateway.config.gatewayAndMask));
        var northBoundIntent: Option<Intent> := if pair in north then Some(north[pair]) else None;
        north := north - {pair};
        if northBoundIntent.Some? {
          intents.Withdraw(northBoundIntent.value);
        }
        var southBoundIntent: Option<Intent> := if pair in south then Some(south[pair]) else None;
        south := south - {pair};
        if northBoundIntent.Some? {
          intents.Withdraw(southBoundIntent.value);
        }
      }
    }

    /**
     * How far `dropAllFlows`' sweep over the gateways has got, as `SweptTo` but with the sweep's
     * outcome `acc` so far given outright: the gateways before position `i` hold its latches, the
     * tables and the intent log hold its tables and events, and the rest are as they were.
     */
    ghost predicate DropSweptTo(i: nat, acc: Outcome, v0: seq<GatewayView>, l0: seq<bool>,
                                log0: seq<IntentEvent>, hs0: seq<Host>, os0: seq<seq<AccessPoint>>)
      reads this, gateways, intents
    {
      |config.connections| >= 1 && DistinctKeys(gateways)
      && i <= |gateways| && |v0| == |gateways| && |l0| == |gateways| && |hs0| == |gateways| && |os0| == |gateways|
      && |acc.latches| == i && Tables() == acc.tables && intents.log == log0 + acc.events
      && forall j :: 0 <= j < |gateways| ==>
           v0[j] == ViewOf(gateways[j].config, hs0[j])
           && gateways[j].hostInfo == hs0[j] && gateways[j].owners == os0[j]
           && gateways[j].installed == if j < i then acc.latches[j] else l0[j]
    }

    /** The drop sweep is one gateway further once the gateway at `i` has taken its step `s`. */
    lemma DropSweepAdvances(i: nat, prev: Outcome, s: (bool, FlowTables.Tables, seq<IntentEvent>), v0: seq<GatewayView>,
                            l0: seq<bool>, log0: seq<IntentEvent>, hs0: seq<Host>, os0: seq<seq<AccessPoint>>)
      requires |config.connections| >= 1 && DistinctKeys(gateways)
      requires i < |gateways| && |v0| == |gateways| && |l0| == |gateways| && |hs0| == |gateways| && |os0| == |gateways|
      requires |prev.latches| == i
      requires Tables() == s.1 && intents.log == log0 + prev.events + s.2 && gateways[i].installed == s.0
      requires forall j :: 0 <= j < |gateways| ==>
        v0[j] == ViewOf(gateways[j].config, hs0[j])
        && gateways[j].hostInfo == hs0[j] && gateways[j].owners == os0[j]
        && (j != i ==> gateways[j].installed == if j < i then prev.latches[j] else l0[j])
      ensures DropSweptTo(i + 1, Outcome(prev.latches + [s.0], s.1, prev.events + s.2), v0, l0, log0, hs0, os0)
    {
      LogAssoc(log0, prev.events, s.2);
      var acc := Outcome(prev.latches + [s.0], s.1, prev.events + s.2);
      forall j | 0 <= j < |gateways|
        ensures gateways[j].installed == if j < i + 1 then acc.latches[j] else l0[j]
      {
        if j < i {
          assert acc.latches[j] == prev.latches[j];
        }
      }
    }

    /**
     * One turn of the drop sweep: `dropDefaultGatewayFlows` on the gateway at position `i`
     * extends the sweep `acc` by that gateway's `FlowTables.DropStep`.
     */
    method DropStepAt(i: nat, ghost acc: Outcome, ghost v0: seq<GatewayView>, ghost l0: seq<bool>, ghost t0: FlowTables.Tables,
                      ghost log0: seq<IntentEvent>, ghost hs0: seq<Host>, ghost os0: seq<seq<AccessPoint>>)
      returns (ghost next: Outcome)
      requires i < |gateways| && KeysAgree(t0) && DropSweptTo(i, acc, v0, l0, log0, hs0, os0)
      requires acc == DropFold(ApPoint(), v0[..i], l0[..i], t0)
      modifies this, gateways[i], intents
      ensures DropSweptTo(i + 1, next, v0, l0, log0, hs0, os0)
      ensures next == DropFold(ApPoint(), v0[..i + 1], l0[..i + 1], t0)
      ensures apHosts == old(apHosts) && roamingHosts == old(roamingHosts)
    {
      DropFoldStep(ApPoint(), v0, l0, i, t0);
      ghost var s := DropStep(ApPoint(), v0[i], l0[i], acc.tables);
      forall j | 0 <= j < |gateways| && j != i
        ensures gateways[j] != gateways[i]
      {
        assert KeyAt(gateways, j) != KeyAt(gateways, i);
      }
      DropDefaultGatewayFlows(gateways[i]);
      DropSweepAdvances(i, acc, s, v0, l0, log0, hs0, os0);
      next := Outcome(acc.latches + [s.0], s.1, acc.events + s.2);
    }

    /** A drop sweep over every gateway is `FlowTables.DropFold`, and leaves every latch clear. */
    lemma DropSweepDone(v0: seq<GatewayView>, l0: seq<bool>, t0: FlowTables.Tables, log0: seq<IntentEvent>,
                        hs0: seq<Host>, os0: seq<seq<AccessPoint>>, acc: Outcome)
      requires |config.connections| >= 1 && KeysAgree(t0) && |v0| == |l0| == |gateways|
      requires acc == DropFold(ApPoint(), v0, l0, t0) && DropSweptTo(|gateways|, acc, v0, l0, log0, hs0, os0)
      ensures Latches() == acc.latches && Tables() == acc.tables && intents.log == log0 + acc.events
      ensures Valid() && forall g :: g in gateways ==> !g.installed
    {
      DropFoldClears(ApPoint(), v0, l0, t0);
      forall g | g in gateways
        ensures !g.installed
      {
        var j :| 0 <= j < |gateways| && gateways[j] == g;
      }
    }

    /**
     * The gateway half of `dropAllFlows`: `dropDefaultGatewayFlows` for every gateway, in the
     * map's order; as a whole it is `FlowTables.DropFold`.
     */
    method DropGatewayFlows()
      requires Valid()
      modifies this, gateways, intents
      ensures Valid() && forall g :: g in gateways ==> !g.installed
      ensures var r := DropFold(ApPoint(), old(Views()), old(Latches()), old(Tables()));
              Latches() == r.latches && Tables() == r.tables && intents.log == old(intents.log) + r.events
      ensures forall g :: g in gateways ==> g.hostInfo == old(g.hostInfo) && g.owners == old(g.owners)
      ensures apHosts == old(apHosts) && roamingHosts == old(roamingHosts)
    {
      ghost var v0 := Views();
      ghost var l0 := Latches();
      ghost var hs0 := seq(|gateways|, j requires 0 <= j < |gateways| reads gateways => gateways[j].hostInfo);
      ghost var os0 := seq(|gateways|, j requires 0 <= j < |gateways| reads gateways => gateways[j].owners);
      ghost var acc := Outcome([], Tables(), []);
      assert DropSweptTo(0, acc, v0, l0, intents.log, hs0, os0);
      var i := 0;
      while i < |gateways|
        invariant DropSweptTo(i, acc, v0, l0, old(intents.log), hs0, os0)
        invariant acc == DropFold(ApPoint(), v0[..i], l0[..i], old(Tables()))
        invariant apHosts == old(apHosts) && roamingHosts == old(roamingHosts)
        decreases |gateways| - i
      {
        acc := DropStepAt(i, acc, v0, l0, old(Tables()), old(intents.log), hs0, os0);
        i := i + 1;
      }
      assert v0[..|gateways|] == v0 && l0[..|gateways|] == l0;
      DropSweepDone(v0, l0, old(Tables()), old(intents.log), hs0, os0, acc);
    }

    /**
     * The host half of `dropAllFlows`: `dropRoamingFlows` for every roaming host, in the map's
     * order, which is returned with the withdraw calls each host made.
     */
    method DropRoamingHostFlows() returns (hostOrder: seq<nat>, ghost hostEvents: seq<seq<IntentEvent>>)
      requires forall k :: k in roamingHosts ==> roamingHosts[k].intents == intents
      modifies intents
      ensures Enumerates(hostOrder, roamingHosts.Keys) && |hostEvents| == |hostOrder|
      ensures forall n :: 0 <= n < |hostOrder| ==>
        WithdrawsAll(hostEvents[n], roamingHosts[hostOrder[n]].north, roamingHosts[hostOrder[n]].south)
      ensures intents.log == old(intents.log) + Flatten(hostEvents)
    {
      hostOrder, hostEvents := DropEachHost(intents, roamingHosts);
    }

    /**
     * `dropAllFlows`: the default flows of every gateway, then the roaming flows of every
     * roaming host; both host maps are left as they are.
     */
    method DropAllFlows() returns (hostOrder: seq<nat>, ghost hostEvents: seq<seq<IntentEvent>>)
      requires Valid()
      requires forall k :: k in roamingHosts ==> roamingHosts[k].intents == intents
      modifies this, gateways, intents
      ensures Valid() && forall g :: g in gateways ==> !g.installed
      ensures var r := DropFold(ApPoint(), old(Views()), old(Latches()), old(Tables()));
              Latches() == r.latches && Tables() == r.tables
              && intents.log == old(intents.log) + r.events + Flatten(hostEvents)
      ensures Enumerates(hostOrder, roamingHosts.Keys) && |hostEvents| == |hostOrder|
      ensures forall n :: 0 <= n < |hostOrder| ==>
        WithdrawsAll(hostEvents[n], roamingHosts[hostOrder[n]].north, roamingHosts[hostOrder[n]].south)
      ensures forall g :: g in gateways ==> g.hostInfo == old(g.hostInfo) && g.owners == old(g.owners)
      ensures apHosts == old(apHosts) && roamingHosts == old(roamingHosts)
    {
      ghost var r := DropFold(ApPoint(), Views(), Latches(), Tables());
      DropGatewayFlows();
      ghost var log1 := intents.log;
      assert Latches() == r.latches && Tables() == r.tables && log1 == old(intents.log) + r.events;
      hostOrder, hostEvents := DropRoamingHostFlows();
      LogAssoc(old(intents.log), r.events, Flatten(hostEvents));
    }

    /**
     * `addHost(host)`. A roaming host is filed under its MAC among the roaming hosts and gets
     * its roaming flows, unless its MAC is already there; a host at one of its home APs is
     * filed among the local hosts unless its MAC is already there, and needs no flows. Only
     * adding roaming flows can throw, and then the host stays filed among the roaming hosts.
     * (`addRoamingFlows` hands over to the host; its broadcast part is an empty stub.)
     */
    method AddHost(host: MobileHost) returns (outcome: Completion)
      requires host.info.hostInfo.Some? && host.intents == intents
      requires host.IsRoaming() && host.MacKey() !in roamingHosts ==> host.RoamingReady()
      modifies this, host, intents
      ensures host.current == old(host.current)
      ensures south == old(south) && north == old(north)
      ensures old(host.IsRoaming()) ==>
        apHosts == old(apHosts)
        && if host.MacKey() in old(roamingHosts) then
             roamingHosts == old(roamingHosts) && host.Tables() == old(host.Tables()) && intents.log == old(intents.log)
             && outcome == Completed
           else
             roamingHosts == old(roamingHosts)[host.MacKey() := host]
             && var r := host.RoamingFlows(old(host.current), old(host.HomeViews()),
                                           old(host.settings.roamingUnicastPriority), old(host.Tables()));
                host.Tables() == r.tables && intents.log == old(intents.log) + r.events && outcome == r.outcome
      ensures !old(host.IsRoaming()) ==>
        roamingHosts == old(roamingHosts) && host.Tables() == old(host.Tables()) && intents.log == old(intents.log)
        && apHosts == (if host.MacKey() in old(apHosts) then old(apHosts) else old(apHosts)[host.MacKey() := host])
        && outcome == Completed
    {
      outcome := Completed;
      var mac := host.info.GetMacAddress();
      if host.IsRoaming() {
        if mac.bits !in roamingHosts {
          roamingHosts := roamingHosts[mac.bits := host];
          outcome := host.AddRoamingUnicastFlows();
        }
      } else {
        if mac.bits !in apHosts {
          apHosts := apHosts[mac.bits := host];
        }
      }
    }

    /**
     * `removeHost(host)`: a MAC filed among the roaming hosts has the given host's roaming flows
     * withdrawn and its entry removed; a MAC filed among the local hosts has its entry removed.
     * Nothing else changes. (`dropRoamingFlows` hands over to the host.)
     */
    method RemoveHost(host: MobileHost) returns (ghost withdrawn: seq<IntentEvent>)
      requires host.info.hostInfo.Some? && host.intents == intents
      modifies this, intents
      ensures roamingHosts == old(roamingHosts) - {host.MacKey()} && apHosts == old(apHosts) - {host.MacKey()}
      ensures intents.log == old(intents.log) + withdrawn
      ensures host.MacKey() in old(roamingHosts) ==> WithdrawsAll(withdrawn, host.north, host.south)
      ensures host.MacKey() !in old(roamingHosts) ==> withdrawn == []
      ensures south == old(south) && north == old(north)
    {
      var mac := host.info.GetMacAddress();
      withdrawn := [];
      if mac.bits in roamingHosts {
        var no, so;
        no, so, withdrawn := host.DropRoamingFlows();
        roamingHosts := roamingHosts - {mac.bits};
      }
      if mac.bits in apHosts {
        apHosts := apHosts - {mac.bits};
      }
    }
  }

  /**
   * `m.forEach((pair, intent) -> intentService.withdraw(intent))`: one withdraw per entry, in
   * the map's iteration order, which is returned.
   */
  method WithdrawEach(intents: IntentService, m: map<ConnectPointPair, Intent>) returns (order: seq<ConnectPointPair>)
    modifies intents
    ensures Enumerates(order, m.Keys)
    ensures intents.log == old(intents.log) + WithdrawAll(order, m)
  {
    order := [];
    var rest := m.Keys;
    while rest != {}
      invariant rest <= m.Keys && Enumerates(order, m.Keys - rest)
      invariant intents.log == old(intents.log) + WithdrawAll(order, m)
      decreases rest
    {
      var p :| p in rest;
      intents.Withdraw(m[p]);
      WithdrawAllSnoc(order, p, m);
      EnumeratesSnoc(order, m.Keys - rest, p);
      assert m.Keys - rest + {p} == m.Keys - (rest - {p});
      order := order + [p];
      rest := rest - {p};
    }
    assert m.Keys - rest == m.Keys;
  }

  /**
   * `hosts.values().forEach(host -> dropRoamingFlows(host))`: every host's roaming intents are
   * withdrawn, the hosts in the map's iteration order, which is returned with each host's calls.
   */
  method DropEachHost(intents: IntentService, hosts: map<nat, MobileHost>)
    returns (order: seq<nat>, ghost events: seq<seq<IntentEvent>>)
    requires forall k :: k in hosts ==> hosts[k].intents == intents
    modifies intents
    ensures Enumerates(order, hosts.Keys) && |events| == |order|
    ensures forall n :: 0 <= n < |order| ==> WithdrawsAll(events[n], hosts[order[n]].north, hosts[order[n]].south)
    ensures intents.log == old(intents.log) + Flatten(events)
  {
    order := EnumerateKeys(hosts.Keys);
    var hs := seq(|order|, n requires 0 <= n < |order| && order[n] in hosts => hosts[order[n]]);
    events := DropHosts(intents, hs);
  }

  /** `dropRoamingFlows` for each host in turn. */
  method DropHosts(intents: IntentService, hs: seq<MobileHost>) returns (ghost events: seq<seq<IntentEvent>>)
    requires forall n :: 0 <= n < |hs| ==> hs[n].intents == intents
    modifies intents
    ensures |events| == |hs|
    ensures forall n :: 0 <= n < |hs| ==> WithdrawsAll(events[n], hs[n].north, hs[n].south)
    ensures intents.log == old(intents.log) + Flatten(events)
  {
    ghost var tabs := seq(|hs|, n requires 0 <= n < |hs| reads hs => hs[n].Tables());
    events := [];
    for i := 0 to |hs|
      invariant |events| == i && HostsDropped(intents, old(intents.log), events, tabs[..i])
    {
      assert hs[i].Tables() == tabs[i];
      events := DropHostFlows(intents, hs[i], old(intents.log), events, tabs[..i]);
      assert tabs[..i] + [tabs[i]] == tabs[..i + 1];
    }
    assert tabs[..|hs|] == tabs;
    EachWithdrawsAllAt(events, tabs);
    assert forall n :: 0 <= n < |hs| ==> hs[n].Tables() == tabs[n];
  }

  /**
   * After some hosts' `dropRoamingFlows`: each call withdrew the intents of its host's tables
   * (`ts`), and the service's log holds the calls in turn after `log0`.
   */
  ghost predicate HostsDropped(intents: IntentService, log0: seq<IntentEvent>, ess: seq<seq<IntentEvent>>,
                               ts: seq<FlowTables.Tables>)
    reads intents
  {
    EachWithdrawsAll(ess, ts) && intents.log == log0 + Flatten(ess)
  }

  /** One more host's `dropRoamingFlows`. */
  method DropHostFlows(intents: IntentService, host: MobileHost, ghost log0: seq<IntentEvent>,
                       ghost ess: seq<seq<IntentEvent>>, ghost ts: seq<FlowTables.Tables>)
    returns (ghost ess': seq<seq<IntentEvent>>)
    requires host.intents == intents && HostsDropped(intents, log0, ess, ts)
    modifies intents
    ensures |ess'| == |ess| + 1 && HostsDropped(intents, log0, ess', ts + [host.Tables()])
  {
    var no, so, e := host.DropRoamingFlows();
    EachWithdrawsAllSnoc(ess, ts, e, host.Tables());
    FlattenSnoc(ess, e);
    LogAssoc(log0, Flatten(ess), e);
    ess' := ess + [e];
  }

  /** The order in which a hash map's iteration visits `keys`: some order, each key once. */
  method EnumerateKeys<K>(keys: set<K>) returns (order: seq<K>)
    ensures Enumerates(order, keys)
  {
    order := [];
    var rest := keys;
    while rest != {}
      invariant rest <= keys && Enumerates(order, keys - rest)
      decreases rest
    {
      var k :| k in rest;
      EnumeratesSnoc(order, keys - rest, k);
      assert keys - rest + {k} == keys - (rest - {k});
      order := order + [k];
      rest := rest - {k};
    }
    assert keys - rest == keys;
  }

  /**
   * What a host `m` leaving, reaching or being filed at an access point does to it: its intent
   * tables stay, and its local hosts only lose entries or gain `m`, under `m`'s MAC.
   */
  twostate predicate TouchedBy(a: AccessPoint, new m: MobileHost?)
    reads a
  {
    a.Tables() == old(a.Tables())
    && forall n :: n in a.apHosts ==>
         (n in old(a.apHosts) && a.apHosts[n] == old(a.apHosts[n]))
         || (m != null && m.info.hostInfo.Some? && n == m.MacKey() && a.apHosts[n] == m)
  }

  /**
   * `MobileHost`: a host of one of the configured subnets. `info` is the `SDNWLANHostInfo` it
   * extends; `home` its set of home access points, in the set's iteration order; `current` the
   * access point it was last seen at; `south` and `north` the intent tables of its roaming flows.
   */
  class MobileHost {
    const info: HostInfo
    const intents: IntentService
    const settings: Settings
    const home: seq<AccessPoint>
    var current: AccessPoint?
    var south: map<ConnectPointPair, Intent>
    var north: map<ConnectPointPair, Intent>

    /** The two-argument constructor: the host record is kept and the host is at its first home AP. */
    constructor AtHome(host: Host, home: seq<AccessPoint>, intents: IntentService, settings: Settings, now: int)
      ensures fresh(info) && info.hostInfo == Some(host) && info.createTime == now
      ensures info.lastMoveTime == now && info.removedTime == 0 && info.timesMoved == 0
      ensures this.home == home && this.intents == intents && this.settings == settings
      ensures current == HomeAccessPoint() && !IsRoaming()
      ensures south == map[] && north == map[]
    {
      info := new HostInfo(Some(host), now);
      this.home := home;
      this.intents := intents;
      this.settings := settings;
      current := if |home| > 0 then home[0] else null;
      south := map[];
      north := map[];
    }

    /**
     * The three-argument constructor: it never calls the superclass constructor that takes the
     * host record, so the record is dropped and the object has none.
     */
    constructor Away(home: seq<AccessPoint>, current: AccessPoint?, intents: IntentService, settings: Settings, now: int)
      ensures fresh(info) && info.hostInfo == None && info.createTime == now
      ensures info.lastMoveTime == now && info.removedTime == 0 && info.timesMoved == 0
      ensures this.home == home && this.current == current && this.intents == intents && this.settings == settings
      ensures south == map[] && north == map[]
    {
      info := new HostInfo(None, now);
      this.home := home;
      this.current := current;
      this.intents := intents;
      this.settings := settings;
      south := map[];
      north := map[];
    }

    function Tables(): FlowTables.Tables
      reads this
    {
      FlowTables.Tables(south, north)
    }

    /** `getHomeAccessPoint`: the first home access point, or null when there is none. */
    function HomeAccessPoint(): (ap: AccessPoint?)
      ensures ap == null <==> |home| == 0
      ensures ap != null ==> ap in home
    {
      if |home| > 0 then home[0] else null
    }

    /** `isRoaming`: the host is at an access point that is not one of its homes. */
    predicate IsRoaming()
      reads this
    {
      current != null && current !in home
    }

    /** The key the access points file the host under: the bits of its MAC. */
    function MacKey(): nat
      requires info.hostInfo.Some?
    {
      info.GetMacAddress().bits
    }

    /**
     * What adding the roaming flows reads before it can throw: the current point and the
     * host's MAC.
     */
    ghost predicate RoamingReady()
      reads this
    {
      current != null && |current.config.connections| >= 1 && info.hostInfo.Some?
    }

    /**
     * The host has a first home access point and none of its gateways has a placeholder MAC
     * (a northbound intent towards one is null, and `putIfAbsent` rejects null).
     */
    ghost predicate HomeLearned()
      reads if |home| >= 1 then home[0].gateways else []
    {
      |home| >= 1 && home[0].GatewaysLearned()
    }

    /** What the host knows of the gateways of its first home access point, in the map's order. */
    ghost function HomeViews(): (vs: seq<GatewayView>)
      reads if |home| >= 1 then home[0].gateways else []
      ensures HomeLearned() <==> |home| >= 1 && forall j :: 0 <= j < |vs| ==> RealMac(vs[j].mac)
    {
      if |home| == 0 then []
      else
        var vs := home[0].Views();
        assert forall j :: 0 <= j < |vs| ==> vs[j].mac == home[0].gateways[j].hostInfo.mac;
        vs
    }

    /**
     * `addRoamingUnicastDefaultGatewayFlows` on values, with the host at `at`, the home
     * gateways seen as `views`, the roaming priority `priority` and from tables `t`: the
     * roaming point is `new SDNWLANConnectPoint(at, getHomeAccessPoint())`. It throws exactly
     * when there is no home access point (the roaming point dereferences it) or a home gateway's
     * MAC is a placeholder.
     */
    ghost function RoamingFlows(at: AccessPoint, views: seq<GatewayView>, priority: int, t: FlowTables.Tables): (r: Run)
      requires |at.config.connections| >= 1 && info.hostInfo.Some?
      ensures r.outcome == Completed <==> |home| >= 1 && forall j :: 0 <= j < |views| ==> RealMac(views[j].mac)
      ensures |home| == 0 ==> r == Run(t, [], NullPointer)
    {
      if |home| == 0 then Run(t, [], NullPointer)
      else
        RoamingRun(ForRoaming(at.config.connections, home[0].config.ingressVlans), views,
                   info.hostInfo.value.mac, t, settings.appId, priority)
    }

    /**
     * One turn of `addRoamingUnicastDefaultGatewayFlows`: the southbound host-MAC intent, then
     * the northbound gateway-MAC intent, each stored and submitted unless its table already has
     * the pair. A gateway with a placeholder MAC has no northbound intent, and storing the null
     * throws after the southbound intent went in.
     */
    method AddRoamingEntry(apPoint: ConnectPoint, gateway: DefaultGateway) returns (outcome: Completion)
      requires info.hostInfo.Some?
      modifies this, intents
      ensures outcome == Completed <==> RealMac(gateway.hostInfo.mac)
      ensures var v := ViewOf(gateway.config, gateway.hostInfo);
              outcome == Completed ==>
                var e := RoamingEntry(apPoint, v, info.hostInfo.value.mac, settings.appId, settings.roamingUnicastPriority);
                var s := AddPair(old(Tables()), e.pair, e.southIntent, e.northIntent);
                Tables() == s.0 && intents.log == old(intents.log) + s.1
      ensures var v := ViewOf(gateway.config, gateway.hostInfo);
              outcome == NullPointer ==>
                var s := PutIfAbsent(old(south), GatewayPair(apPoint, v),
                                     HostMacIntent(settings.appId, GatewayPoint(v), apPoint, info.hostInfo.value.mac,
                                                   settings.roamingUnicastPriority));
                south == s.0 && north == old(north) && intents.log == old(intents.log) + s.1
      ensures current == old(current)
    {
      var gwPoint := ForGateway(gateway.hostInfo.location, gateway.config.ingressVlans);
      var pair := ConnectPointPair(apPoint, gwPoint, GatewayMask.GetIpPrefix(gateway.config.gatewayAndMask));
      var sbFlow := NewSouthBoundMacFlow(settings.appId, Some(gwPoint), Some(apPoint), info.GetMacAddress());
      var southboundIntent := GetIntent(sbFlow.value, settings.roamingUnicastPriority);
      if pair !in south {
        south := south[pair := southboundIntent.value];
        intents.Submit(southboundIntent.value);
      }
      var nbFlow := NewNorthBoundMacFlow(settings.appId, Some(apPoint), Some(gwPoint), gateway.hostInfo.mac);
      var northboundIntent := GetIntent(nbFlow.value, settings.roamingUnicastPriority);
      if northboundIntent.None? {
        return NullPointer;
      }
      outcome := Completed;
      if pair !in north {
        north := north[pair := northboundIntent.value];
        intents.Submit(northboundIntent.value);
      }
    }

    /**
     * `addRoamingUnicastFlows`: the roaming entries towards the gateways of the first home
     * access point; as a whole it is `RoamingFlows`. (The home-AP part is an empty stub.)
     */
    method AddRoamingUnicastFlows() returns (outcome: Completion)
      requires RoamingReady()
      modifies this, intents
      ensures current == old(current)
      ensures var r := RoamingFlows(old(current), old(HomeViews()), old(settings.roamingUnicastPriority), old(Tables()));
              Tables() == r.tables && intents.log == old(intents.log) + r.events && outcome == r.outcome
    {
      if |home| == 0 {
        assert intents.log == old(intents.log) + [];
        return NullPointer;
      }
      var homeAp := home[0];
      var apPoint := ForRoaming(current.config.connections, homeAp.config.ingressVlans);
      outcome := AddGatewayEntries(apPoint, homeAp.gateways, homeAp.Views());
    }

    /**
     * The loop of `addRoamingUnicastDefaultGatewayFlows`: a roaming entry for each gateway, in
     * the map's order, up to the first that throws; as a whole it is `RoamingRun`.
     */
    method AddGatewayEntries(apPoint: ConnectPoint, gws: seq<DefaultGateway>, ghost views: seq<GatewayView>)
      returns (outcome: Completion)
      requires info.hostInfo.Some? && |gws| == |views|
      requires forall j :: 0 <= j < |gws| ==> views[j] == ViewOf(gws[j].config, gws[j].hostInfo)
      modifies this, intents
      ensures current == old(current)
      ensures var r := RoamingRun(apPoint, views, info.hostInfo.value.mac, old(Tables()),
                                  settings.appId, settings.roamingUnicastPriority);
              Tables() == r.tables && intents.log == old(intents.log) + r.events && outcome == r.outcome
    {
      ghost var mac := info.hostInfo.value.mac;
      ghost var steps := RoamingSteps(apPoint, views, mac, settings.appId, settings.roamingUnicastPriority);
      ghost var t0 := Tables();
      ghost var log0 := intents.log;
      ghost var run := Run(t0, [], Completed);
      assert RoamingRun(apPoint, views, mac, t0, settings.appId, settings.roamingUnicastPriority) == RunAll(t0, steps);
      assert steps[..0] == [];
      outcome := Completed;
      var i := 0;
      while i < |gws|
        invariant 0 <= i <= |gws| && current == old(current) && outcome == Completed
        invariant run == RunAll(t0, steps[..i])
        invariant run.outcome == Completed && Tables() == run.tables && intents.log == log0 + run.events
        decreases |gws| - i
      {
        outcome, run := RoamingStepAt(apPoint, gws, views, i, steps, t0, log0, run);
        if outcome == NullPointer {
          RunAllStays(t0, steps, i + 1);
          assert run == RunAll(t0, steps);
          return;
        }
        i := i + 1;
      }
      assert steps[..|gws|] == steps;
    }

    /**
     * One turn of `addRoamingUnicastFlows`: the roaming entry for the gateway at position `i`
     * takes the run over the steps before it, `prev`, one step further.
     */
    method RoamingStepAt(apPoint: ConnectPoint, gws: seq<DefaultGateway>, ghost views: seq<GatewayView>, i: nat,
                         ghost steps: seq<Step>, ghost t0: FlowTables.Tables, ghost log0: seq<IntentEvent>, ghost prev: Run)
      returns (outcome: Completion, ghost next: Run)
      requires i < |gws| == |views| && views[i] == ViewOf(gws[i].config, gws[i].hostInfo)
      requires info.hostInfo.Some?
      requires steps == RoamingSteps(apPoint, views, info.hostInfo.value.mac, settings.appId, settings.roamingUnicastPriority)
      requires prev == RunAll(t0, steps[..i]) && prev.outcome == Completed
      requires Tables() == prev.tables && intents.log == log0 + prev.events
      modifies this, intents
      ensures next == RunAll(t0, steps[..i + 1])
      ensures Tables() == next.tables && intents.log == log0 + next.events && outcome == next.outcome
      ensures current == old(current)
    {
      RunAllSnoc(t0, steps, i);
      RoamingStepsAt(apPoint, views, i, info.hostInfo.value.mac, settings.appId, settings.roamingUnicastPriority);
      next := RunStep(prev, steps[i]);
      outcome := AddRoamingEntry(apPoint, gws[i]);
      if outcome == Completed {
        ghost var e := RoamingEntry(apPoint, views[i], info.hostInfo.value.mac, settings.appId, settings.roamingUnicastPriority);
        ghost var s := AddPair(prev.tables, e.pair, e.southIntent, e.northIntent);
        LogAssoc(log0, prev.events, s.1);
      } else {
        ghost var s := PutIfAbsent(prev.tables.south, GatewayPair(apPoint, views[i]),
                                   HostMacIntent(settings.appId, GatewayPoint(views[i]), apPoint, info.hostInfo.value.mac,
                                                 settings.roamingUnicastPriority));
        LogAssoc(log0, prev.events, s.1);
      }
    }

    /**
     * `dropRoamingFlows`: every northbound and then every southbound intent of the host is
     * withdrawn, each table in its iteration order. The tables themselves are left as they are.
     */
    method DropRoamingFlows() returns (northOrder: seq<ConnectPointPair>, southOrder: seq<ConnectPointPair>,
                                       ghost withdrawn: seq<IntentEvent>)
      modifies intents
      ensures Enumerates(northOrder, north.Keys) && Enumerates(southOrder, south.Keys)
      ensures withdrawn == WithdrawAll(northOrder, north) + WithdrawAll(southOrder, south)
      ensures WithdrawsAll(withdrawn, north, south) && intents.log == old(intents.log) + withdrawn
    {
      ghost var log0 := intents.log;
      northOrder := WithdrawEach(intents, north);
      southOrder := WithdrawEach(intents, south);
      withdrawn := WithdrawAll(northOrder, north) + WithdrawAll(southOrder, south);
      WithdrawsAllIntro(northOrder, southOrder, north, south);
      LogAssoc(log0, WithdrawAll(northOrder, north), WithdrawAll(southOrder, south));
    }

    /**
     * `setCurrentAccessPoint(point)`. Moving to a different point first removes the host from
     * the point it leaves unless that is the first home access point (a null point there is
     * dereferenced and throws before anything changes), then records the move (`lastMoveTime`
     * takes the creation date's time, and `timesMoved` counts up as a Java `int`), and finally
     * adds the host to the new point, where adding roaming flows can throw.
     */
    method SetCurrentAccessPoint(point: AccessPoint?) returns (outcome: Completion, ghost withdrawn: seq<IntentEvent>)
      requires current != point ==> Movable(point)
      modifies this, info, current, point, intents
      ensures Moved(point, outcome)
      ensures info.removedTime == old(info.removedTime)
      ensures old(current) == point ==>
        info.lastMoveTime == old(info.lastMoveTime) && info.timesMoved == old(info.timesMoved)
        && Tables() == old(Tables()) && intents.log == old(intents.log) && withdrawn == []
      ensures old(current) != point && old(NullCurrent()) ==>
        Tables() == old(Tables()) && intents.log == old(intents.log) && withdrawn == []
        && (point != null ==> point.apHosts == old(point.apHosts) && point.roamingHosts == old(point.roamingHosts))
      ensures var left := old(current);
              left != point && left != HomeAccessPoint() && left != null ==>
                left.roamingHosts == old(left.roamingHosts) - {MacKey()} && left.apHosts == old(left.apHosts) - {MacKey()}
                && (MacKey() in old(left.roamingHosts) ==> WithdrawsAll(withdrawn, old(north), old(south)))
                && (MacKey() !in old(left.roamingHosts) ==> withdrawn == [])
      ensures old(current) != point && old(current) == HomeAccessPoint() ==> withdrawn == []
      ensures old(current) != point && !old(NullCurrent()) && point != null && IsRoaming() ==>
        point.apHosts == old(point.apHosts)
        && if MacKey() in old(point.roamingHosts) then
             point.roamingHosts == old(point.roamingHosts) && Tables() == old(Tables())
             && intents.log == old(intents.log) + withdrawn
           else
             point.roamingHosts == old(point.roamingHosts)[MacKey() := this]
             && var r := RoamingFlows(point, old(HomeViews()), old(settings.roamingUnicastPriority), old(Tables()));
                Tables() == r.tables && intents.log == old(intents.log) + withdrawn + r.events
      ensures old(current) != point && !old(NullCurrent()) && point != null && !IsRoaming() ==>
        point.roamingHosts == old(point.roamingHosts) && Tables() == old(Tables())
        && intents.log == old(intents.log) + withdrawn
        && point.apHosts == if MacKey() in old(point.apHosts) then old(point.apHosts) else old(point.apHosts)[MacKey() := this]
      ensures old(current) != point && !old(NullCurrent()) && point == null ==>
        Tables() == old(Tables()) && intents.log == old(intents.log) + withdrawn
      ensures old(current) != null ==> TouchedBy(old(current), this)
      ensures point != null ==> TouchedBy(point, this)
    {
      outcome := Completed;
      withdrawn := [];
      if current != point {
        outcome, withdrawn := MoveTo(point);
      }
    }

    /** The host is at no access point although it has a first home: leaving dereferences null. */
    predicate NullCurrent()
      reads this
    {
      current == null && |home| >= 1
    }

    /**
     * Moving to `point` throws: leaving dereferences a null current point, or the host arrives
     * at `point` as a new roaming host and its roaming flows throw.
     */
    ghost predicate MoveThrows(point: AccessPoint?)
      reads this, point, if |home| >= 1 then home[0].gateways else []
    {
      NullCurrent()
      || (point != null && point !in home && info.hostInfo.Some? && MacKey() !in point.roamingHosts && !HomeLearned())
    }

    /**
     * What `setCurrentAccessPoint(point)` did to the host, seen from outside: it threw exactly
     * when the point changed and `MoveThrows` held; the host is at `point` unless leaving threw;
     * and a change that got past leaving recorded the move.
     */
    twostate predicate Moved(point: AccessPoint?, outcome: Completion)
      reads this, info
    {
      (outcome == NullPointer <==> old(current) != point && old(MoveThrows(point)))
      && (if old(current) != point && old(NullCurrent()) then
            current == old(current) && info.timesMoved == old(info.timesMoved)
            && info.lastMoveTime == old(info.lastMoveTime)
          else current == point)
      && (old(current) != point && !old(NullCurrent()) ==>
            info.lastMoveTime == info.createTime && info.timesMoved == IntInc(old(info.timesMoved)))
    }

    /**
     * What moving to `point` takes for granted: the host's record, which every filed host has;
     * one intent service shared by the host and the access points it leaves and reaches; and a
     * connection at `point`, which every access point has.
     */
    ghost predicate Movable(point: AccessPoint?)
      reads this, current, point
    {
      info.hostInfo.Some? && (current != null ==> current.intents == intents) && Arrivable(point)
    }

    /**
     * The body of `setCurrentAccessPoint` when the point changes: the host leaves its point
     * (unless that is the first home access point) and then arrives at the new one.
     */
    method MoveTo(point: AccessPoint?) returns (outcome: Completion, ghost withdrawn: seq<IntentEvent>)
      requires current != point && Movable(point)
      modifies this, info, current, point, intents
      ensures Moved(point, outcome)
      ensures info.removedTime == old(info.removedTime)
      ensures old(NullCurrent()) ==>
        Tables() == old(Tables()) && intents.log == old(intents.log) && withdrawn == []
        && (point != null ==> point.apHosts == old(point.apHosts) && point.roamingHosts == old(point.roamingHosts))
      ensures var left := old(current);
              left != HomeAccessPoint() && left != null ==>
                left.roamingHosts == old(left.roamingHosts) - {MacKey()} && left.apHosts == old(left.apHosts) - {MacKey()}
                && (MacKey() in old(left.roamingHosts) ==> WithdrawsAll(withdrawn, old(north), old(south)))
                && (MacKey() !in old(left.roamingHosts) ==> withdrawn == [])
      ensures old(current) == HomeAccessPoint() ==> withdrawn == []
      ensures !old(NullCurrent()) && point != null && IsRoaming() ==>
        point.apHosts == old(point.apHosts)
        && if MacKey() in old(point.roamingHosts) then
             point.roamingHosts == old(point.roamingHosts) && Tables() == old(Tables())
             && intents.log == old(intents.log) + withdrawn
           else
             point.roamingHosts == old(point.roamingHosts)[MacKey() := this]
             && var r := RoamingFlows(point, old(HomeViews()), old(settings.roamingUnicastPriority), old(Tables()));
                Tables() == r.tables && intents.log == old(intents.log) + withdrawn + r.events
      ensures !old(NullCurrent()) && point != null && !IsRoaming() ==>
        point.roamingHosts == old(point.roamingHosts) && Tables() == old(Tables())
        && intents.log == old(intents.log) + withdrawn
        && point.apHosts == if MacKey() in old(point.apHosts) then old(point.apHosts) else old(point.apHosts)[MacKey() := this]
      ensures !old(NullCurrent()) && point == null ==> Tables() == old(Tables()) && intents.log == old(intents.log) + withdrawn
      ensures old(current) != null ==> TouchedBy(old(current), this)
      ensures point != null ==> TouchedBy(point, this)
    {
      ghost var t0 := Tables();
      ghost var views := HomeViews();
      ghost var learned := HomeLearned();
      outcome, withdrawn := LeaveCurrent();
      if outcome == NullPointer {
        return;
      }
      assert HomeViews() == views && HomeLearned() == learned;
      outcome := ArriveAt(point, t0);
    }

    /**
     * The first half of `setCurrentAccessPoint` when the point changes: the host is removed
     * from the point it leaves, unless that is the first home access point; a null point there
     * throws.
     */
    method LeaveCurrent() returns (outcome: Completion, ghost withdrawn: seq<IntentEvent>)
      requires current != null ==> info.hostInfo.Some? && current.intents == intents
      modifies current, intents
      ensures outcome == NullPointer <==> NullCurrent()
      ensures intents.log == old(intents.log) + withdrawn
      ensures if current != HomeAccessPoint() && current != null then
                current.roamingHosts == old(current.roamingHosts) - {MacKey()}
                && current.apHosts == old(current.apHosts) - {MacKey()}
                && (MacKey() in old(current.roamingHosts) ==> WithdrawsAll(withdrawn, north, south))
                && (MacKey() !in old(current.roamingHosts) ==> withdrawn == [])
              else withdrawn == []
      ensures current != null ==> TouchedBy(current, this)
    {
      outcome := Completed;
      withdrawn := [];
      if current != HomeAccessPoint() {
        if current == null {
          return NullPointer, [];
        }
        withdrawn := current.RemoveHost(this);
      }
    }

    /**
     * What adding the host to `point` takes for granted: the host's record, the shared intent
     * service, and a connection at the point, which roaming flows start from.
     */
    ghost predicate Arrivable(point: AccessPoint?)
      reads this, point
    {
      point != null ==> info.hostInfo.Some? && point.intents == intents && |point.config.connections| >= 1
    }

    /**
     * The second half of `setCurrentAccessPoint`, once the host has left its point: the move is
     * recorded and the host is added to the new point, from roaming tables `t`.
     */
    method ArriveAt(point: AccessPoint?, ghost t: FlowTables.Tables) returns (outcome: Completion)
      requires Tables() == t && Arrivable(point)
      modifies this, info, point, intents
      ensures current == point
      ensures info.removedTime == old(info.removedTime)
      ensures info.lastMoveTime == info.createTime && info.timesMoved == IntInc(old(info.timesMoved))
      ensures outcome == NullPointer <==>
        point != null && point !in home && MacKey() !in old(point.roamingHosts) && !old(HomeLearned())
      ensures point != null && IsRoaming() ==>
        point.apHosts == old(point.apHosts)
        && if MacKey() in old(point.roamingHosts) then
             point.roamingHosts == old(point.roamingHosts) && Tables() == t && intents.log == old(intents.log)
           else
             point.roamingHosts == old(point.roamingHosts)[MacKey() := this]
             && var r := RoamingFlows(point, old(HomeViews()), old(settings.roamingUnicastPriority), t);
                Tables() == r.tables && intents.log == old(intents.log) + r.events
      ensures point != null && !IsRoaming() ==>
        point.roamingHosts == old(point.roamingHosts) && Tables() == t && intents.log == old(intents.log)
        && point.apHosts == if MacKey() in old(point.apHosts) then old(point.apHosts) else old(point.apHosts)[MacKey() := this]
      ensures point == null ==> Tables() == t && intents.log == old(intents.log)
      ensures point != null ==> TouchedBy(point, this)
    {
      ghost var views := HomeViews();
      current := point;
      info.lastMoveTime := info.createTime;
      info.timesMoved := IntInc(info.timesMoved);
      assert HomeViews() == views;
      outcome := Completed;
      if current != null {
        outcome := current.AddHost(this);
      }
    }
  }
}
