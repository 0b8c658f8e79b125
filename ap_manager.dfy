/**
 * `APManager`: the directory of access points (keyed by their MAC) and of the default
 * gateways whose IP addresses the host service monitors (keyed by address), the host event
 * handlers that tell gateway news from mobile-host news, and the sweep that purges hosts
 * some time after they were reported removed.
 */
module Manager {
  import opened Wrappers
  import opened JavaInt
  import opened Net
  import opened Intents
  import opened Config
  import opened Services
  import opened HostInfos
  import opened FlowTables
  import opened Mobility
  import GatewayMask
  import opened ConnectPointPairs
  import opened Purging

  /** The key a gateway is monitored under: `getGatewayAndMask().gatewayAddress()`. */
  function MonitoredIp(g: DefaultGateway): IpAddress
  {
    g.config.gatewayAndMask.gateway
  }

  /**
   * The gateway part of `onAddAccessPoint` on values: each gateway whose address the directory
   * does not hold yet is put under it and is to be monitored; an address already held keeps
   * its gateway. The result is the new directory and the addresses to monitor, in turn.
   */
  function RegisterGateways(dg: map<IpAddress, DefaultGateway>, gws: seq<DefaultGateway>)
    : (r: (map<IpAddress, DefaultGateway>, seq<IpAddress>))
    decreases |gws|
  {
    if gws == [] then (dg, [])
    else
      var n := |gws| - 1;
      var prev := RegisterGateways(dg, gws[..n]);
      var ip := MonitoredIp(gws[n]);
      if ip in prev.0 then prev else (prev.0[ip := gws[n]], prev.1 + [ip])
  }

  /** The addresses of the gateways `gws`. */
  function IpsOf(gws: seq<DefaultGateway>): set<IpAddress>
  {
    set j | 0 <= j < |gws| :: MonitoredIp(gws[j])
  }

  /** Registering gateways keeps every entry the directory had and adds exactly the new addresses. */
  lemma {:induction false} RegisterKeeps(dg: map<IpAddress, DefaultGateway>, gws: seq<DefaultGateway>)
    ensures var r := RegisterGateways(dg, gws);
            r.0.Keys == dg.Keys + IpsOf(gws) && forall ip :: ip in dg ==> r.0[ip] == dg[ip]
    decreases |gws|
  {
    if gws != [] {
      var n := |gws| - 1;
      RegisterKeeps(dg, gws[..n]);
      IpsOfSnoc(gws);
    }
  }

  /** The owner lists of the gateways `gws`, in turn. */
  ghost function OwnerLists(gws: seq<DefaultGateway>): (os: seq<seq<AccessPoint>>)
    reads gws
    ensures |os| == |gws| && forall j :: 0 <= j < |gws| ==> os[j] == gws[j].owners
  {
    seq(|gws|, j requires 0 <= j < |gws| reads gws => gws[j].owners)
  }

  /** Every gateway the directory gains by registering is one of the gateways registered. */
  lemma {:induction false} RegisterFrom(dg: map<IpAddress, DefaultGateway>, gws: seq<DefaultGateway>)
    ensures var r := RegisterGateways(dg, gws);
            forall ip :: ip in r.0 && ip !in dg ==> r.0[ip] in gws
    decreases |gws|
  {
    if gws != [] {
      var n := |gws| - 1;
      RegisterFrom(dg, gws[..n]);
      assert forall g :: g in gws[..n] ==> g in gws;
    }
  }

  /** Registering gateways keeps every address filed with a gateway that has it. */
  lemma {:induction false} RegisterFiles(dg: map<IpAddress, DefaultGateway>, gws: seq<DefaultGateway>)
    requires GatewaysFiled(dg)
    ensures forall ip :: ip in RegisterGateways(dg, gws).0 ==> MonitoredIp(RegisterGateways(dg, gws).0[ip]) == ip
    decreases |gws|
  {
    if gws != [] {
      RegisterFiles(dg, gws[..|gws| - 1]);
    }
  }

  lemma IpsOfSnoc(gws: seq<DefaultGateway>)
    requires gws != []
    ensures IpsOf(gws) == IpsOf(gws[..|gws| - 1]) + {MonitoredIp(gws[|gws| - 1])}
  {
    var n := |gws| - 1;
    assert forall j :: 0 <= j < n ==> gws[..n][j] == gws[j];
  }

  /** A new address is filed under the first of the gateways that has it. */
  lemma {:induction false} RegisterFirst(dg: map<IpAddress, DefaultGateway>, gws: seq<DefaultGateway>)
    ensures var r := RegisterGateways(dg, gws);
            forall j :: 0 <= j < |gws| && MonitoredIp(gws[j]) !in dg
                        && (forall i :: 0 <= i < j ==> MonitoredIp(gws[i]) != MonitoredIp(gws[j]))
                        ==> MonitoredIp(gws[j]) in r.0 && r.0[MonitoredIp(gws[j])] == gws[j]
    decreases |gws|
  {
    if gws != [] {
      var n := |gws| - 1;
      RegisterFirst(dg, gws[..n]);
      RegisterKeeps(dg, gws[..n]);
      var prev := RegisterGateways(dg, gws[..n]);
      forall j | 0 <= j < |gws| && MonitoredIp(gws[j]) !in dg
                 && (forall i :: 0 <= i < j ==> MonitoredIp(gws[i]) != MonitoredIp(gws[j]))
        ensures MonitoredIp(gws[j]) in RegisterGateways(dg, gws).0
                && RegisterGateways(dg, gws).0[MonitoredIp(gws[j])] == gws[j]
      {
        if j < n {
          assert gws[..n][j] == gws[j];
          assert forall i :: 0 <= i < j ==> gws[..n][i] == gws[i];
        } else {
          assert forall i :: 0 <= i < n ==> gws[..n][i] == gws[i];
          assert MonitoredIp(gws[n]) !in IpsOf(gws[..n]);
        }
      }
    }
  }

  /** Each new address is monitored once, and no address the directory had is. */
  lemma {:induction false} RegisterMonitorsOnce(dg: map<IpAddress, DefaultGateway>, gws: seq<DefaultGateway>)
    ensures var r := RegisterGateways(dg, gws);
            (forall ip :: ip in r.1 <==> ip in IpsOf(gws) && ip !in dg)
            && forall a, b :: 0 <= a < b < |r.1| ==> r.1[a] != r.1[b]
    decreases |gws|
  {
    if gws != [] {
      var n := |gws| - 1;
      RegisterMonitorsOnce(dg, gws[..n]);
      RegisterKeeps(dg, gws[..n]);
      IpsOfSnoc(gws);
    }
  }

  /** What detaching an access point changes of a gateway. */
  datatype GatewayState = GatewayState(owners: seq<AccessPoint>, hostInfo: Host, installed: bool)

  /** The state of the gateway under `ip`. */
  ghost function GatewayAt(dg: map<IpAddress, DefaultGateway>, ip: IpAddress): GatewayState
    requires ip in dg
    reads dg[ip]
  {
    GatewayState(dg[ip].owners, dg[ip].hostInfo, dg[ip].installed)
  }

  /** The state of every gateway of the directory, by address. */
  ghost function Gateways(dg: map<IpAddress, DefaultGateway>): (s: map<IpAddress, GatewayState>)
    reads dg.Values
    ensures s.Keys == dg.Keys
  {
    map ip | ip in dg :: GatewayAt(dg, ip)
  }

  /** A gateway after `removeAccessPoint(ap)`: the first `ap` leaves its owners. */
  function Detached(g: GatewayState, ap: AccessPoint): GatewayState
  {
    g.(owners := RemoveFirst(g.owners, ap))
  }

  /** The gateways under the addresses `done` are detached from `ap` since `s0`, the others are as in `s0`. */
  ghost predicate DetachedTo(dg: map<IpAddress, DefaultGateway>, ap: AccessPoint, done: set<IpAddress>,
                             s0: map<IpAddress, GatewayState>)
    reads dg.Values
  {
    s0.Keys == dg.Keys
    && forall ip :: ip in dg ==> GatewayAt(dg, ip) == if ip in done then Detached(s0[ip], ap) else s0[ip]
  }

  /**
   * The gateways under the first `i` addresses of `order`, in that order, whose owner list
   * in `s0` was `ap` alone: those that removing `ap` leaves without an owner.
   */
  function SoleOwned(order: seq<IpAddress>, i: nat, dg: map<IpAddress, DefaultGateway>,
                     s0: map<IpAddress, GatewayState>, ap: AccessPoint): seq<DefaultGateway>
    requires i <= |order| && forall n :: 0 <= n < |order| ==> order[n] in dg && order[n] in s0
  {
    if i == 0 then []
    else SoleOwned(order, i - 1, dg, s0, ap) + if s0[order[i - 1]].owners == [ap] then [dg[order[i - 1]]] else []
  }

  /** The addresses of the gateways `SoleOwned` lists are the addresses among the first `i` whose only owner was `ap`. */
  lemma {:induction false} SoleOwnedIps(order: seq<IpAddress>, i: nat, dg: map<IpAddress, DefaultGateway>,
                                        s0: map<IpAddress, GatewayState>, ap: AccessPoint)
    requires i <= |order| && forall n :: 0 <= n < |order| ==> order[n] in dg && order[n] in s0
    requires GatewaysFiled(dg)
    ensures forall ip :: ip in IpsOf(SoleOwned(order, i, dg, s0, ap)) <==>
      exists n :: 0 <= n < i && order[n] == ip && s0[ip].owners == [ap]
  {
    if i > 0 {
      SoleOwnedIps(order, i - 1, dg, s0, ap);
      var prev := SoleOwned(order, i - 1, dg, s0, ap);
      var last := if s0[order[i - 1]].owners == [ap] then [dg[order[i - 1]]] else [];
      forall ip
        ensures ip in IpsOf(prev + last) <==> ip in IpsOf(prev) || (ip == order[i - 1] && s0[ip].owners == [ap])
      {
        if ip in IpsOf(prev + last) {
          var j :| 0 <= j < |prev + last| && MonitoredIp((prev + last)[j]) == ip;
          if j < |prev| {
            assert (prev + last)[j] == prev[j];
          }
        }
        if ip in IpsOf(prev) {
          var j :| 0 <= j < |prev| && MonitoredIp(prev[j]) == ip;
          assert (prev + last)[j] == prev[j];
        }
        if ip == order[i - 1] && s0[ip].owners == [ap] {
          assert (prev + last)[|prev|] == dg[ip];
        }
      }
    }
  }

  /** Over an enumeration of the directory, `SoleOwned` files exactly the addresses whose only owner was `ap`. */
  lemma SoleOwnedAll(order: seq<IpAddress>, dg: map<IpAddress, DefaultGateway>,
                     s0: map<IpAddress, GatewayState>, ap: AccessPoint)
    requires Enumerates(order, dg.Keys) && s0.Keys == dg.Keys
    requires GatewaysFiled(dg)
    ensures forall ip :: ip in IpsOf(SoleOwned(order, |order|, dg, s0, ap)) <==> ip in dg && s0[ip].owners == [ap]
  {
    SoleOwnedIps(order, |order|, dg, s0, ap);
  }

  /** Removing the first `ap` empties a list that holds it exactly when the list was `ap` alone. */
  lemma LastOwnerGoes(s: seq<AccessPoint>, ap: AccessPoint)
    requires ap in s
    ensures RemoveFirst(s, ap) == [] <==> s == [ap]
  {
    if RemoveFirst(s, ap) == [] {
      assert multiset(s) == multiset{ap};
      assert |s| == 1;
      assert s == [s[0]];
    }
  }

  /**
   * The first part of `onRemoveAccessPoint` as the method evidently means it: every gateway,
   * in the directory's order, that lists `ap` among its owners loses it, and those left
   * without an owner are returned in that order.
   */
  method DetachAll(dg: map<IpAddress, DefaultGateway>, ap: AccessPoint)
    returns (order: seq<IpAddress>, dropList: seq<DefaultGateway>)
    requires GatewaysFiled(dg)
    modifies dg.Values
    ensures Enumerates(order, dg.Keys)
    ensures forall ip :: ip in dg ==> GatewayAt(dg, ip) == Detached(old(GatewayAt(dg, ip)), ap)
    ensures dropList == SoleOwned(order, |order|, dg, old(Gateways(dg)), ap)
  {
    ghost var s0 := Gateways(dg);
    ghost var done: set<IpAddress> := {};
    order := EnumerateKeys(dg.Keys);
    dropList := [];
    for i := 0 to |order|
      invariant DoneTo(order, i, done) && DetachedTo(dg, ap, done, s0)
      invariant dropList == SoleOwned(order, i, dg, s0, ap)
    {
      DoneStep(order, dg.Keys, i, done);
      dropList := DetachAt(dg, order, ap, i, done, s0, dropList);
      done := done + {order[i]};
    }
    DoneAll(order, dg.Keys, done);
  }

  /** One turn of `DetachAll`: the gateway under the `i`th address. */
  method DetachAt(dg: map<IpAddress, DefaultGateway>, order: seq<IpAddress>, ap: AccessPoint, i: nat,
                  ghost done: set<IpAddress>, ghost s0: map<IpAddress, GatewayState>, dropList: seq<DefaultGateway>)
    returns (next: seq<DefaultGateway>)
    requires GatewaysFiled(dg)
    requires Enumerates(order, dg.Keys) && i < |order| && order[i] !in done
    requires DetachedTo(dg, ap, done, s0) && dropList == SoleOwned(order, i, dg, s0, ap)
    modifies dg[order[i]]
    ensures DetachedTo(dg, ap, done + {order[i]}, s0) && next == SoleOwned(order, i + 1, dg, s0, ap)
  {
    var gw := dg[order[i]];
    assert GatewayAt(dg, order[i]) == s0[order[i]];
    next := dropList;
    if ap in gw.owners {
      LastOwnerGoes(gw.owners, ap);
      var _ := gw.RemoveAccessPoint(ap);
      if gw.owners == [] {
        next := dropList + [gw];
      }
    }
    assert GatewayAt(dg, order[i]) == Detached(s0[order[i]], ap);
    forall ip | ip in dg && ip != order[i]
      ensures GatewayAt(dg, ip) == old(GatewayAt(dg, ip))
    {
      assert MonitoredIp(dg[ip]) != MonitoredIp(gw);
    }
  }

  /**
   * `onRemoveAccessPoint` on the gateway directory `dg`, as evidently intended: the gateways
   * are detached from `ap`; those left without an owner are dropped from the directory, each
   * under its own address, and their addresses stop being monitored, in turn. The result is
   * the directory that remains and the dropped gateways.
   */
  method ReleaseGateways(dg: map<IpAddress, DefaultGateway>, ap: AccessPoint, monitor: HostMonitor)
    returns (rest: map<IpAddress, DefaultGateway>, dropList: seq<DefaultGateway>)
    requires GatewaysFiled(dg)
    modifies dg.Values, monitor
    ensures forall ip :: ip in dg ==> GatewayAt(dg, ip) == Detached(old(GatewayAt(dg, ip)), ap)
    ensures forall ip :: ip in rest <==> ip in dg && old(dg[ip].owners) != [ap]
    ensures forall ip :: ip in rest ==> rest[ip] == dg[ip]
    ensures IpsOf(dropList) == dg.Keys - rest.Keys
    ensures monitor.log == old(monitor.log) + Stops(dropList)
  {
    ghost var s0 := Gateways(dg);
    assert forall ip :: ip in dg ==> s0[ip].owners == old(dg[ip].owners);
    var order;
    order, dropList := DetachAll(dg, ap);
    SoleOwnedAll(order, dg, s0, ap);
    rest := DropAll(dg, dropList, monitor);
    assert forall ip :: ip in rest <==> ip in dg && ip !in IpsOf(dropList);
  }

  /**
   * The second part of `onRemoveAccessPoint` as evidently intended: each gateway of
   * `dropList` leaves the directory under its own address and stops being monitored.
   */
  method DropAll(dg: map<IpAddress, DefaultGateway>, dropList: seq<DefaultGateway>, monitor: HostMonitor)
    returns (rest: map<IpAddress, DefaultGateway>)
    modifies monitor
    ensures rest == dg - IpsOf(dropList)
    ensures monitor.log == old(monitor.log) + Stops(dropList)
  {
    rest := dg;
    for i := 0 to |dropList|
      invariant rest == dg - IpsOf(dropList[..i])
      invariant monitor.log == old(monitor.log) + Stops(dropList[..i])
    {
      assert dropList[..i + 1][..i] == dropList[..i];
      IpsOfSnoc(dropList[..i + 1]);
      rest := rest - {MonitoredIp(dropList[i])};
      monitor.StopMonitoringIp(MonitoredIp(dropList[i]));
    }
    assert dropList[..|dropList|] == dropList;
  }

  /**
   * The second part of `onRemoveAccessPoint` as written: `defaultGateways.remove(gw)` looks up
   * the gateway object among keys that are addresses, finds nothing and removes nothing, and
   * then the gateway's address stops being monitored. So an address whose monitoring stopped
   * is still filed.
   */
  method DropAllAsWritten(dg: map<IpAddress, DefaultGateway>, dropList: seq<DefaultGateway>, monitor: HostMonitor)
    returns (rest: map<IpAddress, DefaultGateway>)
    modifies monitor
    ensures rest == dg
    ensures monitor.log == old(monitor.log) + Stops(dropList)
    ensures forall n :: 0 <= n < |dropList| && MonitoredIp(dropList[n]) in dg ==>
      MonitoredIp(dropList[n]) in rest && monitor.log[|old(monitor.log)| + n] == StopMonitoringIp(MonitoredIp(dropList[n]))
  {
    rest := dg;
    for i := 0 to |dropList|
      invariant rest == dg && monitor.log == old(monitor.log) + Stops(dropList[..i])
    {
      assert dropList[..i + 1][..i] == dropList[..i];
      // `remove(gw)`: no address key equals a gateway, so `rest` keeps every entry.
      monitor.StopMonitoringIp(MonitoredIp(dropList[i]));
    }
    assert dropList[..|dropList|] == dropList;
  }

  /** Every entry of `dg0` is in `dg`, under the same address. */
  predicate KeepsGateways(dg0: map<IpAddress, DefaultGateway>, dg: map<IpAddress, DefaultGateway>)
  {
    forall ip :: ip in dg0 ==> ip in dg && dg[ip] == dg0[ip]
  }

  /** The monitor calls that stop the gateways' addresses, in turn. */
  function Stops(gws: seq<DefaultGateway>): (r: seq<MonitorEvent>)
    ensures |r| == |gws| && forall n :: 0 <= n < |gws| ==> r[n] == MonitorEvent.StopMonitoringIp(MonitoredIp(gws[n]))
  {
    if gws == [] then [] else Stops(gws[..|gws| - 1]) + [MonitorEvent.StopMonitoringIp(MonitoredIp(gws[|gws| - 1]))]
  }

  /** Every gateway of the directory is filed under its own address. */
  predicate GatewaysFiled(dg: map<IpAddress, DefaultGateway>)
  {
    forall ip :: ip in dg ==> MonitoredIp(dg[ip]) == ip
  }

  /** The access points in the owner lists of the directory's gateways. */
  ghost function OwnerSet(dg: map<IpAddress, DefaultGateway>): set<AccessPoint>
    reads dg.Values
  {
    set ip, a | ip in dg && a in dg[ip].owners :: a
  }

  /** The gateways of the access points `aps`. */
  ghost function GatewaysIn(aps: set<AccessPoint>): set<DefaultGateway>
  {
    set a, g | a in aps && g in a.gateways :: g
  }

  /** Every owner of a gateway of the directory is among `aps`. */
  ghost predicate OwnedWithin(dg: map<IpAddress, DefaultGateway>, aps: set<AccessPoint>)
    reads dg.Values
  {
    forall ip, a :: ip in dg && a in dg[ip].owners ==> a in aps
  }

  /** Every access point of `aps` can be started, and uses the intent service `intents`. */
  ghost predicate PointsStartable(aps: set<AccessPoint>, intents: IntentService)
    reads aps, GatewaysIn(aps)
  {
    forall a :: a in aps ==>
      a.Valid() && a.intents == intents
      && assert forall g :: g in a.gateways ==> g in GatewaysIn(aps); a.CanStart()
  }

  /** The records and owner lists of the directory's gateways. */
  datatype Learned = Learned(hostInfo: Host, owners: seq<AccessPoint>)

  /** The record and owner list of every gateway of the directory, by address. */
  ghost function LearnedOf(dg: map<IpAddress, DefaultGateway>): (s: map<IpAddress, Learned>)
    reads dg.Values
    ensures s.Keys == dg.Keys
  {
    map ip | ip in dg :: Learned(dg[ip].hostInfo, dg[ip].owners)
  }

  /**
   * The gateways under the host's addresses among `done` have taken the record `host`, the
   * others keep theirs from `s0`; no owner list has changed; `started` holds the addresses
   * among `done` whose update started the owners.
   */
  ghost predicate UpdatedTo(dg: map<IpAddress, DefaultGateway>, host: Host, done: set<IpAddress>,
                            s0: map<IpAddress, Learned>, started: set<IpAddress>)
    reads dg.Values
  {
    s0.Keys == dg.Keys
    && (forall ip :: ip in dg ==>
          dg[ip].owners == s0[ip].owners && dg[ip].hostInfo == if ip in done then host else s0[ip].hostInfo)
    && forall ip :: ip in started <==> ip in done && ip in dg && StartsAccessPoints(s0[ip].hostInfo, host)
  }

  /**
   * What `updateHost` needs of a record for each gateway it reaches: the record can be built
   * (a placeholder MAC only with an unknown location), and a record that starts the gateway's
   * owners has a real MAC, which their flows match on.
   */
  ghost predicate Learnable(dg: map<IpAddress, DefaultGateway>, host: Host)
    reads dg.Values
  {
    BuildableHost(host)
    && forall ip :: ip in dg && ip in host.ipAddresses && StartsAccessPoints(dg[ip].hostInfo, host) ==> RealMac(host.mac)
  }

  /**
   * `onDefaultGatewayModified(host)` on the directory `dg`: for each of the host's addresses,
   * in the set's order, the gateway under it, if any, takes the record (`updateHost`), which
   * starts the gateway's owners when `StartsAccessPoints` holds of its old record and the new
   * one. `started` holds the addresses whose update started the owners.
   */
  method UpdateGateways(dg: map<IpAddress, DefaultGateway>, host: Host, intents: IntentService, ghost aps: set<AccessPoint>)
    returns (ghost started: set<IpAddress>)
    requires GatewaysFiled(dg) && OwnedWithin(dg, aps) && PointsStartable(aps, intents) && Learnable(dg, host)
    modifies dg.Values, aps, GatewaysIn(aps), intents
    ensures UpdatedTo(dg, host, host.ipAddresses, old(LearnedOf(dg)), started) && PointsStartable(aps, intents)
    ensures forall a :: a in aps ==> a.apHosts == old(a.apHosts) && a.roamingHosts == old(a.roamingHosts)
  {
    ghost var s0 := LearnedOf(dg);
    ghost var done: set<IpAddress> := {};
    started := {};
    var ips := EnumerateKeys(host.ipAddresses);
    for i := 0 to |ips|
      invariant DoneTo(ips, i, done) && done <= host.ipAddresses
      invariant UpdatedTo(dg, host, done, s0, started) && OwnedWithin(dg, aps) && PointsStartable(aps, intents)
      invariant forall a :: a in aps ==> a.apHosts == old(a.apHosts) && a.roamingHosts == old(a.roamingHosts)
    {
      DoneStep(ips, host.ipAddresses, i, done);
      started := UpdateAt(dg, host, intents, aps, ips[i], done, s0, started);
      done := done + {ips[i]};
    }
    DoneAll(ips, host.ipAddresses, done);
    assert done == host.ipAddresses;
  }

  /** One turn of `onDefaultGatewayModified`: the gateway under the address `ip`, if any, takes the record. */
  method UpdateAt(dg: map<IpAddress, DefaultGateway>, host: Host, intents: IntentService, ghost aps: set<AccessPoint>,
                  ip: IpAddress, ghost done: set<IpAddress>, ghost s0: map<IpAddress, Learned>, ghost started: set<IpAddress>)
    returns (ghost next: set<IpAddress>)
    requires GatewaysFiled(dg) && OwnedWithin(dg, aps) && PointsStartable(aps, intents) && ip !in done
    requires RealMac(host.mac) || host.location == LOCATION_NONE
    requires UpdatedTo(dg, host, done, s0, started)
    requires ip in dg && StartsAccessPoints(s0[ip].hostInfo, host) ==> RealMac(host.mac)
    modifies dg.Values, aps, GatewaysIn(aps), intents
    ensures UpdatedTo(dg, host, done + {ip}, s0, next) && OwnedWithin(dg, aps) && PointsStartable(aps, intents)
    ensures forall a :: a in aps ==> a.apHosts == old(a.apHosts) && a.roamingHosts == old(a.roamingHosts)
    ensures ip in next ==> forall k :: 0 <= k < |dg[ip].owners| && Alone(dg[ip].owners, k) ==> StartedFrom(dg[ip].owners[k])
  {
    next := started;
    if ip in dg {
      var gateway := dg[ip];
      ghost var gws := GatewaysIn(aps) + dg.Values;
      assert gateway.hostInfo == s0[ip].hostInfo;
      var starts := UpdateOne(gateway, host, intents, aps, gws);
      if starts {
        next := started + {ip};
      }
      forall k | k in dg && k != ip
        ensures dg[k].hostInfo == old(dg[k].hostInfo) && dg[k].owners == old(dg[k].owners)
      {
        assert MonitoredIp(dg[k]) != MonitoredIp(gateway);
      }
      forall a | a in aps
        ensures a.Valid() && a.CanStart()
      {
        if !(starts && a in gateway.owners) {
          forall g | g in a.gateways
            ensures GatewayReady(g)
          {
            assert g in gws;
          }
        }
      }
    }
  }

  /**
   * `gateway.updateHost(host)`, seen from the access points `aps` and the gateways `gws`
   * around it: the gateway takes the record; the owners it starts are startable again;
   * every other access point keeps its tables, every other gateway its record, its owners,
   * and either its latch or a state its owners can start from.
   */
  method UpdateOne(gateway: DefaultGateway, host: Host, intents: IntentService,
                   ghost aps: set<AccessPoint>, ghost gws: set<DefaultGateway>) returns (starts: bool)
    requires forall a :: a in gateway.owners ==> a in aps
    requires GatewaysIn(aps) <= gws && forall a :: a in aps ==> a.intents == intents
    requires StartsAccessPoints(gateway.hostInfo, host) ==>
      RealMac(host.mac) && forall a :: a in gateway.owners ==> a.Valid() && a.CanStart()
    modifies gateway, aps, gws, intents
    ensures gateway.hostInfo == host && gateway.owners == old(gateway.owners)
    ensures starts == StartsAccessPoints(old(gateway.hostInfo), host)
    ensures forall a :: a in aps ==>
      a.apHosts == old(a.apHosts) && a.roamingHosts == old(a.roamingHosts)
      && if starts && a in gateway.owners then a.Valid() && a.CanStart() else a.Tables() == old(a.Tables())
    ensures forall g :: g in gws && g != gateway ==>
      g.hostInfo == old(g.hostInfo) && g.owners == old(g.owners)
      && (g.installed == old(g.installed) || (starts && GatewayReady(g)))
    ensures starts ==> forall k :: 0 <= k < |gateway.owners| && Alone(gateway.owners, k) ==> StartedFrom(gateway.owners[k])
  {
    assert GatewaysOf(gateway.owners) <= GatewaysIn(aps);
    starts := gateway.UpdateHost(host);
  }

  /** Whether the list holds the object `o`: `List.contains` on a list of access points. */
  predicate HoldsObject(aps: seq<AccessPoint>, o: object)
  {
    exists a :: a in aps && a as object == o
  }

  /** The first key of `order` whose access point has a connection at `loc`. */
  function FirstAt(order: seq<nat>, aps: map<nat, AccessPoint>, loc: Location): (r: Option<nat>)
    requires forall k :: k in order ==> k in aps
    ensures r.Some? ==> r.value in order && ConnectedAt(aps[r.value], loc)
    ensures r.None? <==> forall k :: k in order ==> !ConnectedAt(aps[k], loc)
  {
    if order == [] then None
    else if ConnectedAt(aps[order[0]], loc) then Some(order[0])
    else FirstAt(order[1..], aps, loc)
  }

  /** `getConnections().contains(location)`. */
  predicate ConnectedAt(ap: AccessPoint, loc: Location)
  {
    exists c :: c in ap.config.connections && SameLocation(c, loc)
  }

  /** The gateway's prefix contains some of the addresses: `cidr.contains(ip)` for some `ip`. */
  predicate GatewayServes(g: DefaultGateway, addrs: set<IpAddress>)
  {
    exists ip :: ip in addrs && Contains(GatewayMask.GetIpPrefix(g.config.gatewayAndMask), ip)
  }

  /** Some gateway prefix of the access point contains some of the addresses. */
  predicate ServesAny(ap: AccessPoint, addrs: set<IpAddress>)
  {
    exists j :: 0 <= j < |ap.gateways| && GatewayServes(ap.gateways[j], addrs)
  }

  /** The access points of `order` that serve some of the addresses. */
  function Serving(order: seq<nat>, aps: map<nat, AccessPoint>, addrs: set<IpAddress>): (r: set<AccessPoint>)
    requires forall k :: k in order ==> k in aps
    ensures r == set k | k in order && ServesAny(aps[k], addrs) :: aps[k]
    decreases |order|
  {
    if order == [] then {}
    else
      var n := |order| - 1;
      var prev := Serving(order[..n], aps, addrs);
      assert forall k :: k in order <==> k in order[..n] || k == order[n];
      if ServesAny(aps[order[n]], addrs) then prev + {aps[order[n]]} else prev
  }

  /** The first key of `order` whose access point files a local host under the MAC bits `mac`. */
  function FirstFiling(order: seq<nat>, aps: map<nat, AccessPoint>, mac: nat): (r: Option<nat>)
    requires forall k :: k in order ==> k in aps
    reads set k | k in order :: aps[k]
    ensures r.Some? ==> r.value in order && mac in aps[r.value].apHosts
    ensures r.None? <==> forall k :: k in order ==> mac !in aps[k].apHosts
  {
    if order == [] then None
    else if mac in aps[order[0]].apHosts then Some(order[0])
    else FirstFiling(order[1..], aps, mac)
  }

  /**
   * A known host reported again (`onMobileHostAdded` on a host pending purge): its removal
   * time is cleared and it is moved to `point`, which may be null.
   */
  method Revisit(m: MobileHost, point: AccessPoint?) returns (outcome: Completion)
    requires m.current != point ==> m.Movable(point)
    modifies m, m.info, m.current, point, m.intents
    ensures m.info.removedTime == 0 && m.Moved(point, outcome)
    ensures old(m.current) != null ==> TouchedBy(old(m.current), m)
    ensures point != null ==> TouchedBy(point, m)
  {
    ghost var throws := m.MoveThrows(point);
    m.info.SetRemovedTime(0);
    assert m.MoveThrows(point) == throws;
    ghost var withdrawn;
    outcome, withdrawn := m.SetCurrentAccessPoint(point);
  }

  /**
   * The outcome for a known host `m`: with an access point at its location and homes, or with
   * no access point there, its removal time is cleared and it is moved to that point (or none)
   * as `Moved` states, throwing where that does; otherwise it is left alone.
   */
  twostate predicate Revisited(m: MobileHost, point: AccessPoint?, intents: IntentService, outcome: Completion)
    reads m, m.info, intents
  {
    if point == null || |m.home| >= 1 then m.info.removedTime == 0 && m.Moved(point, outcome)
    else m.info.removedTime == old(m.info.removedTime) && intents.log == old(intents.log) && outcome == Completed
  }

  /** `hosts` records the local-host map of every access point of `aps`. */
  ghost predicate HostsAt(aps: set<AccessPoint>, hosts: map<AccessPoint, map<nat, MobileHost>>)
    reads aps
  {
    forall a :: a in aps ==> a in hosts && hosts[a] == a.apHosts
  }

  /**
   * The outcome for a new host at `point` whose subnet `homes` serve, from the intent log
   * `log0` and the homes' local hosts `hosts0`: when both are there, a host enumerating
   * `homes` and using the intent service `intents` is created now; it fails exactly when
   * `point` is not a home, and then no home changes. Otherwise it is filed under its MAC at
   * its first home and at `point`, no other home changes, and no flows are made. Without a
   * point or homes nothing is created and no home changes.
   */
  ghost predicate Adopted(host: Host, point: AccessPoint?, homes: set<AccessPoint>, outcome: Completion, added: MobileHost?,
                          now: int, intents: IntentService, log0: seq<IntentEvent>, hosts0: map<AccessPoint, map<nat, MobileHost>>)
    requires homes <= hosts0.Keys
    reads homes, intents, if added == null then {} else {added, added.info}
  {
    if point != null && homes != {} then
      (outcome == NullPointer <==> point !in homes)
      && added != null && Enumerates(added.home, homes) && added.intents == intents
      && added.info.createTime == now && added.info.removedTime == 0
      && intents.log == log0
      && if outcome == NullPointer then
           added.info.hostInfo == None && forall a :: a in homes ==> a.apHosts == hosts0[a]
         else
           added.info.hostInfo == Some(host) && added.current == added.home[0] && !added.IsRoaming()
           && forall a :: a in homes ==>
                a.apHosts == if a == added.home[0] || a == point then hosts0[a][host.mac.bits := added] else hosts0[a]
    else
      outcome == Completed && added == null && intents.log == log0
      && forall a :: a in homes ==> a.apHosts == hosts0[a]
  }

  /**
   * The known-host half of `onMobileHostAdded`: with an access point at the host's location
   * and homes, or with no access point there, the host is revisited there; otherwise it is
   * left alone.
   */
  method RevisitKnown(m: MobileHost, point: AccessPoint?) returns (outcome: Completion)
    requires (point == null || |m.home| >= 1) && m.current != point ==> m.Movable(point)
    modifies m, m.info, m.current, point, m.intents
    ensures Revisited(m, point, m.intents, outcome)
    ensures old(m.current) != null ==> TouchedBy(old(m.current), m)
    ensures point != null ==> TouchedBy(point, m)
    ensures point != null && |m.home| == 0 ==> unchanged(m, m.info, point) && (m.current != null ==> unchanged(m.current))
  {
    outcome := Completed;
    if point != null && |m.home| > 0 {
      outcome := Revisit(m, point);
    } else if point == null {
      outcome := Revisit(m, null);
    }
  }

  /**
   * A new host seen at `point` whose subnet the access points `homes` serve (in the set's
   * order). At one of its homes it is created with its record at the first home, added there,
   * and added at `point` too when that is another of its homes. Away from its homes it is
   * created without a record, and adding it at its first home dereferences the missing record.
   */
  method AdoptHost(host: Host, homes: seq<AccessPoint>, point: AccessPoint, intents: IntentService, settings: Settings, now: int)
    returns (outcome: Completion, added: MobileHost)
    requires |homes| >= 1 && point.intents == intents && homes[0].intents == intents
    modifies homes[0], point, intents
    ensures fresh(added) && fresh(added.info) && added.home == homes && added.intents == intents && added.settings == settings
    ensures added.info.createTime == now && added.info.removedTime == 0 && added.info.timesMoved == 0
    ensures outcome == NullPointer <==> point !in homes
    ensures outcome == NullPointer ==>
      added.info.hostInfo == None && added.current == point && intents.log == old(intents.log)
      && homes[0].apHosts == old(homes[0].apHosts) && point.apHosts == old(point.apHosts)
    ensures outcome == Completed ==>
      added.info.hostInfo == Some(host) && added.current == homes[0] && !added.IsRoaming()
      && intents.log == old(intents.log)
      && homes[0].apHosts == Filed(old(homes[0].apHosts), host.mac.bits, added)
      && point.apHosts == Filed(old(point.apHosts), host.mac.bits, added)
    ensures homes[0].roamingHosts == old(homes[0].roamingHosts) && point.roamingHosts == old(point.roamingHosts)
    ensures TouchedBy(homes[0], added) && TouchedBy(point, added)
  {
    if point !in homes {
      added := new MobileHost.Away(homes, point, intents, settings, now);
      return NullPointer, added;
    }
    added := new MobileHost.AtHome(host, homes, intents, settings, now);
    var homeAp := homes[0];
    outcome := homeAp.AddHost(added);
    if point != homeAp {
      outcome := point.AddHost(added);
    }
  }

  /**
   * The `AdoptHost` step of `onMobileHostAdded` for a new host: it is taken only with an access
   * point at the host's location and access points `points` serving its subnet, the first of
   * which, in the set's order, is its first home.
   */
  method AdoptIfServed(host: Host, points: set<AccessPoint>, point: AccessPoint?,
                       intents: IntentService, settings: Settings, now: int, ghost hosts0: map<AccessPoint, map<nat, MobileHost>>)
    returns (outcome: Completion, added: MobileHost?)
    requires HostsAt(points, hosts0)
    requires point != null ==> point.intents == intents && host.mac.bits !in point.apHosts
    requires forall a :: a in points ==> a.intents == intents && host.mac.bits !in a.apHosts
    modifies points, point, intents
    ensures Adopted(host, point, points, outcome, added, now, intents, old(intents.log), hosts0)
    ensures added != null ==> fresh(added)
    ensures forall a :: a in points ==> TouchedBy(a, added) && a.roamingHosts == old(a.roamingHosts)
    ensures point != null ==> TouchedBy(point, added) && point.roamingHosts == old(point.roamingHosts)
    ensures point != null && outcome == NullPointer ==> point.apHosts == old(point.apHosts)
    ensures added == null ==> unchanged(points) && (point != null ==> unchanged(point))
  {
    outcome, added := Completed, null;
    if point != null && points != {} {
      var homes := EnumerateKeys(points);
      assert homes[0] in points;
      var mobileHost;
      outcome, mobileHost := AdoptAmong(host, homes, points, point, intents, settings, now, hosts0);
      added := mobileHost;
    }
  }

  /** `AdoptHost` seen from all the homes `homeSet` it enumerates: the outcome is `Adopted`. */
  method AdoptAmong(host: Host, homes: seq<AccessPoint>, ghost homeSet: set<AccessPoint>, point: AccessPoint,
                    intents: IntentService, settings: Settings, now: int, ghost hosts0: map<AccessPoint, map<nat, MobileHost>>)
    returns (outcome: Completion, added: MobileHost)
    requires Enumerates(homes, homeSet) && homeSet != {} && HostsAt(homeSet, hosts0)
    requires point.intents == intents && homes[0].intents == intents
    requires host.mac.bits !in point.apHosts && forall a :: a in homeSet ==> host.mac.bits !in a.apHosts
    modifies homes[0], point, intents
    ensures Adopted(host, point, homeSet, outcome, added, now, intents, old(intents.log), hosts0)
    ensures fresh(added)
    ensures forall a :: a in homeSet ==> TouchedBy(a, added) && a.roamingHosts == old(a.roamingHosts)
    ensures TouchedBy(point, added) && point.roamingHosts == old(point.roamingHosts)
    ensures outcome == NullPointer ==> point.apHosts == old(point.apHosts)
  {
    assert homes[0] in homeSet;
    outcome, added := AdoptHost(host, homes, point, intents, settings, now);
    forall a | a in homeSet
      ensures outcome == NullPointer || (a != homes[0] && a != point) ==> a.apHosts == hosts0[a]
      ensures outcome == Completed && (a == homes[0] || a == point) ==>
        var before: map<nat, MobileHost> := hosts0[a]; a.apHosts == before[host.mac.bits := added]
    {
    }
  }

  /** `putIfAbsent` on the local hosts: `m` is filed under `key` unless something is already there. */
  function Filed(hosts: map<nat, MobileHost>, key: nat, m: MobileHost): (r: map<nat, MobileHost>)
    ensures key in r && r.Keys == hosts.Keys + {key}
    ensures forall k :: k in hosts ==> r[k] == hosts[k]
    ensures key !in hosts ==> r[key] == m
  {
    if key in hosts then hosts else hosts[key := m]
  }

  /**
   * The access points `aps` after a reconfiguration of `before` from the entries `points`:
   * the ones filed before stay under their MAC, and every new MAC of `points` has an access
   * point built from its entry, sharing the manager's services; no other MAC is added.
   */
  ghost predicate Configured(aps: map<nat, AccessPoint>, before: map<nat, AccessPoint>, points: map<nat, AccessPointConfig>,
                       intents: IntentService, settings: Settings)
  {
    (forall k :: k in aps <==> k in before || k in points)
    && (forall k :: k in before ==> aps[k] == before[k])
    && (forall k :: k in aps && k !in before ==>
          aps[k].config == points[k] && aps[k].intents == intents && aps[k].settings == settings)
  }

  /** `Configured` partway: the entries of `done` are added, by access points of `made`. */
  ghost predicate Grown(aps: map<nat, AccessPoint>, before: map<nat, AccessPoint>, points: map<nat, AccessPointConfig>,
                  done: set<nat>, made: set<AccessPoint>, intents: IntentService, settings: Settings)
    requires done <= points.Keys
  {
    Configured(aps, before, points - (points.Keys - done), intents, settings)
    && forall k :: k in aps && k !in before ==> aps[k] in made
  }

  class APManager {
    const intents: IntentService
    const monitor: HostMonitor
    const settings: Settings
    /** The access points, under the bits of their MAC (`MacAddress.equals`). */
    var accessPoints: map<nat, AccessPoint>
    /** The order in which the access point map's iteration visits its keys. */
    var apOrder: seq<nat>
    /** The monitored default gateways, under their address. */
    var defaultGateways: map<IpAddress, DefaultGateway>

    /**
     * The iteration order lists the keys, every access point is filed under its own MAC and
     * uses the manager's intent service, and every gateway is filed under its own address.
     */
    ghost predicate Valid()
      reads this
    {
      Directory(accessPoints, apOrder, intents) && GatewaysFiled(defaultGateways)
    }

    /**
     * What the manager keeps from one event to the next: it is `Valid`, every local host is
     * filed under its MAC with its record and the manager's intent service, and every owner of
     * a directory gateway can be started.
     */
    ghost predicate Consistent()
      reads this, accessPoints.Values, defaultGateways.Values, OwnerSet(defaultGateways), GatewaysIn(OwnerSet(defaultGateways))
    {
      Valid() && HostsFiled(accessPoints, intents) && PointsStartable(OwnerSet(defaultGateways), intents)
    }

    constructor(intents: IntentService, monitor: HostMonitor, settings: Settings)
      ensures Valid() && Consistent() && this.intents == intents && this.monitor == monitor && this.settings == settings
      ensures accessPoints == map[] && defaultGateways == map[]
    {
      this.intents := intents;
      this.monitor := monitor;
      this.settings := settings;
      accessPoints := map[];
      apOrder := [];
      defaultGateways := map[];
    }

    /**
     * `onAddAccessPoint(accessPoint)`. The access point is put under its MAC; if one was there
     * already the call stops, having replaced it. Otherwise each of its gateways, in its map's
     * order, is put in the directory and monitored if its address is new, and is told it serves
     * the access point; then the access point is started.
     */
    method OnAddAccessPoint(ap: AccessPoint) returns (duplicate: bool)
      requires Valid()
      requires ap.intents == intents
      requires ap.config.mac.bits !in accessPoints ==> ap.Valid() && ap.CanStart()
      modifies this, ap, ap.gateways, ap.intents, monitor
      ensures Valid() && accessPoints == old(accessPoints)[ap.config.mac.bits := ap]
      ensures duplicate <==> ap.config.mac.bits in old(accessPoints)
      ensures duplicate ==>
        defaultGateways == old(defaultGateways) && monitor.log == old(monitor.log)
        && unchanged(ap, ap.gateways, ap.intents)
      ensures !duplicate ==> Joined(ap)
    {
      var key := ap.config.mac.bits;
      duplicate := key in accessPoints;
      if duplicate {
        accessPoints := accessPoints[key := ap];
        assert accessPoints.Keys == old(accessPoints.Keys);
        return;
      }
      AddFresh(ap);
    }

    /**
     * What registering and starting `ap` does: the directory and the monitor calls are those
     * `RegisterGateways` gives, each of the access point's gateways lists it as an owner once
     * more, and it ends ready and started, as `StartLogged` says, its hosts as they were.
     */
    twostate predicate Joined(ap: AccessPoint)
      reads this, ap, ap.gateways, ap.intents, ap.settings, monitor
    {
      JoinedFrom(ap, old(defaultGateways), old(monitor.log), old(OwnerLists(ap.gateways)), old(ap.Latches()),
                 old(ap.Tables()), old(ap.intents.log), old(ap.apHosts), old(ap.roamingHosts))
    }

    /**
     * `Joined`, from the directory `dg0`, the monitor log `log0`, the owner lists `os0`, the
     * latches `l0`, the tables `t0`, the intent log `e0` and the hosts `h0` and `r0` of before.
     */
    ghost predicate JoinedFrom(ap: AccessPoint, dg0: map<IpAddress, DefaultGateway>, log0: seq<MonitorEvent>,
                               os0: seq<seq<AccessPoint>>, l0: seq<bool>, t0: FlowTables.Tables, e0: seq<IntentEvent>,
                               h0: map<nat, MobileHost>, r0: map<nat, MobileHost>)
      reads this, ap, ap.gateways, ap.intents, ap.settings, monitor
    {
      var r := RegisterGateways(dg0, ap.gateways);
      defaultGateways == r.0 && monitor.log == log0 + Monitors(r.1)
      && |os0| == |ap.gateways| && (forall j :: 0 <= j < |ap.gateways| ==> ap.gateways[j].owners == os0[j] + [ap])
      && ap.Valid() && ap.CanStart() && ap.Started() && FoldedFrom(ap, l0, t0)
      && ap.intents.log == e0 + DefaultFold(ap.ApPoint(), ap.Views(), l0, t0, ap.settings.appId, ap.settings.gatewayFlowPriority).events
      && ap.apHosts == h0 && ap.roamingHosts == r0
    }

    /** `onAddAccessPoint` for an access point whose MAC is new: it is filed, then registered and started. */
    method AddFresh(ap: AccessPoint)
      requires Valid() && ap.intents == intents && ap.config.mac.bits !in accessPoints
      requires ap.Valid() && ap.CanStart()
      modifies this, ap, ap.gateways, ap.intents, monitor
      ensures Valid() && accessPoints == old(accessPoints)[ap.config.mac.bits := ap]
      ensures Joined(ap)
    {
      FileNew(ap);
      assert defaultGateways == old(defaultGateways) && monitor.log == old(monitor.log) && ap.intents.log == old(ap.intents.log);
      assert ap.Latches() == old(ap.Latches()) && ap.Tables() == old(ap.Tables()) && ap.apHosts == old(ap.apHosts);
      assert OwnerLists(ap.gateways) == old(OwnerLists(ap.gateways)) && ap.roamingHosts == old(ap.roamingHosts);
      ghost var aps, order := accessPoints, apOrder;
      AddNew(ap);
      assert accessPoints == aps && apOrder == order;
      RegisterFiles(old(defaultGateways), ap.gateways);
    }

    /** The `put` of `onAddAccessPoint` for a new MAC, and the new iteration order. */
    method FileNew(ap: AccessPoint)
      requires Directory(accessPoints, apOrder, intents) && ap.intents == intents
      modifies this`accessPoints, this`apOrder
      ensures accessPoints == old(accessPoints)[ap.config.mac.bits := ap] && Directory(accessPoints, apOrder, intents)
    {
      accessPoints := accessPoints[ap.config.mac.bits := ap];
      apOrder := EnumerateKeys(accessPoints.Keys);
    }

    /** `onAddAccessPoint` past the duplicate check: the gateways are registered, then the access point starts. */
    method AddNew(ap: AccessPoint)
      requires ap.Valid() && ap.CanStart()
      modifies this`defaultGateways, ap, ap.gateways, ap.intents, monitor
      ensures Joined(ap)
    {
      ghost var l0, t0, e0 := ap.Latches(), ap.Tables(), ap.intents.log;
      RegisterAll(ap);
      assert ap.Latches() == l0 && ap.Tables() == t0 && ap.intents.log == e0;
      StartAccessPoint(ap);
    }

    /** The monitor calls that start monitoring `ips`, in turn. */
    static function Monitors(ips: seq<IpAddress>): (r: seq<MonitorEvent>)
      ensures |r| == |ips| && forall n :: 0 <= n < |ips| ==> r[n] == StartMonitoringIp(ips[n])
    {
      seq(|ips|, n requires 0 <= n < |ips| => StartMonitoringIp(ips[n]))
    }

    /** The gateway loop of `onAddAccessPoint`. */
    method RegisterAll(ap: AccessPoint)
      requires ap.Valid() && ap.CanStart()
      modifies this`defaultGateways, ap.gateways, monitor
      ensures var r := RegisterGateways(old(defaultGateways), ap.gateways);
              defaultGateways == r.0 && monitor.log == old(monitor.log) + Monitors(r.1)
      ensures forall j :: 0 <= j < |ap.gateways| ==> ap.gateways[j].owners == old(ap.gateways[j].owners) + [ap]
      ensures ap.Views() == old(ap.Views()) && ap.Latches() == old(ap.Latches()) && ap.CanStart()
    {
      var gws := ap.gateways;
      ghost var os0 := seq(|gws|, j requires 0 <= j < |gws| reads gws => gws[j].owners);
      ghost var hs0 := seq(|gws|, j requires 0 <= j < |gws| reads gws => gws[j].hostInfo);
      ghost var ls0 := seq(|gws|, j requires 0 <= j < |gws| reads gws => gws[j].installed);
      for i := 0 to |gws|
        invariant RegisteredTo(ap, i, old(defaultGateways), old(monitor.log), os0, hs0, ls0)
      {
        RegisterStep(ap, i, old(defaultGateways), old(monitor.log), os0, hs0, ls0);
      }
      assert gws[..|gws|] == gws;
      assert forall j :: 0 <= j < |gws| ==> ap.Views()[j] == old(ap.Views())[j];
      assert forall j :: 0 <= j < |gws| ==> ap.Latches()[j] == old(ap.Latches())[j];
    }

    /**
     * The first `i` gateways of `ap` are registered as `RegisterGateways` says and own `ap`
     * (`os0` holding their owner lists before); records and latches are as they were.
     */
    ghost predicate RegisteredTo(ap: AccessPoint, i: nat, dg0: map<IpAddress, DefaultGateway>, log0: seq<MonitorEvent>,
                                 os0: seq<seq<AccessPoint>>, hs0: seq<Host>, ls0: seq<bool>)
      reads this, ap.gateways, monitor
    {
      i <= |ap.gateways| == |os0| == |hs0| == |ls0|
      && (var r := RegisterGateways(dg0, ap.gateways[..i]);
          defaultGateways == r.0 && monitor.log == log0 + Monitors(r.1))
      && forall j :: 0 <= j < |ap.gateways| ==>
           ap.gateways[j].owners == os0[j] + (if j < i then [ap] else [])
           && ap.gateways[j].hostInfo == hs0[j] && ap.gateways[j].installed == ls0[j]
    }

    /** One turn of the gateway loop: the `i`th gateway. */
    method RegisterStep(ap: AccessPoint, i: nat, ghost dg0: map<IpAddress, DefaultGateway>, ghost log0: seq<MonitorEvent>,
                        ghost os0: seq<seq<AccessPoint>>, ghost hs0: seq<Host>, ghost ls0: seq<bool>)
      requires ap.Valid() && i < |ap.gateways| && RegisteredTo(ap, i, dg0, log0, os0, hs0, ls0)
      modifies this`defaultGateways, ap.gateways[i], monitor
      ensures RegisteredTo(ap, i + 1, dg0, log0, os0, hs0, ls0)
    {
      var gws := ap.gateways;
      var gateway := gws[i];
      var ipAddr := MonitoredIp(gateway);
      var addMonitor := false;
      if ipAddr !in defaultGateways {
        addMonitor := true;
        defaultGateways := defaultGateways[ipAddr := gateway];
      }
      DistinctGateways(gws, i);
      var _ := gateway.AddAccessPoint(ap);
      if addMonitor {
        monitor.StartMonitoringIp(ipAddr);
      }
      assert gws[..i + 1][..i] == gws[..i];
      ghost var prev := RegisterGateways(dg0, gws[..i]);
      assert Monitors(prev.1 + [ipAddr]) == Monitors(prev.1) + [StartMonitoringIp(ipAddr)];
    }

    /**
     * `onRemoveAccessPoint(accessPoint)`. The gateways to detach are those whose owner list
     * holds `this`, the manager, which no owner list does: the list of gateways to drop stays
     * empty, and the call changes nothing at all (it has no frame): no gateway is detached,
     * none leaves the directory, no monitor stops and the access point stays filed.
     */
    method OnRemoveAccessPoint(ap: AccessPoint) returns (dropList: seq<DefaultGateway>)
      requires Valid()
      ensures dropList == []
    {
      dropList := [];
      var order := EnumerateKeys(defaultGateways.Keys);
      for i := 0 to |order|
        invariant dropList == []
      {
        var gw := defaultGateways[order[i]];
        ManagerNotAnOwner(gw.owners);
        if HoldsObject(gw.owners, this) {
          // The detaching and dropping of `ReleaseGateways` would run here; the filter never lets a gateway in.
          assert false;
        }
      }
      // The list of gateways to drop is empty, so `DropAllAsWritten` has nothing to go through.
    }

    /** No owner list holds the manager: it is not an access point. */
    lemma ManagerNotAnOwner(aps: seq<AccessPoint>)
      ensures !HoldsObject(aps, this)
    {
      forall a | a in aps
        ensures a as object != this as object
      {
        assert a is AccessPoint;
      }
    }

    /**
     * `onRemoveAccessPoint(accessPoint)` as evidently intended: every gateway that lists the
     * access point among its owners loses it, and those left without an owner leave the
     * directory, each under its own address, and stop being monitored. Everything else,
     * including the access point's own entry, stays.
     */
    method ReleaseAccessPoint(ap: AccessPoint) returns (dropList: seq<DefaultGateway>)
      requires Valid()
      modifies this, defaultGateways.Values, monitor
      ensures Valid() && accessPoints == old(accessPoints) && apOrder == old(apOrder)
      ensures forall ip :: ip in old(defaultGateways) ==>
        GatewayAt(old(defaultGateways), ip) == Detached(old(GatewayAt(defaultGateways, ip)), ap)
      ensures forall ip :: ip in defaultGateways <==> ip in old(defaultGateways) && old(defaultGateways[ip].owners) != [ap]
      ensures forall ip :: ip in defaultGateways ==> defaultGateways[ip] == old(defaultGateways[ip])
      ensures IpsOf(dropList) == old(defaultGateways).Keys - defaultGateways.Keys
      ensures monitor.log == old(monitor.log) + Stops(dropList)
    {
      var rest;
      rest, dropList := ReleaseGateways(defaultGateways, ap, monitor);
      defaultGateways := rest;
    }

    /**
     * The access point `getAccessPointByHostLocation(location)` finds: none for
     * `HostLocation.NONE`, otherwise the first one in the map's order with a connection at the
     * location. It is null exactly when there is no such access point.
     */
    function LocatedAt(location: Location): (ap: AccessPoint?)
      requires Valid()
      reads this
      ensures ap == null <==>
        SameLocation(location, LOCATION_NONE) || forall k :: k in accessPoints ==> !ConnectedAt(accessPoints[k], location)
      ensures ap != null ==> ap in accessPoints.Values && ConnectedAt(ap, location)
    {
      if SameLocation(location, LOCATION_NONE) then null
      else match FirstAt(apOrder, accessPoints, location)
        case None => null
        case Some(k) => accessPoints[k]
    }

    /**
     * The local host `getMobileHost` finds for `mac`: the one filed under it at the first access
     * point, in the map's order, that files one. It is null exactly when no access point does,
     * and it is filed under `mac` otherwise.
     */
    function FoundHost(mac: MacAddress): (m: MobileHost?)
      requires Valid() && HostsFiled(accessPoints, intents)
      reads this, accessPoints.Values
      ensures m == null <==> forall k :: k in accessPoints ==> mac.bits !in accessPoints[k].apHosts
      ensures m != null ==> m.info.hostInfo.Some? && m.MacKey() == mac.bits && m.intents == intents
                            && exists k :: k in accessPoints && mac.bits in accessPoints[k].apHosts && accessPoints[k].apHosts[mac.bits] == m
    {
      match FirstFiling(apOrder, accessPoints, mac.bits)
      case None => null
      case Some(k) => accessPoints[k].apHosts[mac.bits]
    }

    /**
     * `getAccessPointByHostLocation(location)`: null for `HostLocation.NONE`; otherwise the first
     * access point, in the map's order, with a connection at the location, or null.
     */
    method GetAccessPointByHostLocation(location: Location) returns (ap: AccessPoint?)
      requires Valid()
      ensures ap == LocatedAt(location)
    {
      if SameLocation(location, LOCATION_NONE) {
        return null;
      }
      for i := 0 to |apOrder|
        invariant FirstAt(apOrder, accessPoints, location) == FirstAt(apOrder[i..], accessPoints, location)
      {
        var accessPoint := accessPoints[apOrder[i]];
        assert apOrder[i..][1..] == apOrder[i + 1..];
        if ConnectedAt(accessPoint, location) {
          return accessPoint;
        }
      }
      ap := null;
    }

    /**
     * `getAccessPointsBySubnet(addrs)`: every access point with a gateway prefix that contains
     * one of the addresses.
     */
    method GetAccessPointsBySubnet(addrs: set<IpAddress>) returns (points: set<AccessPoint>)
      requires Valid()
      ensures points == SubnetPoints(addrs)
    {
      points := {};
      for i := 0 to |apOrder|
        invariant points == Serving(apOrder[..i], accessPoints, addrs)
      {
        var accessPoint := accessPoints[apOrder[i]];
        var gws := accessPoint.gateways;
        var found := false;
        for j := 0 to |gws|
          invariant found <==> exists n :: 0 <= n < j && GatewayServes(gws[n], addrs)
        {
          var prefix := GatewayMask.GetIpPrefix(gws[j].config.gatewayAndMask);
          if exists ip :: ip in addrs && Contains(prefix, ip) {
            found := true;
          }
        }
        if found {
          points := points + {accessPoint};
        }
        assert apOrder[..i + 1][..i] == apOrder[..i];
      }
      assert apOrder[..|apOrder|] == apOrder;
      assert forall k :: k in apOrder <==> k in accessPoints;
    }

    /**
     * `getMobileHost(host)`: the local host, in the first access point in the map's order that
     * files one, whose MAC equals the given one, or null. Local hosts are filed under their MAC.
     */
    method GetMobileHost(mac: MacAddress) returns (found: MobileHost?)
      requires Valid() && HostsFiled(accessPoints, intents)
      ensures found == FoundHost(mac)
    {
      for i := 0 to |apOrder|
        invariant FirstFiling(apOrder, accessPoints, mac.bits) == FirstFiling(apOrder[i..], accessPoints, mac.bits)
      {
        var accessPoint := accessPoints[apOrder[i]];
        assert apOrder[i..][1..] == apOrder[i + 1..];
        var local := accessPoint.apHosts;
        var keys := EnumerateKeys(local.Keys);
        for j := 0 to |keys|
          invariant forall n :: 0 <= n < j ==> keys[n] != mac.bits
        {
          var apHost := local[keys[j]];
          if SameMac(mac, apHost.info.GetMacAddress()) {
            return apHost;
          }
        }
        assert mac.bits !in local;
      }
      found := null;
    }

    /**
     * `purgeHost(host)`: `removeHost(host)` at every access point, in the map's order. Each
     * point loses the host's MAC from both of its maps, and a point where it roamed withdraws
     * the host's roaming intents; the withdraw calls of the `n`th point are `withdrawn[n]`.
     */
    method PurgeHost(host: MobileHost) returns (ghost withdrawn: seq<seq<IntentEvent>>)
      requires Consistent() && host.info.hostInfo.Some? && host.intents == intents
      modifies accessPoints.Values, intents
      ensures Consistent()
      ensures forall k :: k in accessPoints ==> PointAt(accessPoints, k) == Less(old(PointAt(accessPoints, k)), {host.MacKey()})
      ensures |withdrawn| == |apOrder| && intents.log == old(intents.log) + Flatten(withdrawn)
      ensures forall n :: 0 <= n < |apOrder| ==>
        if host.MacKey() in old(accessPoints[apOrder[n]].roamingHosts)
        then WithdrawsAll(withdrawn[n], host.north, host.south) else withdrawn[n] == []
    {
      withdrawn := Purging.PurgeHost(accessPoints, apOrder, intents, host);
      forall k | k in accessPoints
        ensures accessPoints[k].apHosts == old(accessPoints[k].apHosts) - {host.MacKey()}
        ensures accessPoints[k].Tables() == old(accessPoints[k].Tables())
      {
        assert PointAt(accessPoints, k) == Less(old(PointAt(accessPoints, k)), {host.MacKey()});
      }
      forall a | a in OwnerSet(defaultGateways)
        ensures a.Valid() && a.CanStart()
      {
        assert forall g :: g in a.gateways ==> g in GatewaysIn(OwnerSet(defaultGateways));
        if a in accessPoints.Values {
          var k :| k in accessPoints && accessPoints[k] == a;
        }
      }
    }

    /**
     * `PurgeHostTask.run(now)`: every local host whose removal time is set and older than
     * `hostRemovedTimeout` is purged, as `Purging.Sweep` states; the result is the delay before
     * the next run.
     */
    method PurgeSweep(now: int) returns (delay: int, ghost purged: seq<MobileHost>, ghost withdrawn: seq<seq<IntentEvent>>)
      requires Consistent()
      modifies accessPoints.Values, intents
      ensures Consistent()
      ensures delay == settings.removeDelay
      ensures forall k :: k in accessPoints ==>
        PointAt(accessPoints, k) == Less(old(PointAt(accessPoints, k)), old(Expiring(accessPoints, now, settings.hostRemovedTimeout)))
      ensures SweepLogged(old(intents.log), intents.log, old(Expiring(accessPoints, now, settings.hostRemovedTimeout)),
                          old(Snapshot(accessPoints)), purged, withdrawn)
    {
      ghost var expiring := Expiring(accessPoints, now, settings.hostRemovedTimeout);
      purged, withdrawn := Sweep(accessPoints, apOrder, intents, now, settings.hostRemovedTimeout);
      delay := settings.removeDelay;
      forall k | k in accessPoints
        ensures accessPoints[k].apHosts == old(accessPoints[k].apHosts) - expiring
        ensures accessPoints[k].Tables() == old(accessPoints[k].Tables())
      {
        assert PointAt(accessPoints, k) == Less(old(PointAt(accessPoints, k)), expiring);
      }
      forall a | a in OwnerSet(defaultGateways)
        ensures a.Valid() && a.CanStart()
      {
        assert forall g :: g in a.gateways ==> g in GatewaysIn(OwnerSet(defaultGateways));
        if a in accessPoints.Values {
          var k :| k in accessPoints && accessPoints[k] == a;
        }
      }
    }

    /**
     * `reconfigureNetwork(cfg)`: nothing for a missing configuration. Otherwise the three
     * settings are taken from it, `onRemoveAccessPoint` is called for every access point it no
     * longer lists, which changes nothing (so those access points stay filed and keep their
     * gateways), the entries for access points already filed are left alone (`updateConfig` is
     * an empty stub), and a new access point is built and added for every entry whose MAC is
     * new. Every gateway filed before stays filed, untouched.
     */
    method ReconfigureNetwork(cfg: Option<SdnwlanConfig>)
      requires Consistent()
      requires cfg.Some? ==> ValidSdnwlanConfig(cfg.value)
      modifies this, settings, monitor, intents
      ensures Consistent()
      ensures cfg.None? ==> unchanged(this, settings) && unchanged(monitor, intents)
      ensures KeepsGateways(old(defaultGateways), defaultGateways) && unchanged(old(defaultGateways).Values)
      ensures settings.removeDelay == old(settings.removeDelay)
      ensures cfg.Some? ==>
        Valid()
        && settings.gatewayFlowPriority == cfg.value.gatewayFlowPriority
        && settings.roamingUnicastPriority == cfg.value.roamingUnicastPriority
        && settings.hostRemovedTimeout == cfg.value.removedHostTimeout
        && Configured(accessPoints, old(accessPoints), cfg.value.accessPoints, intents, settings)
        && forall k :: k in accessPoints && k !in old(accessPoints) ==> fresh(accessPoints[k])
    {
      if cfg.None? {
        return;
      }
      var c := cfg.value;
      settings.gatewayFlowPriority := c.gatewayFlowPriority;
      settings.roamingUnicastPriority := c.roamingUnicastPriority;
      settings.hostRemovedTimeout := c.removedHostTimeout;
      ghost var released := ReleaseUnconfigured(c.accessPoints);
      AddConfigured(c.accessPoints);
    }

    /**
     * The first walk of `reconfigureNetwork`: `onRemoveAccessPoint` for each access point whose
     * MAC `points` lacks, in the map's order; `released` lists them. Nothing changes.
     */
    method ReleaseUnconfigured(points: map<nat, AccessPointConfig>) returns (ghost released: seq<AccessPoint>)
      requires Valid()
      ensures forall n :: 0 <= n < |released| ==> released[n] in accessPoints.Values && released[n].config.mac.bits !in points
      ensures forall k :: k in accessPoints && k !in points ==> accessPoints[k] in released
    {
      released := [];
      for i := 0 to |apOrder|
        invariant forall n :: 0 <= n < |released| ==>
          released[n] in accessPoints.Values && released[n].config.mac.bits !in points
        invariant forall j :: 0 <= j < i && apOrder[j] !in points ==> accessPoints[apOrder[j]] in released
      {
        var ap := accessPoints[apOrder[i]];
        if ap.config.mac.bits !in points {
          var dropList := OnRemoveAccessPoint(ap);
          released := released + [ap];
        }
      }
    }

    /** The last walk of `reconfigureNetwork`: an access point is built and added for each entry of `points` whose MAC is new. */
    method AddConfigured(points: map<nat, AccessPointConfig>)
      requires Consistent()
      requires forall k :: k in points ==> ValidAccessPointConfig(points[k]) && points[k].mac.bits == k
      modifies this, monitor, intents
      ensures Consistent() && Configured(accessPoints, old(accessPoints), points, intents, settings)
      ensures forall k :: k in accessPoints && k !in old(accessPoints) ==> fresh(accessPoints[k])
      ensures KeepsGateways(old(defaultGateways), defaultGateways)
    {
      var keys := EnumerateKeys(points.Keys);
      ghost var done: set<nat> := {};
      ghost var made: set<AccessPoint> := {};
      for i := 0 to |keys|
        invariant DoneTo(keys, i, done) && done <= points.Keys && Consistent()
        invariant Grown(accessPoints, old(accessPoints), points, done, made, intents, settings)
        invariant forall a :: a in made ==> fresh(a)
        invariant KeepsGateways(old(defaultGateways), defaultGateways)
      {
        DoneStep(keys, points.Keys, i, done);
        made := AddStep(points, keys[i], old(accessPoints), done, made);
        done := done + {keys[i]};
      }
      DoneAll(keys, points.Keys, done);
    }

    /** One turn of the last walk: the entry under `key` is added when its MAC is new. */
    method AddStep(points: map<nat, AccessPointConfig>, key: nat, ghost before: map<nat, AccessPoint>,
                   ghost done: set<nat>, ghost made: set<AccessPoint>) returns (ghost next: set<AccessPoint>)
      requires Consistent() && key in points && key !in done && done <= points.Keys
      requires forall k :: k in points ==> ValidAccessPointConfig(points[k]) && points[k].mac.bits == k
      requires Grown(accessPoints, before, points, done, made, intents, settings)
      modifies this, monitor, intents
      ensures Consistent() && Grown(accessPoints, before, points, done + {key}, next, intents, settings)
      ensures forall a :: a in next ==> a in made || fresh(a)
      ensures KeepsGateways(old(defaultGateways), defaultGateways)
    {
      next := made;
      var entry := points[key];
      if entry.mac.bits !in accessPoints {
        var ap := AddEntry(entry);
        next := made + {ap};
      }
    }

    /** `onAddAccessPoint(new AccessPoint(entry))` for an entry whose MAC is new. */
    method AddEntry(entry: AccessPointConfig) returns (ap: AccessPoint)
      requires Consistent() && ValidAccessPointConfig(entry) && entry.mac.bits !in accessPoints
      modifies this, monitor, intents
      ensures Consistent() && accessPoints == old(accessPoints)[entry.mac.bits := ap]
      ensures fresh(ap) && ap.config == entry && ap.intents == intents && ap.settings == settings
      ensures KeepsGateways(old(defaultGateways), defaultGateways)
      ensures OwnerSet(defaultGateways) <= old(OwnerSet(defaultGateways)) + {ap}
    {
      ap := new AccessPoint(entry, intents, settings);
      assert forall j :: 0 <= j < |ap.gateways| ==> ap.gateways[j] in ap.gateways;
      AddBuilt(ap);
    }

    /**
     * `onAddAccessPoint` for an access point as just built: no local hosts, and gateways of
     * its own that no access point owns yet and the directory does not hold. It is filed and
     * started, and the manager stays `Consistent`, with the access point as the only new owner.
     */
    method AddBuilt(ap: AccessPoint)
      requires Consistent() && ap.intents == intents && ap.config.mac.bits !in accessPoints
      requires ap.Valid() && ap.CanStart() && ap.apHosts == map[] && ap !in OwnerSet(defaultGateways)
      requires forall g :: g in ap.gateways ==>
        g.owners == [] && g !in defaultGateways.Values && g !in GatewaysIn(OwnerSet(defaultGateways))
      modifies this, ap, ap.gateways, ap.intents, monitor
      ensures Consistent() && accessPoints == old(accessPoints)[ap.config.mac.bits := ap]
      ensures KeepsGateways(old(defaultGateways), defaultGateways)
      ensures OwnerSet(defaultGateways) <= old(OwnerSet(defaultGateways)) + {ap}
    {
      ghost var dg0, owners := defaultGateways, OwnerSet(defaultGateways);
      ghost var used := GatewaysIn(owners);
      AttachNew(ap);
      assert unchanged(owners) && unchanged(used) && unchanged(dg0.Values);
      forall a | a in OwnerSet(defaultGateways)
        ensures a in owners + {ap} && a.Valid() && a.intents == intents && a.CanStart()
      {
        var ip :| ip in defaultGateways && a in defaultGateways[ip].owners;
        if ip in dg0 {
          assert a in owners;
          assert old(a.Valid() && a.intents == intents && a.CanStart());
          assert forall g :: g in a.gateways ==> g in used;
        } else {
          var j :| 0 <= j < |ap.gateways| && defaultGateways[ip] == ap.gateways[j];
        }
      }
      forall k, n | k in accessPoints && n in accessPoints[k].apHosts
        ensures accessPoints[k].apHosts[n].info.hostInfo.Some? && accessPoints[k].apHosts[n].MacKey() == n
                && accessPoints[k].apHosts[n].intents == intents
      {
        var a := accessPoints[k];
        assert a != ap && unchanged(a);
        assert old(a.apHosts[n].info.hostInfo.Some? && a.apHosts[n].MacKey() == n && a.apHosts[n].intents == intents);
      }
    }

    /**
     * `onAddAccessPoint` for an access point whose MAC is new, seen from the directory: the
     * gateways filed before stay, every new entry is one of the access point's gateways, each
     * of which now lists the access point as an owner, and the access point is started.
     */
    method AttachNew(ap: AccessPoint)
      requires Valid() && ap.intents == intents && ap.config.mac.bits !in accessPoints
      requires ap.Valid() && ap.CanStart()
      modifies this, ap, ap.gateways, ap.intents, monitor
      ensures Valid() && accessPoints == old(accessPoints)[ap.config.mac.bits := ap]
      ensures KeepsGateways(old(defaultGateways), defaultGateways)
      ensures forall ip :: ip in defaultGateways && ip !in old(defaultGateways) ==> defaultGateways[ip] in ap.gateways
      ensures forall g :: g in ap.gateways ==> g.owners == old(g.owners) + [ap]
      ensures ap.Valid() && ap.CanStart() && ap.apHosts == old(ap.apHosts)
    {
      var duplicate := OnAddAccessPoint(ap);
      RegisterKeeps(old(defaultGateways), ap.gateways);
      RegisterFrom(old(defaultGateways), ap.gateways);
      forall g | g in ap.gateways
        ensures g.owners == old(g.owners) + [ap]
      {
        var j :| 0 <= j < |ap.gateways| && ap.gateways[j] == g;
      }
    }

    /** The test the host handlers start with: the host shares an address with a known gateway. */
    predicate GatewayRoute(host: Host)
      reads this
    {
      host.ipAddresses * defaultGateways.Keys != {}
    }

    /**
     * `onDefaultGatewayModified(host)`: every gateway under one of the host's addresses takes
     * the record, as `UpdateGateways` states, and the access points and their hosts stay put.
     */
    method OnDefaultGatewayModified(host: Host) returns (ghost started: set<IpAddress>)
      requires Consistent() && Learnable(defaultGateways, host)
      modifies defaultGateways.Values, OwnerSet(defaultGateways), GatewaysIn(OwnerSet(defaultGateways)), intents
      ensures Consistent() && OwnerSet(defaultGateways) == old(OwnerSet(defaultGateways))
      ensures UpdatedTo(defaultGateways, host, host.ipAddresses, old(LearnedOf(defaultGateways)), started)
      ensures PointsStartable(old(OwnerSet(defaultGateways)), intents)
      ensures forall a :: a in old(OwnerSet(defaultGateways)) ==> a.apHosts == old(a.apHosts) && a.roamingHosts == old(a.roamingHosts)
    {
      ghost var owners0 := OwnerSet(defaultGateways);
      ghost var s0 := LearnedOf(defaultGateways);
      started := UpdateGateways(defaultGateways, host, intents, owners0);
      assert OwnerSet(defaultGateways) == owners0 by {
        forall ip | ip in defaultGateways
          ensures defaultGateways[ip].owners == s0[ip].owners == old(defaultGateways[ip].owners)
        {
        }
      }
      forall k | k in accessPoints
        ensures accessPoints[k].apHosts == old(accessPoints[k].apHosts)
      {
      }
    }

    /** Every local host of every access point. */
    ghost function LocalHosts(): set<MobileHost>
      reads this, accessPoints.Values
    {
      set k, n | k in accessPoints && n in accessPoints[k].apHosts :: accessPoints[k].apHosts[n]
    }

    /** What moving the host found for `host` to the point found for it changes, if both exist. */
    ghost function MovedObjects(host: Host): set<object>
      requires Valid() && HostsFiled(accessPoints, intents)
      reads this, accessPoints.Values, LocalHosts()
    {
      var point := LocatedAt(host.location);
      var m := FoundHost(host.mac);
      if point == null || m == null then {}
      else
        var s: set<object> := {m, m.info, point};
        if m.current == null then s else s + {m.current}
    }

    /**
     * `onHostMoved(host)`. A gateway's record is learned as `onDefaultGatewayModified` does;
     * otherwise, when both the access point at the host's location and a local host with its
     * MAC exist, that host is moved there (`setCurrentAccessPoint`), and nothing happens else.
     */
    method OnHostMoved(host: Host) returns (outcome: Completion, ghost started: set<IpAddress>)
      requires Consistent()
      requires GatewayRoute(host) ==> Learnable(defaultGateways, host)
      requires !GatewayRoute(host) ==> CurrentShares(host.mac)
      modifies defaultGateways.Values, OwnerSet(defaultGateways), GatewaysIn(OwnerSet(defaultGateways)), intents
      modifies MovedObjects(host)
      ensures Consistent()
      ensures GatewayRoute(host) ==>
        outcome == Completed && UpdatedTo(defaultGateways, host, host.ipAddresses, old(LearnedOf(defaultGateways)), started)
      ensures !GatewayRoute(host) ==> MovedTo(host, old(LocatedAt(host.location)), old(FoundHost(host.mac)), outcome)
    {
      started := {};
      if GatewayRoute(host) {
        started := OnDefaultGatewayModified(host);
        outcome := Completed;
      } else {
        outcome := MoveLocalHost(host);
      }
    }

    /**
     * The outcome of moving the local host `m` to the access point `point` when both exist: it
     * is moved there as `Moved` states, throwing where that does; when either is missing,
     * nothing is thrown and no intent is submitted or withdrawn.
     */
    twostate predicate MovedTo(host: Host, point: AccessPoint?, m: MobileHost?, outcome: Completion)
      reads this, intents, m, if m == null then {} else {m.info}
    {
      if point != null && m != null then m.Moved(point, outcome)
      else intents.log == old(intents.log) && outcome == Completed
    }

    /**
     * The intent service is one object: the local host found for `mac`, if any, is at no access
     * point or at one that uses the manager's intent service.
     */
    ghost predicate CurrentShares(mac: MacAddress)
      requires Valid() && HostsFiled(accessPoints, intents)
      reads this, accessPoints.Values, LocalHosts()
    {
      var m := FoundHost(mac);
      m != null && m.current != null ==> m.current.intents == intents
    }

    /** The local host found for `host` can be moved to the access point found for it, or to none. */
    lemma FoundMovable(host: Host, point: AccessPoint?)
      requires Valid() && HostsFiled(accessPoints, intents) && CurrentShares(host.mac)
      requires FoundHost(host.mac) != null && (point == null || point == LocatedAt(host.location))
      ensures FoundHost(host.mac).Movable(point)
    {
      if point != null {
        var c :| c in point.config.connections && SameLocation(c, host.location);
      }
    }

    /**
     * The mobile-host half of `onHostMoved`: the lookups (`LocatedAt` and `FoundHost`, which
     * `GetAccessPointByHostLocation` and `GetMobileHost` compute), then `setCurrentAccessPoint`.
     */
    method MoveLocalHost(host: Host) returns (outcome: Completion)
      requires Consistent() && CurrentShares(host.mac)
      modifies MovedObjects(host), intents
      ensures Consistent()
      ensures MovedTo(host, old(LocatedAt(host.location)), old(FoundHost(host.mac)), outcome)
    {
      var point, m := LocatedAt(host.location), FoundHost(host.mac);
      outcome := Completed;
      if point != null && m != null {
        FoundMovable(host, point);
        outcome := MoveFound(m, point);
      }
    }

    /** `setCurrentAccessPoint(point)` on a local host `m`: the manager stays `Consistent`. */
    method MoveFound(m: MobileHost, point: AccessPoint)
      returns (outcome: Completion)
      requires Consistent() && m.info.hostInfo.Some? && m.intents == intents
      requires m.current != point ==> m.Movable(point)
      modifies m, m.info, m.current, point, intents
      ensures Consistent() && m.Moved(point, outcome)
    {
      ghost var left := m.current;
      ghost var owners := OwnerSet(defaultGateways);
      ghost var withdrawn;
      outcome, withdrawn := m.SetCurrentAccessPoint(point);
      forall k, n | k in accessPoints && n in accessPoints[k].apHosts
        ensures accessPoints[k].apHosts[n].info.hostInfo.Some? && accessPoints[k].apHosts[n].MacKey() == n
                && accessPoints[k].apHosts[n].intents == intents
      {
        var a := accessPoints[k];
        if a != left && a != point {
          assert unchanged(a);
        }
        assert TouchedBy(a, m);
        if n in old(a.apHosts) && a.apHosts[n] == old(a.apHosts[n]) {
          assert old(a.apHosts[n].info.hostInfo.Some? && a.apHosts[n].MacKey() == n && a.apHosts[n].intents == intents);
        }
      }
      forall a | a in owners
        ensures a.Valid() && a.CanStart()
      {
        assert old(a.Valid() && a.CanStart());
        if a != left && a != point {
          assert unchanged(a);
        }
        assert TouchedBy(a, m);
        assert forall g :: g in a.gateways ==> g in GatewaysIn(owners);
      }
      assert OwnerSet(defaultGateways) == owners by {
        assert unchanged(defaultGateways.Values);
      }
    }

    /**
     * The two lookups the mobile-host handlers start with: the location's access point, then the
     * local host. They compute `LocatedAt` and `FoundHost`, which the handlers use in their place.
     */
    method LookUp(host: Host) returns (point: AccessPoint?, m: MobileHost?)
      requires Valid() && HostsFiled(accessPoints, intents)
      ensures point == old(LocatedAt(host.location)) && m == old(FoundHost(host.mac))
    {
      point := GetAccessPointByHostLocation(host.location);
      m := GetMobileHost(host.mac);
    }

    /** The access points with a gateway prefix that contains one of the addresses. */
    function SubnetPoints(addrs: set<IpAddress>): set<AccessPoint>
      reads this
    {
      set k | k in accessPoints && ServesAny(accessPoints[k], addrs) :: accessPoints[k]
    }

    /** What clearing and moving the local host found for `host` changes, if there is one. */
    ghost function HostObjects(host: Host): set<object>
      requires Valid() && HostsFiled(accessPoints, intents)
      reads this, accessPoints.Values, LocalHosts()
    {
      var m := FoundHost(host.mac);
      if m == null then {}
      else
        var s: set<object> := {m, m.info};
        if m.current == null then s else s + {m.current}
    }

    /**
     * `onMobileHostAdded(host)`, with `now` the clock reading. A known host (one pending purge)
     * has its removal time cleared and is moved to the access point at its location, when
     * there is one and it has homes, or to no access point when there is none. A new host at
     * an access point, with access points serving its subnet, is created and added as
     * `Adopted` states, with `added` the new object and `hosts0` the serving access points'
     * local hosts when the call starts; no access point's tables or roaming hosts change, nor
     * the local hosts of one outside the subnet. Anything else is ignored and changes nothing.
     * `found` is the known host, if any, and the manager stays `Consistent`.
     */
    method OnMobileHostAdded(host: Host, now: int, ghost hosts0: map<AccessPoint, map<nat, MobileHost>>)
      returns (outcome: Completion, ghost added: MobileHost?, ghost found: MobileHost?)
      requires Consistent() && HostsAt(SubnetPoints(host.ipAddresses), hosts0)
      requires CurrentShares(host.mac)
      modifies accessPoints.Values, intents, HostObjects(host)
      ensures Consistent() && found == old(FoundHost(host.mac))
      ensures found != null ==> added == null && Revisited(found, old(LocatedAt(host.location)), intents, outcome)
      ensures found != null && old(LocatedAt(host.location)) != null && |found.home| == 0 ==>
        unchanged(found, found.info, accessPoints.Values) && (found.current != null ==> unchanged(found.current))
      ensures found == null ==>
        Adopted(host, old(LocatedAt(host.location)), old(SubnetPoints(host.ipAddresses)), outcome, added, now, intents,
                old(intents.log), hosts0)
      ensures found == null ==>
        forall a :: a in accessPoints.Values ==>
          a.roamingHosts == old(a.roamingHosts) && a.Tables() == old(a.Tables())
          && (a !in old(SubnetPoints(host.ipAddresses)) ==> a.apHosts == old(a.apHosts))
      ensures added != null ==> fresh(added)
    {
      ghost var homes0 := SubnetPoints(host.ipAddresses);
      var point, m := LocatedAt(host.location), FoundHost(host.mac);
      found := m;
      if m != null {
        FoundMovable(host, point);
        outcome := RevisitFound(point, m);
        added := null;
      } else {
        outcome, added := NewHostAdded(host, point, now, homes0, hosts0);
      }
    }

    /** The known-host half of `onMobileHostAdded`: the host found for the MAC is revisited at `point`. */
    method RevisitFound(point: AccessPoint?, m: MobileHost) returns (outcome: Completion)
      requires Consistent() && m.info.hostInfo.Some? && m.intents == intents
      requires (point == null || |m.home| >= 1) && m.current != point ==> m.Movable(point)
      modifies m, m.info, m.current, point, intents
      ensures Consistent()
      ensures Revisited(m, point, intents, outcome)
      ensures point != null && |m.home| == 0 ==> unchanged(m, m.info, point) && (m.current != null ==> unchanged(m.current))
    {
      ghost var owners := OwnerSet(defaultGateways);
      ghost var left := m.current;
      outcome := RevisitKnown(m, point);
      forall k, n | k in accessPoints && n in accessPoints[k].apHosts
        ensures accessPoints[k].apHosts[n].info.hostInfo.Some? && accessPoints[k].apHosts[n].MacKey() == n
                && accessPoints[k].apHosts[n].intents == intents
      {
        var a := accessPoints[k];
        if a != left && a != point {
          assert unchanged(a);
        }
        assert TouchedBy(a, m);
      }
      assert unchanged(defaultGateways.Values);
      forall a | a in owners
        ensures a.Valid() && a.CanStart()
      {
        if a != left && a != point {
          assert unchanged(a);
        }
        assert TouchedBy(a, m);
        assert forall g :: g in a.gateways ==> g in GatewaysIn(owners);
      }
    }

    /**
     * The new-host half of `onMobileHostAdded`: the access points serving the host's subnet,
     * then `AdoptHost` when there are some, as `AdoptAt` does. The manager stays `Consistent`.
     */
    method NewHostAdded(host: Host, point: AccessPoint?, now: int, ghost homes0: set<AccessPoint>,
                        ghost hosts0: map<AccessPoint, map<nat, MobileHost>>) returns (outcome: Completion, ghost added: MobileHost?)
      requires Consistent() && (point == null || point in accessPoints.Values)
      requires homes0 == SubnetPoints(host.ipAddresses) && HostsAt(homes0, hosts0)
      requires forall k :: k in accessPoints ==> host.mac.bits !in accessPoints[k].apHosts
      modifies accessPoints.Values, intents
      ensures Consistent()
      ensures Adopted(host, point, homes0, outcome, added, now, intents, old(intents.log), hosts0)
      ensures added != null ==> fresh(added)
      ensures forall a :: a in accessPoints.Values ==>
        TouchedBy(a, added) && a.roamingHosts == old(a.roamingHosts) && (a !in homes0 ==> a.apHosts == old(a.apHosts))
    {
      ghost var owners := OwnerSet(defaultGateways);
      outcome, added := AdoptAt(host, point, now, homes0, hosts0);
      forall a | a in owners
        ensures a.Valid() && a.CanStart()
      {
        assert old(a.Valid() && a.CanStart());
        if a !in accessPoints.Values {
          assert unchanged(a);
        } else {
          assert TouchedBy(a, added);
        }
        assert forall g :: g in a.gateways ==> g in GatewaysIn(owners);
      }
      assert OwnerSet(defaultGateways) == owners by {
        assert unchanged(defaultGateways.Values);
      }
      forall k, n | k in accessPoints && n in accessPoints[k].apHosts
        ensures accessPoints[k].apHosts[n].info.hostInfo.Some? && accessPoints[k].apHosts[n].MacKey() == n
                && accessPoints[k].apHosts[n].intents == intents
      {
        var a := accessPoints[k];
        assert TouchedBy(a, added);
        if n in old(a.apHosts) && a.apHosts[n] == old(a.apHosts[n]) {
          assert old(a.apHosts[n].info.hostInfo.Some? && a.apHosts[n].MacKey() == n && a.apHosts[n].intents == intents);
        }
      }
    }

    /** `getAccessPointsBySubnet`, then `AdoptHost` when some access points serve the subnet. */
    method AdoptAt(host: Host, point: AccessPoint?, now: int, ghost homes0: set<AccessPoint>,
                   ghost hosts0: map<AccessPoint, map<nat, MobileHost>>) returns (outcome: Completion, ghost added: MobileHost?)
      requires Valid() && (point == null || point in accessPoints.Values)
      requires homes0 == SubnetPoints(host.ipAddresses) && HostsAt(homes0, hosts0)
      requires forall k :: k in accessPoints ==> host.mac.bits !in accessPoints[k].apHosts
      modifies accessPoints.Values, intents
      ensures Adopted(host, point, homes0, outcome, added, now, intents, old(intents.log), hosts0)
      ensures added != null ==> fresh(added)
      ensures forall a :: a in accessPoints.Values ==>
        TouchedBy(a, added) && a.roamingHosts == old(a.roamingHosts) && (a !in homes0 ==> a.apHosts == old(a.apHosts))
    {
      var points := GetAccessPointsBySubnet(host.ipAddresses);
      outcome, added := AdoptIfServed(host, points, point, intents, settings, now, hosts0);
      forall a | a in accessPoints.Values
        ensures TouchedBy(a, added) && a.roamingHosts == old(a.roamingHosts) && (a !in homes0 ==> a.apHosts == old(a.apHosts))
      {
        if a !in points && a != point {
          assert unchanged(a);
        }
      }
    }


    /**
     * `onHostAdded(host)`, with `now` the clock reading: a host sharing an address with a known
     * gateway is that gateway's record, learned as `onDefaultGatewayModified` does; any other
     * host is handed to `onMobileHostAdded`, with `hosts0` as there.
     */
    method OnHostAdded(host: Host, now: int, ghost hosts0: map<AccessPoint, map<nat, MobileHost>>)
      returns (outcome: Completion, ghost started: set<IpAddress>)
      requires Consistent()
      requires GatewayRoute(host) ==> Learnable(defaultGateways, host)
      requires !GatewayRoute(host) ==> CurrentShares(host.mac) && HostsAt(SubnetPoints(host.ipAddresses), hosts0)
      modifies defaultGateways.Values, OwnerSet(defaultGateways), GatewaysIn(OwnerSet(defaultGateways)), intents
      modifies accessPoints.Values, HostObjects(host)
      ensures Consistent()
      ensures GatewayRoute(host) ==>
        outcome == Completed && UpdatedTo(defaultGateways, host, host.ipAddresses, old(LearnedOf(defaultGateways)), started)
      ensures !GatewayRoute(host) && old(FoundHost(host.mac)) != null ==>
        Revisited(old(FoundHost(host.mac)), old(LocatedAt(host.location)), intents, outcome)
      ensures !GatewayRoute(host) && old(FoundHost(host.mac)) == null ==>
        (outcome == NullPointer <==>
           old(LocatedAt(host.location)) != null
           && old(LocatedAt(host.location)) !in old(SubnetPoints(host.ipAddresses)) && old(SubnetPoints(host.ipAddresses)) != {})
    {
      started := {};
      if GatewayRoute(host) {
        started := OnDefaultGatewayModified(host);
        outcome := Completed;
      } else {
        ghost var added, found;
        outcome, added, found := OnMobileHostAdded(host, now, hosts0);
      }
    }

    /**
     * `onHostUpdated(host, previous)`. A gateway's record is learned as `onDefaultGatewayModified`
     * does; otherwise the access point and the local host are looked up and nothing changes.
     */
    method OnHostUpdated(host: Host, previous: Host) returns (ghost started: set<IpAddress>)
      requires Consistent()
      requires GatewayRoute(host) ==> Learnable(defaultGateways, host)
      modifies defaultGateways.Values, OwnerSet(defaultGateways), GatewaysIn(OwnerSet(defaultGateways)), intents
      ensures Consistent()
      ensures GatewayRoute(host) ==> UpdatedTo(defaultGateways, host, host.ipAddresses, old(LearnedOf(defaultGateways)), started)
      ensures !GatewayRoute(host) ==>
        unchanged(defaultGateways.Values, old(OwnerSet(defaultGateways)), old(GatewaysIn(OwnerSet(defaultGateways))), intents)
    {
      started := {};
      if GatewayRoute(host) {
        started := OnDefaultGatewayModified(host);
      } else {
        var point := GetAccessPointByHostLocation(host.location);
        var m := GetMobileHost(host.mac);
      }
    }

    /** `setRemovedTime(now)` on a host record, which nothing the manager keeps consistent depends on. */
    method StampRemoved(mac: MacAddress, m: MobileHost, now: int)
      requires Consistent() && m == FoundHost(mac)
      modifies m.info
      ensures Consistent() && m.info.removedTime == now && FoundHost(mac) == m
      ensures m.info.lastMoveTime == old(m.info.lastMoveTime) && m.info.timesMoved == old(m.info.timesMoved)
    {
      m.info.SetRemovedTime(now);
      assert unchanged(this, accessPoints.Values, defaultGateways.Values, OwnerSet(defaultGateways), GatewaysIn(OwnerSet(defaultGateways)));
    }

    /**
     * `onHostRemoved(host)` as written: it tests the event's host for null, which it never is,
     * instead of the local host it looked up, so a host no access point files is dereferenced.
     * Otherwise the local host's removal time becomes `now`, the clock reading.
     */
    method OnHostRemoved(host: Host, now: int) returns (outcome: Completion)
      requires Consistent()
      modifies if FoundHost(host.mac) == null then {} else {FoundHost(host.mac).info}
      ensures Consistent()
      ensures outcome == NullPointer <==> old(FoundHost(host.mac)) == null
      ensures outcome == Completed ==>
        var m := old(FoundHost(host.mac));
        m.info.removedTime == now && m.info.lastMoveTime == old(m.info.lastMoveTime) && m.info.timesMoved == old(m.info.timesMoved)
    {
      var m := GetMobileHost(host.mac);
      if m == null {
        return NullPointer;
      }
      StampRemoved(host.mac, m, now);
      outcome := Completed;
    }

    /**
     * `onHostRemoved(host)` as evidently meant, testing the local host for null: an unknown host
     * is ignored, and a known one has its removal time set to `now` and stays filed, pending the
     * purge.
     */
    method RemoveFoundHost(host: Host, now: int)
      requires Consistent()
      modifies if FoundHost(host.mac) == null then {} else {FoundHost(host.mac).info}
      ensures Consistent()
      ensures old(FoundHost(host.mac)) != null ==>
        var m := old(FoundHost(host.mac));
        m.info.removedTime == now && m.info.lastMoveTime == old(m.info.lastMoveTime) && m.info.timesMoved == old(m.info.timesMoved)
      ensures FoundHost(host.mac) == old(FoundHost(host.mac))
    {
      var m := GetMobileHost(host.mac);
      if m != null {
        StampRemoved(host.mac, m, now);
      }
    }
  }

  /** The gateways of an access point are distinct objects: they are filed under distinct prefixes. */
  lemma DistinctGateways(gws: seq<DefaultGateway>, i: nat)
    requires DistinctKeys(gws) && i < |gws|
    ensures forall j :: 0 <= j < |gws| && j != i ==> gws[j] != gws[i]
  {
    forall j | 0 <= j < |gws| && j != i
      ensures gws[j] != gws[i]
    {
      assert KeyAt(gws, j) != KeyAt(gws, i);
    }
  }
}
