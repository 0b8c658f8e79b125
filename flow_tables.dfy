/**
 * The intent bookkeeping of access points and mobile hosts as functions on values. An access
 * point keeps a southbound and a northbound table of intents keyed by connect-point pair, and
 * one `defaultFlowsInstalled` latch per gateway; a roaming mobile host keeps two such tables of
 * its own. The methods in `Mobility` are proved to change their state exactly as these
 * functions say.
 */
module FlowTables {
  import opened Wrappers
  import opened Net
  import opened Intents
  import opened IngressVlans
  import opened ConnectPoints
  import opened ConnectPointPairs
  import opened Flows

  /** What the flow code reads of a default gateway: learned location and MAC, VLANs, subnet. */
  datatype GatewayView = GatewayView(location: Location, mac: MacAddress, vlans: Vlans, prefix: IpPrefix)

  /** A southbound and a northbound intent table. */
  datatype Tables = Tables(south: map<ConnectPointPair, Intent>, north: map<ConnectPointPair, Intent>)

  /**
   * What a sweep over an access point's gateways leaves: each gateway's `defaultFlowsInstalled`
   * latch, in the order of the gateways, the tables, and the calls made on the intent service.
   */
  datatype Outcome = Outcome(latches: seq<bool>, tables: Tables, events: seq<IntentEvent>)

  /** Both tables hold entries for the same pairs. */
  predicate KeysAgree(t: Tables) { t.south.Keys == t.north.Keys }

  /** A MAC object for which the northbound MAC flow builds an intent. */
  predicate RealMac(m: MacAddress) { m != MAC_ZERO && m != MAC_NONE }

  /** Every entry of `a` is in `b` with the same intent. */
  predicate Extends(a: map<ConnectPointPair, Intent>, b: map<ConnectPointPair, Intent>)
  {
    a.Items <= b.Items
  }

  predicate AllSubmits(events: seq<IntentEvent>)
  {
    forall i :: 0 <= i < |events| ==> events[i].Submit?
  }

  lemma SubmitsAppend(a: seq<IntentEvent>, b: seq<IntentEvent>)
    requires AllSubmits(a) && AllSubmits(b)
    ensures AllSubmits(a + b)
  {
  }

  /** `putIfAbsent(pair, intent) == null` followed by `submit(intent)`. */
  function PutIfAbsent(m: map<ConnectPointPair, Intent>, pair: ConnectPointPair, intent: Intent)
    : (r: (map<ConnectPointPair, Intent>, seq<IntentEvent>))
    ensures r.0.Keys == m.Keys + {pair} && Extends(m, r.0)
    ensures AllSubmits(r.1) && |r.1| == if pair in m then 0 else 1
    ensures pair in m ==> r == (m, [])
  {
    if pair in m then
      assert m.Keys + {pair} == m.Keys;
      (m, [])
    else
      (m[pair := intent], [Submit(intent)])
  }

  /** The intent of a `SouthBoundIpSubnetFlow` from the gateway point to the access point. */
  function SubnetIntent(appId: nat, gwPoint: ConnectPoint, apPoint: ConnectPoint, prefix: IpPrefix, priority: int): Intent
  {
    GetIntent(NewSouthBoundIpSubnetFlow(appId, Some(gwPoint), Some(apPoint), prefix).value, priority).value
  }

  /** The intent of a `SouthBoundMacFlow` from the gateway point to the host's current point. */
  function HostMacIntent(appId: nat, gwPoint: ConnectPoint, apPoint: ConnectPoint, hostMac: MacAddress, priority: int): Intent
  {
    GetIntent(NewSouthBoundMacFlow(appId, Some(gwPoint), Some(apPoint), hostMac).value, priority).value
  }

  /** The intent of a `NorthBoundMacFlow` from an access point to the gateway; null for the placeholder MACs. */
  function GatewayMacIntent(appId: nat, apPoint: ConnectPoint, gwPoint: ConnectPoint, mac: MacAddress, priority: int): Intent
    requires RealMac(mac)
  {
    GetIntent(NewNorthBoundMacFlow(appId, Some(apPoint), Some(gwPoint), mac).value, priority).value
  }

  function GatewayPoint(v: GatewayView): ConnectPoint
  {
    ForGateway(v.location, v.vlans)
  }

  function GatewayPair(apPoint: ConnectPoint, v: GatewayView): ConnectPointPair
  {
    ConnectPointPair(apPoint, GatewayPoint(v), v.prefix)
  }

  /**
   * Stores and submits the southbound and then the northbound intent for a pair, each only if
   * its table has no entry for the pair yet.
   */
  function AddPair(t: Tables, pair: ConnectPointPair, sbIntent: Intent, nbIntent: Intent): (r: (Tables, seq<IntentEvent>))
    ensures pair in r.0.south && pair in r.0.north
    ensures Extends(t.south, r.0.south) && Extends(t.north, r.0.north)
    ensures r.0.south.Keys == t.south.Keys + {pair} && r.0.north.Keys == t.north.Keys + {pair}
    ensures AllSubmits(r.1)
    ensures pair in t.south && pair in t.north ==> r == (t, [])
  {
    var (south, e1) := PutIfAbsent(t.south, pair, sbIntent);
    var (north, e2) := PutIfAbsent(t.north, pair, nbIntent);
    SubmitsAppend(e1, e2);
    (Tables(south, north), e1 + e2)
  }

  /**
   * `addDefaultGatewayFlows` on values: nothing while the gateway's location is the shared
   * `HostLocation.NONE` object or while the latch is already set; otherwise the latch is set and
   * the southbound subnet intent, then the northbound gateway-MAC intent, are stored and
   * submitted unless the pair already has one. A null northbound intent would make
   * `putIfAbsent` throw, hence the requirement on the MAC.
   */
  function DefaultStep(apPoint: ConnectPoint, v: GatewayView, latch: bool, t: Tables, appId: nat, priority: int)
    : (r: (bool, Tables, seq<IntentEvent>))
    requires v.location == LOCATION_NONE || latch || RealMac(v.mac)
    ensures v.location == LOCATION_NONE || latch ==> r == (latch, t, [])
    ensures v.location != LOCATION_NONE ==> r.0
    ensures Extends(t.south, r.1.south) && Extends(t.north, r.1.north)
    ensures KeysAgree(t) ==> KeysAgree(r.1)
    ensures AllSubmits(r.2)
  {
    if v.location == LOCATION_NONE || latch then (latch, t, [])
    else
      var gwPoint := GatewayPoint(v);
      var a := AddPair(t, GatewayPair(apPoint, v), SubnetIntent(appId, gwPoint, apPoint, v.prefix, priority),
                       GatewayMacIntent(appId, apPoint, gwPoint, v.mac, priority));
      (true, a.0, a.1)
  }

  /** One latch per gateway, and every gateway's flows can be built or are already latched. */
  predicate Startable(views: seq<GatewayView>, latches: seq<bool>)
  {
    |views| == |latches|
    && forall i :: 0 <= i < |views| ==> views[i].location == LOCATION_NONE || latches[i] || RealMac(views[i].mac)
  }

  lemma StartablePrefix(views: seq<GatewayView>, latches: seq<bool>, n: nat)
    requires Startable(views, latches) && n <= |views|
    ensures Startable(views[..n], latches[..n])
  {
    assert forall i :: 0 <= i < n ==> views[..n][i] == views[i] && latches[..n][i] == latches[i];
  }

  /**
   * `onStartup` on values: `addDefaultGatewayFlows` for each gateway in turn, each seeing the
   * tables the previous ones left; the result holds the new latch of every gateway.
   */
  function DefaultFold(apPoint: ConnectPoint, views: seq<GatewayView>, latches: seq<bool>, t: Tables,
                       appId: nat, priority: int): (r: Outcome)
    requires Startable(views, latches)
    ensures |r.latches| == |views|
    decreases |views|
  {
    if views == [] then Outcome([], t, [])
    else
      var n := |views| - 1;
      StartablePrefix(views, latches, n);
      var prev := DefaultFold(apPoint, views[..n], latches[..n], t, appId, priority);
      var s := DefaultStep(apPoint, views[n], latches[n], prev.tables, appId, priority);
      Outcome(prev.latches + [s.0], s.1, prev.events + s.2)
  }

  /** A sweep over one more gateway is the shorter sweep followed by that gateway's step. */
  lemma DefaultFoldStep(apPoint: ConnectPoint, views: seq<GatewayView>, latches: seq<bool>, i: nat, t: Tables,
                        appId: nat, priority: int)
    requires i < |views| && Startable(views, latches)
    ensures Startable(views[..i], latches[..i]) && Startable(views[..i + 1], latches[..i + 1])
    ensures var prev := DefaultFold(apPoint, views[..i], latches[..i], t, appId, priority);
            var s := DefaultStep(apPoint, views[i], latches[i], prev.tables, appId, priority);
            DefaultFold(apPoint, views[..i + 1], latches[..i + 1], t, appId, priority)
              == Outcome(prev.latches + [s.0], s.1, prev.events + s.2)
  {
    StartablePrefix(views, latches, i);
    StartablePrefix(views, latches, i + 1);
    assert views[..i + 1][..i] == views[..i];
    assert latches[..i + 1][..i] == latches[..i];
  }

  /**
   * After `onStartup` a gateway's latch is set exactly when it was set before or its location
   * is known.
   */
  lemma {:induction false} DefaultFoldLatches(apPoint: ConnectPoint, views: seq<GatewayView>, latches: seq<bool>,
                                              t: Tables, appId: nat, priority: int)
    requires Startable(views, latches)
    ensures var r := DefaultFold(apPoint, views, latches, t, appId, priority);
            forall i :: 0 <= i < |views| ==> r.latches[i] == (latches[i] || views[i].location != LOCATION_NONE)
    decreases |views|
  {
    if views != [] {
      var n := |views| - 1;
      StartablePrefix(views, latches, n);
      DefaultFoldLatches(apPoint, views[..n], latches[..n], t, appId, priority);
      var prev := DefaultFold(apPoint, views[..n], latches[..n], t, appId, priority);
      var r := DefaultFold(apPoint, views, latches, t, appId, priority);
      assert r.latches[..n] == prev.latches;
      forall i | 0 <= i < n
        ensures r.latches[i] == (latches[i] || views[i].location != LOCATION_NONE)
      {
        assert r.latches[i] == prev.latches[i];
        assert views[..n][i] == views[i] && latches[..n][i] == latches[i];
      }
    }
  }

  /**
   * `onStartup` only adds: every entry of the tables survives with the same intent, tables that
   * agreed still agree, and it submits one intent per entry it added and withdraws nothing.
   */
  lemma {:induction false} DefaultFoldTables(apPoint: ConnectPoint, views: seq<GatewayView>, latches: seq<bool>,
                                             t: Tables, appId: nat, priority: int)
    requires Startable(views, latches)
    ensures var r := DefaultFold(apPoint, views, latches, t, appId, priority);
            Extends(t.south, r.tables.south) && Extends(t.north, r.tables.north)
            && (KeysAgree(t) ==> KeysAgree(r.tables))
            && AllSubmits(r.events)
    decreases |views|
  {
    if views != [] {
      var n := |views| - 1;
      StartablePrefix(views, latches, n);
      DefaultFoldTables(apPoint, views[..n], latches[..n], t, appId, priority);
      var prev := DefaultFold(apPoint, views[..n], latches[..n], t, appId, priority);
      var s := DefaultStep(apPoint, views[n], latches[n], prev.tables, appId, priority);
      StepsCompose(t, prev.tables, s.1, prev.events, s.2);
    }
  }

  /** Two adding steps in a row add what each adds. */
  lemma StepsCompose(a: Tables, b: Tables, c: Tables, e1: seq<IntentEvent>, e2: seq<IntentEvent>)
    requires Extends(a.south, b.south) && Extends(a.north, b.north)
    requires Extends(b.south, c.south) && Extends(b.north, c.north)
    requires AllSubmits(e1) && AllSubmits(e2)
    ensures Extends(a.south, c.south) && Extends(a.north, c.north)
    ensures AllSubmits(e1 + e2)
  {
    SubmitsAppend(e1, e2);
  }

  /** A sweep over gateways that are all unlocated or already latched changes nothing. */
  lemma {:induction false} DefaultFoldNoop(apPoint: ConnectPoint, views: seq<GatewayView>, latches: seq<bool>,
                                           t: Tables, appId: nat, priority: int)
    requires |views| == |latches|
    requires forall i :: 0 <= i < |views| ==> views[i].location == LOCATION_NONE || latches[i]
    ensures DefaultFold(apPoint, views, latches, t, appId, priority) == Outcome(latches, t, [])
    decreases |views|
  {
    if views != [] {
      var n := |views| - 1;
      forall i | 0 <= i < n
        ensures views[..n][i].location == LOCATION_NONE || latches[..n][i]
      {
        assert views[..n][i] == views[i] && latches[..n][i] == latches[i];
      }
      DefaultFoldNoop(apPoint, views[..n], latches[..n], t, appId, priority);
      assert latches[..n] + [latches[n]] == latches;
    }
  }

  /**
   * Running `onStartup` again, with the gateways as they were, submits nothing and changes
   * nothing: every gateway it could act on is latched.
   */
  lemma StartupIdempotent(apPoint: ConnectPoint, views: seq<GatewayView>, latches: seq<bool>, t: Tables,
                          appId: nat, priority: int)
    requires Startable(views, latches)
    ensures var r := DefaultFold(apPoint, views, latches, t, appId, priority);
            Startable(views, r.latches)
            && DefaultFold(apPoint, views, r.latches, r.tables, appId, priority) == Outcome(r.latches, r.tables, [])
  {
    var r := DefaultFold(apPoint, views, latches, t, appId, priority);
    DefaultFoldLatches(apPoint, views, latches, t, appId, priority);
    DefaultFoldNoop(apPoint, views, r.latches, r.tables, appId, priority);
  }

  /**
   * `dropDefaultGatewayFlows` on values: nothing unless the latch was set; otherwise the latch
   * is cleared, the pair's entries are removed from both tables, the northbound intent is
   * withdrawn if there was one, and the southbound intent is withdrawn if there was a
   * northbound one. Withdrawing a null intent would throw, hence the requirement that the
   * tables agree.
   */
  function DropStep(apPoint: ConnectPoint, v: GatewayView, latch: bool, t: Tables): (r: (bool, Tables, seq<IntentEvent>))
    requires KeysAgree(t)
    ensures !latch ==> r == (latch, t, [])
    ensures !r.0 && KeysAgree(r.1)
    ensures latch ==> r.1 == Tables(t.south - {GatewayPair(apPoint, v)}, t.north - {GatewayPair(apPoint, v)})
    ensures AllWithdraws(r.2)
  {
    if !latch then (latch, t, [])
    else
      var pair := GatewayPair(apPoint, v);
      var e1 := if pair in t.north then [Withdraw(t.north[pair])] else [];
      var e2 := if pair in t.north then [Withdraw(t.south[pair])] else [];
      (false, Tables(t.south - {pair}, t.north - {pair}), e1 + e2)
  }

  predicate AllWithdraws(events: seq<IntentEvent>)
  {
    forall i :: 0 <= i < |events| ==> events[i].Withdraw?
  }

  /** The pairs of the gateways whose latch is set. */
  function LatchedPairs(apPoint: ConnectPoint, views: seq<GatewayView>, latches: seq<bool>): set<ConnectPointPair>
    requires |views| == |latches|
  {
    set i | 0 <= i < |views| && latches[i] :: GatewayPair(apPoint, views[i])
  }

  /** `dropDefaultGatewayFlows` for each gateway in turn, as `dropAllFlows` does. */
  function DropFold(apPoint: ConnectPoint, views: seq<GatewayView>, latches: seq<bool>, t: Tables): (r: Outcome)
    requires |views| == |latches| && KeysAgree(t)
    ensures |r.latches| == |views| && KeysAgree(r.tables)
    decreases |views|
  {
    if views == [] then Outcome([], t, [])
    else
      var n := |views| - 1;
      var prev := DropFold(apPoint, views[..n], latches[..n], t);
      var s := DropStep(apPoint, views[n], latches[n], prev.tables);
      Outcome(prev.latches + [s.0], s.1, prev.events + s.2)
  }

  /** A drop sweep over one more gateway is the shorter sweep followed by that gateway's step. */
  lemma DropFoldStep(apPoint: ConnectPoint, views: seq<GatewayView>, latches: seq<bool>, i: nat, t: Tables)
    requires i < |views| == |latches| && KeysAgree(t)
    ensures var prev := DropFold(apPoint, views[..i], latches[..i], t);
            var s := DropStep(apPoint, views[i], latches[i], prev.tables);
            DropFold(apPoint, views[..i + 1], latches[..i + 1], t) == Outcome(prev.latches + [s.0], s.1, prev.events + s.2)
    ensures var prev := DropFold(apPoint, views[..i], latches[..i], t);
            var r := DropFold(apPoint, views[..i + 1], latches[..i + 1], t);
            |prev.latches| == i && (forall j :: 0 <= j < i ==> r.latches[j] == prev.latches[j])
  {
    assert views[..i + 1][..i] == views[..i];
    assert latches[..i + 1][..i] == latches[..i];
  }

  /**
   * After `dropAllFlows` every latch is clear, the tables lost exactly the pairs of the
   * gateways that were latched, and only withdraws were made.
   */
  lemma {:induction false} DropFoldClears(apPoint: ConnectPoint, views: seq<GatewayView>, latches: seq<bool>, t: Tables)
    requires |views| == |latches| && KeysAgree(t)
    ensures var r := DropFold(apPoint, views, latches, t);
            (forall i :: 0 <= i < |views| ==> !r.latches[i])
            && r.tables == Tables(t.south - LatchedPairs(apPoint, views, latches),
                                  t.north - LatchedPairs(apPoint, views, latches))
            && AllWithdraws(r.events)
    decreases |views|
  {
    if views != [] {
      var n := |views| - 1;
      DropFoldClears(apPoint, views[..n], latches[..n], t);
      var prev := DropFold(apPoint, views[..n], latches[..n], t);
      var s := DropStep(apPoint, views[n], latches[n], prev.tables);
      var r := DropFold(apPoint, views, latches, t);
      assert r.latches[..n] == prev.latches;
      forall i | 0 <= i < n
        ensures !r.latches[i]
      {
        assert r.latches[i] == prev.latches[i];
      }
      LatchedPairsSnoc(apPoint, views, latches);
      var before := LatchedPairs(apPoint, views[..n], latches[..n]);
      var dropped := if latches[n] then {GatewayPair(apPoint, views[n])} else {};
      SubtractTwice(t.south, before, dropped);
      SubtractTwice(t.north, before, dropped);
    }
  }

  /** Removing two sets of keys one after the other removes their union. */
  lemma SubtractTwice(m: map<ConnectPointPair, Intent>, a: set<ConnectPointPair>, b: set<ConnectPointPair>)
    ensures m - a - b == m - (a + b)
  {
  }

  /** The latched pairs of a longer list are those of its prefix and, when latched, the last one's. */
  lemma LatchedPairsSnoc(apPoint: ConnectPoint, views: seq<GatewayView>, latches: seq<bool>)
    requires |views| == |latches| > 0
    ensures var n := |views| - 1;
            LatchedPairs(apPoint, views, latches)
              == LatchedPairs(apPoint, views[..n], latches[..n]) + (if latches[n] then {GatewayPair(apPoint, views[n])} else {})
  {
    var n := |views| - 1;
    var before := LatchedPairs(apPoint, views[..n], latches[..n]);
    forall x | x in before
      ensures x in LatchedPairs(apPoint, views, latches)
    {
      var i :| 0 <= i < n && latches[..n][i] && x == GatewayPair(apPoint, views[..n][i]);
      assert views[..n][i] == views[i] && latches[..n][i] == latches[i];
    }
    forall x | x in LatchedPairs(apPoint, views, latches) && x != GatewayPair(apPoint, views[n])
      ensures x in before
    {
      var i :| 0 <= i < |views| && latches[i] && x == GatewayPair(apPoint, views[i]);
      assert i < n && views[..n][i] == views[i] && latches[..n][i] == latches[i];
    }
  }

  /**
   * Dropping right after adding, with the gateway unchanged, undoes the add: the latch is
   * clear again, the tables are as before, and the two submitted intents are withdrawn,
   * northbound first.
   */
  lemma DropUndoesAdd(apPoint: ConnectPoint, v: GatewayView, t: Tables, appId: nat, priority: int)
    requires v.location != LOCATION_NONE && RealMac(v.mac) && KeysAgree(t)
    requires GatewayPair(apPoint, v) !in t.south
    ensures var a := DefaultStep(apPoint, v, false, t, appId, priority);
            var d := DropStep(apPoint, v, a.0, a.1);
            a.0 && !d.0 && d.1 == t && |a.2| == 2 && a.2[0].Submit? && a.2[1].Submit?
            && d.2 == [Withdraw(a.2[1].intent), Withdraw(a.2[0].intent)]
  {
    var pair := GatewayPair(apPoint, v);
    var a := DefaultStep(apPoint, v, false, t, appId, priority);
    assert pair in a.1.north && pair in a.1.south;
    assert a.1.south - {pair} == t.south;
    assert a.1.north - {pair} == t.north;
  }

  /** With agreeing tables the southbound withdraw happens exactly when there is a southbound entry. */
  lemma DropGateMatchesSouth(apPoint: ConnectPoint, v: GatewayView, t: Tables)
    requires KeysAgree(t)
    ensures var pair := GatewayPair(apPoint, v);
            DropStep(apPoint, v, true, t).2 ==
              (if pair in t.north then [Withdraw(t.north[pair])] else [])
              + (if pair in t.south then [Withdraw(t.south[pair])] else [])
  {
  }

  /** A pair with the southbound and northbound intents that belong to it. */
  datatype Entry = Entry(pair: ConnectPointPair, southIntent: Intent, northIntent: Intent)

  /**
   * The roaming unicast flows for one home gateway: the pair of the host's current point and
   * the gateway point, a southbound intent matching the host's MAC and a northbound intent
   * matching the gateway's MAC.
   */
  function RoamingEntry(apPoint: ConnectPoint, v: GatewayView, hostMac: MacAddress, appId: nat, priority: int): (e: Entry)
    requires RealMac(v.mac)
    ensures e.pair == GatewayPair(apPoint, v)
  {
    var gwPoint := GatewayPoint(v);
    Entry(GatewayPair(apPoint, v), HostMacIntent(appId, gwPoint, apPoint, hostMac, priority),
          GatewayMacIntent(appId, apPoint, gwPoint, v.mac, priority))
  }

  /** The roaming entries for each home gateway, in the order of the gateways. */
  function RoamingEntries(apPoint: ConnectPoint, views: seq<GatewayView>, hostMac: MacAddress, appId: nat, priority: int)
    : (es: seq<Entry>)
    requires forall i :: 0 <= i < |views| ==> RealMac(views[i].mac)
    ensures |es| == |views|
    ensures forall i :: 0 <= i < |views| ==> es[i] == RoamingEntry(apPoint, views[i], hostMac, appId, priority)
    decreases |views|
  {
    if views == [] then []
    else
      var n := |views| - 1;
      assert forall i :: 0 <= i < n ==> views[..n][i] == views[i];
      RoamingEntries(apPoint, views[..n], hostMac, appId, priority) + [RoamingEntry(apPoint, views[n], hostMac, appId, priority)]
  }

  /** `AddPair` for each entry in turn. */
  function AddFold(t: Tables, es: seq<Entry>): (r: (Tables, seq<IntentEvent>))
    ensures |es| == 0 ==> r == (t, [])
    decreases |es|
  {
    if es == [] then (t, [])
    else
      var n := |es| - 1;
      var prev := AddFold(t, es[..n]);
      var s := AddPair(prev.0, es[n].pair, es[n].southIntent, es[n].northIntent);
      (s.0, prev.1 + s.1)
  }

  /** After the fold, every entry's pair has both intents. */
  lemma {:induction false} AddFoldCovers(t: Tables, es: seq<Entry>)
    ensures forall i :: 0 <= i < |es| ==> es[i].pair in AddFold(t, es).0.south && es[i].pair in AddFold(t, es).0.north
    decreases |es|
  {
    if es != [] {
      var n := |es| - 1;
      AddFoldCovers(t, es[..n]);
      var prev := AddFold(t, es[..n]);
      var s := AddPair(prev.0, es[n].pair, es[n].southIntent, es[n].northIntent);
      forall i | 0 <= i < |es|
        ensures es[i].pair in s.0.south && es[i].pair in s.0.north
      {
        if i < n {
          assert es[..n][i] == es[i];
        }
      }
    }
  }

  /**
   * The fold only adds: every earlier entry survives with the same intent, agreeing tables
   * still agree, and only submits are made.
   */
  lemma {:induction false} AddFoldTables(t: Tables, es: seq<Entry>)
    ensures var r := AddFold(t, es);
            Extends(t.south, r.0.south) && Extends(t.north, r.0.north)
            && (KeysAgree(t) ==> KeysAgree(r.0))
            && AllSubmits(r.1)
    decreases |es|
  {
    if es != [] {
      var n := |es| - 1;
      AddFoldTables(t, es[..n]);
      var prev := AddFold(t, es[..n]);
      var s := AddPair(prev.0, es[n].pair, es[n].southIntent, es[n].northIntent);
      StepsCompose(t, prev.0, s.0, prev.1, s.1);
    }
  }

  /** A fold over entries whose pairs all have both intents changes nothing. */
  lemma {:induction false} AddFoldNoop(t: Tables, es: seq<Entry>)
    requires forall i :: 0 <= i < |es| ==> es[i].pair in t.south && es[i].pair in t.north
    ensures AddFold(t, es) == (t, [])
    decreases |es|
  {
    if es != [] {
      var n := |es| - 1;
      assert forall i :: 0 <= i < n ==> es[..n][i] == es[i];
      AddFoldNoop(t, es[..n]);
    }
  }

  /** `addRoamingUnicastDefaultGatewayFlows` on values: the roaming entries added in turn. */
  function RoamingFold(apPoint: ConnectPoint, views: seq<GatewayView>, hostMac: MacAddress, t: Tables,
                       appId: nat, priority: int): (r: (Tables, seq<IntentEvent>))
    requires forall i :: 0 <= i < |views| ==> RealMac(views[i].mac)
  {
    AddFold(t, RoamingEntries(apPoint, views, hostMac, appId, priority))
  }

  /** The roaming fold over one more gateway adds that gateway's entry to what the shorter fold left. */
  lemma RoamingFoldStep(apPoint: ConnectPoint, views: seq<GatewayView>, i: nat, hostMac: MacAddress, t: Tables,
                        appId: nat, priority: int)
    requires i < |views|
    requires forall j :: 0 <= j < |views| ==> RealMac(views[j].mac)
    ensures var prev := RoamingFold(apPoint, views[..i], hostMac, t, appId, priority);
            var e := RoamingEntry(apPoint, views[i], hostMac, appId, priority);
            var s := AddPair(prev.0, e.pair, e.southIntent, e.northIntent);
            RoamingFold(apPoint, views[..i + 1], hostMac, t, appId, priority) == (s.0, prev.1 + s.1)
  {
    var es := RoamingEntries(apPoint, views[..i + 1], hostMac, appId, priority);
    var es0 := RoamingEntries(apPoint, views[..i], hostMac, appId, priority);
    assert es[..i] == es0 by {
      forall j | 0 <= j < i
        ensures es[..i][j] == es0[j]
      {
        assert views[..i + 1][j] == views[..i][j];
      }
    }
  }

  /**
   * Adding the roaming flows gives every home gateway's pair both intents, keeps every entry
   * that was there, keeps the tables agreeing, and only submits.
   */
  lemma RoamingFoldAdds(apPoint: ConnectPoint, views: seq<GatewayView>, hostMac: MacAddress,
                        t: Tables, appId: nat, priority: int)
    requires forall i :: 0 <= i < |views| ==> RealMac(views[i].mac)
    ensures var r := RoamingFold(apPoint, views, hostMac, t, appId, priority);
            (forall i :: 0 <= i < |views| ==>
               GatewayPair(apPoint, views[i]) in r.0.south && GatewayPair(apPoint, views[i]) in r.0.north)
            && Extends(t.south, r.0.south) && Extends(t.north, r.0.north)
            && (KeysAgree(t) ==> KeysAgree(r.0))
            && AllSubmits(r.1)
  {
    var es := RoamingEntries(apPoint, views, hostMac, appId, priority);
    AddFoldCovers(t, es);
    AddFoldTables(t, es);
  }

  /** Adding the roaming flows a second time, with the gateways unchanged, submits nothing. */
  lemma RoamingIdempotent(apPoint: ConnectPoint, views: seq<GatewayView>, hostMac: MacAddress,
                          t: Tables, appId: nat, priority: int)
    requires forall i :: 0 <= i < |views| ==> RealMac(views[i].mac)
    ensures var r := RoamingFold(apPoint, views, hostMac, t, appId, priority);
            RoamingFold(apPoint, views, hostMac, r.0, appId, priority) == (r.0, [])
  {
    var es := RoamingEntries(apPoint, views, hostMac, appId, priority);
    AddFoldCovers(t, es);
    AddFoldNoop(AddFold(t, es).0, es);
  }

  /** How a call ends: normally, or with the `NullPointerException` the source throws there. */
  datatype Completion = Completed | NullPointer

  /** What adding a host's roaming flows leaves: the tables, the calls made, and how it ended. */
  datatype Run = Run(tables: Tables, events: seq<IntentEvent>, outcome: Completion)

  /** The position of the first gateway whose MAC is a placeholder object, or `|views|` when none is. */
  function FirstPlaceholder(views: seq<GatewayView>): (k: nat)
    ensures k <= |views|
    ensures forall j :: 0 <= j < k ==> RealMac(views[j].mac)
    ensures k < |views| ==> !RealMac(views[k].mac)
    decreases |views|
  {
    if views == [] || !RealMac(views[0].mac) then 0
    else
      var k := FirstPlaceholder(views[1..]);
      assert forall j :: 1 <= j < k + 1 ==> views[j] == views[1..][j - 1];
      k + 1
  }

  /**
   * What one gateway of `addRoamingUnicastDefaultGatewayFlows` stores: the pair, the
   * southbound intent matching the host's MAC, and the northbound intent matching the
   * gateway's MAC, which is null (`None`) for a placeholder MAC.
   */
  datatype Step = Step(pair: ConnectPointPair, southIntent: Intent, northIntent: Option<Intent>)

  function RoamingStep(apPoint: ConnectPoint, v: GatewayView, hostMac: MacAddress, appId: nat, priority: int): (s: Step)
    ensures s.pair == GatewayPair(apPoint, v) && (s.northIntent.Some? <==> RealMac(v.mac))
  {
    if RealMac(v.mac) then
      var e := RoamingEntry(apPoint, v, hostMac, appId, priority);
      Step(e.pair, e.southIntent, Some(e.northIntent))
    else
      Step(GatewayPair(apPoint, v), HostMacIntent(appId, GatewayPoint(v), apPoint, hostMac, priority), None)
  }

  /** The step of each home gateway, in the order of the gateways. */
  function RoamingSteps(apPoint: ConnectPoint, views: seq<GatewayView>, hostMac: MacAddress, appId: nat, priority: int)
    : (ss: seq<Step>)
    ensures |ss| == |views|
    ensures forall i :: 0 <= i < |views| ==>
      ss[i].pair == GatewayPair(apPoint, views[i]) && (ss[i].northIntent.Some? <==> RealMac(views[i].mac))
    decreases |views|
  {
    if views == [] then []
    else
      var n := |views| - 1;
      assert forall i :: 0 <= i < n ==> views[..n][i] == views[i];
      RoamingSteps(apPoint, views[..n], hostMac, appId, priority) + [RoamingStep(apPoint, views[n], hostMac, appId, priority)]
  }

  /** The step at position `i` is the step of gateway `i`. */
  lemma {:induction false} RoamingStepsAt(apPoint: ConnectPoint, views: seq<GatewayView>, i: nat, hostMac: MacAddress,
                                          appId: nat, priority: int)
    requires i < |views|
    ensures RoamingSteps(apPoint, views, hostMac, appId, priority)[i] == RoamingStep(apPoint, views[i], hostMac, appId, priority)
    decreases |views|
  {
    var n := |views| - 1;
    if i < n {
      RoamingStepsAt(apPoint, views[..n], i, hostMac, appId, priority);
    }
  }

  /** The steps of a prefix of the gateways are that prefix of the steps. */
  lemma {:induction false} RoamingStepsPrefix(apPoint: ConnectPoint, views: seq<GatewayView>, i: nat, hostMac: MacAddress,
                                              appId: nat, priority: int)
    requires i <= |views|
    ensures RoamingSteps(apPoint, views, hostMac, appId, priority)[..i] == RoamingSteps(apPoint, views[..i], hostMac, appId, priority)
    decreases |views|
  {
    if i == |views| {
      assert views[..i] == views;
    } else {
      var n := |views| - 1;
      RoamingStepsPrefix(apPoint, views[..n], i, hostMac, appId, priority);
      assert views[..n][..i] == views[..i];
    }
  }

  /**
   * One step after the steps before it left `prev`. Once a call has thrown nothing more
   * happens; with a northbound intent both are stored and submitted unless their table has
   * the pair; without one the southbound intent is, and then `putIfAbsent(pair, null)` throws.
   */
  function RunStep(prev: Run, s: Step): (r: Run)
    ensures prev.outcome == NullPointer ==> r == prev
    ensures r.outcome == Completed <==> prev.outcome == Completed && s.northIntent.Some?
  {
    if prev.outcome.NullPointer? then prev
    else if s.northIntent.Some? then
      var a := AddPair(prev.tables, s.pair, s.southIntent, s.northIntent.value);
      Run(a.0, prev.events + a.1, Completed)
    else
      var p := PutIfAbsent(prev.tables.south, s.pair, s.southIntent);
      Run(Tables(p.0, prev.tables.north), prev.events + p.1, NullPointer)
  }

  /** `RunStep` for each step in turn, from tables `t`. */
  function RunAll(t: Tables, ss: seq<Step>): (r: Run)
    ensures r.outcome == Completed <==> forall i :: 0 <= i < |ss| ==> ss[i].northIntent.Some?
    decreases |ss|
  {
    if ss == [] then Run(t, [], Completed)
    else
      var n := |ss| - 1;
      var prev := RunAll(t, ss[..n]);
      assert forall i :: 0 <= i < n ==> ss[..n][i] == ss[i];
      assert prev.outcome == Completed <==> forall i :: 0 <= i < n ==> ss[i].northIntent.Some?;
      RunStep(prev, ss[n])
  }

  /** The run over one more step is one more `RunStep`. */
  lemma RunAllSnoc(t: Tables, ss: seq<Step>, i: nat)
    requires i < |ss|
    ensures RunAll(t, ss[..i + 1]) == RunStep(RunAll(t, ss[..i]), ss[i])
  {
    assert ss[..i + 1][..i] == ss[..i];
  }

  /** Once the run over a prefix has thrown, the steps after it change nothing. */
  lemma {:induction false} RunAllStays(t: Tables, ss: seq<Step>, i: nat)
    requires i <= |ss| && RunAll(t, ss[..i]).outcome == NullPointer
    ensures RunAll(t, ss) == RunAll(t, ss[..i])
    decreases |ss|
  {
    if i == |ss| {
      assert ss[..i] == ss;
    } else {
      var n := |ss| - 1;
      assert ss[..n][..i] == ss[..i];
      RunAllStays(t, ss[..n], i);
    }
  }

  /**
   * `addRoamingUnicastDefaultGatewayFlows` on values, whatever the gateways' MACs: the step
   * of each home gateway in turn, from tables `t`. The run completes exactly when no gateway
   * has a placeholder MAC.
   */
  function RoamingRun(apPoint: ConnectPoint, views: seq<GatewayView>, hostMac: MacAddress, t: Tables,
                      appId: nat, priority: int): (r: Run)
    ensures r.outcome == Completed <==> forall j :: 0 <= j < |views| ==> RealMac(views[j].mac)
  {
    RunAll(t, RoamingSteps(apPoint, views, hostMac, appId, priority))
  }

  /** The step of a gateway with a real MAC adds its roaming entry to a completed run. */
  lemma RunStepAddsEntry(prev: Run, apPoint: ConnectPoint, v: GatewayView, hostMac: MacAddress, appId: nat, priority: int)
    requires prev.outcome == Completed && RealMac(v.mac)
    ensures var e := RoamingEntry(apPoint, v, hostMac, appId, priority);
            var s := AddPair(prev.tables, e.pair, e.southIntent, e.northIntent);
            RunStep(prev, RoamingStep(apPoint, v, hostMac, appId, priority)) == Run(s.0, prev.events + s.1, Completed)
  {
  }

  /** The roaming run over one more gateway is one more `RunStep`. */
  lemma RoamingRunSnoc(apPoint: ConnectPoint, views: seq<GatewayView>, n: nat, hostMac: MacAddress, t: Tables,
                       appId: nat, priority: int)
    requires n < |views|
    ensures RoamingRun(apPoint, views[..n + 1], hostMac, t, appId, priority)
         == RunStep(RoamingRun(apPoint, views[..n], hostMac, t, appId, priority),
                    RoamingStep(apPoint, views[n], hostMac, appId, priority))
  {
    var ss := RoamingSteps(apPoint, views[..n + 1], hostMac, appId, priority);
    assert views[..n + 1][..n] == views[..n];
    RunAllSnoc(t, ss, n);
    assert ss[..n + 1] == ss;
  }

  /** A run over gateways that all have real MACs completes, and is `RoamingFold`. */
  lemma {:induction false} RoamingRunIsFold(apPoint: ConnectPoint, views: seq<GatewayView>, hostMac: MacAddress,
                                            t: Tables, appId: nat, priority: int)
    requires forall j :: 0 <= j < |views| ==> RealMac(views[j].mac)
    ensures var f := RoamingFold(apPoint, views, hostMac, t, appId, priority);
            RoamingRun(apPoint, views, hostMac, t, appId, priority) == Run(f.0, f.1, Completed)
    decreases |views|
  {
    if views != [] {
      var n := |views| - 1;
      RoamingRunIsFold(apPoint, views[..n], hostMac, t, appId, priority);
      RoamingRunSnoc(apPoint, views, n, hostMac, t, appId, priority);
      RunStepAddsEntry(RoamingRun(apPoint, views[..n], hostMac, t, appId, priority), apPoint, views[n], hostMac, appId, priority);
      RoamingFoldStep(apPoint, views, n, hostMac, t, appId, priority);
      assert views[..n + 1] == views;
    }
  }

  /** Once the roaming run over a prefix of the gateways has thrown, the gateways after it change nothing. */
  lemma RoamingRunStays(apPoint: ConnectPoint, views: seq<GatewayView>, i: nat, hostMac: MacAddress, t: Tables,
                        appId: nat, priority: int)
    requires i <= |views| && RoamingRun(apPoint, views[..i], hostMac, t, appId, priority).outcome == NullPointer
    ensures RoamingRun(apPoint, views, hostMac, t, appId, priority) == RoamingRun(apPoint, views[..i], hostMac, t, appId, priority)
  {
    var ss := RoamingSteps(apPoint, views, hostMac, appId, priority);
    RoamingStepsPrefix(apPoint, views, i, hostMac, appId, priority);
    RunAllStays(t, ss, i);
  }

  /**
   * At the first gateway with a placeholder MAC the run has added the roaming entries of the
   * gateways before it, stored and submitted that gateway's southbound intent, and thrown.
   */
  lemma {:induction false} RoamingRunStopsAt(apPoint: ConnectPoint, views: seq<GatewayView>, k: nat, hostMac: MacAddress,
                                             t: Tables, appId: nat, priority: int)
    requires k < |views| && (forall j :: 0 <= j < k ==> RealMac(views[j].mac)) && !RealMac(views[k].mac)
    ensures var f := RoamingFold(apPoint, views[..k], hostMac, t, appId, priority);
            var p := PutIfAbsent(f.0.south, GatewayPair(apPoint, views[k]),
                                 HostMacIntent(appId, GatewayPoint(views[k]), apPoint, hostMac, priority));
            RoamingRun(apPoint, views, hostMac, t, appId, priority) == Run(Tables(p.0, f.0.north), f.1 + p.1, NullPointer)
  {
    RoamingRunIsFold(apPoint, views[..k], hostMac, t, appId, priority);
    RoamingRunSnoc(apPoint, views, k, hostMac, t, appId, priority);
    RoamingRunStays(apPoint, views, k + 1, hostMac, t, appId, priority);
  }

  /**
   * A run that throws stops at the first placeholder MAC: every gateway before it has both
   * intents for its pair, that gateway's pair has a southbound intent, every entry the tables
   * had is kept, and only submits are made.
   */
  lemma {:induction false} RoamingRunThrows(apPoint: ConnectPoint, views: seq<GatewayView>, hostMac: MacAddress, t: Tables,
                                            appId: nat, priority: int)
    requires RoamingRun(apPoint, views, hostMac, t, appId, priority).outcome == NullPointer
    ensures var r := RoamingRun(apPoint, views, hostMac, t, appId, priority);
            var k := FirstPlaceholder(views);
            k < |views| && !RealMac(views[k].mac)
            && (forall j :: 0 <= j < k ==>
                  GatewayPair(apPoint, views[j]) in r.tables.south && GatewayPair(apPoint, views[j]) in r.tables.north)
            && GatewayPair(apPoint, views[k]) in r.tables.south
            && Extends(t.south, r.tables.south) && Extends(t.north, r.tables.north)
            && AllSubmits(r.events)
  {
    var k := FirstPlaceholder(views);
    var j :| 0 <= j < |views| && !RealMac(views[j].mac);
    assert k <= j;
    RoamingRunStopsAt(apPoint, views, k, hostMac, t, appId, priority);
    StopKeeps(apPoint, views, k, hostMac, t, appId, priority);
  }

  /** What the tables and the log look like when the run stops at gateway `k`. */
  lemma StopKeeps(apPoint: ConnectPoint, views: seq<GatewayView>, k: nat, hostMac: MacAddress, t: Tables,
                  appId: nat, priority: int)
    requires k < |views| && forall j :: 0 <= j < k ==> RealMac(views[j].mac)
    ensures var f := RoamingFold(apPoint, views[..k], hostMac, t, appId, priority);
            var p := PutIfAbsent(f.0.south, GatewayPair(apPoint, views[k]),
                                 HostMacIntent(appId, GatewayPoint(views[k]), apPoint, hostMac, priority));
            (forall j :: 0 <= j < k ==>
               GatewayPair(apPoint, views[j]) in p.0 && GatewayPair(apPoint, views[j]) in f.0.north)
            && GatewayPair(apPoint, views[k]) in p.0
            && Extends(t.south, p.0) && Extends(t.north, f.0.north)
            && AllSubmits(f.1 + p.1)
  {
    var pre := views[..k];
    RoamingFoldAdds(apPoint, pre, hostMac, t, appId, priority);
    var f := RoamingFold(apPoint, pre, hostMac, t, appId, priority);
    var p := PutIfAbsent(f.0.south, GatewayPair(apPoint, views[k]),
                         HostMacIntent(appId, GatewayPoint(views[k]), apPoint, hostMac, priority));
    SubmitsAppend(f.1, p.1);
    assert forall j :: 0 <= j < k ==> pre[j] == views[j];
  }

  /** The withdraw calls for the entries of a table, in the order the keys are visited. */
  function WithdrawAll(order: seq<ConnectPointPair>, m: map<ConnectPointPair, Intent>): (r: seq<IntentEvent>)
    requires forall i :: 0 <= i < |order| ==> order[i] in m
    ensures |r| == |order|
  {
    if order == [] then [] else WithdrawAll(order[..|order| - 1], m) + [Withdraw(m[order[|order| - 1]])]
  }

  /** The sweep's `i`-th call withdraws the intent of the `i`-th key visited. */
  lemma {:induction false} WithdrawAllAt(order: seq<ConnectPointPair>, m: map<ConnectPointPair, Intent>)
    requires forall i :: 0 <= i < |order| ==> order[i] in m
    ensures forall i :: 0 <= i < |order| ==> WithdrawAll(order, m)[i] == Withdraw(m[order[i]])
  {
    if order != [] {
      var n := |order| - 1;
      assert forall i :: 0 <= i < n ==> order[..n][i] == order[i];
      WithdrawAllAt(order[..n], m);
    }
  }

  /**
   * `m.forEach((pair, intent) -> withdraw(intent))` over the northbound and then the
   * southbound table: one withdraw per entry of each, in some order of the keys.
   */
  ghost predicate WithdrawsAll(events: seq<IntentEvent>, north: map<ConnectPointPair, Intent>,
                               south: map<ConnectPointPair, Intent>)
  {
    exists no: seq<ConnectPointPair>, so: seq<ConnectPointPair> ::
      Enumerates(no, north.Keys) && Enumerates(so, south.Keys)
      && events == WithdrawAll(no, north) + WithdrawAll(so, south)
  }

  /** Withdrawing a table in the order of an enumeration of its keys withdraws each of its intents. */
  lemma WithdrawAllCovers(order: seq<ConnectPointPair>, m: map<ConnectPointPair, Intent>)
    requires Enumerates(order, m.Keys)
    ensures forall e :: e in WithdrawAll(order, m) ==> e.Withdraw? && e.intent in m.Values
    ensures forall p :: p in m ==> Withdraw(m[p]) in WithdrawAll(order, m)
  {
    var r := WithdrawAll(order, m);
    WithdrawAllAt(order, m);
    forall e | e in r
      ensures e.Withdraw? && e.intent in m.Values
    {
      var i :| 0 <= i < |r| && r[i] == e;
      assert m[order[i]] in m.Values;
    }
    forall p | p in m
      ensures Withdraw(m[p]) in r
    {
      var i :| 0 <= i < |order| && order[i] == p;
      assert r[i] == Withdraw(m[p]);
    }
  }

  /**
   * Such a sweep withdraws nothing but the intents of the two tables, and every one of them;
   * it makes one call per entry.
   */
  lemma WithdrawsAllIntents(events: seq<IntentEvent>, north: map<ConnectPointPair, Intent>,
                            south: map<ConnectPointPair, Intent>)
    requires WithdrawsAll(events, north, south)
    ensures forall e :: e in events ==> e.Withdraw?
    ensures forall e :: e in events ==> e.intent in north.Values || e.intent in south.Values
    ensures forall p :: p in north ==> Withdraw(north[p]) in events
    ensures forall p :: p in south ==> Withdraw(south[p]) in events
  {
    var no: seq<ConnectPointPair>, so: seq<ConnectPointPair> :|
      Enumerates(no, north.Keys) && Enumerates(so, south.Keys)
      && events == WithdrawAll(no, north) + WithdrawAll(so, south);
    WithdrawAllCovers(no, north);
    WithdrawAllCovers(so, south);
  }

  /** Every call of `events` withdraws an intent of one of the two tables. */
  ghost predicate WithdrawsOnly(events: seq<IntentEvent>, north: map<ConnectPointPair, Intent>,
                                south: map<ConnectPointPair, Intent>)
  {
    forall e :: e in events ==> e.Withdraw? && (e.intent in north.Values || e.intent in south.Values)
  }

  /** Runs of calls that each withdraw only intents of the two tables, one after the other, do too. */
  lemma {:induction false} FlattenWithdrawsOnly(ess: seq<seq<IntentEvent>>, north: map<ConnectPointPair, Intent>,
                                                south: map<ConnectPointPair, Intent>)
    requires forall n :: 0 <= n < |ess| ==> WithdrawsOnly(ess[n], north, south)
    ensures WithdrawsOnly(Flatten(ess), north, south)
    decreases |ess|
  {
    if ess != [] {
      var m := |ess| - 1;
      assert forall n :: 0 <= n < m ==> ess[..m][n] == ess[n];
      FlattenWithdrawsOnly(ess[..m], north, south);
    }
  }

  /** Every intent of the two tables is withdrawn by some call of `events`. */
  ghost predicate WithdrawsEvery(events: seq<IntentEvent>, north: map<ConnectPointPair, Intent>,
                                 south: map<ConnectPointPair, Intent>)
  {
    (forall p :: p in north ==> Withdraw(north[p]) in events)
    && (forall p :: p in south ==> Withdraw(south[p]) in events)
  }

  /** A call of one of several runs is a call of the runs taken together. */
  lemma {:induction false} FlattenHas(ess: seq<seq<IntentEvent>>, n: nat, e: IntentEvent)
    requires n < |ess| && e in ess[n]
    ensures e in Flatten(ess)
    decreases |ess|
  {
    var m := |ess| - 1;
    if n < m {
      assert ess[..m][n] == ess[n];
      FlattenHas(ess[..m], n, e);
    }
  }

  /** When one of several runs withdraws all the intents of two tables, the runs together do. */
  lemma FlattenWithdrawsEvery(ess: seq<seq<IntentEvent>>, n: nat, north: map<ConnectPointPair, Intent>,
                              south: map<ConnectPointPair, Intent>)
    requires n < |ess| && WithdrawsAll(ess[n], north, south)
    ensures WithdrawsEvery(Flatten(ess), north, south)
  {
    WithdrawsAllIntents(ess[n], north, south);
    forall p | p in north
      ensures Withdraw(north[p]) in Flatten(ess)
    {
      FlattenHas(ess, n, Withdraw(north[p]));
    }
    forall p | p in south
      ensures Withdraw(south[p]) in Flatten(ess)
    {
      FlattenHas(ess, n, Withdraw(south[p]));
    }
  }

  /** Runs that are all empty make no call. */
  lemma {:induction false} FlattenEmpty(ess: seq<seq<IntentEvent>>)
    requires forall n :: 0 <= n < |ess| ==> ess[n] == []
    ensures Flatten(ess) == []
    decreases |ess|
  {
    if ess != [] {
      var m := |ess| - 1;
      assert forall n :: 0 <= n < m ==> ess[..m][n] == ess[n];
      FlattenEmpty(ess[..m]);
    }
  }

  /** `order` visits each key of `keys` exactly once. */
  predicate Enumerates<K>(order: seq<K>, keys: set<K>)
  {
    (forall i :: 0 <= i < |order| ==> order[i] in keys)
    && (forall k :: k in keys ==> k in order)
    && (forall i, j :: 0 <= i < j < |order| ==> Nth(order, i) != Nth(order, j))
  }

  /** The element at position `i`; distinctness is stated with it so that it is only used on demand. */
  function Nth<K>(s: seq<K>, i: nat): K
    requires i < |s|
  {
    s[i]
  }

  /** Visiting one more key, not visited before, enumerates the keys with that one added. */
  lemma EnumeratesSnoc<K>(order: seq<K>, keys: set<K>, k: K)
    requires Enumerates(order, keys) && k !in keys
    ensures Enumerates(order + [k], keys + {k})
  {
    var o := order + [k];
    forall i, j | 0 <= i < j < |o|
      ensures Nth(o, i) != Nth(o, j)
    {
      if j < |order| {
        assert Nth(order, i) != Nth(order, j);
      } else {
        assert o[i] == order[i] && order[i] in keys;
      }
    }
    forall x | x in keys + {k}
      ensures x in o
    {
      if x in keys {
        var i :| 0 <= i < |order| && order[i] == x;
        assert o[i] == x;
      } else {
        assert o[|order|] == x;
      }
    }
  }

  /** One more withdraw at the end of a sweep. */
  lemma WithdrawAllSnoc(order: seq<ConnectPointPair>, p: ConnectPointPair, m: map<ConnectPointPair, Intent>)
    requires (forall i :: 0 <= i < |order| ==> order[i] in m) && p in m
    ensures WithdrawAll(order + [p], m) == WithdrawAll(order, m) + [Withdraw(m[p])]
  {
    assert (order + [p])[..|order|] == order;
  }

  /** The calls of several sweeps, one after the other. */
  function Flatten(ess: seq<seq<IntentEvent>>): (r: seq<IntentEvent>)
    ensures ess == [] ==> r == []
  {
    if ess == [] then [] else Flatten(ess[..|ess| - 1]) + ess[|ess| - 1]
  }

  /** Calls logged in three runs are the calls of the first followed by those of the other two. */
  lemma LogAssoc(a: seq<IntentEvent>, b: seq<IntentEvent>, c: seq<IntentEvent>)
    ensures a + b + c == a + (b + c)
  {
  }

  /** One more sweep at the end. */
  lemma FlattenSnoc(ess: seq<seq<IntentEvent>>, es: seq<IntentEvent>)
    ensures Flatten(ess + [es]) == Flatten(ess) + es
  {
    assert (ess + [es])[..|ess|] == ess;
  }

  /** Withdrawing the northbound and then the southbound table in enumeration order is such a sweep. */
  lemma WithdrawsAllIntro(no: seq<ConnectPointPair>, so: seq<ConnectPointPair>,
                          north: map<ConnectPointPair, Intent>, south: map<ConnectPointPair, Intent>)
    requires Enumerates(no, north.Keys) && Enumerates(so, south.Keys)
    ensures WithdrawsAll(WithdrawAll(no, north) + WithdrawAll(so, south), north, south)
  {
  }

  /** Each of several sweeps withdraws all the intents of its own pair of tables. */
  ghost predicate EachWithdrawsAll(ess: seq<seq<IntentEvent>>, ts: seq<Tables>)
    decreases |ess|
  {
    |ess| == |ts|
    && (ess == [] ||
        (EachWithdrawsAll(ess[..|ess| - 1], ts[..|ts| - 1])
         && WithdrawsAll(ess[|ess| - 1], ts[|ts| - 1].north, ts[|ts| - 1].south)))
  }

  lemma EachWithdrawsAllSnoc(ess: seq<seq<IntentEvent>>, ts: seq<Tables>, es: seq<IntentEvent>, t: Tables)
    requires EachWithdrawsAll(ess, ts) && WithdrawsAll(es, t.north, t.south)
    ensures EachWithdrawsAll(ess + [es], ts + [t])
  {
    assert (ess + [es])[..|ess|] == ess && (ts + [t])[..|ts|] == ts;
  }

  lemma {:induction false} EachWithdrawsAllAt(ess: seq<seq<IntentEvent>>, ts: seq<Tables>)
    requires EachWithdrawsAll(ess, ts)
    ensures |ess| == |ts|
    ensures forall n :: 0 <= n < |ess| ==> WithdrawsAll(ess[n], ts[n].north, ts[n].south)
    decreases |ess|
  {
    if ess != [] {
      var m := |ess| - 1;
      EachWithdrawsAllAt(ess[..m], ts[..m]);
      forall n | 0 <= n < m
        ensures WithdrawsAll(ess[n], ts[n].north, ts[n].south)
      {
        assert ess[..m][n] == ess[n] && ts[..m][n] == ts[n];
      }
    }
  }
}
