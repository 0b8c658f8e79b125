/**
 * `purgeHost` and `PurgeHostTask.run` of `APManager`, over the manager's access point map
 * `aps` and the order `order` in which its iteration visits the keys: every access point
 * forgets a host, and the periodic sweep purges the hosts whose removal is older than the
 * timeout.
 */
module Purging {
  import opened JavaInt
  import opened Intents
  import opened Services
  import opened HostInfos
  import opened FlowTables
  import opened Mobility
  import opened ConnectPointPairs

  /** What purging changes of an access point, and its intent tables. */
  datatype PointState = PointState(apHosts: map<nat, MobileHost>, roamingHosts: map<nat, MobileHost>, tables: FlowTables.Tables)

  /**
   * `ws` holds one run of calls per key among the first `i` of `order`: the withdraw of the roaming flows `north`
   * and `south` where the access point had the MAC `mac` roaming (in `s0`), none elsewhere.
   */
  ghost predicate Withdrew(mac: nat, north: map<ConnectPointPair, Intent>, south: map<ConnectPointPair, Intent>,
                           order: seq<nat>, i: nat, s0: map<nat, PointState>, ws: seq<seq<IntentEvent>>)
  {
    |ws| == i <= |order|
    && forall n :: 0 <= n < i ==>
         order[n] in s0 && if mac in s0[order[n]].roamingHosts then WithdrawsAll(ws[n], north, south) else ws[n] == []
  }

  /** One more turn of the purge: its calls `w` are logged after those of the earlier turns. */
  lemma WithdrewSnoc(mac: nat, north: map<ConnectPointPair, Intent>, south: map<ConnectPointPair, Intent>,
                     order: seq<nat>, i: nat, s0: map<nat, PointState>, log0: seq<IntentEvent>,
                     ws: seq<seq<IntentEvent>>, w: seq<IntentEvent>)
    requires Withdrew(mac, north, south, order, i, s0, ws) && i < |order| && order[i] in s0
    requires if mac in s0[order[i]].roamingHosts then WithdrawsAll(w, north, south) else w == []
    ensures Withdrew(mac, north, south, order, i + 1, s0, ws + [w])
    ensures log0 + Flatten(ws) + w == log0 + Flatten(ws + [w])
  {
    FlattenSnoc(ws, w);
    LogAssoc(log0, Flatten(ws), w);
    var v := ws + [w];
    forall n | 0 <= n < i + 1
      ensures order[n] in s0 && if mac in s0[order[n]].roamingHosts then WithdrawsAll(v[n], north, south) else v[n] == []
    {
      if n < i {
        assert v[n] == ws[n];
      }
    }
  }

  /**
   * The test `PurgeHostTask.run` applies to a local host: its removal was stamped and lies
   * longer ago than the timeout, `hostRemovedTimeout * 1000` computed as a Java `int`.
   */
  predicate Expired(removedTime: int, now: int, timeout: int)
  {
    removedTime != 0 && now - removedTime > IntMul(timeout, 1000)
  }

  /** The MACs in the host maps of `ex`, taken together. */
  function Union(ex: map<nat, set<nat>>): set<nat>
  {
    set k, m | k in ex && m in ex[k] :: m
  }

  /** The MACs in the sets of `ex` under the first `i` keys of `order`. */
  function Upto(order: seq<nat>, i: nat, ex: map<nat, set<nat>>): set<nat>
    requires i <= |order|
  {
    if i == 0 then {} else Upto(order, i - 1, ex) + if order[i - 1] in ex then ex[order[i - 1]] else {}
  }

  /** A MAC is collected by `Upto` exactly when the set under one of the first `i` keys holds it. */
  lemma {:induction false} UptoMembers(order: seq<nat>, i: nat, ex: map<nat, set<nat>>, m: nat)
    requires i <= |order|
    ensures m in Upto(order, i, ex) <==> exists n :: 0 <= n < i && order[n] in ex && m in ex[order[n]]
  {
    if i > 0 {
      UptoMembers(order, i - 1, ex, m);
    }
  }

  /** Over an enumeration of its keys, `Upto` collects every set of `ex`. */
  lemma UptoAll(order: seq<nat>, ex: map<nat, set<nat>>)
    requires Enumerates(order, ex.Keys)
    ensures Upto(order, |order|, ex) == Union(ex)
  {
    forall m | m in Union(ex)
      ensures m in Upto(order, |order|, ex)
    {
      var k :| k in ex && m in ex[k];
      var n :| 0 <= n < |order| && order[n] == k;
      UptoMembers(order, |order|, ex, m);
    }
    forall m | m in Upto(order, |order|, ex)
      ensures m in Union(ex)
    {
      UptoMembers(order, |order|, ex, m);
    }
  }

  /** Taking two key sets from a map one after the other takes their union. */
  lemma MinusMinus<V>(a: map<nat, V>, g: set<nat>, h: set<nat>)
    ensures a - g - h == a - (g + h)
  {
  }

  /** The keys among the first `j` of `keys` that are in `ex`. */
  function Swept(keys: seq<nat>, j: nat, ex: set<nat>): (r: set<nat>)
    requires j <= |keys|
    ensures r == set n | 0 <= n < j && keys[n] in ex :: keys[n]
  {
    if j == 0 then {} else Swept(keys, j - 1, ex) + (if keys[j - 1] in ex then {keys[j - 1]} else {})
  }

  /**
   * Swept over all of `keys`, which list the MACs `hosts` without `gone`, the MACs of `ex` that
   * are not among `gone` are met, so that together with `gone` they make all of `ex` and `gone`.
   */
  lemma SweptAll(keys: seq<nat>, hosts: set<nat>, gone: set<nat>, ex: set<nat>)
    requires Enumerates(keys, hosts - gone) && ex <= hosts
    ensures gone + Swept(keys, |keys|, ex) == gone + ex
  {
    forall m | m in ex && m !in gone
      ensures m in Swept(keys, |keys|, ex)
    {
      assert m in hosts - gone;
      var n :| 0 <= n < |keys| && keys[n] == m;
    }
  }

  /** The key at position `j` of an enumeration is not among those swept before it. */
  lemma NotSweptYet(keys: seq<nat>, j: nat, ex: set<nat>)
    requires j < |keys| && forall a, b :: 0 <= a < b < |keys| ==> Nth(keys, a) != Nth(keys, b)
    ensures keys[j] !in Swept(keys, j, ex)
  {
    forall n | 0 <= n < j
      ensures keys[n] != keys[j]
    {
      assert Nth(keys, n) != Nth(keys, j);
    }
  }

  lemma SweptSnoc(keys: seq<nat>, j: nat, ex: set<nat>)
    requires j < |keys|
    ensures Swept(keys, j + 1, ex) == Swept(keys, j, ex) + (if keys[j] in ex then {keys[j]} else {})
  {
  }

  /** Each host of `s0` has a host record, is filed under its MAC and uses the intent service `intents`. */
  ghost predicate FiledIn(s0: map<nat, PointState>, intents: IntentService)
  {
    forall k, m :: k in s0 && m in s0[k].apHosts ==>
      s0[k].apHosts[m].info.hostInfo.Some? && s0[k].apHosts[m].MacKey() == m && s0[k].apHosts[m].intents == intents
  }

  /** `done` holds the first `i` keys of `order` and none of the others. */
  ghost predicate DoneTo<K>(order: seq<K>, i: nat, done: set<K>)
  {
    i <= |order|
    && (forall n :: 0 <= n < i ==> order[n] in done)
    && forall n :: i <= n < |order| ==> order[n] !in done
  }

  /** After the last key every key is done. */
  lemma DoneAll<K>(order: seq<K>, keys: set<K>, done: set<K>)
    requires Enumerates(order, keys) && DoneTo(order, |order|, done)
    ensures keys <= done
  {
    forall k | k in keys
      ensures k in done
    {
      var n :| 0 <= n < |order| && order[n] == k;
    }
  }

  /** The next key of an enumeration is not done yet, and adding it advances by one key. */
  lemma DoneStep<K>(order: seq<K>, keys: set<K>, i: nat, done: set<K>)
    requires Enumerates(order, keys) && DoneTo(order, i, done) && i < |order|
    ensures order[i] !in done && DoneTo(order, i + 1, done + {order[i]})
  {
    forall n | i + 1 <= n < |order|
      ensures order[n] != order[i]
    {
      assert Nth(order, n) != Nth(order, i);
    }
  }

  /** One access point's state with the MACs `gone` taken out of both host maps. */
  function Less(p: PointState, gone: set<nat>): PointState
  {
    PointState(p.apHosts - gone, p.roamingHosts - gone, p.tables)
  }

  /** Taking MACs out twice takes out both sets. */
  lemma LessLess(p: PointState, g: set<nat>, h: set<nat>)
    ensures Less(Less(p, g), h) == Less(p, g + h)
  {
    MinusMinus(p.apHosts, g, h);
    MinusMinus(p.roamingHosts, g, h);
  }


  /** The host maps and tables of the access point under `k`. */
  ghost function PointAt(aps: map<nat, AccessPoint>, k: nat): PointState
    requires k in aps
    reads aps[k]
  {
    PointState(aps[k].apHosts, aps[k].roamingHosts, aps[k].Tables())
  }

  /** The host maps and tables of every access point, by key. */
  ghost function Snapshot(aps: map<nat, AccessPoint>): (s: map<nat, PointState>)
    reads aps.Values
    ensures s.Keys == aps.Keys
  {
    map k | k in aps :: PointAt(aps, k)
  }

  /**
   * The shape of the manager's map: `order` lists its keys once each, every access point is
   * filed under the bits of its own MAC (so distinct keys hold distinct objects) and uses the
   * intent service `intents`.
   */
  ghost predicate Directory(aps: map<nat, AccessPoint>, order: seq<nat>, intents: IntentService)
  {
    Enumerates(order, aps.Keys)
    && forall k :: k in aps ==> aps[k].config.mac.bits == k && aps[k].intents == intents
  }

  /**
   * `purgeHost(host)`: `removeHost(host)` at every access point, in the map's order. Each
   * point loses the host's MAC from both of its maps, and a point where it roamed withdraws
   * the host's roaming intents; the withdraw calls of the `n`th point are `withdrawn[n]`.
   */
  method PurgeHost(aps: map<nat, AccessPoint>, order: seq<nat>, intents: IntentService, host: MobileHost)
    returns (ghost withdrawn: seq<seq<IntentEvent>>)
    requires Directory(aps, order, intents) && host.info.hostInfo.Some? && host.intents == intents
    modifies aps.Values, intents
    ensures forall k :: k in aps ==> PointAt(aps, k) == Less(old(PointAt(aps, k)), {host.MacKey()})
    ensures |withdrawn| == |order| && intents.log == old(intents.log) + Flatten(withdrawn)
    ensures forall n :: 0 <= n < |order| ==>
      if host.MacKey() in old(aps[order[n]].roamingHosts)
      then WithdrawsAll(withdrawn[n], host.north, host.south) else withdrawn[n] == []
  {
    ghost var s0 := Snapshot(aps);
    ghost var done: set<nat> := {};
    withdrawn := [];
    for i := 0 to |order|
      invariant DoneTo(order, i, done) && PurgedTo(aps, {host.MacKey()}, done, s0)
      invariant PurgeLogged(order, intents, host, i, s0, old(intents.log), withdrawn)
    {
      DoneStep(order, aps.Keys, i, done);
      withdrawn := RemoveAt(aps, order, intents, host, i, done, s0, old(intents.log), withdrawn);
      done := done + {order[i]};
    }
    DoneAll(order, aps.Keys, done);
  }

  /** The calls of the first `i` turns of `purgeHost` are logged after `log0`, turn by turn in `ws`. */
  ghost predicate PurgeLogged(order: seq<nat>, intents: IntentService, host: MobileHost, i: nat, s0: map<nat, PointState>,
                              log0: seq<IntentEvent>, ws: seq<seq<IntentEvent>>)
    reads host, intents
  {
    host.info.hostInfo.Some? && intents.log == log0 + Flatten(ws)
    && Withdrew(host.MacKey(), host.north, host.south, order, i, s0, ws)
  }

  /**
   * The access points under the keys `done` have lost the MACs `gone` from the maps they had
   * in `s0`; the others are as in `s0`; no table has changed.
   */
  ghost predicate PurgedTo(aps: map<nat, AccessPoint>, gone: set<nat>, done: set<nat>, s0: map<nat, PointState>)
    reads aps.Values
  {
    s0.Keys == aps.Keys
    && forall k :: k in aps ==> PointAt(aps, k) == if k in done then Less(s0[k], gone) else s0[k]
  }

  /** One turn of `purgeHost`: `removeHost(host)` at the access point under the `i`th key. */
  method RemoveAt(aps: map<nat, AccessPoint>, order: seq<nat>, intents: IntentService, host: MobileHost, i: nat,
                  ghost done: set<nat>, ghost s0: map<nat, PointState>, ghost log0: seq<IntentEvent>,
                  ghost ws: seq<seq<IntentEvent>>) returns (ghost next: seq<seq<IntentEvent>>)
    requires Directory(aps, order, intents) && host.info.hostInfo.Some? && host.intents == intents
    requires i < |order| && order[i] !in done
    requires PurgedTo(aps, {host.MacKey()}, done, s0) && PurgeLogged(order, intents, host, i, s0, log0, ws)
    modifies aps[order[i]], intents
    ensures PurgedTo(aps, {host.MacKey()}, done + {order[i]}, s0) && PurgeLogged(order, intents, host, i + 1, s0, log0, next)
  {
    var key := order[i];
    var accessPoint := aps[key];
    ghost var mac := host.MacKey();
    ghost var before := PointAt(aps, key);
    assert before == s0[key];
    var w := accessPoint.RemoveHost(host);
    assert PointAt(aps, key) == Less(before, {mac});
    forall k | k in aps && k != key
      ensures PointAt(aps, k) == old(PointAt(aps, k))
    {
      assert aps[k].config.mac.bits != accessPoint.config.mac.bits;
    }
    WithdrewSnoc(mac, host.north, host.south, order, i, s0, log0, ws, w);
    next := ws + [w];
  }

  /**
   * `PurgeHostTask.run` at the clock reading `now`, with `hostRemovedTimeout` at `timeout`:
   * every local host whose removal time is set and older than the timeout is purged. A purge
   * removes only the MAC of the host it purges, so the sweep over a map that shrinks meets
   * each entry the map had: it is the sweep over the entries as they were.
   */
  method Sweep(aps: map<nat, AccessPoint>, order: seq<nat>, intents: IntentService, now: int, timeout: int)
    returns (ghost purged: seq<MobileHost>, ghost withdrawn: seq<seq<IntentEvent>>)
    requires Directory(aps, order, intents) && HostsFiled(aps, intents)
    modifies aps.Values, intents
    ensures forall k :: k in aps ==> PointAt(aps, k) == Less(old(PointAt(aps, k)), old(Expiring(aps, now, timeout)))
    ensures SweepLogged(old(intents.log), intents.log, old(Expiring(aps, now, timeout)), old(Snapshot(aps)), purged, withdrawn)
  {
    ghost var s0 := Snapshot(aps);
    ghost var ex0 := ExpiredMap(aps, now, timeout);
    ghost var infos := LocalInfos(aps);
    SweepStarts(aps, now, timeout, intents, s0, ex0, infos);
    purged, withdrawn := [], [];
    for i := 0 to |order|
      invariant Without(aps, Upto(order, i, ex0), s0) && ExpiryIs(s0, ex0, now, timeout, infos)
      invariant SweepLogged(old(intents.log), intents.log, Union(ex0), s0, purged, withdrawn)
    {
      purged, withdrawn := SweepPoint(aps, order, intents, now, timeout, i, s0, ex0, infos, old(intents.log), purged, withdrawn);
    }
    UptoAll(order, ex0);
  }

  /**
   * The intent calls of a sweep so far: after `log0` come the runs `ws`, one per purged host,
   * and the run of the `n`th purged host, an expired one, withdraws only intents of its own
   * tables, and all of them when it roamed at some access point of `s0`.
   */
  ghost predicate SweepLogged(log0: seq<IntentEvent>, log: seq<IntentEvent>, expiring: set<nat>,
                              s0: map<nat, PointState>, purged: seq<MobileHost>, ws: seq<seq<IntentEvent>>)
    reads purged
  {
    |purged| == |ws| && log == log0 + Flatten(ws)
    && forall n :: 0 <= n < |purged| ==>
         purged[n].info.hostInfo.Some? && purged[n].MacKey() in expiring
         && WithdrawsOnly(ws[n], purged[n].north, purged[n].south) && PurgeWithdrew(ws[n], purged[n], s0)
  }

  /**
   * The calls `events` of purging `host`: every intent of its tables is withdrawn when it
   * roamed at some access point of `s0`, and nothing is called when it roamed at none.
   */
  ghost predicate PurgeWithdrew(events: seq<IntentEvent>, host: MobileHost, s0: map<nat, PointState>)
    requires host.info.hostInfo.Some?
    reads host
  {
    (forall k :: k in s0 && host.MacKey() in s0[k].roamingHosts ==> WithdrawsEvery(events, host.north, host.south))
    && ((forall k :: k in s0 ==> host.MacKey() !in s0[k].roamingHosts) ==> events == [])
  }

  /** One more purged host, whose calls `w` come after the others. */
  lemma SweepLoggedSnoc(log0: seq<IntentEvent>, log: seq<IntentEvent>, expiring: set<nat>, s0: map<nat, PointState>,
                        purged: seq<MobileHost>, ws: seq<seq<IntentEvent>>, h: MobileHost, w: seq<IntentEvent>)
    requires SweepLogged(log0, log, expiring, s0, purged, ws)
    requires h.info.hostInfo.Some? && h.MacKey() in expiring && WithdrawsOnly(w, h.north, h.south)
    requires PurgeWithdrew(w, h, s0)
    ensures SweepLogged(log0, log + w, expiring, s0, purged + [h], ws + [w])
  {
    FlattenSnoc(ws, w);
    LogAssoc(log0, Flatten(ws), w);
    forall n | 0 <= n < |purged| + 1
      ensures (purged + [h])[n].info.hostInfo.Some? && (purged + [h])[n].MacKey() in expiring
              && WithdrawsOnly((ws + [w])[n], (purged + [h])[n].north, (purged + [h])[n].south)
              && PurgeWithdrew((ws + [w])[n], (purged + [h])[n], s0)
    {
      if n < |purged| {
        assert (purged + [h])[n] == purged[n] && (ws + [w])[n] == ws[n];
      }
    }
  }

  /** Every local host has a host record, is filed under the bits of its MAC and uses the intent service `intents`. */
  ghost predicate HostsFiled(aps: map<nat, AccessPoint>, intents: IntentService)
    reads aps.Values
  {
    forall k, m :: k in aps && m in aps[k].apHosts ==>
      aps[k].apHosts[m].info.hostInfo.Some? && aps[k].apHosts[m].MacKey() == m && aps[k].apHosts[m].intents == intents
  }

  /** Before the sweep: the hosts are filed, the expired ones are those of `ExpiredMap`, none is gone yet. */
  lemma SweepStarts(aps: map<nat, AccessPoint>, now: int, timeout: int, intents: IntentService,
                    s0: map<nat, PointState>, ex0: map<nat, set<nat>>, infos: set<HostInfo>)
    requires HostsFiled(aps, intents)
    requires s0 == Snapshot(aps) && ex0 == ExpiredMap(aps, now, timeout) && infos == LocalInfos(aps)
    ensures FiledIn(s0, intents) && ExpiryIs(s0, ex0, now, timeout, infos) && Without(aps, {}, s0)
  {
    forall k | k in s0
      ensures Less(s0[k], {}) == s0[k]
    {
      assert s0[k].apHosts - {} == s0[k].apHosts;
      assert s0[k].roamingHosts - {} == s0[k].roamingHosts;
    }
  }

  /** The MACs of the expired local hosts of each access point. */
  ghost function ExpiredMap(aps: map<nat, AccessPoint>, now: int, timeout: int): (ex: map<nat, set<nat>>)
    reads aps.Values, LocalInfos(aps)
    ensures ex.Keys == aps.Keys
  {
    map k | k in aps :: set m | m in aps[k].apHosts && Expired(aps[k].apHosts[m].info.removedTime, now, timeout)
  }

  /** The MACs of every expired local host. */
  ghost function Expiring(aps: map<nat, AccessPoint>, now: int, timeout: int): set<nat>
    reads aps.Values, LocalInfos(aps)
  {
    Union(ExpiredMap(aps, now, timeout))
  }

  /** The records of the local hosts. */
  ghost function LocalInfos(aps: map<nat, AccessPoint>): set<HostInfo>
    reads aps.Values
  {
    set k, m | k in aps && m in aps[k].apHosts :: aps[k].apHosts[m].info
  }

  /** Every access point's host maps are those of `s0` without the MACs `gone`, its tables those of `s0`. */
  ghost predicate Without(aps: map<nat, AccessPoint>, gone: set<nat>, s0: map<nat, PointState>)
    reads aps.Values
  {
    s0.Keys == aps.Keys && forall k :: k in aps ==> PointAt(aps, k) == Less(s0[k], gone)
  }

  /** `ex` names the hosts of `s0`, whose records are among `infos`, that are expired at `now`. */
  ghost predicate ExpiryIs(s0: map<nat, PointState>, ex: map<nat, set<nat>>, now: int, timeout: int, infos: set<HostInfo>)
    reads infos
  {
    s0.Keys == ex.Keys
    && (forall k :: k in s0 ==> ex[k] <= s0[k].apHosts.Keys)
    && forall k, m :: k in s0 && m in s0[k].apHosts ==>
         s0[k].apHosts[m].info in infos
         && (m in ex[k] <==> Expired(s0[k].apHosts[m].info.removedTime, now, timeout))
  }

  /** One turn of the sweep's outer loop: the local hosts of the `i`th access point in the map's order. */
  method SweepPoint(aps: map<nat, AccessPoint>, order: seq<nat>, intents: IntentService, now: int, timeout: int, i: nat,
                    ghost s0: map<nat, PointState>, ghost ex0: map<nat, set<nat>>, ghost infos: set<HostInfo>,
                    ghost log0: seq<IntentEvent>, ghost purged: seq<MobileHost>, ghost ws: seq<seq<IntentEvent>>)
    returns (ghost purged': seq<MobileHost>, ghost ws': seq<seq<IntentEvent>>)
    requires Directory(aps, order, intents) && FiledIn(s0, intents) && i < |order|
    requires ExpiryIs(s0, ex0, now, timeout, infos) && Without(aps, Upto(order, i, ex0), s0)
    requires SweepLogged(log0, intents.log, Union(ex0), s0, purged, ws)
    modifies aps.Values, intents
    ensures ExpiryIs(s0, ex0, now, timeout, infos) && Without(aps, Upto(order, i + 1, ex0), s0)
    ensures SweepLogged(log0, intents.log, Union(ex0), s0, purged', ws')
  {
    var key := order[i];
    var local := aps[key].apHosts;
    var keys := EnumerateKeys(local.Keys);
    ghost var gone := Upto(order, i, ex0);
    SweepPointStarts(aps, order, now, timeout, i, local, keys, s0, ex0, infos);
    purged', ws' := purged, ws;
    for j := 0 to |keys|
      invariant SweptHosts(aps, now, timeout, local, keys, j, key, gone, s0, ex0, infos)
      invariant SweepLogged(log0, intents.log, Union(ex0), s0, purged', ws')
    {
      purged', ws' := SweepHost(aps, order, intents, now, timeout, local, keys, j, key, gone, s0, ex0, infos, log0, purged', ws');
    }
    SweepPointEnds(aps, order, now, timeout, i, local, keys, s0, ex0, infos);
  }

  /**
   * Inside the turn for the access point under `key`, whose local hosts were `local` when the
   * turn began, listed by `keys`: the hosts under the first `j` keys have been dealt with.
   */
  ghost predicate SweptHosts(aps: map<nat, AccessPoint>, now: int, timeout: int, local: map<nat, MobileHost>,
                             keys: seq<nat>, j: nat, key: nat, gone: set<nat>,
                             s0: map<nat, PointState>, ex0: map<nat, set<nat>>, infos: set<HostInfo>)
    reads aps.Values, infos
  {
    j <= |keys| && key in s0 && local == s0[key].apHosts - gone && Enumerates(keys, local.Keys)
    && ExpiryIs(s0, ex0, now, timeout, infos) && Without(aps, gone + Swept(keys, j, ex0[key]), s0)
  }

  /** At the start of a turn of the outer loop no host of its access point has been dealt with. */
  lemma SweepPointStarts(aps: map<nat, AccessPoint>, order: seq<nat>, now: int, timeout: int, i: nat,
                         local: map<nat, MobileHost>, keys: seq<nat>, s0: map<nat, PointState>,
                         ex0: map<nat, set<nat>>, infos: set<HostInfo>)
    requires Enumerates(order, aps.Keys) && i < |order| && local == aps[order[i]].apHosts && Enumerates(keys, local.Keys)
    requires ExpiryIs(s0, ex0, now, timeout, infos) && Without(aps, Upto(order, i, ex0), s0)
    ensures SweptHosts(aps, now, timeout, local, keys, 0, order[i], Upto(order, i, ex0), s0, ex0, infos)
  {
    var gone := Upto(order, i, ex0);
    assert PointAt(aps, order[i]) == Less(s0[order[i]], gone);
    assert gone + Swept(keys, 0, ex0[order[i]]) == gone;
  }

  /** At the end of a turn of the outer loop the expired hosts of its access point are gone too. */
  lemma SweepPointEnds(aps: map<nat, AccessPoint>, order: seq<nat>, now: int, timeout: int, i: nat,
                       local: map<nat, MobileHost>, keys: seq<nat>, s0: map<nat, PointState>,
                       ex0: map<nat, set<nat>>, infos: set<HostInfo>)
    requires i < |order| && SweptHosts(aps, now, timeout, local, keys, |keys|, order[i], Upto(order, i, ex0), s0, ex0, infos)
    ensures ExpiryIs(s0, ex0, now, timeout, infos) && Without(aps, Upto(order, i + 1, ex0), s0)
  {
    var key := order[i];
    var gone := Upto(order, i, ex0);
    SweptAll(keys, s0[key].apHosts.Keys, gone, ex0[key]);
    assert Upto(order, i + 1, ex0) == gone + Swept(keys, |keys|, ex0[key]);
  }

  /** One turn of the sweep's inner loop: the host under the `j`th key of `local`. */
  method SweepHost(aps: map<nat, AccessPoint>, order: seq<nat>, intents: IntentService, now: int, timeout: int,
                   local: map<nat, MobileHost>, keys: seq<nat>, j: nat, key: nat, ghost gone: set<nat>,
                   ghost s0: map<nat, PointState>, ghost ex0: map<nat, set<nat>>, ghost infos: set<HostInfo>,
                   ghost log0: seq<IntentEvent>, ghost purged: seq<MobileHost>, ghost ws: seq<seq<IntentEvent>>)
    returns (ghost purged': seq<MobileHost>, ghost ws': seq<seq<IntentEvent>>)
    requires Directory(aps, order, intents) && FiledIn(s0, intents) && j < |keys|
    requires SweptHosts(aps, now, timeout, local, keys, j, key, gone, s0, ex0, infos)
    requires SweepLogged(log0, intents.log, Union(ex0), s0, purged, ws)
    modifies aps.Values, intents
    ensures SweptHosts(aps, now, timeout, local, keys, j + 1, key, gone, s0, ex0, infos)
    ensures SweepLogged(log0, intents.log, Union(ex0), s0, purged', ws')
  {
    var apHost := local[keys[j]];
    ghost var before := gone + Swept(keys, j, ex0[key]);
    ghost var after := gone + Swept(keys, j + 1, ex0[key]);
    SweptSnoc(keys, j, ex0[key]);
    purged', ws' := purged, ws;
    if Expired(apHost.info.removedTime, now, timeout) {
      assert keys[j] in ex0[key];
      assert after == before + {keys[j]};
      assert apHost.MacKey() in Union(ex0);
      NotSweptYet(keys, j, ex0[key]);
      purged', ws' := SweepPurge(aps, order, intents, apHost, now, timeout, before, s0, ex0, infos, log0, purged, ws);
    } else {
      assert keys[j] !in ex0[key];
      assert after == before;
    }
  }

  /** `purgeHost(host)` for an expired host inside the sweep, whose calls are logged after those of the hosts purged before. */
  method SweepPurge(aps: map<nat, AccessPoint>, order: seq<nat>, intents: IntentService, host: MobileHost,
                    now: int, timeout: int, ghost before: set<nat>, ghost s0: map<nat, PointState>,
                    ghost ex0: map<nat, set<nat>>, ghost infos: set<HostInfo>,
                    ghost log0: seq<IntentEvent>, ghost purged: seq<MobileHost>, ghost ws: seq<seq<IntentEvent>>)
    returns (ghost purged': seq<MobileHost>, ghost ws': seq<seq<IntentEvent>>)
    requires Directory(aps, order, intents) && host.info.hostInfo.Some? && host.intents == intents
    requires ExpiryIs(s0, ex0, now, timeout, infos) && Without(aps, before, s0)
    requires host.MacKey() in Union(ex0) && host.MacKey() !in before
    requires SweepLogged(log0, intents.log, Union(ex0), s0, purged, ws)
    modifies aps.Values, intents
    ensures ExpiryIs(s0, ex0, now, timeout, infos) && Without(aps, before + {host.MacKey()}, s0)
    ensures SweepLogged(log0, intents.log, Union(ex0), s0, purged', ws')
  {
    ghost var log1 := intents.log;
    ghost var w := PurgeExpired(aps, order, intents, host, now, timeout, before, s0, ex0, infos);
    SweepLoggedSnoc(log0, log1, Union(ex0), s0, purged, ws, host, w);
    purged', ws' := purged + [host], ws + [w];
  }

  /** `purgeHost(host)` inside the sweep: one more MAC is gone, and the removal stamps stay as they were. */
  method PurgeExpired(aps: map<nat, AccessPoint>, order: seq<nat>, intents: IntentService, host: MobileHost,
                      now: int, timeout: int, ghost before: set<nat>, ghost s0: map<nat, PointState>,
                      ghost ex0: map<nat, set<nat>>, ghost infos: set<HostInfo>) returns (ghost events: seq<IntentEvent>)
    requires Directory(aps, order, intents) && host.info.hostInfo.Some? && host.intents == intents
    requires ExpiryIs(s0, ex0, now, timeout, infos) && Without(aps, before, s0) && host.MacKey() !in before
    modifies aps.Values, intents
    ensures ExpiryIs(s0, ex0, now, timeout, infos) && Without(aps, before + {host.MacKey()}, s0)
    ensures intents.log == old(intents.log) + events && WithdrawsOnly(events, host.north, host.south)
    ensures PurgeWithdrew(events, host, s0)
  {
    ghost var mac := host.MacKey();
    ghost var w := PurgeHost(aps, order, intents, host);
    forall k | k in s0 && mac in s0[k].roamingHosts
      ensures WithdrawsEvery(Flatten(w), host.north, host.south)
    {
      var n :| 0 <= n < |order| && order[n] == k;
      assert old(PointAt(aps, k)) == Less(s0[k], before);
      assert mac in old(aps[order[n]].roamingHosts);
      FlattenWithdrawsEvery(w, n, host.north, host.south);
    }
    if forall k :: k in s0 ==> mac !in s0[k].roamingHosts {
      forall n | 0 <= n < |w|
        ensures w[n] == []
      {
        assert old(PointAt(aps, order[n])) == Less(s0[order[n]], before);
      }
      FlattenEmpty(w);
    }
    forall n | 0 <= n < |w|
      ensures WithdrawsOnly(w[n], host.north, host.south)
    {
      if w[n] != [] {
        WithdrawsAllIntents(w[n], host.north, host.south);
      }
    }
    FlattenWithdrawsOnly(w, host.north, host.south);
    events := Flatten(w);
    forall k | k in aps
      ensures PointAt(aps, k) == Less(s0[k], before + {host.MacKey()})
    {
      LessLess(s0[k], before, {host.MacKey()});
    }
  }
}
