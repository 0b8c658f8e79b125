/**
 * `IngressVlans`: the VLAN tags frames carry where they enter the SDN network at an access
 * point or a gateway, outermost tag first (an S-tag before a C-tag, as in IEEE 802.1ad).
 */
module IngressVlans {
  import opened Wrappers
  import opened Net
  import opened JavaInt
  import opened JavaText
  import opened Intents

  /** An ingress VLAN stack. Java's `equals` compares the lists, as `==` does here. */
  datatype Vlans = Vlans(vlanList: seq<VlanId>)

  /** The list with its `VlanId.NONE` entries left out, the others kept in order. */
  function WithoutNone(vids: seq<VlanId>): seq<VlanId>
  {
    if vids == [] then []
    else (if vids[0] == VLAN_NONE then [] else [vids[0]]) + WithoutNone(vids[1..])
  }

  lemma {:induction false} WithoutNoneAppend(vids: seq<VlanId>, v: VlanId)
    ensures WithoutNone(vids + [v]) == WithoutNone(vids) + (if v == VLAN_NONE then [] else [v])
  {
    if vids != [] {
      assert (vids + [v])[1..] == vids[1..] + [v];
      WithoutNoneAppend(vids[1..], v);
    } else {
      assert WithoutNone([v]) == (if v == VLAN_NONE then [] else [v]) + WithoutNone([]);
    }
  }

  /** Exactly the entries other than NONE survive; a list without NONE is kept as it is. */
  lemma {:induction false} WithoutNoneMembers(vids: seq<VlanId>)
    ensures forall v :: v in WithoutNone(vids) <==> v in vids && v != VLAN_NONE
    ensures |WithoutNone(vids)| <= |vids|
    ensures VLAN_NONE !in vids ==> WithoutNone(vids) == vids
  {
    if vids != [] {
      WithoutNoneMembers(vids[1..]);
      assert vids == [vids[0]] + vids[1..];
    }
  }

  /** `new IngressVlans()`. */
  function Empty(): Vlans { Vlans([]) }

  /** `new IngressVlans(List<VlanId>)`: a null list gives the empty stack. */
  method FromList(vids: Option<seq<VlanId>>) returns (r: Vlans)
    ensures vids.None? ==> r.vlanList == []
    ensures vids.Some? ==> r.vlanList == WithoutNone(vids.value)
  {
    var list: seq<VlanId> := [];
    if vids.Some? {
      var all := vids.value;
      var i := 0;
      while i < |all|
        invariant 0 <= i <= |all|
        invariant list == WithoutNone(all[..i])
      {
        WithoutNoneAppend(all[..i], all[i]);
        assert all[..i + 1] == all[..i] + [all[i]];
        if all[i] != VLAN_NONE {
          list := list + [all[i]];
        }
        i := i + 1;
      }
      assert all[..i] == all;
    }
    r := Vlans(list);
  }

  /** `new IngressVlans(VlanId)`. */
  function FromVlan(vlan: VlanId): (r: Vlans)
    ensures r.vlanList == WithoutNone([vlan])
  {
    if vlan == VLAN_NONE then Vlans([]) else Vlans([vlan])
  }

  /** `new IngressVlans(stag, ctag)`: the S-tag first, then the C-tag, each unless NONE. */
  function FromStacked(stag: VlanId, ctag: VlanId): (r: Vlans)
    ensures r.vlanList == WithoutNone([stag, ctag])
  {
    WithoutNoneAppend([], stag);
    WithoutNoneAppend([stag], ctag);
    assert [stag] + [ctag] == [stag, ctag] && [] + [stag] == [stag];
    Vlans((if stag == VLAN_NONE then [] else [stag]) + (if ctag == VLAN_NONE then [] else [ctag]))
  }

  /** Why the JSON constructor fails: `VlanId.vlanId` rejects a short above 4095 other than ANY. */
  datatype VlanError = VlanExceedsMaximum(value: int)

  /** The value with which ONOS's `VlanId.ANY` is built. */
  const VLAN_ANY: VlanId := 0x1000

  /**
   * The shorts `VlanId.vlanId(short)` accepts: NONE (0xffff, which is -1), ANY, and every value
   * up to 4095, the negative ones included; any other throws `IllegalArgumentException`.
   */
  predicate VlanAccepts(v: int)
  {
    v == VLAN_NONE || v == VLAN_ANY || v <= 4095
  }

  /**
   * `new IngressVlans(ArrayNode)`: every JSON integer is cast to `short` and becomes a VLAN id,
   * NONE (0xffff) included; a short `VlanId.vlanId` rejects makes the constructor throw.
   */
  method FromJsonArray(vids: Option<seq<int>>) returns (r: Result<Vlans, VlanError>)
    ensures vids.None? ==> r == Ok(Vlans([]))
    ensures vids.Some? ==> (r.Ok? <==> forall k :: 0 <= k < |vids.value| ==> VlanAccepts(ToShort(vids.value[k])))
    ensures r.Err? ==> !VlanAccepts(r.error.value) && vids.Some? && r.error.value in Shorts(vids.value)
    ensures vids.Some? && r.Ok? ==> |r.value.vlanList| == |vids.value|
    ensures vids.Some? && r.Ok? ==> forall k :: 0 <= k < |vids.value| ==> r.value.vlanList[k] == ToShort(vids.value[k])
    ensures vids.Some? && r.Ok? ==>
      forall k :: 0 <= k < |vids.value| && vids.value[k] % 0x1_0000 == 0xffff ==> r.value.vlanList[k] == VLAN_NONE
  {
    var list: seq<VlanId> := [];
    if vids.Some? {
      var all := vids.value;
      var i := 0;
      while i < |all|
        invariant 0 <= i <= |all| && |list| == i
        invariant forall k :: 0 <= k < i ==> list[k] == ToShort(all[k]) && VlanAccepts(list[k])
      {
        var v := ToShort(all[i]);
        if !VlanAccepts(v) {
          assert v == Shorts(all)[i];
          return Err(VlanExceedsMaximum(v));
        }
        list := list + [v];
        i := i + 1;
      }
      forall k | 0 <= k < |all| && all[k] % 0x1_0000 == 0xffff
        ensures list[k] == VLAN_NONE
      {
        NoneShort(all[k]);
      }
    }
    r := Ok(Vlans(list));
  }

  /** Each integer cast to `short`. */
  function Shorts(vids: seq<int>): (r: seq<int>)
    ensures |r| == |vids| && forall k :: 0 <= k < |vids| ==> r[k] == ToShort(vids[k])
  {
    seq(|vids|, k requires 0 <= k < |vids| => ToShort(vids[k]))
  }

  /** An integer whose low 16 bits are all set is cast to the short -1, which is NONE. */
  lemma NoneShort(x: int)
    requires x % 0x1_0000 == 0xffff
    ensures ToShort(x) == VLAN_NONE
  {
    var r := ToShort(x);
    assert (r - x) % 0x1_0000 == 0;
    assert (r + 1 - (x + 1)) % 0x1_0000 == 0;
    assert (x + 1) % 0x1_0000 == 0;
    assert (r + 1) % 0x1_0000 == 0;
  }

  /**
   * An entry whose low 16 bits are all set is NONE: `VlanId.vlanId` accepts it, so the JSON
   * constructor keeps it, while the single-tag constructor and the list constructor drop it.
   */
  lemma JsonKeepsNone(x: int, vids: seq<VlanId>)
    requires x % 0x1_0000 == 0xffff
    ensures ToShort(x) == VLAN_NONE && VlanAccepts(ToShort(x))
    ensures FromVlan(ToShort(x)).vlanList == []
    ensures ToShort(x) !in WithoutNone(vids + [ToShort(x)])
  {
    NoneShort(x);
    WithoutNoneMembers(vids + [ToShort(x)]);
  }

  /** `toString`: the short values in decimal, joined by "/". */
  function ToString(v: Vlans): string
  {
    Join(DecimalParts(v.vlanList), '/')
  }

  function DecimalParts(vids: seq<VlanId>): (r: seq<string>)
    ensures |r| == |vids|
    ensures forall k :: 0 <= k < |r| ==> r[k] == IntToDecimal(vids[k])
  {
    if vids == [] then [] else [IntToDecimal(vids[0])] + DecimalParts(vids[1..])
  }

  /** Reads the text `toString` prints: decimal numbers separated by "/". */
  function ParseVlanText(s: string): Option<seq<VlanId>>
  {
    if s == "" then Some([]) else ParseAll(SplitAll(s, '/'))
  }

  function ParseAll(parts: seq<string>): (r: Option<seq<VlanId>>)
    ensures r.Some? ==> |r.value| == |parts|
  {
    if parts == [] then Some([])
    else
      var head := ParseInt(parts[0]);
      var rest := ParseAll(parts[1..]);
      if head.Some? && rest.Some? then Some([head.value] + rest.value) else None
  }

  lemma ParseAllCons(head: string, tail: seq<string>)
    ensures ParseAll([head] + tail) ==
      if ParseInt(head).Some? && ParseAll(tail).Some? then Some([ParseInt(head).value] + ParseAll(tail).value) else None
  {
    assert ([head] + tail)[1..] == tail;
  }

  lemma {:induction false} ParseAllDecimal(vids: seq<VlanId>)
    requires forall k :: 0 <= k < |vids| ==> IsInt(vids[k])
    ensures ParseAll(DecimalParts(vids)) == Some(vids)
  {
    if vids != [] {
      var parts := DecimalParts(vids);
      assert parts == [IntToDecimal(vids[0])] + DecimalParts(vids[1..]);
      ParseIntRoundTrip(vids[0]);
      ParseAllDecimal(vids[1..]);
      ParseAllCons(IntToDecimal(vids[0]), DecimalParts(vids[1..]));
      assert vids == [vids[0]] + vids[1..];
    }
  }

  /** The text `toString` prints determines the stack. */
  lemma ToStringRoundTrip(v: Vlans)
    requires forall k :: 0 <= k < |v.vlanList| ==> IsShort(v.vlanList[k])
    ensures ParseVlanText(ToString(v)) == Some(v.vlanList)
  {
    var parts := DecimalParts(v.vlanList);
    if v.vlanList != [] {
      forall k | 0 <= k < |parts| ensures '/' !in parts[k] { }
      SplitAllJoin(parts, '/');
      assert ToString(v) != "" by {
        if |parts| == 1 { assert ToString(v) == parts[0]; }
        else { assert |ToString(v)| >= |parts[0]|; }
      }
      ParseAllDecimal(v.vlanList);
    }
  }

  /** One push-and-set pair per tag, in list order. */
  function PushAll(vids: seq<VlanId>): (r: seq<Instruction>)
    ensures |r| == 2 * |vids|
    ensures forall k :: 0 <= k < |vids| ==> r[2 * k] == PushVlan && r[2 * k + 1] == SetVlanId(vids[k])
  {
    if vids == [] then [] else [PushVlan, SetVlanId(vids[0])] + PushAll(vids[1..])
  }

  /** `count` pops. */
  function PopAll(count: nat): (r: seq<Instruction>)
    ensures |r| == count && forall k :: 0 <= k < count ==> r[k] == PopVlan
  {
    if count == 0 then [] else [PopVlan] + PopAll(count - 1)
  }

  function VlanMatches(vids: seq<VlanId>): (r: seq<Criterion>)
    ensures |r| == |vids| && forall k :: 0 <= k < |vids| ==> r[k] == MatchVlanId(vids[k])
  {
    if vids == [] then [] else [MatchVlanId(vids[0])] + VlanMatches(vids[1..])
  }

  /**
   * `vlanMatchAndTreatment`: the VLAN criteria it adds to the selector and the treatment it
   * builds, for traffic entering at a point with stack `ingress` and leaving at a point with
   * stack `egress`.
   */
  function VlanMatchAndTreatment(ingress: Vlans, egress: Vlans): (r: (seq<Criterion>, seq<Instruction>))
    ensures r.0 == VlanMatches(ingress.vlanList)
    ensures egress == ingress ==> r.1 == []
    ensures egress != ingress && ingress.vlanList == [] ==> r.1 == PushAll(egress.vlanList)
    ensures egress != ingress && ingress.vlanList != [] && egress.vlanList == []
            ==> r.1 == PopAll(|ingress.vlanList|)
    ensures ingress.vlanList != [] && egress.vlanList != [] && egress != ingress ==> r.1 == []
  {
    var matches := VlanMatches(ingress.vlanList);
    if egress.vlanList == ingress.vlanList then (matches, [])
    else if ingress.vlanList == [] then (matches, PushAll(egress.vlanList))
    else if egress.vlanList == [] then (matches, PopAll(|ingress.vlanList|))
    else (matches, [])
  }

  /**
   * What a treatment does to a frame's tag stack (outermost first), with OpenFlow's meaning of
   * the instructions: a push adds an outermost tag, a set rewrites the outermost VLAN id, a pop
   * removes the outermost tag.
   */
  function ApplyTreatment(stack: seq<VlanId>, actions: seq<Instruction>): seq<VlanId>
    decreases |actions|
  {
    if actions == [] then stack
    else
      var next := match actions[0]
        case PushVlan => [if stack == [] then 0 else stack[0]] + stack
        case SetVlanId(v) => if stack == [] then stack else [v] + stack[1..]
        case PopVlan => if stack == [] then stack else stack[1..];
      ApplyTreatment(next, actions[1..])
  }

  function Reverse(s: seq<VlanId>): seq<VlanId>
  {
    if s == [] then [] else Reverse(s[1..]) + [s[0]]
  }

  lemma {:induction false} ApplyPushAll(stack: seq<VlanId>, vids: seq<VlanId>)
    ensures ApplyTreatment(stack, PushAll(vids)) == Reverse(vids) + stack
    decreases |vids|
  {
    if vids != [] {
      var t := PushAll(vids);
      assert t[2..] == PushAll(vids[1..]);
      var pushed := [if stack == [] then 0 else stack[0]] + stack;
      assert ApplyTreatment(stack, t) == ApplyTreatment(pushed, t[1..]);
      assert t[1..][1..] == t[2..];
      assert ApplyTreatment(pushed, t[1..]) == ApplyTreatment([vids[0]] + stack, t[2..]);
      ApplyPushAll([vids[0]] + stack, vids[1..]);
      assert Reverse(vids[1..]) + ([vids[0]] + stack) == Reverse(vids) + stack;
    }
  }

  lemma {:induction false} ApplyPopAll(stack: seq<VlanId>, count: nat)
    requires count <= |stack|
    ensures ApplyTreatment(stack, PopAll(count)) == stack[count..]
  {
    if count > 0 {
      ApplyPopAll(stack[1..], count - 1);
      assert stack[1..][count - 1..] == stack[count..];
    }
  }

  /**
   * In the cases the source handles, frames entering with the ingress stack leave with the
   * egress stack: equal stacks need nothing, a single pushed tag and popping every tag work.
   */
  lemma TreatmentRestoresEgress(ingress: Vlans, egress: Vlans)
    requires egress == ingress || egress.vlanList == [] || (ingress.vlanList == [] && |egress.vlanList| <= 1)
    ensures ApplyTreatment(ingress.vlanList, VlanMatchAndTreatment(ingress, egress).1) == egress.vlanList
  {
    var t := VlanMatchAndTreatment(ingress, egress).1;
    if egress == ingress {
    } else if ingress.vlanList == [] {
      ApplyPushAll([], egress.vlanList);
      if egress.vlanList != [] {
        assert Reverse(egress.vlanList[1..]) == [];
      }
    } else {
      ApplyPopAll(ingress.vlanList, |ingress.vlanList|);
    }
  }

  /**
   * Pushing several egress tags in list order leaves them reversed on the frame: the tag meant
   * to be outermost ends up innermost. With egress [100, 200] the frame leaves with [200, 100].
   */
  lemma PushedStackIsReversed(egress: Vlans)
    requires egress.vlanList != []
    ensures ApplyTreatment([], VlanMatchAndTreatment(Empty(), egress).1) == Reverse(egress.vlanList)
    ensures ApplyTreatment([], VlanMatchAndTreatment(Empty(), Vlans([100, 200])).1) == [200, 100]
  {
    ApplyPushAll([], egress.vlanList);
    ApplyPushAll([], [100, 200]);
    assert Reverse([100, 200]) == Reverse([200]) + [100];
  }

  /** For two non-empty stacks that differ the source builds no treatment, so frames keep the ingress stack. */
  lemma UnhandledCaseKeepsIngress(ingress: Vlans, egress: Vlans)
    requires ingress.vlanList != [] && egress.vlanList != [] && ingress != egress
    ensures ApplyTreatment(ingress.vlanList, VlanMatchAndTreatment(ingress, egress).1) == ingress.vlanList
    ensures ingress.vlanList != egress.vlanList
  {
  }
}
