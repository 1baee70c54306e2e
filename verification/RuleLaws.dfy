/** What decompose_flow emits, rule by rule and attribute by attribute, in the numbers of OpenFlow 1.3.0:
    the rules of voltha/core/flow_decomposer.py spelled out for every kind of flow on a tree. */
module RuleLaws {
  import opened Wrappers
  import opened OpenFlow
  import opened Topology
  import opened RuleSelection
  import opened FlowDecomposer

  // ----- parts of a flow, by their place -----

  /** The actions are those of the first APPLY_ACTIONS instruction. */
  ghost predicate Applies(f: Flow, actions: seq<Action>) {
    exists k :: 0 <= k < |f.instructions| && f.instructions[k] == ApplyActions(actions)
                && forall j :: 0 <= j < k ==> !f.instructions[j].ApplyActions?
  }

  ghost predicate OutputsFirst(actions: seq<Action>, port: nat) {
    exists k :: 0 <= k < |actions| && actions[k] == Output(port) && forall j :: 0 <= j < k ==> !actions[j].Output?
  }

  ghost predicate NoOutput(actions: seq<Action>) {
    forall k :: 0 <= k < |actions| ==> !actions[k].Output?
  }

  ghost predicate GroupsFirst(actions: seq<Action>, id: nat) {
    exists k :: 0 <= k < |actions| && actions[k] == Group(id) && forall j :: 0 <= j < k ==> !actions[j].Group?
  }

  ghost predicate ComesFrom(f: Flow, port: nat) {
    exists k :: 0 <= k < |f.fields| && f.fields[k] == InPort(port) && forall j :: 0 <= j < k ==> !f.fields[j].InPort?
  }

  ghost predicate ComesFromAnywhere(f: Flow) {
    forall k :: 0 <= k < |f.fields| ==> !f.fields[k].InPort?
  }

  ghost predicate Continues(f: Flow) {
    exists table :: GotoTable(table) in f.instructions
  }

  lemma {:induction false} AppliesIsGetActions(f: Flow, instructions: seq<Instruction>, k: nat)
    requires k < |instructions| && instructions[k].ApplyActions?
    requires forall j :: 0 <= j < k ==> !instructions[j].ApplyActions?
    ensures GetActions(instructions) == Ok(instructions[k].actions)
    decreases k
  {
    if k > 0 {
      assert !instructions[0].ApplyActions?;
      AppliesIsGetActions(f, instructions[1..], k - 1);
    }
  }

  lemma {:induction false} OutputIsFirst(actions: seq<Action>, k: nat)
    requires k < |actions| && actions[k].Output? && forall j :: 0 <= j < k ==> !actions[j].Output?
    ensures FirstOutput(actions) == Some(actions[k].port)
    decreases k
  {
    if k > 0 {
      assert !actions[0].Output?;
      OutputIsFirst(actions[1..], k - 1);
    }
  }

  lemma {:induction false} GroupIsFirst(actions: seq<Action>, k: nat)
    requires k < |actions| && actions[k].Group? && forall j :: 0 <= j < k ==> !actions[j].Group?
    ensures FirstGroup(actions) == Some(actions[k].groupId)
    decreases k
  {
    if k > 0 {
      assert !actions[0].Group?;
      GroupIsFirst(actions[1..], k - 1);
    }
  }

  lemma {:induction false} InPortIsFirst(fields: seq<Field>, k: nat)
    requires k < |fields| && fields[k].InPort? && forall j :: 0 <= j < k ==> !fields[j].InPort?
    ensures FirstInPort(fields) == Some(fields[k].port)
    decreases k
  {
    if k > 0 {
      assert !fields[0].InPort?;
      InPortIsFirst(fields[1..], k - 1);
    }
  }

  lemma {:induction false} NoInPortIsNone(fields: seq<Field>)
    requires forall k :: 0 <= k < |fields| ==> !fields[k].InPort?
    ensures FirstInPort(fields) == None
  {
    if fields != [] {
      NoInPortIsNone(fields[1..]);
    }
  }

  /** The extractors find what stands first. */
  lemma {:induction false} Extracted(f: Flow, actions: seq<Action>)
    requires Applies(f, actions)
    ensures GetActions(f.instructions) == Ok(actions)
    ensures forall port: nat :: OutputsFirst(actions, port) ==> FirstOutput(actions) == Some(port)
    ensures NoOutput(actions) ==> FirstOutput(actions) == None
    ensures forall id: nat :: GroupsFirst(actions, id) ==> FirstGroup(actions) == Some(id)
    ensures forall port: nat :: ComesFrom(f, port) ==> FirstInPort(f.fields) == Some(port)
    ensures ComesFromAnywhere(f) ==> FirstInPort(f.fields) == None
    ensures HasNextTable(f.instructions) <==> Continues(f)
  {
    var k :| 0 <= k < |f.instructions| && f.instructions[k] == ApplyActions(actions)
             && forall j :: 0 <= j < k ==> !f.instructions[j].ApplyActions?;
    AppliesIsGetActions(f, f.instructions, k);
    forall port: nat | OutputsFirst(actions, port) ensures FirstOutput(actions) == Some(port) {
      var i :| 0 <= i < |actions| && actions[i] == Output(port) && forall j :: 0 <= j < i ==> !actions[j].Output?;
      OutputIsFirst(actions, i);
    }
    FirstOutputNone(actions);
    forall id: nat | GroupsFirst(actions, id) ensures FirstGroup(actions) == Some(id) {
      var i :| 0 <= i < |actions| && actions[i] == Group(id) && forall j :: 0 <= j < i ==> !actions[j].Group?;
      GroupIsFirst(actions, i);
    }
    forall port: nat | ComesFrom(f, port) ensures FirstInPort(f.fields) == Some(port) {
      var i :| 0 <= i < |f.fields| && f.fields[i] == InPort(port) && forall j :: 0 <= j < i ==> !f.fields[j].InPort?;
      InPortIsFirst(f.fields, i);
    }
    if ComesFromAnywhere(f) {
      NoInPortIsNone(f.fields);
    }
    if i :| 0 <= i < |f.instructions| && f.instructions[i].GotoTable? {
      assert GotoTable(f.instructions[i].tableId) in f.instructions;
    }
  }

  /** OFPP_CONTROLLER, with and without the high bit. */
  lemma ControllerPorts(port: nat)
    requires port < 0x1_0000_0000
    ensures IsController(port) <==> port == 0x7fff_fffd || port == 0xffff_fffd
  {}

  // ----- lists without some kinds -----

  /** OFPXMT_OFB_* of the match fields. */
  function FieldKind(x: Field): nat {
    match x
    case InPort(_) => 0
    case EthType(_) => 5
    case VlanVid(_) => 6
    case VlanPcp(_) => 7
    case IpProto(_) => 10
    case Ipv4Dst(_) => 12
    case UdpDst(_) => 16
    case OtherField(kind, _) => 100 + kind
  }

  /** OFPAT_* of the actions. */
  function ActionKind(a: Action): nat {
    match a
    case Output(_) => 0
    case PushVlan(_) => 17
    case PopVlan => 18
    case Group(_) => 22
    case SetField(_) => 25
    case OtherAction(kind) => 100 + kind
  }

  function Dropping<T>(xs: seq<T>, kind: T -> nat, dropped: set<nat>): seq<T> {
    if xs == [] then []
    else
      var n := |xs| - 1;
      Dropping(xs[..n], kind, dropped) + if kind(xs[n]) in dropped then [] else [xs[n]]
  }

  lemma {:induction false} FilterAppend<T(!new)>(a: seq<T>, b: seq<T>, keep: T -> bool)
    ensures Filter(a + b, keep) == Filter(a, keep) + Filter(b, keep)
  {
    if a == [] {
      assert a + b == b;
    } else {
      assert (a + b)[1..] == a[1..] + b;
      FilterAppend(a[1..], b, keep);
    }
  }

  lemma {:induction false} FilterLast<T(!new)>(xs: seq<T>, x: T, keep: T -> bool)
    ensures Filter(xs + [x], keep) == Filter(xs, keep) + if keep(x) then [x] else []
  {
    FilterAppend(xs, [x], keep);
    assert [x][1..] == [];
    assert Filter([x], keep) == if keep(x) then [x] else [];
  }

  lemma {:induction false} FilterDrops<T(!new)>(xs: seq<T>, keep: T -> bool, kind: T -> nat, dropped: set<nat>)
    requires forall x :: keep(x) <==> kind(x) !in dropped
    ensures Filter(xs, keep) == Dropping(xs, kind, dropped)
  {
    if xs != [] {
      var n := |xs| - 1;
      FilterDrops(xs[..n], keep, kind, dropped);
      FilterLast(xs[..n], xs[n], keep);
      assert xs == xs[..n] + [xs[n]];
    }
  }

  function FieldsBut(f: Flow, dropped: set<nat>): seq<Field> {
    Dropping(f.fields, FieldKind, dropped)
  }

  function ActionsBut(actions: seq<Action>, dropped: set<nat>): seq<Action> {
    Dropping(actions, ActionKind, dropped)
  }

  // ----- the rules, for every kind of flow -----

  /** A rule on behalf of a flow: its priority and cookie, table 0, and no flags, timeouts or counts. */
  function RuleFor(f: Flow, port: nat, fields: seq<Field>, actions: seq<Action>): Flow {
    Flow(0, f.priority, 0, f.cookie, [InPort(port)] + fields, [ApplyActions(actions)], 0, 0, 0, 0)
  }

  lemma RulesSpelledOut(f: Flow, actions: seq<Action>, hop: Hop)
    ensures GotoRule(f, actions, hop) == RuleFor(f, hop.ingress, FieldsBut(f, {0}), actions + [Output(hop.egress)])
    ensures OutputRule(f, actions, hop) ==
            RuleFor(f, hop.ingress, FieldsBut(f, {0}), ActionsBut(actions, {0}) + [Output(hop.egress)])
  {
    FilterDrops(f.fields, NotInPort, FieldKind, {0});
    FilterDrops(actions, NotOutput, ActionKind, {0});
  }

  lemma ControllerRuleSpelledOut(f: Flow, hop: Hop)
    ensures ControllerRule(f, hop) ==
            RuleFor(f, hop.ingress, FieldsBut(f, {0, 6}),
                    [PushVlan(0x8100), SetField(VlanVid(0x1000 + 4000)), Output(hop.egress)])
  {
    FilterDrops(f.fields, ControllerField, FieldKind, {0, 6});
  }

  lemma GroupRulesSpelledOut(f: Flow, actions: seq<Action>, bucket: Bucket, hop: Hop)
    ensures MulticastRootRule(f, actions, hop) ==
            RuleFor(f, hop.ingress, FieldsBut(f, {0, 5, 12}), ActionsBut(actions, {22}) + [PopVlan, Output(hop.egress)])
    ensures MulticastLeafRule(f, BucketOthers(bucket), hop) ==
            RuleFor(f, hop.ingress, FieldsBut(f, {0, 6, 7}), ActionsBut(bucket, {0, 18}) + [Output(hop.egress)])
  {
    FilterDrops(f.fields, RootField, FieldKind, {0, 5, 12});
    FilterDrops(f.fields, LeafField, FieldKind, {0, 6, 7});
    FilterDrops(actions, NotGroup, ActionKind, {22});
    FilterDrops(bucket, NotPopOrOutput, ActionKind, {0, 18});
  }

  /** To the controller, from a UNI or from anywhere: the OLT matches all but in_port and VLAN, on its
      PON port, and pushes the in-band tag 4000. */
  lemma ControllerFlowRules(
    r: Routes, t: Tree, f: Flow, groups: map<nat, GroupEntry>, actions: seq<Action>, port: nat)
    requires Serves(r, t) && |t.onus| > 0 && Applies(f, actions) && OutputsFirst(actions, port)
    requires port == 0x7fff_fffd || port == 0xffff_fffd
    requires ComesFromAnywhere(f) || exists i :: 0 <= i < |t.onus| && ComesFrom(f, t.onus[i].uni)
    ensures DecomposeFlow(r, f, groups) ==
            Ok(map[t.oltId := [RuleFor(f, t.pon, FieldsBut(f, {0, 6}),
                                       [PushVlan(0x8100), SetField(VlanVid(0x1000 + 4000)), Output(t.edge)])]])
  {
    Extracted(f, actions);
    ControllerPorts(port);
    ControllerRuleSpelledOut(f, OltUp(t));
    RouteIsOrderIndependent(r, t, FirstInPort(f.fields), Some(port));
  }

  /** To the next table, from a UNI: all but in_port, on the ONU, with the flow's actions, to the PON. */
  lemma UpstreamGotoRules(r: Routes, t: Tree, i: nat, f: Flow, groups: map<nat, GroupEntry>, actions: seq<Action>)
    requires Serves(r, t) && i < |t.onus| && Applies(f, actions) && NoOutput(actions) && Continues(f)
    requires ComesFrom(f, t.onus[i].uni)
    ensures DecomposeFlow(r, f, groups) ==
            Ok(map[t.onus[i].id := [RuleFor(f, t.onus[i].edge, FieldsBut(f, {0}), actions + [Output(t.onus[i].pon)])]])
  {
    Extracted(f, actions);
    RulesSpelledOut(f, actions, OnuUp(t.onus[i]));
    RouteIsOrderIndependent(r, t, Some(t.onus[i].uni), None);
  }

  /** The same from the NNI, on the OLT. */
  lemma DownstreamGotoRules(r: Routes, t: Tree, f: Flow, groups: map<nat, GroupEntry>, actions: seq<Action>)
    requires Serves(r, t) && |t.onus| > 0 && Applies(f, actions) && NoOutput(actions) && Continues(f)
    requires ComesFrom(f, t.nni)
    ensures DecomposeFlow(r, f, groups) ==
            Ok(map[t.oltId := [RuleFor(f, t.edge, FieldsBut(f, {0}), actions + [Output(t.pon)])]])
  {
    Extracted(f, actions);
    RulesSpelledOut(f, actions, OltDown(t));
    RouteIsOrderIndependent(r, t, Some(t.nni), None);
  }

  /** From a UNI to the NNI: all but in_port, on the OLT, with the actions other than OUTPUT, to its
      network port. */
  lemma UpstreamOutputRules(r: Routes, t: Tree, i: nat, f: Flow, groups: map<nat, GroupEntry>, actions: seq<Action>)
    requires Serves(r, t) && i < |t.onus| && Applies(f, actions) && OutputsFirst(actions, t.nni) && !Continues(f)
    requires ComesFrom(f, t.onus[i].uni)
    ensures DecomposeFlow(r, f, groups) ==
            Ok(map[t.oltId := [RuleFor(f, t.pon, FieldsBut(f, {0}), ActionsBut(actions, {0}) + [Output(t.edge)])]])
  {
    Extracted(f, actions);
    RulesSpelledOut(f, actions, OltUp(t));
    RouteIsOrderIndependent(r, t, Some(t.onus[i].uni), Some(t.nni));
  }

  /** From the NNI to a UNI, on the ONU, to its subscriber port. */
  lemma DownstreamOutputRules(r: Routes, t: Tree, i: nat, f: Flow, groups: map<nat, GroupEntry>, actions: seq<Action>)
    requires Serves(r, t) && i < |t.onus| && Applies(f, actions) && OutputsFirst(actions, t.onus[i].uni)
    requires ComesFrom(f, t.nni) && !Continues(f)
    ensures DecomposeFlow(r, f, groups) ==
            Ok(map[t.onus[i].id := [RuleFor(f, t.onus[i].pon, FieldsBut(f, {0}),
                                            ActionsBut(actions, {0}) + [Output(t.onus[i].edge)])]])
  {
    Extracted(f, actions);
    RulesSpelledOut(f, actions, OnuDown(t.onus[i]));
    RouteIsOrderIndependent(r, t, Some(t.nni), Some(t.onus[i].uni));
  }

  // ----- multicast, with any actions and any buckets -----

  function Flat(buckets: seq<Bucket>): seq<Action> {
    if buckets == [] then [] else Flat(buckets[..|buckets| - 1]) + buckets[|buckets| - 1]
  }

  function LastOutput(actions: seq<Action>): Option<nat> {
    if actions == [] then None
    else if actions[|actions| - 1].Output? then Some(actions[|actions| - 1].port)
    else LastOutput(actions[..|actions| - 1])
  }

  /** A bucket goes where the last OUTPUT up to its end points. */
  function Target(buckets: seq<Bucket>): Option<nat> {
    LastOutput(Flat(buckets))
  }

  /** The rules for one ONU, bucket by bucket: all but in_port and VLAN, on its PON port, with the
      bucket's actions other than POP_VLAN and OUTPUT, to its subscriber port. */
  function SubscriberRules(o: Onu, f: Flow, buckets: seq<Bucket>): seq<Flow> {
    if buckets == [] then []
    else
      var n := |buckets| - 1;
      SubscriberRules(o, f, buckets[..n]) +
      if Target(buckets) != Some(o.uni) then []
      else [RuleFor(f, o.pon, FieldsBut(f, {0, 6, 7}), ActionsBut(buckets[n], {0, 18}) + [Output(o.edge)])]
  }

  lemma {:induction false} BucketPortIsLast(before: seq<Action>, bucket: Bucket)
    ensures BucketPort(bucket, LastOutput(before)) == LastOutput(before + bucket)
    decreases bucket
  {
    if bucket == [] {
      assert before + bucket == before;
    } else {
      var next := before + [bucket[0]];
      assert next[..|next| - 1] == before;
      BucketPortIsLast(next, bucket[1..]);
      assert next + bucket[1..] == before + bucket;
    }
  }

  lemma {:induction false} OneMoreBucket(
    t: Tree, f: Flow, done: seq<Bucket>, bucket: Bucket, acc: DeviceRules, j: nat, k: nat)
    requires ValidTree(t) && j < |t.onus| && k < |t.onus| && Target(done + [bucket]) == Some(t.onus[j].uni)
    requires Lookup(acc, t.onus[k].id) == SubscriberRules(t.onus[k], f, done)
    ensures var o := t.onus[j];
            var acc' := Append(acc, o.id, MulticastLeafRule(f, BucketOthers(bucket), OnuDown(o)));
            && Lookup(acc', t.onus[k].id) == SubscriberRules(t.onus[k], f, done + [bucket])
            && Lookup(acc', t.oltId) == Lookup(acc, t.oltId)
  {
    var more := done + [bucket];
    assert more[..|more| - 1] == done && more[|more| - 1] == bucket;
    GroupRulesSpelledOut(f, [], bucket, OnuDown(t.onus[j]));
  }

  lemma {:induction false} BucketStep(
    r: Routes, t: Tree, f: Flow, rest: seq<Bucket>, before: Option<nat>, acc: DeviceRules)
    requires Serves(r, t) && FirstInPort(f.fields) == Some(t.nni) && rest != []
    requires DecomposeBuckets(r, f, OltDown(t), rest, before, acc).Ok?
    ensures var port := BucketPort(rest[0], before);
            && port.Some? && OnuAt(t, port.value).Some?
            && var o := t.onus[OnuAt(t, port.value).value];
            DecomposeBuckets(r, f, OltDown(t), rest, before, acc) ==
            DecomposeBuckets(r, f, OltDown(t), rest[1..], port,
                             Append(acc, o.id, MulticastLeafRule(f, BucketOthers(rest[0]), OnuDown(o))))
  {
    RouteIsOrderIndependent(r, t, Some(t.nni), BucketPort(rest[0], before));
  }

  lemma {:induction false} BucketTurn(
    r: Routes, t: Tree, f: Flow, all: seq<Bucket>, n: nat, acc: DeviceRules, k: nat) returns (acc': DeviceRules)
    requires Serves(r, t) && FirstInPort(f.fields) == Some(t.nni) && k < |t.onus| && n < |all|
    requires Lookup(acc, t.onus[k].id) == SubscriberRules(t.onus[k], f, all[..n])
    requires DecomposeBuckets(r, f, OltDown(t), all[n..], Target(all[..n]), acc).Ok?
    ensures DecomposeBuckets(r, f, OltDown(t), all[n..], Target(all[..n]), acc) ==
            DecomposeBuckets(r, f, OltDown(t), all[n + 1..], Target(all[..n + 1]), acc')
    ensures Lookup(acc', t.onus[k].id) == SubscriberRules(t.onus[k], f, all[..n + 1])
    ensures Lookup(acc', t.oltId) == Lookup(acc, t.oltId)
  {
    var done, bucket := all[..n], all[n];
    var port := BucketPort(bucket, Target(done));
    assert all[..n + 1] == done + [bucket] && all[..n + 1][..n] == done;
    assert all[n..][0] == bucket && all[n..][1..] == all[n + 1..];
    BucketPortIsLast(Flat(done), bucket);
    BucketStep(r, t, f, all[n..], Target(done), acc);
    var o := t.onus[OnuAt(t, port.value).value];
    acc' := Append(acc, o.id, MulticastLeafRule(f, BucketOthers(bucket), OnuDown(o)));
    OneMoreBucket(t, f, done, bucket, acc, OnuAt(t, port.value).value, k);
  }

  lemma {:induction false} BucketsMakeRules(
    r: Routes, t: Tree, f: Flow, all: seq<Bucket>, n: nat, acc: DeviceRules, k: nat)
    requires Serves(r, t) && FirstInPort(f.fields) == Some(t.nni) && k < |t.onus| && n <= |all|
    requires Lookup(acc, t.onus[k].id) == SubscriberRules(t.onus[k], f, all[..n])
    requires DecomposeBuckets(r, f, OltDown(t), all[n..], Target(all[..n]), acc).Ok?
    ensures var rules := DecomposeBuckets(r, f, OltDown(t), all[n..], Target(all[..n]), acc).value;
            && Lookup(rules, t.onus[k].id) == SubscriberRules(t.onus[k], f, all)
            && Lookup(rules, t.oltId) == Lookup(acc, t.oltId)
    decreases |all| - n
  {
    if n == |all| {
      assert all[..n] == all;
    } else {
      var acc' := BucketTurn(r, t, f, all, n, acc, k);
      BucketsMakeRules(r, t, f, all, n + 1, acc', k);
    }
  }

  /** From the NNI to a group: the OLT matches all but in_port, type and address, runs the actions other
      than GROUP, pops and sends to the PON; each ONU gets one rule for each bucket that goes to its
      UNI, in their order. A group that is not there has no buckets. */
  lemma {:induction false} GroupFlowRules(
    r: Routes, t: Tree, k: nat, f: Flow, groups: map<nat, GroupEntry>, actions: seq<Action>, id: nat)
    requires Serves(r, t) && k < |t.onus| && Applies(f, actions) && NoOutput(actions) && !Continues(f)
    requires ComesFrom(f, t.nni) && GroupsFirst(actions, id) && DecomposeFlow(r, f, groups).Ok?
    ensures var rules := DecomposeFlow(r, f, groups).value;
            && Lookup(rules, t.oltId) == [RuleFor(f, t.edge, FieldsBut(f, {0, 5, 12}),
                                                  ActionsBut(actions, {22}) + [PopVlan, Output(t.pon)])]
            && Lookup(rules, t.onus[k].id) ==
               SubscriberRules(t.onus[k], f, if id in groups then groups[id].buckets else [])
  {
    Extracted(f, actions);
    GroupRulesSpelledOut(f, actions, [], OltDown(t));
    RouteIsOrderIndependent(r, t, Some(t.nni), None);
    var acc := map[t.oltId := [MulticastRootRule(f, actions, OltDown(t))]];
    var all := BucketsOf(groups, id);
    assert all[..0] == [] && all[0..] == all && Flat([]) == [];
    BucketsMakeRules(r, t, f, all, 0, acc, k);
  }

  /** Decomposition finds the last group with an id. */
  lemma {:induction false} GroupsById(groups: seq<GroupEntry>, id: nat)
    ensures if id in GroupMap(groups) then
              exists i :: 0 <= i < |groups| && groups[i].groupId == id && GroupMap(groups)[id] == groups[i]
                          && forall j :: i < j < |groups| ==> groups[j].groupId != id
            else forall i :: 0 <= i < |groups| ==> groups[i].groupId != id
  {
    if groups != [] && groups[|groups| - 1].groupId != id {
      var n := |groups| - 1;
      GroupsById(groups[..n], id);
      if id in GroupMap(groups) {
        var i :| 0 <= i < n && groups[..n][i].groupId == id && GroupMap(groups)[id] == groups[..n][i]
                 && forall j :: i < j < n ==> groups[..n][j].groupId != id;
        assert groups[i] == groups[..n][i] && forall j :: i < j < n ==> groups[j] == groups[..n][j];
      }
    }
  }

  // ----- default rules -----

  function DefaultRule(priority: nat, fields: seq<Field>, actions: seq<Action>): Flow {
    Flow(0, priority, 0, 0, fields, [ApplyActions(actions)], 0, 0, 0, 0)
  }

  /** The OLT takes the in-band tag off frames from the network; an ONU gives its VLAN, with bit 12 set
      and the other bits as they are, to frames of the subscriber that have VLAN 0 or no tag, and takes
      it off frames from the PON. */
  lemma DefaultsSpelledOut(t: Tree, o: Onu, high: nat, low: nat)
    requires low < 0x1000 && (o.vlan == high * 0x2000 + low || o.vlan == high * 0x2000 + 0x1000 + low)
    ensures RootDefaults(t) == [DefaultRule(2000, [InPort(t.edge), VlanVid(0x1000 + 4000), VlanPcp(0)],
                                            [PopVlan, Output(t.pon)])]
    ensures var own := VlanVid(high * 0x2000 + 0x1000 + low);
            LeafDefaults(o) ==
            [DefaultRule(500, [InPort(o.edge), VlanVid(0x1000)], [SetField(own), Output(o.pon)]),
             DefaultRule(500, [InPort(o.edge), VlanVid(0)], [PushVlan(0x8100), SetField(own), Output(o.pon)]),
             DefaultRule(500, [InPort(o.pon), own], [SetField(VlanVid(0x1000)), Output(o.edge)])]
  {}

  // ----- whose rules they are -----

  /** A rule on behalf of a flow, on any routes whatever. */
  predicate Serving(rule: Flow, f: Flow) {
    && rule.cookie == f.cookie && rule.priority == f.priority && rule.tableId == 0 && rule.flags == 0
    && rule.idleTimeout == 0 && rule.hardTimeout == 0 && rule.packetCount == 0 && rule.byteCount == 0
  }

  ghost predicate AllServing(rules: DeviceRules, f: Flow) {
    forall d, rule :: d in rules && rule in rules[d] ==> Serving(rule, f)
  }

  lemma {:induction false} BucketRulesServe(
    r: Routes, f: Flow, ingress: Hop, buckets: seq<Bucket>, port: Option<nat>, acc: DeviceRules)
    requires AllServing(acc, f) && DecomposeBuckets(r, f, ingress, buckets, port, acc).Ok?
    ensures AllServing(DecomposeBuckets(r, f, ingress, buckets, port, acc).value, f)
    decreases buckets
  {
    if buckets != [] {
      var port' := BucketPort(buckets[0], port);
      var egress := GetRoute(r, FirstInPort(f.fields), port').value.1.value;
      var rule := MulticastLeafRule(f, BucketOthers(buckets[0]), egress);
      assert Serving(rule, f);
      BucketRulesServe(r, f, ingress, buckets[1..], port', Append(acc, egress.device.id, rule));
    }
  }

  /** Every rule a flow becomes, on any device, is on its behalf. */
  lemma RulesServe(r: Routes, f: Flow, groups: map<nat, GroupEntry>)
    requires DecomposeFlow(r, f, groups).Ok?
    ensures AllServing(DecomposeFlow(r, f, groups).value, f)
  {
    var actions := GetActions(f.instructions).value;
    var (ingress, egress) := GetRoute(r, FirstInPort(f.fields), FirstOutput(actions)).value;
    if ingress.Some? && FirstOutput(actions).None? && !HasNextTable(f.instructions) {
      var acc := map[ingress.value.device.id := [MulticastRootRule(f, actions, ingress.value)]];
      BucketRulesServe(r, f, ingress.value, BucketsOf(groups, FirstGroup(actions).value), None, acc);
    }
  }

  /** In whole tables every rule is a default rule or on behalf of some flow. */
  lemma {:induction false} TablesServe(
    r: Routes, defaults: DeviceRules, flows: seq<Flow>, groups: map<nat, GroupEntry>, d: DeviceId, rule: Flow)
    requires DecomposeAll(r, defaults, flows, groups).Ok?
    requires rule in Lookup(DecomposeAll(r, defaults, flows, groups).value, d)
    ensures rule in Lookup(defaults, d) || exists f :: f in flows && Serving(rule, f)
  {
    if flows != [] {
      var n := |flows| - 1;
      var tables := DecomposeAll(r, defaults, flows[..n], groups).value;
      var rules := DecomposeFlow(r, flows[n], groups).value;
      RulesServe(r, flows[n], groups);
      AddNewContents(Lookup(tables, d), Lookup(rules, d));
      if rule in Lookup(tables, d) {
        TablesServe(r, defaults, flows[..n], groups, d, rule);
      } else {
        assert flows[n] in flows && Serving(rule, flows[n]);
      }
    }
  }
}
