/** Flow decomposition of voltha/core/flow_decomposer.py: logical flows and groups become rules for
    the devices on their route, on top of the default rules of voltha/core/logical_device_agent.py. */
module FlowDecomposer {
  import opened Wrappers
  import opened OpenFlow
  import opened Topology
  import opened RuleSelection

  type DeviceRules = map<DeviceId, seq<Flow>>

  // ----- what each kind of rule keeps of the logical flow -----

  predicate NotInPort(f: Field) {
    !f.InPort?
  }

  predicate ControllerField(f: Field) {
    !f.InPort? && !f.VlanVid?
  }

  predicate RootField(f: Field) {
    !f.InPort? && !f.EthType? && !f.Ipv4Dst?
  }

  predicate LeafField(f: Field) {
    !f.InPort? && !f.VlanVid? && !f.VlanPcp?
  }

  predicate NotOutput(a: Action) {
    !a.Output?
  }

  predicate NotGroup(a: Action) {
    !a.Group?
  }

  predicate NotPopOrOutput(a: Action) {
    !a.PopVlan? && !a.Output?
  }

  // ----- the rules -----

  function ControllerRule(flow: Flow, hop: Hop): Flow {
    MkFlowStat(flow.priority, flow.cookie,
               [InPort(hop.ingress)] + Filter(flow.fields, ControllerField),
               [PushVlan(0x8100), SetField(VlanVid(Present(4000))), Output(hop.egress)])
  }

  function GotoRule(flow: Flow, actions: seq<Action>, hop: Hop): Flow {
    MkFlowStat(flow.priority, flow.cookie,
               [InPort(hop.ingress)] + Filter(flow.fields, NotInPort),
               actions + [Output(hop.egress)])
  }

  function OutputRule(flow: Flow, actions: seq<Action>, hop: Hop): Flow {
    MkFlowStat(flow.priority, flow.cookie,
               [InPort(hop.ingress)] + Filter(flow.fields, NotInPort),
               Filter(actions, NotOutput) + [Output(hop.egress)])
  }

  function MulticastRootRule(flow: Flow, actions: seq<Action>, hop: Hop): Flow {
    MkFlowStat(flow.priority, flow.cookie,
               [InPort(hop.ingress)]
               + Filter(flow.fields, RootField),
               Filter(actions, NotGroup) + [PopVlan, Output(hop.egress)])
  }

  function MulticastLeafRule(flow: Flow, others: seq<Action>, hop: Hop): Flow {
    MkFlowStat(flow.priority, flow.cookie,
               [InPort(hop.ingress)]
               + Filter(flow.fields, LeafField),
               others + [Output(hop.egress)])
  }

  // ----- decompose_flow -----

  function Append(rules: DeviceRules, d: DeviceId, rule: Flow): DeviceRules {
    rules[d := (if d in rules then rules[d] else []) + [rule]]
  }

  /** The output port a bucket leaves in `out_port_no`, which keeps its value from the previous
      bucket when this one has no OUTPUT. */
  function BucketPort(bucket: Bucket, port: Option<nat>): Option<nat> {
    if bucket == [] then port
    else BucketPort(bucket[1..], if bucket[0].Output? then Some(bucket[0].port) else port)
  }

  function BucketOthers(bucket: Bucket): seq<Action> {
    Filter(bucket, NotPopOrOutput)
  }

  function DecomposeBuckets(r: Routes, flow: Flow, ingress: Hop, buckets: seq<Bucket>,
                            port: Option<nat>, acc: DeviceRules): Result<DeviceRules>
    decreases buckets
  {
    if buckets == [] then Ok(acc)
    else
      var port' := BucketPort(buckets[0], port);
      var route :- GetRoute(r, FirstInPort(flow.fields), port');
      if route.0 != Some(ingress) || route.1.None? then Raised
      else
        var egress := route.1.value;
        var rule := MulticastLeafRule(flow, BucketOthers(buckets[0]), egress);
        DecomposeBuckets(r, flow, ingress, buckets[1..], port', Append(acc, egress.device.id, rule))
  }

  function BucketsOf(groups: map<nat, GroupEntry>, groupId: nat): seq<Bucket> {
    if groupId in groups then groups[groupId].buckets else []
  }

  function DecomposeFlow(r: Routes, flow: Flow, groups: map<nat, GroupEntry>): Result<DeviceRules> {
    var actions :- GetActions(flow.instructions);
    var outPort := FirstOutput(actions);
    var (ingress, egress) :- GetRoute(r, FirstInPort(flow.fields), outPort);
    if outPort.Some? && IsController(outPort.value) then
      if egress.None? then Raised
      else Ok(map[egress.value.device.id := [ControllerRule(flow, egress.value)]])
    else if ingress.None? then
      Raised
    else if HasNextTable(flow.instructions) then
      if outPort.Some? then Raised
      else Ok(map[ingress.value.device.id := [GotoRule(flow, actions, ingress.value)]])
    else if outPort.Some? then
      if egress.None? then Raised
      else Ok(map[egress.value.device.id := [OutputRule(flow, actions, egress.value)]])
    else if !ingress.value.device.root || FirstGroup(actions).None? then
      Raised
    else
      DecomposeBuckets(r, flow, ingress.value, BucketsOf(groups, FirstGroup(actions).value), None,
                       map[ingress.value.device.id := [MulticastRootRule(flow, actions, ingress.value)]])
  }

  // ----- decompose_rules -----

  function Lookup(rules: DeviceRules, d: DeviceId): seq<Flow> {
    if d in rules then rules[d] else []
  }

  function Merge(tables: DeviceRules, rules: DeviceRules): DeviceRules {
    map d | d in tables.Keys + rules.Keys :: AddNew(Lookup(tables, d), Lookup(rules, d))
  }

  /** Groups by their id; the last of equal ids wins. */
  function GroupMap(groups: seq<GroupEntry>): map<nat, GroupEntry> {
    if groups == [] then map[]
    else
      var g := groups[|groups| - 1];
      GroupMap(groups[..|groups| - 1])[g.groupId := g]
  }

  function DecomposeAll(
    r: Routes, defaults: DeviceRules, flows: seq<Flow>, groups: map<nat, GroupEntry>): Result<DeviceRules> {
    if flows == [] then Ok(defaults)
    else
      var tables :- DecomposeAll(r, defaults, flows[..|flows| - 1], groups);
      var rules :- DecomposeFlow(r, flows[|flows| - 1], groups);
      Ok(Merge(tables, rules))
  }

  function DecomposeRules(
    r: Routes, defaults: DeviceRules, flows: seq<Flow>, groups: seq<GroupEntry>): Result<DeviceRules> {
    DecomposeAll(r, defaults, flows, GroupMap(groups))
  }

  lemma {:induction false} AllDecompose(
    r: Routes, defaults: DeviceRules, flows: seq<Flow>, groups: map<nat, GroupEntry>)
    ensures DecomposeAll(r, defaults, flows, groups).Ok? <==> forall f :: f in flows ==> DecomposeFlow(r, f, groups).Ok?
  {
    if flows != [] {
      var n := |flows| - 1;
      AllDecompose(r, defaults, flows[..n], groups);
      assert forall f :: f in flows <==> f in flows[..n] || f == flows[n];
    }
  }

  // ----- default rules -----

  function RootDefaults(t: Tree): seq<Flow> {
    [MkFlowStat(2000, 0, [InPort(t.edge), VlanVid(Present(4000)), VlanPcp(0)], [PopVlan, Output(t.pon)])]
  }

  function LeafDefaults(o: Onu): seq<Flow> {
    [MkFlowStat(500, 0, [InPort(o.edge), VlanVid(Present(0))],
                [SetField(VlanVid(Present(o.vlan))), Output(o.pon)]),
     MkFlowStat(500, 0, [InPort(o.edge), VlanVid(0)],
                [PushVlan(0x8100), SetField(VlanVid(Present(o.vlan))), Output(o.pon)]),
     MkFlowStat(500, 0, [InPort(o.pon), VlanVid(Present(o.vlan))],
                [SetField(VlanVid(Present(0))), Output(o.edge)])]
  }

  /** The default rules of every device of the tree. */
  function TreeDefaults(t: Tree): DeviceRules {
    OnuDefaults(t.onus)[t.oltId := RootDefaults(t)]
  }

  function OnuDefaults(onus: seq<Onu>): DeviceRules {
    if onus == [] then map[]
    else
      var o := onus[|onus| - 1];
      OnuDefaults(onus[..|onus| - 1])[o.id := LeafDefaults(o)]
  }

  // ----- what a device's table is made of -----

  /** What one flow contributes to one device. */
  function Contribution(r: Routes, flow: Flow, groups: map<nat, GroupEntry>, d: DeviceId): seq<Flow> {
    match DecomposeFlow(r, flow, groups)
    case Ok(rules) => Lookup(rules, d)
    case Raised => []
  }

  function Contributions(r: Routes, flows: seq<Flow>, groups: map<nat, GroupEntry>, d: DeviceId): seq<Flow> {
    if flows == [] then []
    else Contributions(r, flows[..|flows| - 1], groups, d) + Contribution(r, flows[|flows| - 1], groups, d)
  }

  /** A device's table is its default rules followed by what each flow contributes, in flow order,
      less the rules whose identifier came up before. */
  lemma {:induction false} TableIsDefaultsThenFlows(
    r: Routes, defaults: DeviceRules, flows: seq<Flow>, groups: map<nat, GroupEntry>, d: DeviceId)
    requires DecomposeAll(r, defaults, flows, groups).Ok?
    ensures var tables := DecomposeAll(r, defaults, flows, groups).value;
            && (d in defaults ==> d in tables)
            && Lookup(tables, d) == AddNew(Lookup(defaults, d), Contributions(r, flows, groups, d))
  {
    if flows != [] {
      var n := |flows| - 1;
      TableIsDefaultsThenFlows(r, defaults, flows[..n], groups, d);
      AddNewTwice(Lookup(defaults, d), Contributions(r, flows[..n], groups, d),
                  Contribution(r, flows[n], groups, d));
    }
  }

  lemma {:induction false} DefaultsOfTree(t: Tree, i: nat)
    requires ValidTree(t)
    ensures Lookup(TreeDefaults(t), t.oltId) == RootDefaults(t)
    ensures i < |t.onus| ==>
              t.onus[i].id in TreeDefaults(t) && Lookup(TreeDefaults(t), t.onus[i].id) == LeafDefaults(t.onus[i])
  {
    if i < |t.onus| {
      DefaultsOfOnus(t.onus, i);
    }
  }

  lemma {:induction false} DefaultsOfOnus(onus: seq<Onu>, i: nat)
    requires i < |onus| && forall j, k :: 0 <= j < k < |onus| ==> onus[j].id != onus[k].id
    ensures onus[i].id in OnuDefaults(onus) && OnuDefaults(onus)[onus[i].id] == LeafDefaults(onus[i])
  {
    if i < |onus| - 1 {
      DefaultsOfOnus(onus[..|onus| - 1], i);
    }
  }

  // ----- what can be decomposed -----

  /** Every bucket ends at a UNI, its own or, if it has no OUTPUT, that of the bucket before. */
  predicate BucketsRoutable(t: Tree, buckets: seq<Bucket>, port: Option<nat>) {
    buckets == [] ||
    var port' := BucketPort(buckets[0], port);
    port'.Some? && OnuAt(t, port'.value).Some? && BucketsRoutable(t, buckets[1..], port')
  }

  /** On a tree the loop over buckets raises only where a bucket ends at no UNI; in particular the
      assertion that the two ingress hops are equal never fails. */
  lemma {:induction false} BucketsDecompose(
    r: Routes, t: Tree, flow: Flow, buckets: seq<Bucket>, port: Option<nat>, acc: DeviceRules)
    requires Serves(r, t) && FirstInPort(flow.fields) == Some(t.nni)
    ensures DecomposeBuckets(r, flow, OltDown(t), buckets, port, acc).Ok? <==> BucketsRoutable(t, buckets, port)
    decreases buckets
  {
    if buckets != [] {
      var port' := BucketPort(buckets[0], port);
      RouteIsOrderIndependent(r, t, Some(t.nni), port');
      if port'.Some? && OnuAt(t, port'.value).Some? {
        var o := t.onus[OnuAt(t, port'.value).value];
        BucketsDecompose(r, t, flow, buckets[1..], port',
                         Append(acc, o.id, MulticastLeafRule(flow, BucketOthers(buckets[0]), OnuDown(o))));
      }
    }
  }

  /** The flows that can be decomposed on a tree: to the controller from a UNI or from anywhere, to
      the next table from the NNI or a UNI, between the NNI and a UNI, and from the NNI to a group
      all of whose buckets end at UNIs. */
  predicate Routable(t: Tree, f: Flow, groups: map<nat, GroupEntry>) {
    && GetActions(f.instructions).Ok?
    && var actions := GetActions(f.instructions).value;
    var source, target := FirstInPort(f.fields), FirstOutput(actions);
    if target.Some? && IsController(target.value) then
      |t.onus| > 0 && (source.Some? ==> OnuAt(t, source.value).Some?)
    else
      && source.Some?
      && if HasNextTable(f.instructions) then
           target.None? && (if source.value == t.nni then |t.onus| > 0 else OnuAt(t, source.value).Some?)
         else if target.Some? then
           || (source.value == t.nni && OnuAt(t, target.value).Some?)
           || (OnuAt(t, source.value).Some? && target.value == t.nni)
         else
           && source.value == t.nni && |t.onus| > 0 && FirstGroup(actions).Some?
           && BucketsRoutable(t, BucketsOf(groups, FirstGroup(actions).value), None)
  }

  /** decompose_flow raises on all other flows, and on no others. */
  lemma DecomposesWhenRoutable(r: Routes, t: Tree, f: Flow, groups: map<nat, GroupEntry>)
    requires Serves(r, t)
    ensures DecomposeFlow(r, f, groups).Ok? <==> Routable(t, f, groups)
  {
    if GetActions(f.instructions).Ok? {
      var actions := GetActions(f.instructions).value;
      var source, target := FirstInPort(f.fields), FirstOutput(actions);
      RouteIsOrderIndependent(r, t, source, target);
      if source == Some(t.nni) && target.None? && |t.onus| > 0 && FirstGroup(actions).Some? {
        BucketsDecompose(r, t, f, BucketsOf(groups, FirstGroup(actions).value), None,
                         map[t.oltId := [MulticastRootRule(f, actions, OltDown(t))]]);
      }
    }
  }
}
