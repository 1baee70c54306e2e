/** Every rule that decomposition produces, for any flows and groups, carries a frame from one side
    of its device to the other; hence frames cannot loop between the OLT and the ONUs. */
module LoopFreedom {
  import opened Wrappers
  import opened OpenFlow
  import opened PonMachine
  import opened RuleSelection
  import opened Topology
  import opened FlowDecomposer

  /** One in_port, checked first; one OUTPUT, performed last, to the opposite side. */
  predicate OneSided(rule: Flow, edge: nat, pon: nat) {
    && |rule.fields| > 0
    && rule.fields[0].InPort?
    && (forall k :: 1 <= k < |rule.fields| ==> !rule.fields[k].InPort?)
    && GetActions(rule.instructions).Ok?
    && var actions := GetActions(rule.instructions).value;
    && |actions| > 0
    && actions[|actions| - 1].Output?
    && (forall k :: 0 <= k < |actions| - 1 ==> !actions[k].Output?)
    && var from, to := rule.fields[0].port, actions[|actions| - 1].port;
    (from == edge && to == pon) || (from == pon && to == edge)
  }

  /** The rule is one-sided for the device of the tree that bears this id. */
  ghost predicate SidedFor(t: Tree, d: DeviceId, rule: Flow) {
    || (d == t.oltId && OneSided(rule, t.edge, t.pon))
    || (exists i :: 0 <= i < |t.onus| && d == t.onus[i].id && OneSided(rule, t.onus[i].edge, t.onus[i].pon))
  }

  ghost predicate AllSided(t: Tree, rules: DeviceRules) {
    forall d, rule :: d in rules && rule in rules[d] ==> SidedFor(t, d, rule)
  }

  lemma MkIsOneSided(priority: nat, cookie: bv64, port: nat, fields: seq<Field>, actions: seq<Action>, out: nat)
    requires forall f :: f in fields ==> !f.InPort?
    requires forall a :: a in actions ==> !a.Output?
    ensures OneSided(MkFlowStat(priority, cookie, [InPort(port)] + fields, actions + [Output(out)]), port, out)
    ensures OneSided(MkFlowStat(priority, cookie, [InPort(port)] + fields, actions + [Output(out)]), out, port)
  {
    var rule := MkFlowStat(priority, cookie, [InPort(port)] + fields, actions + [Output(out)]);
    assert forall k :: 1 <= k < |rule.fields| ==> rule.fields[k] in fields;
    assert forall k :: 0 <= k < |actions| ==> (actions + [Output(out)])[k] in actions;
  }

  predicate Crosses(hop: Hop, edge: nat, pon: nat) {
    (hop.ingress == edge && hop.egress == pon) || (hop.ingress == pon && hop.egress == edge)
  }

  /** A hop that enters on one side and leaves on the other, of a device of the tree. */
  ghost predicate CrossingHop(t: Tree, hop: Hop) {
    || (hop.device.id == t.oltId && Crosses(hop, t.edge, t.pon))
    || (exists i :: 0 <= i < |t.onus| && hop.device.id == t.onus[i].id && Crosses(hop, t.onus[i].edge, t.onus[i].pon))
  }

  lemma CrossingRule(t: Tree, hop: Hop, priority: nat, cookie: bv64, fields: seq<Field>, actions: seq<Action>)
    requires CrossingHop(t, hop)
    requires forall f :: f in fields ==> !f.InPort?
    requires forall a :: a in actions ==> !a.Output?
    ensures SidedFor(t, hop.device.id,
                     MkFlowStat(priority, cookie, [InPort(hop.ingress)] + fields, actions + [Output(hop.egress)]))
  {
    MkIsOneSided(priority, cookie, hop.ingress, fields, actions, hop.egress);
  }

  lemma RoutesCross(r: Routes, t: Tree, ingress: Option<nat>, egress: Option<nat>)
    requires Serves(r, t) && GetRoute(r, ingress, egress).Ok?
    ensures var (a, b) := GetRoute(r, ingress, egress).value;
            (a.Some? ==> CrossingHop(t, a.value)) && (b.Some? ==> CrossingHop(t, b.value))
  {
    RouteIsOrderIndependent(r, t, ingress, egress);
  }

  /** No branch of decompose_flow emits anything but one-sided rules. */
  lemma FlowRulesAreSided(r: Routes, t: Tree, flow: Flow, groups: map<nat, GroupEntry>)
    requires Serves(r, t) && DecomposeFlow(r, flow, groups).Ok?
    ensures AllSided(t, DecomposeFlow(r, flow, groups).value)
  {
    var actions := GetActions(flow.instructions).value;
    var outPort := FirstOutput(actions);
    var (ingress, egress) := GetRoute(r, FirstInPort(flow.fields), outPort).value;
    RoutesCross(r, t, FirstInPort(flow.fields), outPort);
    FirstOutputNone(actions);
    if outPort.Some? && IsController(outPort.value) {
      var hop := egress.value;
      var tag := [PushVlan(0x8100), SetField(VlanVid(Present(4000)))];
      CrossingRule(t, hop, flow.priority, flow.cookie, Filter(flow.fields, ControllerField), tag);
      assert tag + [Output(hop.egress)] == [PushVlan(0x8100), SetField(VlanVid(Present(4000))), Output(hop.egress)];
      assert ControllerRule(flow, hop) == MkFlowStat(flow.priority, flow.cookie,
        [InPort(hop.ingress)] + Filter(flow.fields, ControllerField), tag + [Output(hop.egress)]);
    } else if HasNextTable(flow.instructions) {
      CrossingRule(t, ingress.value, flow.priority, flow.cookie, Filter(flow.fields, NotInPort), actions);
    } else if outPort.Some? {
      CrossingRule(t, egress.value, flow.priority, flow.cookie, Filter(flow.fields, NotInPort),
                   Filter(actions, NotOutput));
    } else {
      var hop := ingress.value;
      var kept := Filter(actions, NotGroup);
      CrossingRule(t, hop, flow.priority, flow.cookie,
                   Filter(flow.fields, RootField), kept + [PopVlan]);
      assert kept + [PopVlan] + [Output(hop.egress)] == kept + [PopVlan, Output(hop.egress)];
      var root := MulticastRootRule(flow, actions, hop);
      assert SidedFor(t, hop.device.id, root);
      BucketRulesAreSided(r, t, flow, hop, BucketsOf(groups, FirstGroup(actions).value), None,
                          map[hop.device.id := [root]]);
    }
  }

  lemma {:induction false} BucketRulesAreSided(
    r: Routes, t: Tree, flow: Flow, ingress: Hop, buckets: seq<Bucket>, port: Option<nat>, acc: DeviceRules)
    requires Serves(r, t) && AllSided(t, acc)
    requires DecomposeBuckets(r, flow, ingress, buckets, port, acc).Ok?
    ensures AllSided(t, DecomposeBuckets(r, flow, ingress, buckets, port, acc).value)
    decreases buckets
  {
    if buckets != [] {
      var port' := BucketPort(buckets[0], port);
      RoutesCross(r, t, FirstInPort(flow.fields), port');
      var egress := GetRoute(r, FirstInPort(flow.fields), port').value.1.value;
      var rule := MulticastLeafRule(flow, BucketOthers(buckets[0]), egress);
      CrossingRule(t, egress, flow.priority, flow.cookie,
                   Filter(flow.fields, LeafField), BucketOthers(buckets[0]));
      BucketRulesAreSided(r, t, flow, ingress, buckets[1..], port', Append(acc, egress.device.id, rule));
    }
  }

  lemma {:induction false} DefaultsAreSided(t: Tree)
    requires ValidTree(t)
    ensures AllSided(t, TreeDefaults(t))
  {
    var root := RootDefaults(t)[0];
    assert root.fields == [InPort(t.edge)] + [VlanVid(Present(4000)), VlanPcp(0)];
    assert OneSided(root, t.edge, t.pon);
    OnuDefaultsAreSided(t, t.onus);
  }

  lemma {:induction false} OnuDefaultsAreSided(t: Tree, onus: seq<Onu>)
    requires onus <= t.onus
    ensures AllSided(t, OnuDefaults(onus))
  {
    if onus != [] {
      var n := |onus| - 1;
      OnuDefaultsAreSided(t, onus[..n]);
      assert onus[n] == t.onus[n];
      assert forall rule :: rule in LeafDefaults(onus[n]) ==> OneSided(rule, onus[n].edge, onus[n].pon);
    }
  }

  /** Loop freedom, first half: every rule of every table, for any flows and any groups. */
  lemma {:induction false} TablesAreSided(r: Routes, t: Tree, flows: seq<Flow>, groups: map<nat, GroupEntry>)
    requires Serves(r, t) && DecomposeAll(r, TreeDefaults(t), flows, groups).Ok?
    ensures AllSided(t, DecomposeAll(r, TreeDefaults(t), flows, groups).value)
  {
    if flows == [] {
      DefaultsAreSided(t);
    } else {
      var n := |flows| - 1;
      TablesAreSided(r, t, flows[..n], groups);
      FlowRulesAreSided(r, t, flows[n], groups);
      var tables := DecomposeAll(r, TreeDefaults(t), flows[..n], groups).value;
      var rules := DecomposeFlow(r, flows[n], groups).value;
      forall d, rule | d in Merge(tables, rules) && rule in Merge(tables, rules)[d] ensures SidedFor(t, d, rule) {
        AddNewContents(Lookup(tables, d), Lookup(rules, d));
      }
    }
  }

  // ----- the simulator on one-sided tables -----

  lemma {:induction false} RunActionsSplit(a: seq<Action>, b: seq<Action>, s: ActionState)
    ensures RunActions(a + b, s) ==
            match RunActions(a, s) case Ok(s') => RunActions(b, s') case Raised => Raised
  {
    if a == [] {
      assert a + b == b;
    } else {
      assert (a + b)[1..] == a[1..] + b;
      match RunAction(a[0], s)
      case Ok(s') => RunActionsSplit(a[1..], b, s');
      case Raised =>
    }
  }

  predicate SidedTable(rules: seq<Flow>) {
    forall rule :: rule in rules ==> OneSided(rule, EDGE, PON)
  }

  function Opposite(port: nat): nat {
    if port == EDGE then PON else EDGE
  }

  lemma {:induction false} SidedProcess(rules: seq<Flow>, port: nat, fr: Frame)
    requires SidedTable(rules)
    ensures var o := ProcessFrame(rules, port, fr);
            o.Ok? && o.value.Forward? ==> o.value.egress == Some(Opposite(port))
  {
    if rules != [] {
      assert rules[0] in rules;
      SidedProcess(rules[1..], port, fr);
      if IsMatch(rules[0].fields, port, fr) == Yes {
        var actions := GetActions(rules[0].instructions).value;
        var n := |actions| - 1;
        assert actions == actions[..n] + [actions[n]];
        RunActionsSplit(actions[..n], [actions[n]], Start(fr));
      }
    }
  }

  ghost predicate SidedNet(net: Net, olt: seq<Flow>, onus: seq<seq<Flow>>) {
    && net == PonNet(olt, onus)
    && SidedTable(olt)
    && forall i :: 0 <= i < |onus| ==> SidedTable(onus[i])
  }

  lemma {:induction false} SidedStation(net: Net, olt: seq<Flow>, onus: seq<seq<Flow>>, d: nat, port: nat, fr: Frame)
    requires SidedNet(net, olt, onus) && d < |net|
    ensures var o := ProcessFrame(net[d].flows, port, fr);
            o.Ok? && o.value.Forward? ==> o.value.egress == Some(Opposite(port))
  {
    var rules := if d == 0 then olt else onus[d - 1];
    assert net[d].flows == SortedByPriority(rules);
    SortingKeepsSides(rules);
    SidedProcess(SortedByPriority(rules), port, fr);
  }

  lemma {:induction false} SortingKeepsSides(rules: seq<Flow>)
    requires SidedTable(rules)
    ensures SidedTable(SortedByPriority(rules))
  {
    SortedContents(rules);
    forall rule | rule in SortedByPriority(rules) ensures OneSided(rule, EDGE, PON) {
      assert rule in multiset(SortedByPriority(rules));
    }
  }

  /** The port by which a device is known outside. */
  function OutsidePort(d: nat): nat {
    if d == 0 then OLT_PORT else OnuPort(d - 1)
  }

  /** From the PON side a frame can only leave through the device's edge. */
  lemma {:induction false} FromPon(net: Net, olt: seq<Flow>, onus: seq<seq<Flow>>, d: nat, fr: Frame, depth: nat)
    requires SidedNet(net, olt, onus) && d < |net| && depth >= 1
    ensures Ingress(net, d, PON, fr, depth) == Ingress(net, d, PON, fr, 1)
    ensures Ingress(net, d, PON, fr, depth).status != TooDeep
    ensures |Ingress(net, d, PON, fr, depth).out| <= 1
    ensures forall c :: c in Ingress(net, d, PON, fr, depth).out ==> c.0 == OutsidePort(d)
  {
    SidedStation(net, olt, onus, d, PON, fr);
    match ProcessFrame(net[d].flows, PON, fr)
    case Ok(Forward(egress, fr', _, _)) =>
      assert LinksOf(net, d, egress) == [ToUser(OutsidePort(d))];
      HandToUser(net, OutsidePort(d), fr', depth - 1);
      HandToUser(net, OutsidePort(d), fr', 0);
    case _ =>
  }

  lemma {:induction false} HandToUser(net: Net, port: nat, fr: Frame, depth: nat)
    requires WiredWithin(net)
    ensures Hand(net, [ToUser(port)], fr, depth) == Trace([(port, fr)], fr, Done)
  {
    assert [ToUser(port)][1..] == [];
    assert Hand(net, [], fr, depth) == Trace([], fr, Done);
  }

  lemma {:induction false} HandToPon(
    net: Net, olt: seq<Flow>, onus: seq<seq<Flow>>, links: seq<Link>, fr: Frame, depth: nat)
    requires SidedNet(net, olt, onus) && depth >= 1
    requires forall l :: l in links ==> LinkWithin(l, |net|) && l.ToDevice? && l.port == PON
    ensures Hand(net, links, fr, depth) == Hand(net, links, fr, 1)
    ensures Hand(net, links, fr, depth).status != TooDeep
  {
    if links != [] {
      assert links[0] in links;
      assert LinkWithin(links[0], |net|);
      FromPon(net, olt, onus, links[0].device, fr, depth);
      var first := Ingress(net, links[0].device, PON, fr, depth);
      if first.status == Done {
        HandToPon(net, olt, onus, links[1..], first.fr, depth);
      }
    }
  }

  /** Loop freedom, second half: on such tables the recursion of ingress is at most two devices
      deep, for every frame at every outside port, and allowing more depth changes nothing. */
  lemma IngressTerminates(net: Net, olt: seq<Flow>, onus: seq<seq<Flow>>, d: nat, fr: Frame, depth: nat)
    requires SidedNet(net, olt, onus) && d < |net| && depth >= 2
    ensures Inject(net, d, fr, depth) == Inject(net, d, fr, 2)
    ensures Inject(net, d, fr, depth).status != TooDeep
  {
    SidedStation(net, olt, onus, d, EDGE, fr);
    match ProcessFrame(net[d].flows, EDGE, fr)
    case Ok(Forward(egress, fr', _, _)) =>
      HandToPon(net, olt, onus, LinksOf(net, d, egress), fr', depth - 1);
    case _ =>
  }

  /** The numbers PonSim wires: network and subscriber ports are 2, PON ports are 1. */
  predicate PonSimPorts(t: Tree) {
    t.edge == EDGE && t.pon == PON && forall i :: 0 <= i < |t.onus| ==> t.onus[i].edge == EDGE && t.onus[i].pon == PON
  }

  /** The simulator with the decomposed tables of the tree's devices installed. */
  function InstalledNet(t: Tree, tables: DeviceRules): (net: Net)
    ensures |net| == |t.onus| + 1 && WiredWithin(net)
  {
    PonNet(Lookup(tables, t.oltId), seq(|t.onus|, i requires 0 <= i < |t.onus| => Lookup(tables, t.onus[i].id)))
  }

  lemma SidedTables(r: Routes, t: Tree, flows: seq<Flow>, groups: seq<GroupEntry>) returns (onus: seq<seq<Flow>>)
    requires Serves(r, t) && PonSimPorts(t) && DecomposeRules(r, TreeDefaults(t), flows, groups).Ok?
    ensures var tables := DecomposeRules(r, TreeDefaults(t), flows, groups).value;
            SidedNet(InstalledNet(t, tables), Lookup(tables, t.oltId), onus) && |onus| == |t.onus|
  {
    var tables := DecomposeRules(r, TreeDefaults(t), flows, groups).value;
    TablesAreSided(r, t, flows, GroupMap(groups));
    onus := seq(|t.onus|, i requires 0 <= i < |t.onus| => Lookup(tables, t.onus[i].id));
    forall d, rule | rule in Lookup(tables, d) ensures OneSided(rule, EDGE, PON) {
      assert SidedFor(t, d, rule);
    }
    assert forall rule :: rule in Lookup(tables, t.oltId) ==> OneSided(rule, EDGE, PON);
  }

  /** Whatever flows and groups the controller installs, no frame loops. */
  lemma DecomposedTablesNeverLoop(
    r: Routes, t: Tree, flows: seq<Flow>, groups: seq<GroupEntry>, d: nat, fr: Frame, depth: nat)
    requires Serves(r, t) && PonSimPorts(t) && d <= |t.onus| && depth >= 2
    requires DecomposeRules(r, TreeDefaults(t), flows, groups).Ok?
    ensures var net := InstalledNet(t, DecomposeRules(r, TreeDefaults(t), flows, groups).value);
            && Inject(net, d, fr, depth) == Inject(net, d, fr, 2)
            && Inject(net, d, fr, depth).status != TooDeep
  {
    var tables := DecomposeRules(r, TreeDefaults(t), flows, groups).value;
    var onus := SidedTables(r, t, flows, groups);
    IngressTerminates(InstalledNet(t, tables), Lookup(tables, t.oltId), onus, d, fr, depth);
  }

  // ----- the two sides of the network -----

  /** One copy at most for each ONU from the k-th on, in their order, and nothing anywhere else. */
  ghost predicate AtUnisFrom(out: seq<(nat, Frame)>, k: nat, end: nat) {
    && (forall i :: 0 <= i < |out| ==> OnuPort(k) <= out[i].0 < OnuPort(end))
    && (forall i, j :: 0 <= i < j < |out| ==> out[i].0 < out[j].0)
  }

  /** What comes in at the NNI leaves at UNIs, at each once at most; what comes in at a UNI leaves at the
      NNI, once at most. */
  ghost predicate LeavesOpposite(out: seq<(nat, Frame)>, d: nat, onus: nat) {
    if d == 0 then AtUnisFrom(out, 0, onus) else |out| <= 1 && forall c :: c in out ==> c.0 == OLT_PORT
  }

  lemma {:induction false} BroadcastCrosses(
    net: Net, olt: seq<Flow>, onus: seq<seq<Flow>>, k: nat, links: seq<Link>, fr: Frame, depth: nat)
    requires SidedNet(net, olt, onus) && depth >= 1 && k + |links| == |onus|
    requires forall j :: 0 <= j < |links| ==> links[j] == ToDevice(k + j + 1, PON)
    ensures forall l :: l in links ==> LinkWithin(l, |net|)
    ensures AtUnisFrom(Hand(net, links, fr, depth).out, k, |onus|)
    decreases |links|
  {
    if links != [] {
      FromPon(net, olt, onus, k + 1, fr, depth);
      var first := Ingress(net, k + 1, PON, fr, depth);
      BroadcastCrosses(net, olt, onus, k + 1, links[1..], first.fr, depth);
      var rest := Hand(net, links[1..], first.fr, depth);
      FirstThenRest(first.out, rest.out, k, |onus|);
    }
  }

  lemma FirstThenRest(first: seq<(nat, Frame)>, rest: seq<(nat, Frame)>, k: nat, end: nat)
    requires |first| <= 1 && (forall c :: c in first ==> c.0 == OnuPort(k)) && AtUnisFrom(rest, k + 1, end) && k < end
    ensures AtUnisFrom(first, k, end) && AtUnisFrom(first + rest, k, end)
  {}

  lemma {:induction false} SidedNetCrosses(
    net: Net, olt: seq<Flow>, onus: seq<seq<Flow>>, d: nat, fr: Frame, depth: nat)
    requires SidedNet(net, olt, onus) && d < |net| && depth >= 2
    ensures LeavesOpposite(Inject(net, d, fr, depth).out, d, |onus|)
  {
    SidedStation(net, olt, onus, d, EDGE, fr);
    match ProcessFrame(net[d].flows, EDGE, fr)
    case Ok(Forward(egress, fr', _, _)) =>
      if d > 0 {
        assert LinksOf(net, d, egress) == [ToDevice(0, PON)];
        FromPon(net, olt, onus, 0, fr', depth - 1);
        HandToOne(net, ToDevice(0, PON), fr', depth - 1);
      } else {
        BroadcastCrosses(net, olt, onus, 0, LinksOf(net, 0, egress), fr', depth - 1);
      }
    case _ =>
  }

  lemma {:induction false} HandToOne(net: Net, link: Link, fr: Frame, depth: nat)
    requires WiredWithin(net) && LinkWithin(link, |net|)
    ensures Hand(net, [link], fr, depth).out == HandOne(net, link, fr, depth).out
  {
    assert [link][1..] == [];
  }

  /** Whatever flows and groups the controller installs, no subscriber's frame reaches another
      subscriber, no frame of the network goes back to it, and nobody gets a frame twice. */
  lemma DecomposedTablesCross(
    r: Routes, t: Tree, flows: seq<Flow>, groups: seq<GroupEntry>, d: nat, fr: Frame, depth: nat)
    requires Serves(r, t) && PonSimPorts(t) && d <= |t.onus| && depth >= 2
    requires DecomposeRules(r, TreeDefaults(t), flows, groups).Ok?
    ensures var net := InstalledNet(t, DecomposeRules(r, TreeDefaults(t), flows, groups).value);
            LeavesOpposite(Inject(net, d, fr, depth).out, d, |t.onus|)
  {
    var tables := DecomposeRules(r, TreeDefaults(t), flows, groups).value;
    var onus := SidedTables(r, t, flows, groups);
    SidedNetCrosses(InstalledNet(t, tables), Lookup(tables, t.oltId), onus, d, fr, depth);
  }
}
