/** Multicast: the OLT rule forgets the IP part of the match and the ONU rules forget the VLAN part;
    what the simulator then delivers, and when that is what the logical flows ask for. */
module Multicast {
  import opened Wrappers
  import opened OpenFlow
  import opened PonMachine
  import opened RuleSelection
  import opened Topology
  import opened FlowDecomposer
  import opened LoopFreedom
  import opened UnicastMeaning
  import opened UnicastForwarding
  import opened DownstreamForwarding

  function GroupOf(m: Flow): Option<nat> {
    FirstGroup(FlowActions(m))
  }

  function Buckets(m: Flow, groups: map<nat, GroupEntry>): seq<Bucket> {
    if GroupOf(m).Some? then BucketsOf(groups, GroupOf(m).value) else []
  }

  /** The bucket pops the VLAN tag and outputs to the subscriber of some ONU. */
  predicate PopToUni(t: Tree, b: Bucket) {
    |b| == 2 && b[0] == PopVlan && b[1].Output? && OnuAt(t, b[1].port).Some?
  }

  /** From the NNI to a group, all of whose buckets pop the tag; the group may be missing. */
  ghost predicate MulticastFlow(t: Tree, groups: map<nat, GroupEntry>, m: Flow) {
    && |t.onus| > 0
    && (forall x :: x in m.fields ==> Supported(x))
    && FromPort(m, t.nni)
    && GetActions(m.instructions).Ok?
    && !HasNextTable(m.instructions)
    && |FlowActions(m)| == 1 && FlowActions(m)[0].Group?
    && forall b :: b in Buckets(m, groups) ==> PopToUni(t, b)
  }

  ghost predicate MulticastTable(t: Tree, groups: map<nat, GroupEntry>, flows: seq<Flow>) {
    forall m :: m in flows ==> MulticastFlow(t, groups, m)
  }

  predicate Subscribed(t: Tree, groups: map<nat, GroupEntry>, m: Flow, k: nat)
    requires k < |t.onus|
  {
    [PopVlan, Output(t.onus[k].uni)] in Buckets(m, groups)
  }

  // ----- what the flows become -----

  function LeafRule(m: Flow, o: Onu): Flow {
    MulticastLeafRule(m, [], OnuDown(o))
  }

  lemma {:induction false} BucketsBecomeLeafRules(
    r: Routes, t: Tree, m: Flow, buckets: seq<Bucket>, port: Option<nat>, acc: DeviceRules, k: nat)
    requires Serves(r, t) && FirstInPort(m.fields) == Some(t.nni) && k < |t.onus|
    requires forall b :: b in buckets ==> PopToUni(t, b)
    requires DecomposeBuckets(r, m, OltDown(t), buckets, port, acc).Ok?
    ensures var rules := DecomposeBuckets(r, m, OltDown(t), buckets, port, acc).value;
            && Lookup(rules, t.oltId) == Lookup(acc, t.oltId)
            && Lookup(acc, t.onus[k].id) <= Lookup(rules, t.onus[k].id)
            && (forall rule :: rule in Lookup(rules, t.onus[k].id) ==>
                  || rule in Lookup(acc, t.onus[k].id)
                  || (rule == LeafRule(m, t.onus[k]) && [PopVlan, Output(t.onus[k].uni)] in buckets))
            && ([PopVlan, Output(t.onus[k].uni)] in buckets ==> LeafRule(m, t.onus[k]) in Lookup(rules, t.onus[k].id))
    decreases buckets
  {
    if buckets != [] {
      var b := buckets[0];
      assert b in buckets;
      assert b == [PopVlan, Output(b[1].port)];
      BucketScan(b[1].port, port);
      var port' := Some(b[1].port);
      RouteIsOrderIndependent(r, t, Some(t.nni), port');
      var j := OnuAt(t, b[1].port).value;
      var o := t.onus[j];
      assert j == k <==> o.uni == t.onus[k].uni;
      var acc' := Append(acc, o.id, LeafRule(m, o));
      assert Lookup(acc', t.onus[k].id) ==
        if j == k then Lookup(acc, o.id) + [LeafRule(m, o)] else Lookup(acc, t.onus[k].id);
      BucketsBecomeLeafRules(r, t, m, buckets[1..], port', acc', k);
      if j == k {
        var last := |Lookup(acc', o.id)| - 1;
        assert Lookup(DecomposeBuckets(r, m, OltDown(t), buckets, port, acc).value, o.id)[last] == LeafRule(m, o);
      }
    }
  }

  lemma {:induction false} BucketScan(uni: nat, port: Option<nat>)
    ensures BucketPort([PopVlan, Output(uni)], port) == Some(uni)
    ensures BucketOthers([PopVlan, Output(uni)]) == []
  {
    var b := [PopVlan, Output(uni)];
    assert b[1..] == [Output(uni)] && b[1..][1..] == [];
    assert BucketPort([Output(uni)], port) == BucketPort([], Some(uni));
    FilterNone(b, NotPopOrOutput);
  }

  lemma {:induction false} PopsAreRoutable(t: Tree, buckets: seq<Bucket>, port: Option<nat>)
    requires forall b :: b in buckets ==> PopToUni(t, b)
    ensures BucketsRoutable(t, buckets, port)
    decreases buckets
  {
    if buckets != [] {
      var b := buckets[0];
      assert b in buckets && b == [PopVlan, Output(b[1].port)];
      BucketScan(b[1].port, port);
      PopsAreRoutable(t, buckets[1..], Some(b[1].port));
    }
  }

  function RootRule(m: Flow, t: Tree): Flow {
    MulticastRootRule(m, FlowActions(m), OltDown(t))
  }

  lemma MulticastContribution(r: Routes, t: Tree, m: Flow, groups: map<nat, GroupEntry>, k: nat)
    requires Serves(r, t) && MulticastFlow(t, groups, m) && k < |t.onus|
    ensures DecomposeFlow(r, m, groups).Ok?
    ensures Contribution(r, m, groups, t.oltId) == [RootRule(m, t)]
    ensures forall rule :: rule in Contribution(r, m, groups, t.onus[k].id) <==>
                             rule == LeafRule(m, t.onus[k]) && Subscribed(t, groups, m, k)
  {
    var actions := FlowActions(m);
    assert actions == [actions[0]];
    FirstOutputNone(actions);
    var buckets := Buckets(m, groups);
    RouteIsOrderIndependent(r, t, Some(t.nni), None);
    var acc := map[t.oltId := [RootRule(m, t)]];
    PopsAreRoutable(t, buckets, None);
    BucketsDecompose(r, t, m, buckets, None, acc);
    BucketsBecomeLeafRules(r, t, m, buckets, None, acc, k);
    assert DecomposeFlow(r, m, groups) == DecomposeBuckets(r, m, OltDown(t), buckets, None, acc);
  }

  lemma {:induction false} MulticastDecomposes(r: Routes, t: Tree, flows: seq<Flow>, groups: map<nat, GroupEntry>)
    requires Serves(r, t) && MulticastTable(t, groups, flows)
    ensures DecomposeAll(r, TreeDefaults(t), flows, groups).Ok?
  {
    if flows != [] {
      var n := |flows| - 1;
      assert flows[n] in flows;
      MulticastDecomposes(r, t, flows[..n], groups);
      MulticastContribution(r, t, flows[n], groups, 0);
    }
  }

  lemma {:induction false} RootContributions(r: Routes, t: Tree, flows: seq<Flow>, groups: map<nat, GroupEntry>, k: nat)
    requires Serves(r, t) && MulticastTable(t, groups, flows) && k < |t.onus|
    ensures forall rule :: rule in Contributions(r, flows, groups, t.oltId) <==>
                             exists m :: m in flows && rule == RootRule(m, t)
  {
    if flows != [] {
      var n := |flows| - 1;
      assert flows[n] in flows;
      RootContributions(r, t, flows[..n], groups, k);
      MulticastContribution(r, t, flows[n], groups, k);
      assert forall m :: m in flows <==> m in flows[..n] || m == flows[n];
    }
  }

  ghost predicate LeafOfSome(t: Tree, flows: seq<Flow>, groups: map<nat, GroupEntry>, k: nat, rule: Flow)
    requires k < |t.onus|
  {
    exists m :: m in flows && rule == LeafRule(m, t.onus[k]) && Subscribed(t, groups, m, k)
  }

  lemma LeafOfSomeSplit(t: Tree, flows: seq<Flow>, groups: map<nat, GroupEntry>, k: nat, rule: Flow)
    requires k < |t.onus| && flows != []
    ensures var n := |flows| - 1;
            LeafOfSome(t, flows, groups, k, rule) <==>
            || LeafOfSome(t, flows[..n], groups, k, rule)
            || (rule == LeafRule(flows[n], t.onus[k]) && Subscribed(t, groups, flows[n], k))
  {
    var n := |flows| - 1;
    assert flows[n] in flows;
    assert forall m :: m in flows <==> m in flows[..n] || m == flows[n];
  }

  lemma {:induction false} LeafContributions(r: Routes, t: Tree, flows: seq<Flow>, groups: map<nat, GroupEntry>, k: nat)
    requires Serves(r, t) && MulticastTable(t, groups, flows) && k < |t.onus|
    ensures forall rule :: rule in Contributions(r, flows, groups, t.onus[k].id) <==>
            LeafOfSome(t, flows, groups, k, rule)
  {
    if flows != [] {
      var n := |flows| - 1;
      assert flows[n] in flows;
      LeafContributions(r, t, flows[..n], groups, k);
      MulticastContribution(r, t, flows[n], groups, k);
      forall rule
        ensures rule in Contributions(r, flows, groups, t.onus[k].id) <==> LeafOfSome(t, flows, groups, k, rule)
      {
        LeafOfSomeSplit(t, flows, groups, k, rule);
      }
    }
  }

  // ----- matching in two halves -----

  ghost predicate RootMatch(m: Flow, fr: Frame) {
    KeptMatch(m.fields, RootField, EDGE, fr)
  }

  ghost predicate LeafMatch(m: Flow, fr: Frame) {
    KeptMatch(m.fields, LeafField, PON, fr)
  }

  /** On a single-tagged frame the logical match is exactly the OLT's half on the frame together
      with the ONU's half on the frame without its tag. */
  lemma {:induction false} MatchInHalves(t: Tree, m: Flow, fr: Frame)
    requires FromPort(m, t.nni) && (forall x :: x in m.fields ==> Supported(x)) && |fr.tags| == 1
    ensures IsMatch(m.fields, t.nni, fr) == Yes <==> RootMatch(m, fr) && LeafMatch(m, Pop(fr))
  {
    MatchIsConjunction(m.fields, t.nni, fr);
    assert forall x :: x in m.fields && !x.InPort? ==> RootField(x) || LeafField(x);
    assert forall x :: RootField(x) ==> FieldVerdict(x, EDGE, fr) == FieldVerdict(x, t.nni, fr);
    assert forall x :: LeafField(x) ==> FieldVerdict(x, PON, Pop(fr)) == FieldVerdict(x, t.nni, fr);
  }

  predicate InBandTag(fr: Frame) {
    Tagged(fr) && fr.tags[0].vid == 4000 && fr.tags[0].pcp == 0
  }

  lemma RootRuleRuns(t: Tree, m: Flow, fr: Frame)
    requires PonSimPorts(t) && Tagged(fr) && |FlowActions(m)| == 1 && FlowActions(m)[0].Group?
    ensures RunFlow(RootRule(m, t), fr) == Ok(Forward(Some(PON), Pop(fr), false, fr))
  {
    var kept := Filter(FlowActions(m), NotGroup);
    FilterNone(FlowActions(m), NotGroup);
    assert [] + [PopVlan, Output(PON)] == [PopVlan] + [Output(PON)];
    RunRule(m.priority, m.cookie, [InPort(EDGE)] + Filter(m.fields, RootField), [PopVlan], PON, fr);
    assert [PopVlan][1..] == [];
    var s := Rebind(Start(fr), Pop(fr));
    assert RunActions([], s) == Ok(s);
  }

  function MulticastTables(r: Routes, t: Tree, flows: seq<Flow>, groups: seq<GroupEntry>): DeviceRules {
    match DecomposeRules(r, TreeDefaults(t), flows, groups)
    case Ok(tables) => tables
    case Raised => map[]
  }

  /** The frame is put on the PON, without its tag, by some flow's VLAN or by the in-band rule. */
  ghost predicate OnPon(flows: seq<Flow>, fr: Frame) {
    InBandTag(fr) || exists m :: m in flows && RootMatch(m, fr)
  }

  /** Any rule of the OLT's table that takes a tagged frame from the NNI pops it onto the PON. */
  lemma {:induction false} RootRulesAgree(
    t: Tree, flows: seq<Flow>, groups: map<nat, GroupEntry>, rule: Flow, fr: Frame)
    requires PonSimPorts(t) && MulticastTable(t, groups, flows) && Tagged(fr)
    requires rule == RootDefaults(t)[0] || exists m :: m in flows && rule == RootRule(m, t)
    ensures IsMatch(rule.fields, EDGE, fr) != Raises
    ensures Hits(rule, EDGE, fr) ==> OnPon(flows, fr) && RunFlow(rule, fr) == Ok(Forward(Some(PON), Pop(fr), false, fr))
  {
    if rule == RootDefaults(t)[0] {
      RootDefaultMatch(t, EDGE, fr);
      RootDefaultRuns(t, fr);
    } else {
      var m :| m in flows && rule == RootRule(m, t);
      RehomedMatch(m.fields, RootField, EDGE, EDGE, fr);
      RootRuleRuns(t, m, fr);
    }
  }

  /** When all rules that take a frame do the same with it, the order of the table is immaterial. */
  lemma {:induction false} UnanimousTable(
    defaults: seq<Flow>, contributed: seq<Flow>, port: nat, fr: Frame, taken: bool, o: Outcome)
    requires forall rule :: rule in defaults + contributed ==>
               && IsMatch(rule.fields, port, fr) != Raises
               && (Hits(rule, port, fr) ==> taken && RunFlow(rule, fr) == Ok(o))
    requires taken ==> exists rule :: rule in defaults + contributed && Hits(rule, port, fr)
    ensures ProcessFrame(SortedByPriority(AddNew(defaults, contributed)), port, fr) ==
            if taken then Ok(o) else Ok(Dropped)
  {
    AddNewContents(defaults, contributed);
    DedupIsTransparent(defaults, contributed, port, fr);
    ProcessSelects(AddNew(defaults, contributed), port, fr);
    if taken {
      var rule :| rule in defaults + contributed && Hits(rule, port, fr);
      SelectMember(defaults + contributed, rule, port, fr);
    } else if defaults + contributed != [] {
      SelectMember(defaults + contributed, (defaults + contributed)[0], port, fr);
    }
  }

  lemma OltTakes(t: Tree, flows: seq<Flow>, contributed: seq<Flow>, fr: Frame)
    requires PonSimPorts(t) && Tagged(fr) && OnPon(flows, fr)
    requires forall m :: m in flows ==> RootRule(m, t) in contributed
    requires forall m :: m in flows ==> forall x :: x in m.fields ==> Supported(x)
    ensures exists rule :: rule in RootDefaults(t) + contributed && Hits(rule, EDGE, fr)
  {
    if InBandTag(fr) {
      RootDefaultMatch(t, EDGE, fr);
      assert RootDefaults(t)[0] in RootDefaults(t) + contributed;
    } else {
      var m :| m in flows && RootMatch(m, fr);
      RehomedMatch(m.fields, RootField, EDGE, EDGE, fr);
      assert RootRule(m, t) in RootDefaults(t) + contributed;
    }
  }

  lemma {:induction false} OltMulticast(r: Routes, t: Tree, flows: seq<Flow>, groups: seq<GroupEntry>, fr: Frame)
    requires Serves(r, t) && PonSimPorts(t) && MulticastTable(t, GroupMap(groups), flows) && Tagged(fr) && |t.onus| > 0
    ensures ProcessFrame(SortedByPriority(Lookup(MulticastTables(r, t, flows, groups), t.oltId)), EDGE, fr) ==
            if OnPon(flows, fr) then Ok(Forward(Some(PON), Pop(fr), false, fr)) else Ok(Dropped)
  {
    var contributed := Contributions(r, flows, GroupMap(groups), t.oltId);
    MulticastDecomposes(r, t, flows, GroupMap(groups));
    TableIsDefaultsThenFlows(r, TreeDefaults(t), flows, GroupMap(groups), t.oltId);
    DefaultsOfTree(t, 0);
    RootContributions(r, t, flows, GroupMap(groups), 0);
    forall rule | rule in RootDefaults(t) + contributed
      ensures IsMatch(rule.fields, EDGE, fr) != Raises
      ensures Hits(rule, EDGE, fr) ==>
                OnPon(flows, fr) && RunFlow(rule, fr) == Ok(Forward(Some(PON), Pop(fr), false, fr))
    {
      RootRulesAgree(t, flows, GroupMap(groups), rule, fr);
    }
    if OnPon(flows, fr) {
      OltTakes(t, flows, contributed, fr);
    }
    UnanimousTable(RootDefaults(t), contributed, EDGE, fr, OnPon(flows, fr), Forward(Some(PON), Pop(fr), false, fr));
  }

  // ----- an ONU -----

  /** Some flow's group has this ONU's subscriber, and the frame passes that flow's IP match. */
  ghost predicate Takes(t: Tree, groups: map<nat, GroupEntry>, flows: seq<Flow>, k: nat, fr: Frame)
    requires k < |t.onus|
  {
    exists m :: m in flows && Subscribed(t, groups, m, k) && LeafMatch(m, fr)
  }

  lemma LeafRuleRuns(m: Flow, o: Onu, fr: Frame)
    requires o.edge == EDGE
    ensures RunFlow(LeafRule(m, o), fr) == Ok(Forward(Some(EDGE), fr, true, fr))
  {
    RunRule(m.priority, m.cookie, LeafRule(m, o).fields, [], EDGE, fr);
    assert [] + [Output(EDGE)] == [Output(EDGE)];
    assert RunActions([], Start(fr)) == Ok(Start(fr));
  }

  lemma {:induction false} OnuMulticast(
    r: Routes, t: Tree, flows: seq<Flow>, groups: seq<GroupEntry>, k: nat, fr: Frame)
    requires Serves(r, t) && PonSimPorts(t) && MulticastTable(t, GroupMap(groups), flows) && !Tagged(fr) && k < |t.onus|
    ensures ProcessFrame(SortedByPriority(Lookup(MulticastTables(r, t, flows, groups), t.onus[k].id)), PON, fr) ==
            if Takes(t, GroupMap(groups), flows, k, fr) then Ok(Forward(Some(EDGE), fr, true, fr)) else Ok(Dropped)
  {
    var o := t.onus[k];
    var contributed := Contributions(r, flows, GroupMap(groups), o.id);
    MulticastDecomposes(r, t, flows, GroupMap(groups));
    TableIsDefaultsThenFlows(r, TreeDefaults(t), flows, GroupMap(groups), o.id);
    DefaultsOfTree(t, k);
    LeafContributions(r, t, flows, GroupMap(groups), k);
    LeafDefaultsAreSound(o, PON, fr);
    forall rule | rule in LeafDefaults(o) + contributed
      ensures IsMatch(rule.fields, PON, fr) != Raises
      ensures Hits(rule, PON, fr) ==>
                && Takes(t, GroupMap(groups), flows, k, fr)
                && RunFlow(rule, fr) == Ok(Forward(Some(EDGE), fr, true, fr))
    {
      if rule in LeafDefaults(o) {
        assert OnuSound(o, rule, PON, fr);
      } else {
        var m :| m in flows && rule == LeafRule(m, o) && Subscribed(t, GroupMap(groups), m, k);
        RehomedMatch(m.fields, LeafField, PON, PON, fr);
        LeafRuleRuns(m, o, fr);
      }
    }
    if m :| m in flows && Subscribed(t, GroupMap(groups), m, k) && LeafMatch(m, fr) {
      RehomedMatch(m.fields, LeafField, PON, PON, fr);
      assert LeafRule(m, o) in LeafDefaults(o) + contributed;
    }
    UnanimousTable(LeafDefaults(o), contributed, PON, fr, Takes(t, GroupMap(groups), flows, k, fr),
                   Forward(Some(EDGE), fr, true, fr));
  }

  // ----- the whole simulator -----

  /** One unchanged copy for each ONU from the k-th on that takes the frame. */
  ghost function Copies(t: Tree, groups: map<nat, GroupEntry>, flows: seq<Flow>, k: nat, fr: Frame): seq<(nat, Frame)>
    requires k <= |t.onus|
    decreases |t.onus| - k
  {
    if k == |t.onus| then []
    else (if Takes(t, groups, flows, k, fr) then [(OnuPort(k), fr)] else []) + Copies(t, groups, flows, k + 1, fr)
  }

  lemma OnuCopies(r: Routes, t: Tree, flows: seq<Flow>, groups: seq<GroupEntry>, k: nat, fr: Frame, depth: nat)
    requires Serves(r, t) && PonSimPorts(t) && MulticastTable(t, GroupMap(groups), flows) && !Tagged(fr)
    requires k < |t.onus| && depth >= 1
    ensures Ingress(InstalledNet(t, MulticastTables(r, t, flows, groups)), k + 1, PON, fr, depth) ==
            Trace(if Takes(t, GroupMap(groups), flows, k, fr) then [(OnuPort(k), fr)] else [], fr, Done)
  {
    var tables := MulticastTables(r, t, flows, groups);
    var net := InstalledNet(t, tables);
    Wiring(t, tables, k);
    OnuMulticast(r, t, flows, groups, k, fr);
    IngressStops(net, k + 1, PON, fr, depth);
    if Takes(t, GroupMap(groups), flows, k, fr) {
      IngressToUser(net, k + 1, PON, fr, depth, Forward(Some(EDGE), fr, true, fr), OnuPort(k));
    }
  }

  ghost function CopyReaction(t: Tree, groups: map<nat, GroupEntry>, flows: seq<Flow>, k: nat, fr: Frame): Trace
    requires k < |t.onus|
  {
    Trace(if Takes(t, groups, flows, k, fr) then [(OnuPort(k), fr)] else [], fr, Done)
  }

  /** The frame goes by all ONUs unchanged, and those that take it emit a copy. */
  ghost predicate OnusCopy(net: Net, t: Tree, flows: seq<Flow>, groups: map<nat, GroupEntry>, fr: Frame, depth: nat) {
    && |net| == |t.onus| + 1 && WiredWithin(net)
    && forall k :: 0 <= k < |t.onus| ==>
         HandOne(net, ToDevice(k + 1, PON), fr, depth) == CopyReaction(t, groups, flows, k, fr)
  }

  lemma {:induction false} AllOnusCopy(
    r: Routes, t: Tree, flows: seq<Flow>, groups: seq<GroupEntry>, fr: Frame, depth: nat)
    requires Serves(r, t) && PonSimPorts(t) && MulticastTable(t, GroupMap(groups), flows) && !Tagged(fr) && depth >= 1
    ensures OnusCopy(InstalledNet(t, MulticastTables(r, t, flows, groups)), t, flows, GroupMap(groups), fr, depth)
  {
    forall k | 0 <= k < |t.onus|
      ensures HandOne(InstalledNet(t, MulticastTables(r, t, flows, groups)), ToDevice(k + 1, PON), fr, depth) ==
              CopyReaction(t, GroupMap(groups), flows, k, fr)
    {
      OnuCopies(r, t, flows, groups, k, fr, depth);
    }
  }

  lemma {:induction false} BroadcastCopies(
    net: Net, t: Tree, flows: seq<Flow>, groups: map<nat, GroupEntry>, k: nat, links: seq<Link>, fr: Frame, depth: nat)
    requires OnusCopy(net, t, flows, groups, fr, depth)
    requires k + |links| == |t.onus| && forall j :: 0 <= j < |links| ==> links[j] == ToDevice(k + j + 1, PON)
    ensures forall l :: l in links ==> LinkWithin(l, |net|)
    ensures Hand(net, links, fr, depth).status == Done
    ensures Hand(net, links, fr, depth).out == Copies(t, groups, flows, k, fr)
    decreases |links|
  {
    if links != [] {
      assert links[0] == ToDevice(k + 1, PON) && links[0..] == links;
      BroadcastCopies(net, t, flows, groups, k + 1, links[1..], fr, depth);
      assert HandOne(net, links[0], fr, depth) == CopyReaction(t, groups, flows, k, fr);
      HandStep(net, links, 0, fr, depth);
    }
  }

  lemma {:induction false} OltCopiesOn(
    net: Net, t: Tree, flows: seq<Flow>, groups: map<nat, GroupEntry>, fr: Frame, popped: Frame, depth: nat)
    requires depth >= 2 && OnusCopy(net, t, flows, groups, popped, depth - 1)
    requires ProcessFrame(net[0].flows, EDGE, fr) == Ok(Forward(Some(PON), popped, false, fr))
    requires |LinksOf(net, 0, Some(PON))| == |t.onus|
    requires forall j :: 0 <= j < |t.onus| ==> LinksOf(net, 0, Some(PON))[j] == ToDevice(j + 1, PON)
    ensures Inject(net, 0, fr, depth).status == Done
    ensures Inject(net, 0, fr, depth).out == Copies(t, groups, flows, 0, popped)
  {
    IngressHands(net, 0, EDGE, fr, depth, Forward(Some(PON), popped, false, fr));
    BroadcastCopies(net, t, flows, groups, 0, LinksOf(net, 0, Some(PON)), popped, depth - 1);
  }

  lemma {:induction false} OltCopies(
    t: Tree, tables: DeviceRules, flows: seq<Flow>, groups: map<nat, GroupEntry>, fr: Frame, popped: Frame, depth: nat)
    requires depth >= 2 && OnusCopy(InstalledNet(t, tables), t, flows, groups, popped, depth - 1)
    requires ProcessFrame(SortedByPriority(Lookup(tables, t.oltId)), EDGE, fr) ==
             Ok(Forward(Some(PON), popped, false, fr))
    ensures Inject(InstalledNet(t, tables), 0, fr, depth).status == Done
    ensures Inject(InstalledNet(t, tables), 0, fr, depth).out == Copies(t, groups, flows, 0, popped)
  {
    Wiring(t, tables, 0);
    PonLinks(t, tables);
    OltCopiesOn(InstalledNet(t, tables), t, flows, groups, fr, popped, depth);
  }

  lemma {:induction false} OltStops(t: Tree, tables: DeviceRules, fr: Frame, depth: nat)
    requires depth >= 1 && ProcessFrame(SortedByPriority(Lookup(tables, t.oltId)), EDGE, fr) == Ok(Dropped)
    ensures Inject(InstalledNet(t, tables), 0, fr, depth) == Trace([], fr, Done)
  {
    Wiring(t, tables, 0);
    IngressStops(InstalledNet(t, tables), 0, EDGE, fr, depth);
  }

  /** Exact result for every single-tagged frame at the NNI and any table of multicast flows. */
  lemma {:induction false} MulticastExact(
    r: Routes, t: Tree, flows: seq<Flow>, groups: seq<GroupEntry>, fr: Frame, depth: nat)
    requires Serves(r, t) && PonSimPorts(t) && MulticastTable(t, GroupMap(groups), flows) && |t.onus| > 0
    requires |fr.tags| == 1 && depth >= 2
    ensures var trace := Inject(InstalledNet(t, MulticastTables(r, t, flows, groups)), 0, fr, depth);
            && trace.status == Done
            && trace.out == if OnPon(flows, fr) then Copies(t, GroupMap(groups), flows, 0, Pop(fr)) else []
  {
    var tables := MulticastTables(r, t, flows, groups);
    OltMulticast(r, t, flows, groups, fr);
    if OnPon(flows, fr) {
      AllOnusCopy(r, t, flows, groups, Pop(fr), depth - 1);
      OltCopies(t, tables, flows, GroupMap(groups), fr, Pop(fr), depth);
    } else {
      OltStops(t, tables, fr, depth);
    }
  }
}
