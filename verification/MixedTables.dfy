/** Tables with unicast, controller-bound and multicast flows together: what the simulator emits for
    any frame at any outside port, said in terms of the logical flows. */
module MixedTables {
  import opened Wrappers
  import opened OpenFlow
  import opened Election
  import opened PonMachine
  import opened RuleSelection
  import opened Topology
  import opened FlowDecomposer
  import opened LoopFreedom
  import opened UnicastMeaning
  import opened UnicastForwarding
  import opened DownstreamForwarding
  import opened Multicast
  import opened LogicalSwitch

  predicate IsGroupFlow(f: Flow) {
    !HasNextTable(f.instructions) && |FlowActions(f)| == 1 && FlowActions(f)[0].Group?
  }

  ghost predicate MixedFlow(t: Tree, groups: map<nat, GroupEntry>, f: Flow) {
    UnicastFlow(t, f) || MulticastFlow(t, groups, f)
  }

  ghost predicate MixedTable(t: Tree, groups: map<nat, GroupEntry>, flows: seq<Flow>) {
    forall f :: f in flows ==> MixedFlow(t, groups, f)
  }

  lemma Kinds(t: Tree, groups: map<nat, GroupEntry>, f: Flow)
    requires MixedFlow(t, groups, f)
    ensures MulticastFlow(t, groups, f) <==> IsGroupFlow(f)
    ensures IsGroupFlow(f) ==> FirstOutput(FlowActions(f)) == None
  {
    if IsGroupFlow(f) {
      var actions := FlowActions(f);
      assert actions == [actions[0]];
      FirstOutputNone(actions);
    }
  }

  lemma {:induction false} MixedDecomposes(r: Routes, t: Tree, flows: seq<Flow>, groups: map<nat, GroupEntry>)
    requires Serves(r, t) && MixedTable(t, groups, flows)
    ensures DecomposeAll(r, TreeDefaults(t), flows, groups).Ok?
  {
    if flows != [] {
      var n := |flows| - 1;
      assert flows[n] in flows;
      MixedDecomposes(r, t, flows[..n], groups);
      if UnicastFlow(t, flows[n]) {
        UnicastFlowDecomposes(r, t, flows[n], groups);
      } else {
        MulticastContribution(r, t, flows[n], groups, 0);
      }
    }
  }

  // ----- the OLT -----

  /** A multicast flow wants a frame from the NNI on the strength of the fields it has on the OLT. */
  ghost predicate OltWants(t: Tree, v: Direction, f: Flow, fr: Frame)
    requires v.Up? ==> v.onu < |t.onus|
  {
    if IsGroupFlow(f) then v.Down? && RootMatch(f, fr) else Wants(t, v, f, fr)
  }

  ghost function MixedTakers(t: Tree, v: Direction, fr: Frame): iset<Flow>
    requires v.Up? ==> v.onu < |t.onus|
  {
    iset f | OltWants(t, v, f, fr)
  }

  ghost function OltChosen(t: Tree, v: Direction, flows: seq<Flow>, fr: Frame): Option<Flow>
    requires v.Up? ==> v.onu < |t.onus|
  {
    Elect(flows, MixedTakers(t, v, fr))
  }

  function MixedRule(t: Tree, v: Direction, f: Flow): Flow {
    if IsGroupFlow(f) then RootRule(f, t) else OltRule(t, v, f)
  }

  /** The rule of the chosen flow, if one is chosen. */
  function MixedImage(t: Tree, v: Direction, chosen: Option<Flow>): Option<Flow> {
    match chosen
    case None => None
    case Some(f) => Some(MixedRule(t, v, f))
  }

  /** Rules have the priorities of their flows, so one more of each is elected alike. */
  lemma ImageStep(t: Tree, v: Direction, best: Option<Flow>, last: Flow, wants: bool)
    ensures var a, b := MixedImage(t, v, best), MixedImage(t, v, if wants then Some(last) else None);
            (if b.Some? && (a.None? || a.value.priority < b.value.priority) then b else a) ==
            MixedImage(t, v, if wants && (best.None? || best.value.priority < last.priority) then Some(last) else best)
  {}

  lemma {:induction false} OltContribution(
    r: Routes, t: Tree, v: Direction, f: Flow, groups: map<nat, GroupEntry>, fr: Frame)
    requires Serves(r, t) && PonSimPorts(t) && MixedFlow(t, groups, f) && Visible(t, v, fr)
    ensures Matchable(Contribution(r, f, groups, t.oltId), OltPort(v), fr)
    ensures Select(Contribution(r, f, groups, t.oltId), OltPort(v), fr) ==
            if OltWants(t, v, f, fr) then Some(MixedRule(t, v, f)) else None
  {
    Kinds(t, groups, f);
    if IsGroupFlow(f) {
      MulticastContribution(r, t, f, groups, 0);
      RehomedMatch(f.fields, RootField, EDGE, OltPort(v), fr);
      SelectOne(RootRule(f, t), OltPort(v), fr);
    } else {
      SelectContribution(r, t, v, f, groups, fr);
    }
  }

  /** The OLT elects, among the rules of all flows, the one of the flow that the flows elect. */
  lemma {:induction false} MixedElection(
    r: Routes, t: Tree, v: Direction, flows: seq<Flow>, groups: map<nat, GroupEntry>, fr: Frame)
    requires Serves(r, t) && PonSimPorts(t) && MixedTable(t, groups, flows) && Visible(t, v, fr)
    ensures Matchable(Contributions(r, flows, groups, t.oltId), OltPort(v), fr)
    ensures Select(Contributions(r, flows, groups, t.oltId), OltPort(v), fr) ==
            MixedImage(t, v, OltChosen(t, v, flows, fr))
    ensures OltChosen(t, v, flows, fr).Some? ==> OltChosen(t, v, flows, fr).value in flows
  {
    if flows == [] {
      SelectNone(OltPort(v), fr);
    } else {
      var n := |flows| - 1;
      assert flows[n] in flows;
      MixedElection(r, t, v, flows[..n], groups, fr);
      OltContribution(r, t, v, flows[n], groups, fr);
      SelectSplit(Contributions(r, flows[..n], groups, t.oltId), Contribution(r, flows[n], groups, t.oltId),
                  OltPort(v), fr);
      ImageStep(t, v, OltChosen(t, v, flows[..n], fr), flows[n], OltWants(t, v, flows[n], fr));
    }
  }

  lemma {:induction false} MixedOlt(
    r: Routes, t: Tree, v: Direction, flows: seq<Flow>, groups: seq<GroupEntry>, fr: Frame)
    requires Serves(r, t) && PonSimPorts(t) && MixedTable(t, GroupMap(groups), flows) && Visible(t, v, fr)
    ensures var table := Lookup(MulticastTables(r, t, flows, groups), t.oltId);
            var result := ProcessFrame(SortedByPriority(table), OltPort(v), fr);
            var inBand := Hits(RootDefaults(t)[0], OltPort(v), fr);
            var chosen := OltChosen(t, v, flows, fr);
            result == if inBand && (chosen.None? || chosen.value.priority <= 2000) then RunFlow(RootDefaults(t)[0], fr)
                      else if chosen.Some? then RunFlow(MixedRule(t, v, chosen.value), fr)
                      else Ok(Dropped)
  {
    var port := OltPort(v);
    var contributed := Contributions(r, flows, GroupMap(groups), t.oltId);
    MixedDecomposes(r, t, flows, GroupMap(groups));
    TableIsDefaultsThenFlows(r, TreeDefaults(t), flows, GroupMap(groups), t.oltId);
    DefaultsOfTree(t, 0);
    MixedElection(r, t, v, flows, GroupMap(groups), fr);
    RootDefaultMatch(t, port, fr);
    assert RootDefaults(t) == [RootDefaults(t)[0]];
    SelectOne(RootDefaults(t)[0], port, fr);
    DefaultsThenElected(RootDefaults(t), contributed, port, fr);
  }

  /** A table of defaults and contributed rules runs the better of what each elects, and the defaults
      win ties. */
  lemma {:induction false} DefaultsThenElected(defaults: seq<Flow>, contributed: seq<Flow>, port: nat, fr: Frame)
    requires Matchable(defaults, port, fr) && Matchable(contributed, port, fr)
    ensures var d, c := Select(defaults, port, fr), Select(contributed, port, fr);
            ProcessFrame(SortedByPriority(AddNew(defaults, contributed)), port, fr) ==
            if d.Some? && (c.None? || c.value.priority <= d.value.priority) then RunFlow(d.value, fr)
            else if c.Some? then RunFlow(c.value, fr)
            else Ok(Dropped)
  {
    AddNewContents(defaults, contributed);
    DedupIsTransparent(defaults, contributed, port, fr);
    SelectSplit(defaults, contributed, port, fr);
    ProcessSelects(AddNew(defaults, contributed), port, fr);
  }

  // ----- upstream -----

  /** Multicast flows have no part in what comes from the PON. */
  lemma {:induction false} UpstreamChoice(t: Tree, i: nat, flows: seq<Flow>, groups: map<nat, GroupEntry>, fr: Frame)
    requires MixedTable(t, groups, flows) && i < |t.onus|
    ensures OltChosen(t, Up(i), flows, fr) == Chosen(t, Up(i), flows, fr)
    ensures Chosen(t, Up(i), flows, fr).Some? ==> !IsGroupFlow(Chosen(t, Up(i), flows, fr).value)
  {
    if flows != [] {
      var n := |flows| - 1;
      assert flows[n] in flows;
      UpstreamChoice(t, i, flows[..n], groups, fr);
      Kinds(t, groups, flows[n]);
    }
  }

  lemma {:induction false} EdgeContributionsAreSound(
    r: Routes, t: Tree, i: nat, flows: seq<Flow>, groups: map<nat, GroupEntry>, fr: Frame)
    requires Serves(r, t) && PonSimPorts(t) && i < |t.onus| && MixedTable(t, groups, flows)
    ensures forall rule :: rule in Contributions(r, flows, groups, t.onus[i].id) ==> OnuSound(t.onus[i], rule, EDGE, fr)
  {
    if flows != [] {
      var n := |flows| - 1;
      assert flows[n] in flows;
      EdgeContributionsAreSound(r, t, i, flows[..n], groups, fr);
      if UnicastFlow(t, flows[n]) {
        ContributionIsSound(r, t, i, flows[n], groups, EDGE, fr);
      } else {
        MulticastContribution(r, t, flows[n], groups, i);
        RehomedMatch(flows[n].fields, LeafField, PON, EDGE, fr);
      }
    }
  }

  lemma {:induction false} MixedOnuFromEdge(
    r: Routes, t: Tree, i: nat, flows: seq<Flow>, groups: seq<GroupEntry>, fr: Frame)
    requires Serves(r, t) && PonSimPorts(t) && i < |t.onus| && MixedTable(t, GroupMap(groups), flows)
    ensures var tag := TagFor(t.onus[i], fr);
            var table := Lookup(MulticastTables(r, t, flows, groups), t.onus[i].id);
            Emits(ProcessFrame(SortedByPriority(table), EDGE, fr), PON,
                  if tag.Some? then Some(Ok(tag.value)) else None)
  {
    var o := t.onus[i];
    var contributed := Contributions(r, flows, GroupMap(groups), o.id);
    MixedDecomposes(r, t, flows, GroupMap(groups));
    TableIsDefaultsThenFlows(r, TreeDefaults(t), flows, GroupMap(groups), o.id);
    DefaultsOfTree(t, i);
    LeafDefaultsAreSound(o, EDGE, fr);
    EdgeContributionsAreSound(r, t, i, flows, GroupMap(groups), fr);
    DefaultsThenElected(LeafDefaults(o), contributed, EDGE, fr);
    SelectMember(LeafDefaults(o), LeafDefaults(o)[0], EDGE, fr);
    SelectMember(LeafDefaults(o), LeafDefaults(o)[1], EDGE, fr);
    if contributed != [] {
      SelectMember(contributed, contributed[0], EDGE, fr);
    } else {
      SelectNone(EDGE, fr);
    }
  }

  lemma {:induction false} MixedOltUpstream(
    r: Routes, t: Tree, i: nat, flows: seq<Flow>, groups: seq<GroupEntry>, tagged: Frame, depth: nat)
    requires Serves(r, t) && PonSimPorts(t) && MixedTable(t, GroupMap(groups), flows) && Visible(t, Up(i), tagged)
    requires depth >= 1
    ensures Agrees(Ingress(InstalledNet(t, MulticastTables(r, t, flows, groups)), 0, PON, tagged, depth),
                   TaggedResult(t, i, flows, tagged))
  {
    var tables := MulticastTables(r, t, flows, groups);
    Wiring(t, tables, i);
    MixedOlt(r, t, Up(i), flows, groups, tagged);
    UpstreamChoice(t, i, flows, GroupMap(groups), tagged);
    RootDefaultMatch(t, PON, tagged);
    var net := InstalledNet(t, tables);
    IngressStops(net, 0, PON, tagged, depth);
    match Chosen(t, Up(i), flows, tagged)
    case None =>
    case Some(f) =>
      OltUpRuns(t, f, tagged);
      assert OltRule(t, Up(i), f) == OltRule(t, Up(0), f);
      if UpEffect(t, f, tagged).Ok? {
        IngressToUser(net, 0, PON, tagged, depth, RunFlow(OltRule(t, Up(i), f), tagged).value, OLT_PORT);
      }
  }

  /** Upstream, over mixed tables: exactly as over the unicast and controller-bound flows alone. */
  lemma {:induction false} MixedUpstreamExact(
    r: Routes, t: Tree, i: nat, flows: seq<Flow>, groups: seq<GroupEntry>, fr: Frame, depth: nat)
    requires Serves(r, t) && PonSimPorts(t) && DistinctVids(t) && i < |t.onus| && depth >= 2
    requires MixedTable(t, GroupMap(groups), flows)
    ensures Agrees(Inject(InstalledNet(t, MulticastTables(r, t, flows, groups)), i + 1, fr, depth),
                   UpstreamResult(t, i, flows, fr))
  {
    match TagFor(t.onus[i], fr)
    case None => MixedUpstreamDropped(r, t, i, flows, groups, fr, depth);
    case Some(tagged) => MixedUpstreamTagged(r, t, i, flows, groups, fr, depth, tagged);
  }

  lemma {:induction false} MixedUpstreamDropped(
    r: Routes, t: Tree, i: nat, flows: seq<Flow>, groups: seq<GroupEntry>, fr: Frame, depth: nat)
    requires Serves(r, t) && PonSimPorts(t) && i < |t.onus| && depth >= 2 && TagFor(t.onus[i], fr).None?
    requires MixedTable(t, GroupMap(groups), flows)
    ensures Agrees(Inject(InstalledNet(t, MulticastTables(r, t, flows, groups)), i + 1, fr, depth), Ok([]))
  {
    Wiring(t, MulticastTables(r, t, flows, groups), i);
    MixedOnuFromEdge(r, t, i, flows, groups, fr);
    IngressStops(InstalledNet(t, MulticastTables(r, t, flows, groups)), i + 1, EDGE, fr, depth);
  }

  lemma {:induction false} MixedUpstreamTagged(
    r: Routes, t: Tree, i: nat, flows: seq<Flow>, groups: seq<GroupEntry>, fr: Frame, depth: nat, tagged: Frame)
    requires Serves(r, t) && PonSimPorts(t) && DistinctVids(t) && i < |t.onus| && depth >= 2
    requires MixedTable(t, GroupMap(groups), flows) && TagFor(t.onus[i], fr) == Some(tagged)
    ensures Agrees(Inject(InstalledNet(t, MulticastTables(r, t, flows, groups)), i + 1, fr, depth),
                   TaggedResult(t, i, flows, tagged))
  {
    Wiring(t, MulticastTables(r, t, flows, groups), i);
    MixedOnuFromEdge(r, t, i, flows, groups, fr);
    OnuRelays(InstalledNet(t, MulticastTables(r, t, flows, groups)), i, tagged, fr, depth);
    MixedOltUpstream(r, t, i, flows, groups, tagged, depth - 1);
  }

  lemma MixedIsSupported(t: Tree, groups: map<nat, GroupEntry>, flows: seq<Flow>)
    requires MixedTable(t, groups, flows)
    ensures AllSupported(flows)
  {}

  /** Upstream meaning over mixed tables, under the same exact condition as without multicast flows. */
  lemma {:induction false} MixedUpstreamMeaning(
    r: Routes, t: Tree, i: nat, flows: seq<Flow>, groups: seq<GroupEntry>, fr: Frame, depth: nat)
    requires Serves(r, t) && PonSimPorts(t) && DistinctVids(t) && i < |t.onus| && depth >= 2
    requires MixedTable(t, GroupMap(groups), flows)
    ensures Fulfils(Inject(InstalledNet(t, MulticastTables(r, t, flows, groups)), i + 1, fr, depth),
                    LogicalUpstream(t, i, flows, fr), PacketIn(t, i, fr))
            <==> UpstreamAsAsked(t, i, flows, fr)
  {
    MixedUpstreamExact(r, t, i, flows, groups, fr, depth);
    MixedIsSupported(t, GroupMap(groups), flows);
    ResultMeaning(t, i, flows, fr, Inject(InstalledNet(t, MulticastTables(r, t, flows, groups)), i + 1, fr, depth));
  }

  // ----- an ONU, from the PON -----

  /** Who wants a frame from the PON at ONU k: an output flow of its subscriber that matches it, or a
      multicast flow it subscribes to whose IP half matches it. */
  ghost predicate OnuWants(t: Tree, groups: map<nat, GroupEntry>, k: nat, f: Flow, fr: Frame)
    requires k < |t.onus|
  {
    if IsGroupFlow(f) then Subscribed(t, groups, f, k) && LeafMatch(f, fr)
    else DownstreamOutput(t, k, f) && IsMatch(f.fields, t.nni, fr) == Yes
  }

  ghost function OnuTakers(t: Tree, groups: map<nat, GroupEntry>, k: nat, fr: Frame): iset<Flow>
    requires k < |t.onus|
  {
    iset f | OnuWants(t, groups, k, f, fr)
  }

  ghost function OnuChosen(t: Tree, groups: map<nat, GroupEntry>, flows: seq<Flow>, k: nat, fr: Frame): Option<Flow>
    requires k < |t.onus|
  {
    Elect(flows, OnuTakers(t, groups, k, fr))
  }

  function OnuRule(t: Tree, k: nat, f: Flow): Flow
    requires k < |t.onus|
  {
    if IsGroupFlow(f) then LeafRule(f, t.onus[k]) else OutputRule(f, FlowActions(f), OnuDown(t.onus[k]))
  }

  lemma {:induction false} SelectSame(rules: seq<Flow>, rule: Flow, port: nat, fr: Frame)
    requires forall i :: 0 <= i < |rules| ==> rules[i] == rule
    ensures Select(rules, port, fr) == if rules != [] && Hits(rule, port, fr) then Some(rule) else None
  {
    if rules != [] {
      SelectSame(rules[..|rules| - 1], rule, port, fr);
    }
  }

  lemma {:induction false} OnuGroupContribution(
    r: Routes, t: Tree, k: nat, f: Flow, groups: map<nat, GroupEntry>, fr: Frame)
    requires Serves(r, t) && PonSimPorts(t) && MulticastFlow(t, groups, f) && k < |t.onus|
    ensures Matchable(Contribution(r, f, groups, t.onus[k].id), PON, fr)
    ensures Select(Contribution(r, f, groups, t.onus[k].id), PON, fr) ==
            if Subscribed(t, groups, f, k) && LeafMatch(f, fr) then Some(LeafRule(f, t.onus[k])) else None
  {
    var rules := Contribution(r, f, groups, t.onus[k].id);
    MulticastContribution(r, t, f, groups, k);
    RehomedMatch(f.fields, LeafField, PON, PON, fr);
    assert forall i :: 0 <= i < |rules| ==> rules[i] in rules;
    SelectSame(rules, LeafRule(f, t.onus[k]), PON, fr);
    assert LeafRule(f, t.onus[k]) in rules <==> Subscribed(t, groups, f, k);
    assert rules != [] ==> rules[0] in rules;
  }

  lemma {:induction false} OnuUnicastContribution(
    r: Routes, t: Tree, k: nat, f: Flow, groups: map<nat, GroupEntry>, fr: Frame)
    requires Serves(r, t) && PonSimPorts(t) && UnicastFlow(t, f) && k < |t.onus|
    ensures Matchable(Contribution(r, f, groups, t.onus[k].id), PON, fr)
    ensures Select(Contribution(r, f, groups, t.onus[k].id), PON, fr) ==
            if DownstreamOutput(t, k, f) && IsMatch(f.fields, t.nni, fr) == Yes
            then Some(OutputRule(f, FlowActions(f), OnuDown(t.onus[k]))) else None
  {
    SelectNone(PON, fr);
    if DownstreamOutput(t, k, f) {
      DecomposeDownstreamOutput(r, t, k, f, groups);
      RehomedMatch(f.fields, NotInPort, PON, PON, fr);
      LogicalMatch(f, t.nni, PON, fr);
      SelectOne(OutputRule(f, FlowActions(f), OnuDown(t.onus[k])), PON, fr);
    } else {
      OnuContribution(r, t, k, f, groups);
      RehomedMatch(f.fields, NotInPort, EDGE, PON, fr);
      SelectOne(GotoRule(f, FlowActions(f), OnuUp(t.onus[k])), PON, fr);
    }
  }

  lemma {:induction false} OnuElection(
    r: Routes, t: Tree, k: nat, flows: seq<Flow>, groups: map<nat, GroupEntry>, fr: Frame)
    requires Serves(r, t) && PonSimPorts(t) && MixedTable(t, groups, flows) && k < |t.onus|
    ensures Matchable(Contributions(r, flows, groups, t.onus[k].id), PON, fr)
    ensures Select(Contributions(r, flows, groups, t.onus[k].id), PON, fr) ==
            match OnuChosen(t, groups, flows, k, fr) case None => None case Some(f) => Some(OnuRule(t, k, f))
    ensures OnuChosen(t, groups, flows, k, fr).Some? ==>
              && OnuChosen(t, groups, flows, k, fr).value in flows
              && OnuWants(t, groups, k, OnuChosen(t, groups, flows, k, fr).value, fr)
  {
    if flows == [] {
      SelectNone(PON, fr);
    } else {
      var n := |flows| - 1;
      var d := t.onus[k].id;
      assert flows[n] in flows;
      OnuElection(r, t, k, flows[..n], groups, fr);
      Kinds(t, groups, flows[n]);
      if IsGroupFlow(flows[n]) {
        OnuGroupContribution(r, t, k, flows[n], groups, fr);
      } else {
        OnuUnicastContribution(r, t, k, flows[n], groups, fr);
      }
      SelectSplit(Contributions(r, flows[..n], groups, d), Contribution(r, flows[n], groups, d), PON, fr);
    }
  }

  datatype Treatment = Ignore | Untag | Pass

  /** What ONU k does with a frame from the PON. Its default rule has priority 500, takes the frames of
      its VLAN, and wins ties. */
  ghost function Treats(t: Tree, groups: map<nat, GroupEntry>, flows: seq<Flow>, k: nat, fr: Frame): Treatment
    requires k < |t.onus|
  {
    var chosen := OnuChosen(t, groups, flows, k, fr);
    if Owns(t.onus[k], fr) && (chosen.None? || chosen.value.priority <= 500) then Untag
    else if chosen.None? then Ignore
    else if IsGroupFlow(chosen.value) then Pass
    else Untag
  }

  ghost function Treated(t: Tree, groups: map<nat, GroupEntry>, flows: seq<Flow>, k: nat, fr: Frame): Result<Outcome>
    requires k < |t.onus|
  {
    match Treats(t, groups, flows, k, fr)
    case Ignore => Ok(Dropped)
    case Pass => Ok(Forward(Some(EDGE), fr, true, fr))
    case Untag => if Tagged(fr) then Ok(Forward(Some(EDGE), WithVid(fr, 0), true, WithVid(fr, 0))) else Raised
  }

  lemma {:induction false} LeafDefaultElected(o: Onu, fr: Frame)
    requires o.edge == EDGE && o.pon == PON
    ensures Matchable(LeafDefaults(o), PON, fr)
    ensures var d := Select(LeafDefaults(o), PON, fr);
            && (d.Some? <==> Owns(o, fr))
            && (d.Some? ==> d.value.priority == 500
                            && RunFlow(d.value, fr) == Ok(Forward(Some(EDGE), WithVid(fr, 0), true, WithVid(fr, 0))))
  {
    LeafDefaultsAreSound(o, PON, fr);
    SelectMember(LeafDefaults(o), LeafDefaults(o)[2], PON, fr);
    assert forall d :: d in LeafDefaults(o) ==> d.priority == 500 && OnuSound(o, d, PON, fr);
  }

  lemma {:induction false} MixedOnuFromPon(
    r: Routes, t: Tree, k: nat, flows: seq<Flow>, groups: seq<GroupEntry>, fr: Frame)
    requires Serves(r, t) && PonSimPorts(t) && k < |t.onus| && MixedTable(t, GroupMap(groups), flows)
    ensures ProcessFrame(SortedByPriority(Lookup(MulticastTables(r, t, flows, groups), t.onus[k].id)), PON, fr) ==
            Treated(t, GroupMap(groups), flows, k, fr)
    ensures Treats(t, GroupMap(groups), flows, k, fr).Untag? ==> Tagged(fr)
  {
    var o := t.onus[k];
    var contributed := Contributions(r, flows, GroupMap(groups), o.id);
    MixedDecomposes(r, t, flows, GroupMap(groups));
    TableIsDefaultsThenFlows(r, TreeDefaults(t), flows, GroupMap(groups), o.id);
    DefaultsOfTree(t, k);
    LeafDefaultElected(o, fr);
    OnuElection(r, t, k, flows, GroupMap(groups), fr);
    DefaultsThenElected(LeafDefaults(o), contributed, PON, fr);
    var chosen := OnuChosen(t, GroupMap(groups), flows, k, fr);
    if chosen.Some? {
      ChosenRuleRuns(t, GroupMap(groups), k, chosen.value, fr);
    }
  }

  lemma ChosenRuleRuns(t: Tree, groups: map<nat, GroupEntry>, k: nat, f: Flow, fr: Frame)
    requires PonSimPorts(t) && MixedFlow(t, groups, f) && k < |t.onus| && OnuWants(t, groups, k, f, fr)
    ensures OnuRule(t, k, f).priority == f.priority
    ensures IsGroupFlow(f) ==> RunFlow(OnuRule(t, k, f), fr) == Ok(Forward(Some(EDGE), fr, true, fr))
    ensures !IsGroupFlow(f) ==>
              && Owns(t.onus[k], fr)
              && RunFlow(OnuRule(t, k, f), fr) == Ok(Forward(Some(EDGE), WithVid(fr, 0), true, WithVid(fr, 0)))
  {
    Kinds(t, groups, f);
    if IsGroupFlow(f) {
      LeafRuleRuns(f, t.onus[k], fr);
    } else {
      OutputRuleIsSound(t, k, f, PON, fr);
      RehomedMatch(f.fields, NotInPort, PON, PON, fr);
      LogicalMatch(f, t.nni, PON, fr);
    }
  }

  // ----- downstream -----

  /** What ONU k emits, and how it leaves the shared object. Only tagged frames are untagged. */
  ghost function Reaction(t: Tree, groups: map<nat, GroupEntry>, flows: seq<Flow>, k: nat, fr: Frame): Trace
    requires k < |t.onus|
  {
    match Treats(t, groups, flows, k, fr)
    case Ignore => Trace([], fr, Done)
    case Pass => Trace([(OnuPort(k), fr)], fr, Done)
    case Untag =>
      if Tagged(fr) then Trace([(OnuPort(k), WithVid(fr, 0))], WithVid(fr, 0), Done) else Trace([], fr, Done)
  }

  /** What the ONUs from the k-th on emit when they are handed one object in turn. */
  ghost function MixedDelivered(
    t: Tree, groups: map<nat, GroupEntry>, flows: seq<Flow>, k: nat, fr: Frame): seq<(nat, Frame)>
    requires k <= |t.onus|
    decreases |t.onus| - k
  {
    if k == |t.onus| then []
    else
      var first := Reaction(t, groups, flows, k, fr);
      first.out + MixedDelivered(t, groups, flows, k + 1, first.fr)
  }

  ghost predicate ReactsAt(net: Net, t: Tree, groups: map<nat, GroupEntry>, flows: seq<Flow>, k: nat, depth: nat)
    requires |net| == |t.onus| + 1 && WiredWithin(net) && k < |t.onus|
  {
    forall fr :: HandOne(net, ToDevice(k + 1, PON), fr, depth) == Reaction(t, groups, flows, k, fr)
  }

  ghost predicate AllReact(net: Net, t: Tree, groups: map<nat, GroupEntry>, flows: seq<Flow>, depth: nat) {
    && |net| == |t.onus| + 1 && WiredWithin(net)
    && forall k :: 0 <= k < |t.onus| ==> ReactsAt(net, t, groups, flows, k, depth)
  }

  lemma OneReacts(r: Routes, t: Tree, k: nat, flows: seq<Flow>, groups: seq<GroupEntry>, fr: Frame, depth: nat)
    requires Serves(r, t) && PonSimPorts(t) && k < |t.onus| && MixedTable(t, GroupMap(groups), flows) && depth >= 1
    ensures Ingress(InstalledNet(t, MulticastTables(r, t, flows, groups)), k + 1, PON, fr, depth) ==
            Reaction(t, GroupMap(groups), flows, k, fr)
  {
    var net := InstalledNet(t, MulticastTables(r, t, flows, groups));
    Wiring(t, MulticastTables(r, t, flows, groups), k);
    MixedOnuFromPon(r, t, k, flows, groups, fr);
    IngressStops(net, k + 1, PON, fr, depth);
    var result := ProcessFrame(net[k + 1].flows, PON, fr);
    if result.value.Forward? {
      IngressToUser(net, k + 1, PON, fr, depth, result.value, OnuPort(k));
    }
  }

  lemma {:induction false} EveryoneReacts(
    r: Routes, t: Tree, flows: seq<Flow>, groups: seq<GroupEntry>, tables: DeviceRules, net: Net, depth: nat)
    requires Serves(r, t) && PonSimPorts(t) && MixedTable(t, GroupMap(groups), flows) && depth >= 1
    requires tables == MulticastTables(r, t, flows, groups) && net == InstalledNet(t, tables)
    ensures AllReact(net, t, GroupMap(groups), flows, depth)
  {
    forall k | 0 <= k < |t.onus| ensures ReactsAt(net, t, GroupMap(groups), flows, k, depth) {
      forall fr ensures HandOne(net, ToDevice(k + 1, PON), fr, depth) == Reaction(t, GroupMap(groups), flows, k, fr) {
        OneReacts(r, t, k, flows, groups, fr, depth);
      }
    }
  }

  lemma {:induction false} BroadcastReacts(
    net: Net, t: Tree, groups: map<nat, GroupEntry>, flows: seq<Flow>, k: nat, links: seq<Link>, fr: Frame, depth: nat)
    requires AllReact(net, t, groups, flows, depth)
    requires k + |links| == |t.onus| && forall j :: 0 <= j < |links| ==> links[j] == ToDevice(k + j + 1, PON)
    ensures forall l :: l in links ==> LinkWithin(l, |net|)
    ensures Hand(net, links, fr, depth).status == Done
    ensures Hand(net, links, fr, depth).out == MixedDelivered(t, groups, flows, k, fr)
    decreases |links|
  {
    if links != [] {
      assert links[0] == ToDevice(k + 1, PON) && links[0..] == links;
      assert ReactsAt(net, t, groups, flows, k, depth);
      BroadcastReacts(net, t, groups, flows, k + 1, links[1..], Reaction(t, groups, flows, k, fr).fr, depth);
      HandStep(net, links, 0, fr, depth);
    }
  }

  /** What the OLT puts on the PON: what the elected flow makes of the frame, the frame below its tag
      for a multicast flow or by the in-band rule, or nothing. */
  ghost function OntoPon(t: Tree, flows: seq<Flow>, fr: Frame): Option<Result<Frame>> {
    var chosen := OltChosen(t, Down, flows, fr);
    if InBandTag(fr) && (chosen.None? || chosen.value.priority <= 2000) then Some(Ok(Pop(fr)))
    else if chosen.None? then None
    else if IsGroupFlow(chosen.value) then Some(Ok(Pop(fr)))
    else Some(Rewrite(FlowActions(chosen.value), fr))
  }

  lemma RootRuleEmits(t: Tree, f: Flow, fr: Frame)
    requires PonSimPorts(t) && IsGroupFlow(f)
    ensures Emits(RunFlow(RootRule(f, t), fr), PON, Some(Ok(Pop(fr))))
  {
    FilterNone(FlowActions(f), NotGroup);
    assert [] + [PopVlan, Output(PON)] == [PopVlan] + [Output(PON)];
    RunRule(f.priority, f.cookie, [InPort(EDGE)] + Filter(f.fields, RootField), [PopVlan], PON, fr);
    assert [PopVlan][1..] == [];
    var s := RunAction(PopVlan, Start(fr)).value;
    assert RunActions([], s) == Ok(s);
  }

  lemma {:induction false} MixedOltDownstream(r: Routes, t: Tree, flows: seq<Flow>, groups: seq<GroupEntry>, fr: Frame)
    requires Serves(r, t) && PonSimPorts(t) && MixedTable(t, GroupMap(groups), flows)
    ensures Emits(ProcessFrame(SortedByPriority(Lookup(MulticastTables(r, t, flows, groups), t.oltId)), EDGE, fr), PON,
                  OntoPon(t, flows, fr))
  {
    MixedOlt(r, t, Down, flows, groups, fr);
    RootDefaultMatch(t, EDGE, fr);
    var chosen := OltChosen(t, Down, flows, fr);
    if InBandTag(fr) && (chosen.None? || chosen.value.priority <= 2000) {
      RootDefaultRuns(t, fr);
    } else if chosen.Some? {
      if IsGroupFlow(chosen.value) {
        RootRuleEmits(t, chosen.value, fr);
      } else {
        GotoRuleRuns(chosen.value, OltDown(t), fr);
      }
    }
  }

  ghost function MixedDownstream(
    t: Tree, groups: map<nat, GroupEntry>, flows: seq<Flow>, fr: Frame): Result<seq<(nat, Frame)>> {
    match OntoPon(t, flows, fr)
    case None => Ok([])
    case Some(Raised) => Raised
    case Some(Ok(fr')) => Ok(MixedDelivered(t, groups, flows, 0, fr'))
  }

  lemma {:induction false} OltHandsOn(
    net: Net, t: Tree, groups: map<nat, GroupEntry>, flows: seq<Flow>, fr: Frame, fr': Frame, depth: nat)
    requires depth >= 2 && AllReact(net, t, groups, flows, depth - 1)
    requires Emits(ProcessFrame(net[0].flows, EDGE, fr), PON, Some(Ok(fr')))
    requires |LinksOf(net, 0, Some(PON))| == |t.onus|
    requires forall j :: 0 <= j < |t.onus| ==> LinksOf(net, 0, Some(PON))[j] == ToDevice(j + 1, PON)
    ensures Inject(net, 0, fr, depth).status == Done
    ensures Inject(net, 0, fr, depth).out == MixedDelivered(t, groups, flows, 0, fr')
  {
    IngressHands(net, 0, EDGE, fr, depth, ProcessFrame(net[0].flows, EDGE, fr).value);
    BroadcastReacts(net, t, groups, flows, 0, LinksOf(net, 0, Some(PON)), fr', depth - 1);
  }

  lemma {:induction false} OltHandsOnTo(
    t: Tree, tables: DeviceRules, net: Net, groups: map<nat, GroupEntry>, flows: seq<Flow>,
    fr: Frame, fr': Frame, depth: nat)
    requires net == InstalledNet(t, tables) && depth >= 2 && AllReact(net, t, groups, flows, depth - 1)
    requires Emits(ProcessFrame(SortedByPriority(Lookup(tables, t.oltId)), EDGE, fr), PON, Some(Ok(fr')))
    ensures Inject(net, 0, fr, depth).status == Done
    ensures Inject(net, 0, fr, depth).out == MixedDelivered(t, groups, flows, 0, fr')
  {
    Wiring(t, tables, 0);
    PonLinks(t, tables);
    OltHandsOn(net, t, groups, flows, fr, fr', depth);
  }

  /** Downstream, over mixed tables, for any frame at the NNI: the exact output of the one object that
      the OLT puts on the PON and the ONUs treat in turn. */
  lemma {:induction false} MixedDownstreamExact(
    r: Routes, t: Tree, flows: seq<Flow>, groups: seq<GroupEntry>, fr: Frame, depth: nat)
    requires Serves(r, t) && PonSimPorts(t) && MixedTable(t, GroupMap(groups), flows) && depth >= 2
    ensures Agrees(Inject(InstalledNet(t, MulticastTables(r, t, flows, groups)), 0, fr, depth),
                   MixedDownstream(t, GroupMap(groups), flows, fr))
  {
    MixedOltDownstream(r, t, flows, groups, fr);
    match OntoPon(t, flows, fr)
    case Some(Ok(fr')) =>
      var tables := MulticastTables(r, t, flows, groups);
      MixedBroadcast(r, t, flows, groups, tables, InstalledNet(t, tables), fr, fr', depth);
    case effect => OltEndsIt(t, MulticastTables(r, t, flows, groups), fr, effect, depth);
  }

  lemma {:induction false} MixedBroadcast(
    r: Routes, t: Tree, flows: seq<Flow>, groups: seq<GroupEntry>, tables: DeviceRules, net: Net,
    fr: Frame, fr': Frame, depth: nat)
    requires Serves(r, t) && PonSimPorts(t) && MixedTable(t, GroupMap(groups), flows) && depth >= 2
    requires tables == MulticastTables(r, t, flows, groups) && net == InstalledNet(t, tables)
    requires Emits(ProcessFrame(SortedByPriority(Lookup(tables, t.oltId)), EDGE, fr), PON, Some(Ok(fr')))
    ensures Inject(net, 0, fr, depth).status == Done
    ensures Inject(net, 0, fr, depth).out == MixedDelivered(t, GroupMap(groups), flows, 0, fr')
  {
    EveryoneReacts(r, t, flows, groups, tables, net, depth - 1);
    OltHandsOnTo(t, tables, net, GroupMap(groups), flows, fr, fr', depth);
  }
}
