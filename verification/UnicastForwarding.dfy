/** The whole simulator on the decomposed tables of unicast and controller-bound flows: exact
    results for every frame at every outside port. */
module UnicastForwarding {
  import opened Wrappers
  import opened OpenFlow
  import opened PonMachine
  import opened RuleSelection
  import opened Topology
  import opened FlowDecomposer
  import opened LoopFreedom
  import opened UnicastMeaning

  // ----- an ONU -----

  /** What an ONU makes of a frame from its subscriber: untagged frames and frames with VLAN 0
      leave with the ONU's own VLAN, everything else is dropped. */
  function TagFor(o: Onu, fr: Frame): (r: Option<Frame>)
    ensures r.Some? ==> Owns(o, r.value)
  {
    if !Tagged(fr) then Some(WithVid(Push(fr, 0x8100), Vid(o)))
    else if fr.tags[0].vid == 0 then Some(WithVid(fr, Vid(o)))
    else None
  }

  predicate Owns(o: Onu, fr: Frame) {
    Tagged(fr) && fr.tags[0].vid == Vid(o)
  }

  predicate Sends(rule: Flow, fr: Frame, out: nat, fr': Frame) {
    var o := RunFlow(rule, fr);
    o.Ok? && o.value.Forward? && o.value.egress == Some(out) && o.value.fr == fr'
  }

  /** A rule an ONU may have: from the subscriber it tags, from the PON it untags in place. */
  ghost predicate OnuSound(o: Onu, rule: Flow, port: nat, fr: Frame) {
    && IsMatch(rule.fields, port, fr) != Raises
    && (Hits(rule, port, fr) ==>
          || (port == EDGE && TagFor(o, fr).Some? && Sends(rule, fr, PON, TagFor(o, fr).value))
          || (port == PON && Owns(o, fr)
              && RunFlow(rule, fr) == Ok(Forward(Some(EDGE), WithVid(fr, 0), true, WithVid(fr, 0)))))
  }

  lemma {:induction false} TaggingRuleIsSound(
    o: Onu, priority: nat, cookie: bv64, fields: seq<Field>, a: Action, port: nat, fr: Frame)
    requires SetsVid(a, Vid(o))
    requires IsMatch([InPort(EDGE)] + fields, port, fr) != Raises
    requires IsMatch([InPort(EDGE)] + fields, port, fr) == Yes ==> port == EDGE && Tagged(fr) && fr.tags[0].vid == 0
    ensures OnuSound(o, MkFlowStat(priority, cookie, [InPort(EDGE)] + fields, [a] + [Output(PON)]), port, fr)
  {
    RunRule(priority, cookie, [InPort(EDGE)] + fields, [a], PON, fr);
    if IsMatch([InPort(EDGE)] + fields, port, fr) == Yes {
      RunSetVid(a, Vid(o), fr);
    }
  }

  lemma {:induction false} PushingRuleIsSound(
    o: Onu, priority: nat, cookie: bv64, fields: seq<Field>, a: Action, port: nat, fr: Frame)
    requires SetsVid(a, Vid(o))
    requires IsMatch([InPort(EDGE)] + fields, port, fr) != Raises
    requires IsMatch([InPort(EDGE)] + fields, port, fr) == Yes ==> port == EDGE && !Tagged(fr)
    ensures var actions := [PushVlan(0x8100), a] + [Output(PON)];
            OnuSound(o, MkFlowStat(priority, cookie, [InPort(EDGE)] + fields, actions), port, fr)
  {
    RunRule(priority, cookie, [InPort(EDGE)] + fields, [PushVlan(0x8100), a], PON, fr);
    RunPushAndSetVid(a, Vid(o), fr);
  }

  lemma {:induction false} UntaggingRuleIsSound(
    o: Onu, priority: nat, cookie: bv64, fields: seq<Field>, a: Action, port: nat, fr: Frame)
    requires SetsVid(a, 0)
    requires IsMatch([InPort(PON)] + fields, port, fr) != Raises
    requires IsMatch([InPort(PON)] + fields, port, fr) == Yes ==> port == PON && Owns(o, fr)
    ensures OnuSound(o, MkFlowStat(priority, cookie, [InPort(PON)] + fields, [a] + [Output(EDGE)]), port, fr)
  {
    RunRule(priority, cookie, [InPort(PON)] + fields, [a], EDGE, fr);
    if IsMatch([InPort(PON)] + fields, port, fr) == Yes {
      RunSetVid(a, 0, fr);
    }
  }

  lemma {:induction false} TwoFieldMatch(home: nat, v: nat, port: nat, fr: Frame)
    ensures IsMatch([InPort(home)] + [VlanVid(v)], port, fr) ==
            if home != port then No else FieldVerdict(VlanVid(v), port, fr)
  {
    var fields := [InPort(home)] + [VlanVid(v)];
    assert fields[1..] == [VlanVid(v)] && [VlanVid(v)][1..] == [];
    assert IsMatch([], port, fr) == Yes;
    assert IsMatch([VlanVid(v)], port, fr) == FieldVerdict(VlanVid(v), port, fr);
  }

  /** The three default rules are sound, and between them they catch all that an ONU can catch. */
  lemma LeafDefaultsAreSound(o: Onu, port: nat, fr: Frame)
    requires o.edge == EDGE && o.pon == PON
    ensures forall rule :: rule in LeafDefaults(o) ==> OnuSound(o, rule, port, fr)
    ensures port == EDGE && TagFor(o, fr).Some? ==>
              Hits(LeafDefaults(o)[0], port, fr) || Hits(LeafDefaults(o)[1], port, fr)
    ensures port == PON && Owns(o, fr) ==> Hits(LeafDefaults(o)[2], port, fr)
  {
    var set0, setV := SetField(VlanVid(Present(0))), SetField(VlanVid(Present(o.vlan)));
    TwoFieldMatch(EDGE, Present(0), port, fr);
    TwoFieldMatch(EDGE, 0, port, fr);
    TwoFieldMatch(PON, Present(o.vlan), port, fr);
    TaggingRuleIsSound(o, 500, 0, [VlanVid(Present(0))], setV, port, fr);
    PushingRuleIsSound(o, 500, 0, [VlanVid(0)], setV, port, fr);
    UntaggingRuleIsSound(o, 500, 0, [VlanVid(Present(o.vlan))], set0, port, fr);
    assert [setV] + [Output(PON)] == [setV, Output(PON)];
    assert [PushVlan(0x8100), setV] + [Output(PON)] == [PushVlan(0x8100), setV, Output(PON)];
    assert [set0] + [Output(EDGE)] == [set0, Output(EDGE)];
    assert [InPort(EDGE)] + [VlanVid(Present(0))] == [InPort(EDGE), VlanVid(Present(0))];
    assert [InPort(EDGE)] + [VlanVid(0)] == [InPort(EDGE), VlanVid(0)];
    assert [InPort(PON)] + [VlanVid(Present(o.vlan))] == [InPort(PON), VlanVid(Present(o.vlan))];
  }

  lemma GotoRuleTags(o: Onu, f: Flow, a: Action, port: nat, fr: Frame)
    requires o.edge == EDGE && o.pon == PON && forall x :: x in f.fields ==> Supported(x)
    requires PinsVid(f, 0) && SetsVid(a, Vid(o))
    ensures OnuSound(o, GotoRule(f, [a], OnuUp(o)), port, fr)
  {
    RehomedMatch(f.fields, NotInPort, EDGE, port, fr);
    if KeptMatch(f.fields, NotInPort, port, fr) {
      PinnedVid(f, 0, port, fr);
    }
    TaggingRuleIsSound(o, f.priority, f.cookie, Filter(f.fields, NotInPort), a, port, fr);
  }

  lemma GotoRulePushes(o: Onu, f: Flow, a: Action, port: nat, fr: Frame)
    requires o.edge == EDGE && o.pon == PON && forall x :: x in f.fields ==> Supported(x)
    requires PinsUntagged(f) && SetsVid(a, Vid(o))
    ensures OnuSound(o, GotoRule(f, [PushVlan(0x8100), a], OnuUp(o)), port, fr)
  {
    RehomedMatch(f.fields, NotInPort, EDGE, port, fr);
    var x :| x in f.fields && x.VlanVid? && !HasPresentBit(x.vid);
    assert NotInPort(x);
    if KeptMatch(f.fields, NotInPort, port, fr) {
      assert FieldVerdict(x, port, fr) == Yes;
      assert !Tagged(fr);
    }
    PushingRuleIsSound(o, f.priority, f.cookie, Filter(f.fields, NotInPort), a, port, fr);
  }

  lemma GotoRuleIsSound(t: Tree, i: nat, f: Flow, port: nat, fr: Frame)
    requires PonSimPorts(t) && i < |t.onus| && UpstreamGoto(t, i, f) && forall x :: x in f.fields ==> Supported(x)
    ensures OnuSound(t.onus[i], GotoRule(f, FlowActions(f), OnuUp(t.onus[i])), port, fr)
  {
    var actions := FlowActions(f);
    if |actions| == 1 {
      assert actions == [actions[0]];
      GotoRuleTags(t.onus[i], f, actions[0], port, fr);
    } else {
      assert actions == [PushVlan(0x8100), actions[1]];
      GotoRulePushes(t.onus[i], f, actions[1], port, fr);
    }
  }

  lemma OutputRuleIsSound(t: Tree, i: nat, f: Flow, port: nat, fr: Frame)
    requires PonSimPorts(t) && i < |t.onus| && DownstreamOutput(t, i, f) && forall x :: x in f.fields ==> Supported(x)
    ensures OnuSound(t.onus[i], OutputRule(f, FlowActions(f), OnuDown(t.onus[i])), port, fr)
  {
    var kept := Filter(FlowActions(f), NotOutput);
    assert kept == [kept[0]];
    RehomedMatch(f.fields, NotInPort, PON, port, fr);
    if KeptMatch(f.fields, NotInPort, port, fr) {
      PinnedVid(f, Vid(t.onus[i]), port, fr);
    }
    UntaggingRuleIsSound(t.onus[i], f.priority, f.cookie, Filter(f.fields, NotInPort), kept[0], port, fr);
  }

  /** Only the flows of its own subscriber put rules on an ONU. */
  lemma OnuContribution(r: Routes, t: Tree, i: nat, f: Flow, groups: map<nat, GroupEntry>)
    requires Serves(r, t) && i < |t.onus| && UnicastFlow(t, f)
    ensures var rules := Contribution(r, f, groups, t.onus[i].id);
            || rules == []
            || (UpstreamGoto(t, i, f) && rules == [GotoRule(f, FlowActions(f), OnuUp(t.onus[i]))])
            || (DownstreamOutput(t, i, f) && rules == [OutputRule(f, FlowActions(f), OnuDown(t.onus[i]))])
  {
    if ControllerBound(t, f) {
      DecomposeControllerBound(r, t, f, groups);
    } else if DownstreamGoto(t, f) {
      DecomposeDownstreamGoto(r, t, f, groups);
    } else if j :| 0 <= j < |t.onus| && UpstreamOutput(t, j, f) {
      DecomposeUpstreamOutput(r, t, j, f, groups);
    } else if j :| 0 <= j < |t.onus| && UpstreamGoto(t, j, f) {
      DecomposeUpstreamGoto(r, t, j, f, groups);
    } else {
      var j :| 0 <= j < |t.onus| && DownstreamOutput(t, j, f);
      DecomposeDownstreamOutput(r, t, j, f, groups);
    }
  }

  lemma ContributionIsSound(r: Routes, t: Tree, i: nat, f: Flow, groups: map<nat, GroupEntry>, port: nat, fr: Frame)
    requires Serves(r, t) && PonSimPorts(t) && i < |t.onus| && UnicastFlow(t, f)
    ensures forall rule :: rule in Contribution(r, f, groups, t.onus[i].id) ==> OnuSound(t.onus[i], rule, port, fr)
  {
    OnuContribution(r, t, i, f, groups);
    if Contribution(r, f, groups, t.onus[i].id) != [] {
      if UpstreamGoto(t, i, f) {
        GotoRuleIsSound(t, i, f, port, fr);
      }
      if DownstreamOutput(t, i, f) {
        OutputRuleIsSound(t, i, f, port, fr);
      }
    }
  }

  lemma {:induction false} ContributionsAreSound(
    r: Routes, t: Tree, i: nat, flows: seq<Flow>, groups: map<nat, GroupEntry>, port: nat, fr: Frame)
    requires Serves(r, t) && PonSimPorts(t) && i < |t.onus| && UnicastTable(t, flows)
    ensures forall rule :: rule in Contributions(r, flows, groups, t.onus[i].id) ==> OnuSound(t.onus[i], rule, port, fr)
  {
    if flows != [] {
      var n := |flows| - 1;
      assert flows[n] in flows;
      ContributionsAreSound(r, t, i, flows[..n], groups, port, fr);
      ContributionIsSound(r, t, i, flows[n], groups, port, fr);
    }
  }

  /** The decomposed tables; groups play no part in unicast. */
  function Tables(r: Routes, t: Tree, flows: seq<Flow>): DeviceRules {
    match DecomposeRules(r, TreeDefaults(t), flows, [])
    case Ok(tables) => tables
    case Raised => map[]
  }

  /** An ONU's table does the same whatever unicast flows there are: it tags and untags. */
  lemma {:induction false} OnuBehaviour(r: Routes, t: Tree, i: nat, flows: seq<Flow>, port: nat, fr: Frame)
    requires Serves(r, t) && PonSimPorts(t) && i < |t.onus| && UnicastTable(t, flows) && (port == EDGE || port == PON)
    ensures var o, table := t.onus[i], Lookup(Tables(r, t, flows), t.onus[i].id);
            var result := ProcessFrame(SortedByPriority(table), port, fr);
            && (port == EDGE && TagFor(o, fr).Some? ==>
                  && result.Ok? && result.value.Forward? && result.value.egress == Some(PON)
                  && result.value.fr == TagFor(o, fr).value)
            && (port == EDGE && TagFor(o, fr).None? ==> result == Ok(Dropped))
            && (port == PON && Owns(o, fr) ==>
                  result == Ok(Forward(Some(EDGE), WithVid(fr, 0), true, WithVid(fr, 0))))
            && (port == PON && !Owns(o, fr) ==> result == Ok(Dropped))
  {
    var o := t.onus[i];
    var contributed := Contributions(r, flows, map[], o.id);
    var table := Lookup(Tables(r, t, flows), o.id);
    UnicastTableDecomposes(r, t, flows, map[]);
    TableIsDefaultsThenFlows(r, TreeDefaults(t), flows, map[], o.id);
    DefaultsOfTree(t, i);
    AddNewContents(LeafDefaults(o), contributed);
    LeafDefaultsAreSound(o, port, fr);
    ContributionsAreSound(r, t, i, flows, map[], port, fr);
    assert forall rule :: rule in table ==> OnuSound(o, rule, port, fr);
    ProcessSelects(table, port, fr);
    forall k | 0 <= k < 3 ensures LeafDefaults(o)[k] in table {
      assert table[k] == LeafDefaults(o)[k];
    }
    forall k | 0 <= k < 3 && Hits(LeafDefaults(o)[k], port, fr) ensures Select(table, port, fr).Some? {
      SelectMember(table, LeafDefaults(o)[k], port, fr);
    }
    SelectMember(table, LeafDefaults(o)[0], port, fr);
  }

  // ----- upstream -----

  /** The in-band encapsulation towards the controller. */
  function InBand(fr: Frame): Frame {
    WithVid(Push(fr, 0x8100), 4000)
  }

  /** What the flow the logical table elects makes of a frame on its way to the NNI. */
  function UpEffect(t: Tree, f: Flow, fr: Frame): Result<Frame> {
    if ControllerBound(t, f) then Ok(InBand(fr)) else Rewrite(FlowActions(f), fr)
  }

  /** The generated rules for either half of a pair send on what the logical actions make. */
  lemma GotoRuleRuns(f: Flow, hop: Hop, fr: Frame)
    ensures var run, made := RunFlow(GotoRule(f, FlowActions(f), hop), fr), Rewrite(FlowActions(f), fr);
            && run.Ok? == made.Ok?
            && (made.Ok? ==> run.value.Forward? && run.value.egress == Some(hop.egress) && run.value.fr == made.value)
  {
    RunRule(f.priority, f.cookie, [InPort(hop.ingress)] + Filter(f.fields, NotInPort), FlowActions(f), hop.egress, fr);
  }

  lemma OutputRuleRuns(f: Flow, hop: Hop, fr: Frame)
    ensures var run, made := RunFlow(OutputRule(f, FlowActions(f), hop), fr), Rewrite(FlowActions(f), fr);
            && run.Ok? == made.Ok?
            && (made.Ok? ==> run.value.Forward? && run.value.egress == Some(hop.egress) && run.value.fr == made.value)
  {
    OutputsDoNotRewrite(FlowActions(f), Start(fr), Start(fr));
    RunRule(f.priority, f.cookie, [InPort(hop.ingress)] + Filter(f.fields, NotInPort),
            Filter(FlowActions(f), NotOutput), hop.egress, fr);
  }

  lemma OltUpRuns(t: Tree, f: Flow, fr: Frame)
    requires PonSimPorts(t)
    ensures var run := RunFlow(OltRule(t, Up(0), f), fr);
            && run.Ok? == UpEffect(t, f, fr).Ok?
            && (run.Ok? ==>
                  run.value.Forward? && run.value.egress == Some(EDGE) && run.value.fr == UpEffect(t, f, fr).value)
  {
    if ControllerBound(t, f) {
      var a := SetField(VlanVid(Present(4000)));
      assert SetsVid(a, 4000);
      RunPushAndSetVid(a, 4000, fr);
      assert [PushVlan(0x8100), a] + [Output(EDGE)] == [PushVlan(0x8100), a, Output(EDGE)];
      RunRule(f.priority, f.cookie, [InPort(PON)] + Filter(f.fields, ControllerField), [PushVlan(0x8100), a], EDGE, fr);
    } else {
      OutputRuleRuns(f, OltUp(t), fr);
    }
  }

  lemma {:induction false} RootDefaultMatch(t: Tree, port: nat, fr: Frame)
    requires PonSimPorts(t)
    ensures IsMatch(RootDefaults(t)[0].fields, port, fr) != Raises
    ensures Hits(RootDefaults(t)[0], port, fr) <==>
            port == EDGE && Tagged(fr) && fr.tags[0].vid == 4000 && fr.tags[0].pcp == 0
  {
    var fields := RootDefaults(t)[0].fields;
    assert fields == [InPort(EDGE)] + ([VlanVid(Present(4000))] + [VlanPcp(0)]);
    assert fields[1..] == [VlanVid(Present(4000))] + [VlanPcp(0)];
    assert fields[1..][1..] == [VlanPcp(0)];
    assert [VlanPcp(0)][1..] == [];
    assert IsMatch([], port, fr) == Yes;
    assert IsMatch([VlanPcp(0)], port, fr) == FieldVerdict(VlanPcp(0), port, fr);
  }

  /** The OLT's table, consulted in either direction. */
  lemma {:induction false} OltBehaviour(r: Routes, t: Tree, v: Direction, flows: seq<Flow>, fr: Frame)
    requires Serves(r, t) && PonSimPorts(t) && UnicastTable(t, flows) && Visible(t, v, fr)
    ensures var result := ProcessFrame(SortedByPriority(Lookup(Tables(r, t, flows), t.oltId)), OltPort(v), fr);
            var inBand := Hits(RootDefaults(t)[0], OltPort(v), fr);
            var chosen := Chosen(t, v, flows, fr);
            result == if inBand && (chosen.None? || chosen.value.priority <= 2000) then RunFlow(RootDefaults(t)[0], fr)
                      else if chosen.Some? then RunFlow(OltRule(t, v, chosen.value), fr)
                      else Ok(Dropped)
  {
    var port := OltPort(v);
    var contributed := Contributions(r, flows, map[], t.oltId);
    var table := Lookup(Tables(r, t, flows), t.oltId);
    UnicastTableDecomposes(r, t, flows, map[]);
    TableIsDefaultsThenFlows(r, TreeDefaults(t), flows, map[], t.oltId);
    DefaultsOfTree(t, 0);
    AddNewContents(RootDefaults(t), contributed);
    OltElection(r, t, v, flows, map[], fr);
    RootDefaultMatch(t, port, fr);
    assert forall rule :: rule in table ==> rule == RootDefaults(t)[0] || rule in contributed;
    ProcessSelects(table, port, fr);
    DedupIsTransparent(RootDefaults(t), contributed, port, fr);
    SelectSplit(RootDefaults(t), contributed, port, fr);
    SelectOne(RootDefaults(t)[0], port, fr);
    assert RootDefaults(t) == [RootDefaults(t)[0]];
  }

  /** The wiring and the tables of the installed simulator, device by device. */
  lemma Wiring(t: Tree, tables: DeviceRules, i: nat)
    ensures var net := InstalledNet(t, tables);
            && net[0].flows == SortedByPriority(Lookup(tables, t.oltId))
            && LinksOf(net, 0, Some(EDGE)) == [ToUser(OLT_PORT)]
            && (i < |t.onus| ==>
                  && net[i + 1].flows == SortedByPriority(Lookup(tables, t.onus[i].id))
                  && LinksOf(net, i + 1, Some(EDGE)) == [ToUser(OnuPort(i))]
                  && LinksOf(net, i + 1, Some(PON)) == [ToDevice(0, PON)])
  {}

  lemma {:induction false} IngressStops(net: Net, d: nat, port: nat, fr: Frame, depth: nat)
    requires WiredWithin(net) && d < |net| && depth >= 1
    ensures ProcessFrame(net[d].flows, port, fr) == Ok(Dropped) ==>
            Ingress(net, d, port, fr, depth) == Trace([], fr, Done)
    ensures ProcessFrame(net[d].flows, port, fr) == Raised ==>
              Ingress(net, d, port, fr, depth) == Trace([], AfterRaise(net[d].flows, port, fr), Failed)
  {}

  lemma {:induction false} IngressToUser(net: Net, d: nat, port: nat, fr: Frame, depth: nat, o: Outcome, user: nat)
    requires WiredWithin(net) && d < |net| && depth >= 1
    requires ProcessFrame(net[d].flows, port, fr) == Ok(o) && o.Forward? && LinksOf(net, d, o.egress) == [ToUser(user)]
    ensures Ingress(net, d, port, fr, depth) == Trace([(user, o.fr)], if o.aliased then o.fr else o.orig, Done)
  {
    HandToUser(net, user, o.fr, depth - 1);
  }

  lemma IngressToDevice(net: Net, d: nat, port: nat, fr: Frame, depth: nat, o: Outcome, d': nat, port': nat)
    requires WiredWithin(net) && d < |net| && d' < |net| && depth >= 1
    requires ProcessFrame(net[d].flows, port, fr) == Ok(o) && o.Forward?
    requires LinksOf(net, d, o.egress) == [ToDevice(d', port')]
    ensures Ingress(net, d, port, fr, depth).out == Ingress(net, d', port', o.fr, depth - 1).out
    ensures Ingress(net, d, port, fr, depth).status == Ingress(net, d', port', o.fr, depth - 1).status
  {
    var links := [ToDevice(d', port')];
    HandStep(net, links, 0, o.fr, depth - 1);
    assert links[0..] == links && links[1..] == [];
  }

  /** The simulator returned with this output, or raised before any output. */
  predicate Agrees(trace: Trace, expected: Result<seq<(nat, Frame)>>) {
    match expected
    case Ok(out) => trace.status == Done && trace.out == out
    case Raised => trace.status == Failed && trace.out == []
  }

  /** What leaves at the NNI for a frame that carries the tag of ONU i. */
  ghost function TaggedResult(t: Tree, i: nat, flows: seq<Flow>, tagged: Frame): Result<seq<(nat, Frame)>>
    requires i < |t.onus|
  {
    match Chosen(t, Up(i), flows, tagged)
    case None => Ok([])
    case Some(f) =>
      var fr' :- UpEffect(t, f, tagged);
      Ok([(OLT_PORT, fr')])
  }

  /** What leaves at the NNI for a frame that enters at the UNI of ONU i. */
  ghost function UpstreamResult(t: Tree, i: nat, flows: seq<Flow>, fr: Frame): Result<seq<(nat, Frame)>>
    requires i < |t.onus|
  {
    match TagFor(t.onus[i], fr)
    case None => Ok([])
    case Some(tagged) => TaggedResult(t, i, flows, tagged)
  }

  lemma {:induction false} OltUpstream(r: Routes, t: Tree, i: nat, flows: seq<Flow>, tagged: Frame, depth: nat)
    requires Serves(r, t) && PonSimPorts(t) && UnicastTable(t, flows) && Visible(t, Up(i), tagged) && depth >= 1
    ensures Agrees(Ingress(InstalledNet(t, Tables(r, t, flows)), 0, PON, tagged, depth),
                   TaggedResult(t, i, flows, tagged))
  {
    var net := InstalledNet(t, Tables(r, t, flows));
    Wiring(t, Tables(r, t, flows), i);
    OltBehaviour(r, t, Up(i), flows, tagged);
    RootDefaultMatch(t, PON, tagged);
    IngressStops(net, 0, PON, tagged, depth);
    match Chosen(t, Up(i), flows, tagged)
    case None =>
    case Some(f) =>
      OltUpRuns(t, f, tagged);
      assert OltRule(t, Up(i), f) == OltRule(t, Up(0), f);
      if UpEffect(t, f, tagged).Ok? {
        IngressToUser(net, 0, PON, tagged, depth, RunFlow(OltRule(t, Up(i), f), tagged).value, OLT_PORT);
      }
  }

  /** A device's reaction to a frame: silence, an exception, or the frame sent out of one port. */
  predicate Emits(result: Result<Outcome>, port: nat, effect: Option<Result<Frame>>) {
    match effect
    case None => result == Ok(Dropped)
    case Some(Raised) => result == Raised
    case Some(Ok(fr')) =>
      result.Ok? && result.value.Forward? && result.value.egress == Some(port) && result.value.fr == fr'
  }

  lemma {:induction false} OnuEmits(r: Routes, t: Tree, i: nat, flows: seq<Flow>, fr: Frame)
    requires Serves(r, t) && PonSimPorts(t) && i < |t.onus| && UnicastTable(t, flows)
    ensures var net, tag := InstalledNet(t, Tables(r, t, flows)), TagFor(t.onus[i], fr);
            && LinksOf(net, i + 1, Some(PON)) == [ToDevice(0, PON)]
            && Emits(ProcessFrame(net[i + 1].flows, EDGE, fr), PON, if tag.Some? then Some(Ok(tag.value)) else None)
  {
    Wiring(t, Tables(r, t, flows), i);
    OnuBehaviour(r, t, i, flows, EDGE, fr);
  }

  lemma OnuRelays(net: Net, i: nat, tagged: Frame, fr: Frame, depth: nat)
    requires WiredWithin(net) && i + 1 < |net| && depth >= 2 && LinksOf(net, i + 1, Some(PON)) == [ToDevice(0, PON)]
    requires Emits(ProcessFrame(net[i + 1].flows, EDGE, fr), PON, Some(Ok(tagged)))
    ensures Inject(net, i + 1, fr, depth).out == Ingress(net, 0, PON, tagged, depth - 1).out
    ensures Inject(net, i + 1, fr, depth).status == Ingress(net, 0, PON, tagged, depth - 1).status
  {
    IngressToDevice(net, i + 1, EDGE, fr, depth, ProcessFrame(net[i + 1].flows, EDGE, fr).value, 0, PON);
  }

  lemma UpstreamTagged(r: Routes, t: Tree, i: nat, flows: seq<Flow>, fr: Frame, depth: nat, tagged: Frame)
    requires Serves(r, t) && PonSimPorts(t) && DistinctVids(t) && i < |t.onus| && UnicastTable(t, flows) && depth >= 2
    requires TagFor(t.onus[i], fr) == Some(tagged)
    ensures Agrees(Inject(InstalledNet(t, Tables(r, t, flows)), i + 1, fr, depth), TaggedResult(t, i, flows, tagged))
  {
    OnuEmits(r, t, i, flows, fr);
    OnuRelays(InstalledNet(t, Tables(r, t, flows)), i, tagged, fr, depth);
    OltUpstream(r, t, i, flows, tagged, depth - 1);
  }

  lemma UpstreamDropped(r: Routes, t: Tree, i: nat, flows: seq<Flow>, fr: Frame, depth: nat)
    requires Serves(r, t) && PonSimPorts(t) && i < |t.onus| && UnicastTable(t, flows) && depth >= 2
    requires TagFor(t.onus[i], fr).None?
    ensures Agrees(Inject(InstalledNet(t, Tables(r, t, flows)), i + 1, fr, depth), Ok([]))
  {
    OnuEmits(r, t, i, flows, fr);
    IngressStops(InstalledNet(t, Tables(r, t, flows)), i + 1, EDGE, fr, depth);
  }

  /** Upstream, over whole tables: what PonSim emits for any frame at any UNI is what the elected
      logical flow makes of the frame tagged with the ONU's VLAN, once, at the NNI, and nothing
      else anywhere; it raises exactly when that flow's actions do. */
  lemma UpstreamExact(r: Routes, t: Tree, i: nat, flows: seq<Flow>, fr: Frame, depth: nat)
    requires Serves(r, t) && PonSimPorts(t) && DistinctVids(t) && i < |t.onus| && UnicastTable(t, flows) && depth >= 2
    ensures Agrees(Inject(InstalledNet(t, Tables(r, t, flows)), i + 1, fr, depth), UpstreamResult(t, i, flows, fr))
  {
    match TagFor(t.onus[i], fr)
    case None => UpstreamDropped(r, t, i, flows, fr, depth);
    case Some(tagged) => UpstreamTagged(r, t, i, flows, fr, depth, tagged);
  }
}
