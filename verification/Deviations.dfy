/** Inputs on which the decomposed tables, or the flow table itself, do something the logical switch
    does not promise; each shows that a condition of the general results cannot be dropped. */
module Deviations {
  import opened Wrappers
  import opened OpenFlow
  import opened Election
  import opened PonMachine
  import opened RuleSelection
  import opened Topology
  import opened FlowDecomposer
  import opened LoopFreedom
  import opened UnicastMeaning
  import opened UnicastForwarding
  import opened DownstreamForwarding
  import opened Multicast
  import opened LogicalSwitch
  import opened LogicalMulticast
  import opened LogicalDevice
  import opened LogicalTables
  import opened EndToEnd

  /** Two ONUs numbered as the ponsim adapters number them. */
  function TwoOnus(vlan2: nat): Tree {
    Tree("olt", 0, EDGE, PON, [Onu("onu1", 128, 128, EDGE, PON), Onu("onu2", vlan2, 129, EDGE, PON)])
  }

  function TwoRoutes(vlan2: nat): Routes {
    var t := TwoOnus(vlan2);
    Routes([DownEntry(t, 0), UpEntry(t, 0), DownEntry(t, 1), UpEntry(t, 1)], 0)
  }

  /** What the examples need to know of the two ONUs. */
  predicate IsPair(t: Tree, vlan2: nat) {
    && t.nni == 0 && |t.onus| == 2
    && t.onus[0].uni == 128 && t.onus[0].vlan == 128
    && t.onus[1].uni == 129 && t.onus[1].vlan == vlan2
  }

  lemma TwoOnusAreServed(vlan2: nat) returns (t: Tree, r: Routes)
    ensures Serves(r, t) && PonSimPorts(t) && IsPair(t, vlan2)
  {
    t, r := TwoOnus(vlan2), TwoRoutes(vlan2);
    var e := r.entries;
    assert e[0] == DownEntry(t, 0) && e[1] == UpEntry(t, 0) && e[2] == DownEntry(t, 1) && e[3] == UpEntry(t, 1);
    assert "onu1"[2] != "olt"[2] && "onu2"[2] != "olt"[2] && "onu1"[3] != "onu2"[3];
  }

  function ZeroTagged(): Frame {
    Frame(1, 2, 0x8100, [Tag(0, 0, 0x800)], Raw([]))
  }

  function OutOnly(): Flow {
    MkFlowStat(500, 0, [InPort(128), VlanVid(0x1000 + 128)],
               [PushVlan(0x8100), SetField(VlanVid(0x1000 + 1000)), Output(0)])
  }

  lemma OutOnlyIsOutput(t: Tree, f: Flow)
    requires IsPair(t, 129) && f == OutOnly()
    ensures UpstreamOutput(t, 0, f) && UnicastTable(t, [f]) && !UpstreamGoto(t, 0, f) && !ControllerBound(t, f)
  {
    var x := f.fields[1];
    assert PinsVid(f, 128) by { assert x in f.fields && HasPresentBit(x.vid); }
    var actions := FlowActions(f);
    assert actions[1..][1..] == [Output(0)];
    assert FirstOutput(actions[1..][1..]) == Some(0);
    assert FirstOutput(actions[1..]) == Some(0);
    assert 0 < |t.onus| && UpstreamOutput(t, 0, f);
    assert forall f' :: f' in [f] ==> f' == f;
  }

  /** A single flow from the UNI with VLAN 128 to the NNI, and a frame with VLAN 0 at that UNI. */
  lemma OutputFlowAlone() returns (t: Tree, r: Routes, f: Flow, fr: Frame)
    ensures Serves(r, t) && PonSimPorts(t) && DistinctVids(t) && |t.onus| == 2
    ensures UnicastTable(t, [f]) && !ControllerBound(t, f) && !UpstreamGoto(t, 0, f)
    ensures TagFor(t.onus[0], fr).Some? && Chosen(t, Up(0), [f], TagFor(t.onus[0], fr).value) == Some(f)
  {
    t, r := TwoOnusAreServed(129);
    f, fr := OutOnly(), ZeroTagged();
    OutOnlyIsOutput(t, f);
    OutOnlyWants(t, f, fr);
  }

  lemma {:induction false} OutOnlyWants(t: Tree, f: Flow, fr: Frame)
    requires IsPair(t, 129) && f == OutOnly() && fr == ZeroTagged()
    requires UpstreamOutput(t, 0, f) && !ControllerBound(t, f)
    ensures TagFor(t.onus[0], fr).Some? && Chosen(t, Up(0), [f], TagFor(t.onus[0], fr).value) == Some(f)
  {
    var tagged := TagFor(t.onus[0], fr).value;
    MatchIsConjunction(f.fields, 128, tagged);
    var none: seq<Flow> := [f][..0];
    assert none == [];
    assert Chosen(t, Up(0), none, tagged) == None;
  }

  lemma {:induction false} ElectOne(f: Flow, wanting: iset<Flow>)
    ensures Elect([f], wanting) == if f in wanting then Some(f) else None
  {
    ElectedWants([f], wanting);
  }

  /** Without any goto flow the logical table asks for nothing, yet something leaves at the NNI. */
  lemma UpstreamWithoutGoto(depth: nat) returns (t: Tree, r: Routes, f: Flow, fr: Frame)
    requires depth >= 2
    ensures Serves(r, t) && PonSimPorts(t) && DistinctVids(t) && |t.onus| == 2 && UnicastTable(t, [f])
    ensures LogicalUpstream(t, 0, [f], fr) == Nothing && Disobeyed(r, t, 0, [f], fr, depth)
  {
    t, r, f, fr := OutputFlowAlone();
    NothingAsked(t, f, fr);
    UpstreamFails(r, t, 0, [f], fr, depth);
  }

  /** The simulator does not do what the logical tables ask for a frame at a UNI. */
  ghost predicate Disobeyed(r: Routes, t: Tree, i: nat, flows: seq<Flow>, fr: Frame, depth: nat)
    requires i < |t.onus|
  {
    !Fulfils(Inject(InstalledNet(t, Tables(r, t, flows)), i + 1, fr, depth),
             LogicalUpstream(t, i, flows, fr), PacketIn(t, i, fr))
  }

  lemma UpstreamFails(r: Routes, t: Tree, i: nat, flows: seq<Flow>, fr: Frame, depth: nat)
    requires Serves(r, t) && PonSimPorts(t) && DistinctVids(t) && i < |t.onus| && UnicastTable(t, flows) && depth >= 2
    requires !UpstreamAsAsked(t, i, flows, fr)
    ensures Disobeyed(r, t, i, flows, fr, depth)
  {
    UpstreamMeaning(r, t, i, flows, fr, depth);
  }

  lemma {:induction false} NothingAsked(t: Tree, f: Flow, fr: Frame)
    requires |t.onus| == 2 && !ControllerBound(t, f) && !UpstreamGoto(t, 0, f)
    requires TagFor(t.onus[0], fr).Some? && Chosen(t, Up(0), [f], TagFor(t.onus[0], fr).value) == Some(f)
    ensures LogicalUpstream(t, 0, [f], fr) == Nothing && !UpstreamAsAsked(t, 0, [f], fr)
  {
    ElectOne(f, Gotos(t, 0, fr) + Controllers(t, t.onus[0].uni, fr));
    ElectOne(f, Gotos(t, 0, fr));
    ElectOne(f, Controllers(t, t.onus[0].uni, fr));
  }

  function Eapol(): Flow {
    MkFlowStat(2000, 0, [InPort(128), EthType(0x888e)], [Output(CONTROLLER)])
  }

  /** The EAPOL flow of the first UNI, and an EAPOL frame at the second. */
  lemma ForeignEapol() returns (t: Tree, r: Routes, f: Flow, fr: Frame)
    ensures Serves(r, t) && PonSimPorts(t) && DistinctVids(t) && |t.onus| == 2 && UnicastTable(t, [f])
    ensures ControllerBound(t, f)
    ensures IsMatch(f.fields, t.onus[1].uni, fr) == No && TagFor(t.onus[1], fr).Some?
    ensures Chosen(t, Up(1), [f], TagFor(t.onus[1], fr).value) == Some(f)
  {
    t, r := TwoOnusAreServed(129);
    f, fr := Eapol(), Frame(1, 2, 0x888e, [], Raw([]));
    assert ControllerBound(t, f);
    var tagged := TagFor(t.onus[1], fr).value;
    var kept := Filter(f.fields, ControllerField);
    MatchIsConjunction(kept, 129, tagged);
    assert forall y :: y in kept ==> y == EthType(0x888e);
    var none: seq<Flow> := [f][..0];
    assert none == [];
    assert Chosen(t, Up(1), none, tagged) == None;
  }

  /** What leaves for a frame at a UNI is the one packet for the controller. */
  ghost predicate ControllerHas(r: Routes, t: Tree, i: nat, flows: seq<Flow>, fr: Frame, depth: nat)
    requires i < |t.onus|
  {
    && TagFor(t.onus[i], fr).Some?
    && Inject(InstalledNet(t, Tables(r, t, flows)), i + 1, fr, depth).out ==
       [(OLT_PORT, InBand(TagFor(t.onus[i], fr).value))]
  }

  lemma ControllerGets(
    r: Routes, t: Tree, i: nat, flows: seq<Flow>, c: Flow, fr: Frame, tagged: Frame, depth: nat)
    requires Serves(r, t) && PonSimPorts(t) && DistinctVids(t) && i < |t.onus| && UnicastTable(t, flows) && depth >= 2
    requires TagFor(t.onus[i], fr) == Some(tagged)
    requires Chosen(t, Up(i), flows, tagged) == Some(c) && ControllerBound(t, c)
    ensures ControllerHas(r, t, i, flows, fr, depth)
    ensures UpstreamAsAsked(t, i, flows, fr) || Disobeyed(r, t, i, flows, fr, depth)
  {
    UpstreamExact(r, t, i, flows, fr, depth);
    UpstreamMeaning(r, t, i, flows, fr, depth);
  }

  /** A controller-bound flow of one UNI also takes the frames of another, for which the logical
      table asks nothing. */
  lemma ControllerFlowTakesOtherUnis(depth: nat) returns (t: Tree, r: Routes, f: Flow, fr: Frame)
    requires depth >= 2
    ensures Serves(r, t) && PonSimPorts(t) && DistinctVids(t) && |t.onus| == 2 && UnicastTable(t, [f])
    ensures LogicalUpstream(t, 1, [f], fr) == Nothing && ControllerHas(r, t, 1, [f], fr, depth)
  {
    t, r, f, fr := ForeignEapol();
    if GotoWants(t, 1, f, fr) {
      GotoTags(t, 1, f, fr);
    }
    ElectOne(f, Gotos(t, 1, fr) + Controllers(t, t.onus[1].uni, fr));
    ControllerGets(r, t, 1, [f], f, fr, TagFor(t.onus[1], fr).value, depth);
  }

  // ----- a goto flow and a controller-bound flow for one frame -----

  function TaggingFlow(): Flow {
    Flow(0, 1000, 0, 0, [InPort(128), VlanVid(0)],
         [ApplyActions([PushVlan(0x8100), SetField(VlanVid(0x1000 + 128))]), GotoTable(1)], 0, 0, 0, 0)
  }

  function UniEapol(): Flow {
    MkFlowStat(600, 0, [InPort(128), EthType(0x888e)], [Output(CONTROLLER)])
  }

  function EapolFrame(): Frame {
    Frame(1, 2, 0x888e, [], Raw([]))
  }

  lemma TaggingFlowIsGoto(t: Tree, g: Flow, fr: Frame)
    requires IsPair(t, 129) && g == TaggingFlow() && fr == EapolFrame()
    ensures UpstreamGoto(t, 0, g) && GotoWants(t, 0, g, fr) && UnicastFlow(t, g)
  {
    assert PinsUntagged(g) by { assert g.fields[1] in g.fields && !HasPresentBit(0); }
    assert g.instructions[1..] == [GotoTable(1)];
    assert g.instructions[1] in g.instructions;
    assert FlowActions(g) == [PushVlan(0x8100), SetField(VlanVid(0x1000 + 128))];
    MatchIsConjunction(g.fields, 128, fr);
    assert 0 < |t.onus|;
  }

  lemma UniEapolIsControllerBound(t: Tree, c: Flow, fr: Frame)
    requires IsPair(t, 129) && c == UniEapol() && fr == EapolFrame()
    ensures ControllerBound(t, c) && UnicastFlow(t, c) && Wants(t, Up(0), c, TagFor(t.onus[0], fr).value)
    ensures c in Controllers(t, t.onus[0].uni, fr)
  {
    MatchIsConjunction(c.fields, 128, fr);
    ControllerMatch(t, 0, c, fr, TagFor(t.onus[0], fr).value);
  }

  /** A goto flow of priority 1000 and a controller-bound flow of priority 600, which both match the
      frame, and an output flow for what the goto flow passes on. */
  lemma OutrankedController() returns (t: Tree, r: Routes, g: Flow, c: Flow, o: Flow, fr: Frame)
    ensures Serves(r, t) && PonSimPorts(t) && DistinctVids(t) && |t.onus| == 2 && UnicastTable(t, [g, c, o])
    ensures GotoWants(t, 0, g, fr) && c in Controllers(t, t.onus[0].uni, fr) && TagFor(t.onus[0], fr).Some?
    ensures ControllerBound(t, c) && !ControllerBound(t, o) && UpstreamOutput(t, 0, o)
    ensures Wants(t, Up(0), c, TagFor(t.onus[0], fr).value) && c.priority < g.priority && o.priority < c.priority
    ensures IsMatch(o.fields, t.onus[0].uni, TagFor(t.onus[0], fr).value) == Yes
    ensures Rewrite(FlowActions(o), TagFor(t.onus[0], fr).value) != Ok(InBand(TagFor(t.onus[0], fr).value))
  {
    t, r := TwoOnusAreServed(129);
    g, c, o, fr := TaggingFlow(), UniEapol(), OutOnly(), EapolFrame();
    TaggingFlowIsGoto(t, g, fr);
    UniEapolIsControllerBound(t, c, fr);
    OutOnlyIsOutput(t, o);
    OutOnlyMakes(TagFor(t.onus[0], fr).value);
    MatchIsConjunction(o.fields, 128, TagFor(t.onus[0], fr).value);
    ThreeFlows(t, g, c, o);
  }

  lemma ThreeFlows(t: Tree, g: Flow, c: Flow, o: Flow)
    requires UnicastFlow(t, g) && UnicastFlow(t, c) && UnicastTable(t, [o])
    ensures UnicastTable(t, [g, c, o])
  {
    assert [o][0] in [o];
    assert forall f :: f in [g, c, o] ==> f == g || f == c || f == o;
  }

  lemma OutOnlyMakes(tagged: Frame)
    ensures Rewrite(FlowActions(OutOnly()), tagged) != Ok(InBand(tagged))
  {
    var actions := FlowActions(OutOnly());
    var a := SetField(VlanVid(0x1000 + 1000));
    assert actions == [PushVlan(0x8100), a] + [Output(0)];
    RunActionsSplit([PushVlan(0x8100), a], [Output(0)], Start(tagged));
    RunPushAndSetVid(a, 1000, tagged);
    var s := RunActions([PushVlan(0x8100), a], Start(tagged)).value;
    assert [Output(0)][1..] == [];
    assert RunActions([], s.(egress := Some(0))) == Ok(s.(egress := Some(0)));
    assert RunActions([Output(0)], s) == Ok(s.(egress := Some(0)));
    assert WithVid(Push(tagged, 0x8100), 1000).tags[0].vid != InBand(tagged).tags[0].vid;
  }

  lemma OutrankedTable() returns (t: Tree, r: Routes, flows: seq<Flow>, c: Flow, fr: Frame)
    ensures Serves(r, t) && PonSimPorts(t) && DistinctVids(t) && |t.onus| == 2 && UnicastTable(t, flows)
    ensures TagFor(t.onus[0], fr).Some? && LogicalUpstream(t, 0, flows, fr).Send? && !UpstreamAsAsked(t, 0, flows, fr)
    ensures Chosen(t, Up(0), flows, TagFor(t.onus[0], fr).value) == Some(c) && ControllerBound(t, c)
  {
    var g, o;
    t, r, g, c, o, fr := OutrankedController();
    flows := [g, c, o];
    OutrankedIsNotAsked(t, g, c, o, fr, TagFor(t.onus[0], fr).value);
  }

  /** The goto flow is elected, so the frame belongs at the NNI as the output flow makes it, and the
      controller gets it: goto rules are on the ONU and controller rules on the OLT, and they never
      meet. */
  lemma OutrankedControllerTakes(depth: nat) returns (t: Tree, r: Routes, flows: seq<Flow>, fr: Frame)
    requires depth >= 2
    ensures Serves(r, t) && PonSimPorts(t) && DistinctVids(t) && |t.onus| == 2 && UnicastTable(t, flows)
    ensures LogicalUpstream(t, 0, flows, fr).Send? && ControllerHas(r, t, 0, flows, fr, depth)
    ensures Disobeyed(r, t, 0, flows, fr, depth)
  {
    var c;
    t, r, flows, c, fr := OutrankedTable();
    ControllerGets(r, t, 0, flows, c, fr, TagFor(t.onus[0], fr).value, depth);
  }

  lemma {:induction false} OutrankedIsNotAsked(t: Tree, g: Flow, c: Flow, o: Flow, fr: Frame, tagged: Frame)
    requires |t.onus| == 2 && UnicastTable(t, [g, c, o]) && TagFor(t.onus[0], fr) == Some(tagged)
    requires GotoWants(t, 0, g, fr) && c in Controllers(t, t.onus[0].uni, fr) && ControllerBound(t, c)
    requires !ControllerBound(t, o) && UpstreamOutput(t, 0, o) && IsMatch(o.fields, t.onus[0].uni, tagged) == Yes
    requires Wants(t, Up(0), c, tagged) && c.priority < g.priority && o.priority < c.priority
    requires Rewrite(FlowActions(o), tagged) != Ok(InBand(tagged))
    ensures Chosen(t, Up(0), [g, c, o], tagged) == Some(c)
    ensures LogicalUpstream(t, 0, [g, c, o], fr).Send? && !UpstreamAsAsked(t, 0, [g, c, o], fr)
  {
    var flows := [g, c, o];
    UnicastIsSupported(t, flows);
    assert flows[0] == g && flows[1] == c && flows[2] == o;
    GotoTags(t, 0, g, fr);
    ElectedOfThree(g, c, o, OltTakers(t, Up(0), tagged));
    ElectedOfThree(g, c, o, Gotos(t, 0, fr) + Controllers(t, t.onus[0].uni, fr));
    ElectedOfThree(g, c, o, Controllers(t, t.onus[0].uni, fr));
    ElectedOfThree(g, c, o, Outputs(t, 0, tagged));
    assert Contends(flows, Gotos(t, 0, fr), 0);
  }

  lemma {:induction false} ElectedOfThree(g: Flow, c: Flow, o: Flow, wanting: iset<Flow>)
    requires c.priority < g.priority && o.priority < c.priority
    ensures Elect([g, c, o], wanting) ==
            if g in wanting then Some(g) else if c in wanting then Some(c) else if o in wanting then Some(o) else None
  {
    var flows := [g, c, o];
    assert flows[..2] == [g, c] && flows[..2][..1] == [g];
    ElectOne(g, wanting);
    assert Elect([g, c], wanting) == if g in wanting then Some(g) else if c in wanting then Some(c) else None;
  }

  // ----- a controller-bound flow without in_port -----

  function IgmpFlow(): Flow {
    MkFlowStat(2000, 0, [EthType(0x800), IpProto(2)], [Output(CONTROLLER)])
  }

  lemma IgmpAtNni() returns (t: Tree, r: Routes, c: Flow, fr: Frame)
    ensures Serves(r, t) && PonSimPorts(t) && |t.onus| == 2 && IsolatingVids(t)
    ensures UnicastTable(t, [c]) && c in Controllers(t, t.nni, fr) && !Tagged(fr)
  {
    t, r := TwoOnusAreServed(129);
    c, fr := IgmpFlow(), Frame(1, 2, 0x800, [], Ip(2, (228, 1, 1, 1), []));
    MatchIsConjunction(c.fields, t.nni, fr);
    assert c.fields[1..] == [IpProto(2)] && c.fields[1..][1..] == [];
    assert FirstInPort(c.fields[1..][1..]) == None && FirstInPort(c.fields[1..]) == None;
    assert FirstInPort(c.fields) == None;
    assert ControllerBound(t, c);
  }

  /** A flow that sends IGMP from any port to the controller: a frame of the network that it matches
      is dropped. */
  lemma WildcardMissesTheNni(depth: nat) returns (t: Tree, r: Routes, c: Flow, fr: Frame)
    requires depth >= 2
    ensures Serves(r, t) && PonSimPorts(t) && |t.onus| == 2 && IsolatingVids(t) && UnicastTable(t, [c])
    ensures LogicalDownstream(t, [c], fr) == ToController
    ensures Agrees(Inject(InstalledNet(t, Tables(r, t, [c])), 0, fr, depth), Ok([]))
  {
    t, r, c, fr := IgmpAtNni();
    ElectOne(c, OltTakers(t, Down, fr) + Controllers(t, t.nni, fr));
    ElectedWants([c], OltTakers(t, Down, fr));
    DownstreamExact(r, t, [c], fr, depth);
  }

  // ----- VLAN 0 -----

  /** An in-band frame for the first ONU, where the second has VLAN 0: both subscribers get it, from
      the one shared object. */
  lemma VlanZeroIsNotIsolated(depth: nat) returns (t: Tree, r: Routes, fr: Frame)
    requires depth >= 2
    ensures Serves(r, t) && PonSimPorts(t) && DistinctVids(t) && IsPair(t, 0)
    ensures Inject(InstalledNet(t, Tables(r, t, [])), 0, fr, depth).out == [(128, ZeroTagged()), (129, ZeroTagged())]
  {
    t, r := TwoOnusAreServed(0);
    fr := Frame(1, 2, 0x8100, [Tag(4000, 0, 0x8100), Tag(128, 0, 0x800)], Raw([]));
    var below := Frame(1, 2, 0x8100, [Tag(128, 0, 0x800)], Raw([]));
    assert Pop(fr) == below;
    assert Chosen(t, Down, [], fr) == None;
    assert DownEffect(t, [], fr) == Some(Ok(below));
    BothDeliver(t, below);
    DownstreamExact(r, t, [], fr, depth);
  }

  lemma {:induction false} BothDeliver(t: Tree, fr: Frame)
    requires IsPair(t, 0) && fr == Frame(1, 2, 0x8100, [Tag(128, 0, 0x800)], Raw([]))
    ensures Delivered(t, 0, fr) == [(128, ZeroTagged()), (129, ZeroTagged())]
  {
    var zero := WithVid(fr, 0);
    assert Owns(t.onus[0], fr) && zero == ZeroTagged() && WithVid(zero, 0) == zero;
    assert Delivered(t, 2, zero) == [];
    assert Delivered(t, 1, zero) == [(129, zero)] + Delivered(t, 2, zero);
  }

  function Channel(): Flow {
    MkFlowStat(1000, 0, [InPort(0), EthType(0x800), VlanVid(0x1000 + 140), Ipv4Dst(0xe401_0101)], [Group(1)])
  }

  lemma {:induction false} ChannelIsMulticast(t: Tree, m: Flow, groups: seq<GroupEntry>)
    requires IsPair(t, 129) && m == Channel() && groups == [GroupEntry(0, 1, [[PopVlan, Output(128)]])]
    ensures MulticastFlow(t, GroupMap(groups), m) && PinsVid(m, 140) && Subscribed(t, GroupMap(groups), m, 0)
  {
    var none: seq<GroupEntry> := groups[..0];
    assert none == [] && GroupMap(none) == map[];
    assert GroupMap(groups) == map[1 := groups[0]];
    assert Buckets(m, GroupMap(groups)) == [[PopVlan, Output(128)]];
    var x := m.fields[2];
    assert x in m.fields && HasPresentBit(x.vid) && x.vid % 0x1000 == 140;
  }

  /** A channel on VLAN 140 with one subscriber, and a frame for it on the in-band VLAN. */
  lemma InBandChannelFrame() returns (t: Tree, r: Routes, m: Flow, groups: seq<GroupEntry>, fr: Frame)
    ensures Serves(r, t) && PonSimPorts(t) && |t.onus| == 2 && MulticastFlow(t, GroupMap(groups), m) && PinsVid(m, 140)
    ensures Subscribed(t, GroupMap(groups), m, 0) && |fr.tags| == 1 && InBandTag(fr) && LeafMatch(m, Pop(fr))
    ensures IsMatch(m.fields, t.nni, fr) == No
  {
    t, r := TwoOnusAreServed(129);
    m := Channel();
    groups := [GroupEntry(0, 1, [[PopVlan, Output(128)]])];
    fr := Frame(1, 2, 0x8100, [Tag(4000, 0, 0x800)], Ip(17, (228, 1, 1, 1), []));
    ChannelIsMulticast(t, m, groups);
    ChannelMatches(m, fr);
  }

  lemma {:induction false} ChannelMatches(m: Flow, fr: Frame)
    requires m == Channel() && fr == Frame(1, 2, 0x8100, [Tag(4000, 0, 0x800)], Ip(17, (228, 1, 1, 1), []))
    ensures LeafMatch(m, Pop(fr)) && IsMatch(m.fields, 0, fr) == No
  {
    MatchIsConjunction(m.fields, 0, fr);
    assert m.fields[2] in m.fields;
    AddressMatches(Pop(fr));
    assert forall x :: x in m.fields && LeafField(x) ==> x == EthType(0x800) || x == Ipv4Dst(0xe401_0101);
  }

  lemma AddressMatches(fr: Frame)
    requires fr == Frame(1, 2, 0x800, [], Ip(17, (228, 1, 1, 1), []))
    ensures FieldVerdict(EthType(0x800), PON, fr) == Yes && FieldVerdict(Ipv4Dst(0xe401_0101), PON, fr) == Yes
  {}

  /** A frame of the in-band VLAN that carries a channel's address reaches the channel's
      subscribers, although it is not on the channel's VLAN. */
  lemma InBandFrameLeaks(depth: nat) returns (t: Tree, r: Routes, m: Flow, groups: seq<GroupEntry>, fr: Frame)
    requires depth >= 2
    ensures Serves(r, t) && PonSimPorts(t) && MulticastFlow(t, GroupMap(groups), m) && PinsVid(m, 140)
    ensures IsMatch(m.fields, t.nni, fr) == No
    ensures !DeliversAsAsked(r, t, [m], groups, fr, depth)
  {
    t, r, m, groups, fr := InBandChannelFrame();
    OneFlowCondition(r, t, m, groups, 140, fr, depth);
    assert InBandTag(fr) && LeafMatch(m, Pop(fr));
    assert exists k :: 0 <= k < |t.onus| && Subscribed(t, GroupMap(groups), m, k);
  }

  lemma {:induction false} MulticastFails(
    r: Routes, t: Tree, flows: seq<Flow>, groups: seq<GroupEntry>, fr: Frame, depth: nat)
    requires Serves(r, t) && PonSimPorts(t) && MulticastTable(t, GroupMap(groups), flows) && |t.onus| > 0
    requires |fr.tags| == 1 && depth >= 2 && !Undisturbed(t, GroupMap(groups), flows, fr)
    ensures !DeliversAsAsked(r, t, flows, groups, fr, depth)
  {
    MulticastMeaning(r, t, flows, groups, fr, depth);
  }

  // ----- two channels -----

  function ChannelFlow(priority: nat, vid: nat, addr: nat, group: nat): Flow {
    MkFlowStat(priority, 0, [InPort(0), EthType(0x800), VlanVid(0x1000 + vid), Ipv4Dst(addr)], [Group(group)])
  }

  lemma ChannelFlowIsChannel(t: Tree, m: Flow, priority: nat, vid: nat, addr: nat, group: nat)
    requires t.nni == 0 && vid < 0x1000 && m == ChannelFlow(priority, vid, addr, group)
    ensures IsChannel(t, m) && VlanOf(m) == vid && AddressOf(m) == Ipv4Groups(addr) && m.priority == priority
    ensures FromPort(m, 0) && forall x :: x in m.fields ==> Supported(x)
  {
    var fields := m.fields;
    assert fields[1..][1..] == [VlanVid(0x1000 + vid), Ipv4Dst(addr)];
    assert fields[1..][1..][1..] == [Ipv4Dst(addr)];
    assert FirstVid(fields[1..][1..]) == 0x1000 + vid && FirstVid(fields[1..]) == 0x1000 + vid;
    assert FirstDst(fields[1..][1..][1..]) == addr && FirstDst(fields[1..][1..]) == addr;
    assert FirstDst(fields[1..]) == addr;
    assert fields[1] in fields && fields[2] in fields && fields[3] in fields;
  }

  lemma {:induction false} RepeatedBucket(t: Tree, m: Flow, groups: seq<GroupEntry>)
    requires IsPair(t, 129) && FromPort(m, 0) && (forall x :: x in m.fields ==> Supported(x))
    requires m.instructions == [ApplyActions([Group(1)])]
    requires groups == [GroupEntry(0, 1, [[PopVlan, Output(128)], [PopVlan, Output(128)]])]
    ensures MulticastFlow(t, GroupMap(groups), m) && !EachBucketOnce(Buckets(m, GroupMap(groups)))
  {
    var none: seq<GroupEntry> := groups[..0];
    assert none == [] && GroupMap(none) == map[];
    assert GroupMap(groups) == map[1 := groups[0]];
    assert FlowActions(m) == [Group(1)];
    var buckets := Buckets(m, GroupMap(groups));
    assert buckets == [[PopVlan, Output(128)], [PopVlan, Output(128)]];
    assert buckets[0] == buckets[1];
    assert OnuAt(t, 128) == Some(0);
  }

  /** A group that lists one subscriber twice asks for two copies, and one is made. */
  lemma RepeatedBucketIsServedOnce(depth: nat)
    returns (t: Tree, r: Routes, m: Flow, groups: seq<GroupEntry>, fr: Frame)
    requires depth >= 2
    ensures Serves(r, t) && PonSimPorts(t) && MulticastFlow(t, GroupMap(groups), m)
    ensures IsMatch(m.fields, t.nni, fr) == Yes && !DeliversAsAsked(r, t, [m], groups, fr, depth)
  {
    t, r := TwoOnusAreServed(129);
    m := ChannelFlow(1000, 140, 0xe401_0101, 1);
    groups := [GroupEntry(0, 1, [[PopVlan, Output(128)], [PopVlan, Output(128)]])];
    ChannelFlowIsChannel(t, m, 1000, 140, 0xe401_0101, 1);
    RepeatedBucket(t, m, groups);
    fr := ChannelFrame(VlanOf(m), AddressOf(m));
    ChannelMatch(t, m, fr);
    assert PinsVid(m, 140);
    OneFlowCondition(r, t, m, groups, 140, fr, depth);
  }

  /** A group for each of the two subscribers. */
  function TwoGroups(): seq<GroupEntry> {
    [GroupEntry(0, 1, [[PopVlan, Output(128)]]), GroupEntry(0, 2, [[PopVlan, Output(129)]])]
  }

  lemma TwoGroupsMap()
    ensures GroupMap(TwoGroups()) == map[1 := TwoGroups()[0], 2 := TwoGroups()[1]]
  {
    var g := TwoGroups();
    assert g[..1] == [g[0]] && g[..1][..0] == [];
    assert GroupMap(g[..1][..0]) == map[];
    assert GroupMap(g[..1]) == map[1 := g[0]];
  }

  lemma GroupFlowIsMulticast(t: Tree, m: Flow, k: nat)
    requires IsPair(t, 129) && k < 2 && FromPort(m, 0) && (forall x :: x in m.fields ==> Supported(x))
    requires m.instructions == [ApplyActions([Group(k + 1)])]
    ensures MulticastFlow(t, GroupMap(TwoGroups()), m)
    ensures Subscribed(t, GroupMap(TwoGroups()), m, k) && !Subscribed(t, GroupMap(TwoGroups()), m, 1 - k)
  {
    TwoGroupsMap();
    var b := [PopVlan, Output(128 + k)];
    assert FlowActions(m) == [Group(k + 1)];
    assert Buckets(m, GroupMap(TwoGroups())) == [b];
    assert b[1] == Output(t.onus[k].uni) && OnuAt(t, t.onus[k].uni) == Some(k);
    assert [PopVlan, Output(t.onus[1 - k].uni)][1] != b[1];
  }

  lemma {:induction false} ElectedOfTwo(a: Flow, b: Flow, vid: nat, addr: (nat, nat, nat, nat))
    ensures ElectedChannel([a, b], vid, addr) ==
            if VlanOf(b) == vid && AddressOf(b) == addr
               && !(VlanOf(a) == vid && AddressOf(a) == addr && b.priority <= a.priority) then Some(b)
            else if VlanOf(a) == vid && AddressOf(a) == addr then Some(a)
            else None
  {
    var flows := [a, b];
    assert flows[..1] == [a] && flows[..1][..0] == [];
    assert ElectedChannel(flows[..1][..0], vid, addr) == None;
    assert ElectedChannel(flows[..1], vid, addr) == if VlanOf(a) == vid && AddressOf(a) == addr then Some(a) else None;
  }

  /** Two channels, the first for the first subscriber and the second for the second. */
  lemma TwoChannels(p1: nat, v1: nat, a1: nat, p2: nat, v2: nat, a2: nat)
    returns (t: Tree, r: Routes, groups: seq<GroupEntry>, a: Flow, b: Flow)
    requires v1 < 0x1000 && v2 < 0x1000
    ensures Serves(r, t) && PonSimPorts(t) && |t.onus| == 2
    ensures ChannelTable(t, GroupMap(groups), [a, b])
    ensures VlanOf(a) == v1 && AddressOf(a) == Ipv4Groups(a1) && a.priority == p1
    ensures VlanOf(b) == v2 && AddressOf(b) == Ipv4Groups(a2) && b.priority == p2
    ensures Subscribed(t, GroupMap(groups), a, 0) && !Subscribed(t, GroupMap(groups), a, 1)
    ensures Subscribed(t, GroupMap(groups), b, 1) && !Subscribed(t, GroupMap(groups), b, 0)
    ensures v1 == v2 && a1 == a2 ==> a.fields == b.fields
  {
    t, r := TwoOnusAreServed(129);
    groups := TwoGroups();
    a, b := ChannelFlow(p1, v1, a1, 1), ChannelFlow(p2, v2, a2, 2);
    ChannelFlowIsChannel(t, a, p1, v1, a1, 1);
    ChannelFlowIsChannel(t, b, p2, v2, a2, 2);
    GroupFlowIsMulticast(t, a, 0);
    GroupFlowIsMulticast(t, b, 1);
  }

  /** On the VLAN of the first channel and for the address of the second, neither is elected, and
      yet the second's subscriber takes the frame; unless the two share VLAN or address. */
  lemma CrossedFrame(t: Tree, groups: map<nat, GroupEntry>, a: Flow, b: Flow, fr: Frame)
    requires ChannelTable(t, groups, [a, b]) && fr == ChannelFrame(VlanOf(a), AddressOf(b))
    requires VlanOf(a) != VlanOf(b) && AddressOf(a) != AddressOf(b) && |t.onus| == 2 && Subscribed(t, groups, b, 1)
    ensures |fr.tags| == 1 && !InBandTag(fr) && LogicalCopies(t, groups, [a, b], fr) == []
    ensures !Undisturbed(t, groups, [a, b], fr)
  {
    ElectedOfTwo(a, b, VlanOf(a), AddressOf(b));
    SelectIsElectedChannel(t, [a, b], fr, AddressOf(b));
    assert a in [a, b] && b in [a, b];
    ChannelMatch(t, a, fr);
    ChannelMatch(t, b, fr);
  }

  /** Channels (140, 228.1.1.1) for the first subscriber and (141, 228.1.1.2) for the second: a frame
      on VLAN 140 for 228.1.1.2 matches neither and reaches the second subscriber. */
  lemma OneVlanOpensAnotherChannel(depth: nat)
    returns (t: Tree, r: Routes, groups: seq<GroupEntry>, flows: seq<Flow>, fr: Frame)
    requires depth >= 2
    ensures Serves(r, t) && PonSimPorts(t) && |t.onus| == 2 && ChannelTable(t, GroupMap(groups), flows)
    ensures |fr.tags| == 1 && !InBandTag(fr) && LogicalCopies(t, GroupMap(groups), flows, fr) == []
    ensures !DeliversAsAsked(r, t, flows, groups, fr, depth)
  {
    var a, b;
    t, r, groups, a, b := TwoChannels(1000, 140, 0xe401_0101, 1000, 141, 0xe401_0102);
    flows, fr := [a, b], ChannelFrame(VlanOf(a), AddressOf(b));
    assert Ipv4Groups(0xe401_0101).3 != Ipv4Groups(0xe401_0102).3;
    CrossedFails(r, t, groups, a, b, fr, depth);
  }

  lemma {:induction false} CrossedFails(
    r: Routes, t: Tree, groups: seq<GroupEntry>, a: Flow, b: Flow, fr: Frame, depth: nat)
    requires Serves(r, t) && PonSimPorts(t) && |t.onus| == 2 && ChannelTable(t, GroupMap(groups), [a, b]) && depth >= 2
    requires fr == ChannelFrame(VlanOf(a), AddressOf(b)) && Subscribed(t, GroupMap(groups), b, 1)
    requires VlanOf(a) != VlanOf(b) && AddressOf(a) != AddressOf(b)
    ensures |fr.tags| == 1 && !InBandTag(fr) && LogicalCopies(t, GroupMap(groups), [a, b], fr) == []
    ensures !DeliversAsAsked(r, t, [a, b], groups, fr, depth)
  {
    CrossedFrame(t, GroupMap(groups), a, b, fr);
    MulticastFails(r, t, [a, b], groups, fr, depth);
  }

  lemma {:induction false} ShadowedFrame(t: Tree, groups: map<nat, GroupEntry>, a: Flow, b: Flow, fr: Frame)
    requires ChannelTable(t, groups, [a, b]) && fr == ChannelFrame(VlanOf(a), AddressOf(b)) && |t.onus| == 2
    requires VlanOf(a) == VlanOf(b) && AddressOf(a) == AddressOf(b) && a.priority < b.priority
    requires Subscribed(t, groups, a, 0) && !Subscribed(t, groups, b, 0)
    ensures |fr.tags| == 1 && !InBandTag(fr) && Select([a, b], t.nni, fr) == Some(b)
    ensures Takes(t, groups, [a, b], 0, Pop(fr)) && !Undisturbed(t, groups, [a, b], fr)
  {
    ElectedOfTwo(a, b, VlanOf(a), AddressOf(b));
    SelectIsElectedChannel(t, [a, b], fr, AddressOf(b));
    assert a in [a, b];
    ChannelMatch(t, a, fr);
  }

  lemma SameFieldsOneVlan(a: Flow, b: Flow)
    requires a.fields == b.fields
    ensures OneVlan([a, b])
  {}

  /** Two flows for one channel, the one of lower priority for the first subscriber and the other
      for the second: the logical table elects the second flow, and both subscribers get the frame. */
  lemma ShadowedFlowDelivers(depth: nat)
    returns (t: Tree, r: Routes, groups: seq<GroupEntry>, flows: seq<Flow>, fr: Frame)
    requires depth >= 2
    ensures Serves(r, t) && PonSimPorts(t) && |t.onus| == 2 && ChannelTable(t, GroupMap(groups), flows)
    ensures OneVlan(flows) && |fr.tags| == 1 && !InBandTag(fr)
    ensures |flows| == 2 && Select(flows, t.nni, fr) == Some(flows[1])
    ensures !Subscribed(t, GroupMap(groups), flows[1], 0) && Takes(t, GroupMap(groups), flows, 0, Pop(fr))
    ensures !DeliversAsAsked(r, t, flows, groups, fr, depth)
  {
    var a, b;
    t, r, groups, a, b := TwoChannels(1000, 140, 0xe401_0101, 2000, 140, 0xe401_0101);
    flows, fr := [a, b], ChannelFrame(VlanOf(a), AddressOf(b));
    ShadowedFrame(t, GroupMap(groups), a, b, fr);
    SameFieldsOneVlan(a, b);
    MulticastFails(r, t, flows, groups, fr, depth);
  }

  // ----- the logical tables -----

  lemma OverlapAdd(c: Content, m: FlowMod)
    requires m.command.AddFlow? && m.cookieMask == 0 && CheckOverlap(m.flags)
    ensures After(c, FlowMessage(m)).flows == c.flows + [FlowFromMod(m)]
  {}

  /** Two equal adds that ask for an overlap check make two equal flows, and a strict delete then
      leaves one of them, whatever the message is otherwise. */
  lemma OverlapCheckDuplicates(c: Content, add: FlowMod, f: Flow)
    requires add.command.AddFlow? && add.cookieMask == 0 && CheckOverlap(add.flags) && f == FlowFromMod(add)
    requires c.flows == []
    ensures var twice := After(After(c, FlowMessage(add)), FlowMessage(add));
            && twice.flows == [f, f]
            && After(twice, FlowMessage(add.(command := DeleteFlowStrict))).flows == [f]
  {
    OverlapAdd(c, add);
    OverlapAdd(After(c, FlowMessage(add)), add);
    assert KeyOf([f, f][0]) == KeyOf(f) && WithoutFlow([f, f], 0) == [f];
  }

  /** Two adds for one table, priority and match that differ in their cookie make two flows. */
  lemma OtherCookieDuplicates(c: Content, add: FlowMod, again: FlowMod)
    requires add.command.AddFlow? && add.cookieMask == 0 && !CheckOverlap(add.flags) && c.flows == []
    requires again == add.(cookie := add.cookie + 1)
    ensures var twice := After(After(c, FlowMessage(add)), FlowMessage(again));
            && twice.flows == [FlowFromMod(add), FlowFromMod(again)]
            && EntryOf(FlowFromMod(add)) == EntryOf(FlowFromMod(again))
  {
    var once := After(c, FlowMessage(add));
    assert once.flows == [FlowFromMod(add)];
    assert FlowFromMod(add).cookie != FlowFromMod(again).cookie;
    assert FindFlow(once.flows, KeyOf(FlowFromMod(again))).None?;
  }

  /** Deleting all groups leaves a flow that outputs to one of them. */
  lemma AllGroupsLeaveTheirFlows(c: Content, sw: Switch, f: Flow, g: GroupEntry, m: GroupMod)
    requires f.instructions == [ApplyActions([Group(g.groupId)])] && m.command.DeleteGroup? && m.groupId == ALL_GROUPS
    requires c == Content([f], [g]) && sw == Switch(map[EntryOf(f) := f], map[g.groupId := g])
    ensures Lists(c, sw) && After(c, GroupMessage(m)) == Content([f], [])
    ensures Change(sw, GroupMessage(m)) == Switch(map[], map[])
    ensures !Lists(After(c, GroupMessage(m)), Change(sw, GroupMessage(m)))
  {
    assert HasAction(f, Group(g.groupId)) by {
      assert f.instructions[0].ApplyActions? && Group(g.groupId) in f.instructions[0].actions;
    }
    assert UsesSome(f, sw.groups);
    assert Groupless(sw.flows, sw.groups) == map[];
    assert f in [f];
  }

  lemma UnroutableFlow(t: Tree, f: Flow, groups: map<nat, GroupEntry>)
    requires IsPair(t, 129) && f.fields == [InPort(128)] && f.instructions == [ApplyActions([Output(77)])]
    ensures !Routable(t, f, groups)
  {
    assert FlowActions(f) == [Output(77)];
  }

  /** A flow to a port that does not exist is accepted and keeps every later flow from the devices,
      although each message reports success. */
  lemma PoisonedTable(cfg: Config, t: Tree, start: State, bad: FlowMod, good: FlowMod)
    requires IsPair(t, 129) && Manages(cfg, t) && start.content == Content([], [])
    requires bad == FlowMod(AddFlow, 0, 1000, 0, 0, 0, [InPort(128)], [ApplyActions([Output(77)])], 0, 0,
                            ANY_PORT, ANY_GROUP)
    requires good.command.AddFlow? && good.cookieMask == 0 && KeyOf(FlowFromMod(good)) != KeyOf(FlowFromMod(bad))
    ensures var first := Handle(cfg, start, FlowMessage(bad));
            var second := Handle(cfg, first.state, FlowMessage(good));
            && first.ok && second.ok
            && second.state.content.flows == [FlowFromMod(bad), FlowFromMod(good)]
            && second.state.deviceFlows == start.deviceFlows && !Synced(cfg, second.state)
  {
    var f := FlowFromMod(bad);
    var c1, c2 := Content([f], []), Content([f, FlowFromMod(good)], []);
    PlansOfTwoAdds(start.content, bad, good, c1, c2);
    Undecomposable(cfg, t, c1, f);
    Undecomposable(cfg, t, c2, f);
    PerformSteps(cfg, start, c1, c1);
    PerformSteps(cfg, State(c1, start.deviceFlows), c2, c2);
  }

  lemma Undecomposable(cfg: Config, t: Tree, c: Content, f: Flow)
    requires IsPair(t, 129) && Manages(cfg, t) && f in c.flows
    requires f.fields == [InPort(128)] && f.instructions == [ApplyActions([Output(77)])]
    ensures Decompose(cfg, c).Raised?
  {
    UnroutableFlow(t, f, GroupMap(c.groups));
    DecomposesWhenAllRoutable(cfg, t, c);
  }

  lemma PlansOfTwoAdds(c: Content, bad: FlowMod, good: FlowMod, c1: Content, c2: Content)
    requires c == Content([], []) && bad.command.AddFlow? && bad.cookieMask == 0 && !CheckOverlap(bad.flags)
    requires good.command.AddFlow? && good.cookieMask == 0 && KeyOf(FlowFromMod(good)) != KeyOf(FlowFromMod(bad))
    requires c1 == Content([FlowFromMod(bad)], []) && c2 == Content([FlowFromMod(bad), FlowFromMod(good)], [])
    ensures PlanFor(c, FlowMessage(bad)) == Plan([c1], true) && PlanFor(c1, FlowMessage(good)) == Plan([c2], true)
  {
    assert c.flows + [FlowFromMod(bad)] == c1.flows;
    assert c1.flows + [FlowFromMod(good)] == c2.flows;
    assert FindFlow(c1.flows, KeyOf(FlowFromMod(good))).None?;
  }
}
