/** Unicast and controller-bound flows keep their meaning when they are decomposed: what the
    simulator emits with the generated tables installed, said in terms of the logical flows. */
module UnicastMeaning {
  import opened Wrappers
  import opened OpenFlow
  import opened Election
  import opened PonMachine
  import opened RuleSelection
  import opened Topology
  import opened FlowDecomposer
  import opened LoopFreedom

  // ----- the logical side -----

  function FlowActions(f: Flow): seq<Action> {
    match GetActions(f.instructions)
    case Ok(actions) => actions
    case Raised => []
  }

  /** What a list of actions makes of a frame, wherever it is then sent. */
  function Rewrite(actions: seq<Action>, fr: Frame): Result<Frame> {
    var s :- RunActions(actions, Start(fr));
    Ok(s.cur)
  }

  predicate FromPort(f: Flow, port: nat) {
    FirstInPort(f.fields) == Some(port) && forall x :: x in f.fields && x.InPort? ==> x.port == port
  }

  predicate PinsVid(f: Flow, vid: nat) {
    exists x :: x in f.fields && x.VlanVid? && HasPresentBit(x.vid) && x.vid % 0x1000 == vid
  }

  predicate PinsUntagged(f: Flow) {
    exists x :: x in f.fields && x.VlanVid? && !HasPresentBit(x.vid)
  }

  predicate SetsVid(a: Action, vid: nat) {
    a.SetField? && a.field.VlanVid? && a.field.vid % 0x1000 == vid
  }

  /** First half of an upstream pair: tag what comes from the UNI with the ONU's own VLAN. */
  predicate UpstreamGoto(t: Tree, i: nat, f: Flow)
    requires i < |t.onus|
  {
    && FromPort(f, t.onus[i].uni)
    && GetActions(f.instructions).Ok?
    && HasNextTable(f.instructions)
    && var actions := FlowActions(f);
    || (PinsVid(f, 0) && |actions| == 1 && SetsVid(actions[0], Vid(t.onus[i])))
    || (PinsUntagged(f) && |actions| == 2 && actions[0] == PushVlan(0x8100) && SetsVid(actions[1], Vid(t.onus[i])))
  }

  /** Second half: frames with the ONU's VLAN get any treatment and go to the NNI. */
  predicate UpstreamOutput(t: Tree, i: nat, f: Flow)
    requires i < |t.onus|
  {
    && FromPort(f, t.onus[i].uni)
    && GetActions(f.instructions).Ok?
    && !HasNextTable(f.instructions)
    && FirstOutput(FlowActions(f)) == Some(t.nni)
    && PinsVid(f, Vid(t.onus[i]))
  }

  /** To the controller, from one UNI or from any. */
  predicate ControllerBound(t: Tree, f: Flow) {
    && GetActions(f.instructions).Ok?
    && FirstOutput(FlowActions(f)).Some?
    && IsController(FirstOutput(FlowActions(f)).value)
    && |t.onus| > 0
    && (FirstInPort(f.fields).Some? ==> OnuAt(t, FirstInPort(f.fields).value).Some?)
  }

  /** First half of a downstream pair, with any actions. */
  predicate DownstreamGoto(t: Tree, f: Flow) {
    && |t.onus| > 0
    && FromPort(f, t.nni)
    && GetActions(f.instructions).Ok?
    && HasNextTable(f.instructions)
    && FirstOutput(FlowActions(f)) == None
  }

  /** Second half: the ONU's VLAN becomes VLAN 0 on the way to its UNI. */
  predicate DownstreamOutput(t: Tree, i: nat, f: Flow)
    requires i < |t.onus|
  {
    && FromPort(f, t.nni)
    && GetActions(f.instructions).Ok?
    && !HasNextTable(f.instructions)
    && FirstOutput(FlowActions(f)) == Some(t.onus[i].uni)
    && PinsVid(f, Vid(t.onus[i]))
    && var kept := Filter(FlowActions(f), NotOutput);
    |kept| == 1 && SetsVid(kept[0], 0)
  }

  ghost predicate UnicastFlow(t: Tree, f: Flow) {
    && (forall x :: x in f.fields ==> Supported(x))
    && (|| ControllerBound(t, f)
        || DownstreamGoto(t, f)
        || (exists i :: 0 <= i < |t.onus| && UpstreamGoto(t, i, f))
        || (exists i :: 0 <= i < |t.onus| && UpstreamOutput(t, i, f))
        || (exists i :: 0 <= i < |t.onus| && DownstreamOutput(t, i, f)))
  }

  ghost predicate UnicastTable(t: Tree, flows: seq<Flow>) {
    forall f :: f in flows ==> UnicastFlow(t, f)
  }

  ghost predicate DistinctVids(t: Tree) {
    forall i, j :: 0 <= i < j < |t.onus| ==> Vid(t.onus[i]) != Vid(t.onus[j])
  }

  // ----- what each kind of flow becomes -----

  /** A flow from a UNI to the next table, with any actions. */
  predicate GotoFromUni(t: Tree, i: nat, f: Flow)
    requires i < |t.onus|
  {
    && FromPort(f, t.onus[i].uni) && GetActions(f.instructions).Ok? && HasNextTable(f.instructions)
    && FirstOutput(FlowActions(f)) == None
  }

  /** A flow from a UNI to the NNI, with any actions. */
  predicate OutputFromUni(t: Tree, i: nat, f: Flow)
    requires i < |t.onus|
  {
    && FromPort(f, t.onus[i].uni) && GetActions(f.instructions).Ok? && !HasNextTable(f.instructions)
    && FirstOutput(FlowActions(f)) == Some(t.nni)
  }

  lemma DecomposeUpstreamPair(r: Routes, t: Tree, i: nat, f1: Flow, f2: Flow, groups: map<nat, GroupEntry>)
    requires Serves(r, t) && i < |t.onus| && GotoFromUni(t, i, f1) && OutputFromUni(t, i, f2)
    ensures DecomposeFlow(r, f1, groups) == Ok(map[t.onus[i].id := [GotoRule(f1, FlowActions(f1), OnuUp(t.onus[i]))]])
    ensures DecomposeFlow(r, f2, groups) == Ok(map[t.oltId := [OutputRule(f2, FlowActions(f2), OltUp(t))]])
  {
    RouteIsOrderIndependent(r, t, Some(t.onus[i].uni), None);
    RouteIsOrderIndependent(r, t, Some(t.onus[i].uni), Some(t.nni));
  }

  lemma DecomposeUpstreamGoto(r: Routes, t: Tree, i: nat, f: Flow, groups: map<nat, GroupEntry>)
    requires Serves(r, t) && i < |t.onus| && UpstreamGoto(t, i, f)
    ensures DecomposeFlow(r, f, groups) == Ok(map[t.onus[i].id := [GotoRule(f, FlowActions(f), OnuUp(t.onus[i]))]])
  {
    var actions := FlowActions(f);
    FirstOutputNone(actions);
    assert forall a :: a in actions ==> !a.Output?;
    RouteIsOrderIndependent(r, t, Some(t.onus[i].uni), None);
  }

  lemma DecomposeUpstreamOutput(r: Routes, t: Tree, i: nat, f: Flow, groups: map<nat, GroupEntry>)
    requires Serves(r, t) && i < |t.onus| && UpstreamOutput(t, i, f)
    ensures DecomposeFlow(r, f, groups) == Ok(map[t.oltId := [OutputRule(f, FlowActions(f), OltUp(t))]])
  {
    RouteIsOrderIndependent(r, t, Some(t.onus[i].uni), Some(t.nni));
  }

  lemma DecomposeControllerBound(r: Routes, t: Tree, f: Flow, groups: map<nat, GroupEntry>)
    requires Serves(r, t) && ControllerBound(t, f)
    ensures DecomposeFlow(r, f, groups) == Ok(map[t.oltId := [ControllerRule(f, OltUp(t))]])
  {
    RouteIsOrderIndependent(r, t, FirstInPort(f.fields), FirstOutput(FlowActions(f)));
  }

  lemma DecomposeDownstreamGoto(r: Routes, t: Tree, f: Flow, groups: map<nat, GroupEntry>)
    requires Serves(r, t) && DownstreamGoto(t, f)
    ensures DecomposeFlow(r, f, groups) == Ok(map[t.oltId := [GotoRule(f, FlowActions(f), OltDown(t))]])
  {
    RouteIsOrderIndependent(r, t, Some(t.nni), None);
  }

  lemma DecomposeDownstreamOutput(r: Routes, t: Tree, i: nat, f: Flow, groups: map<nat, GroupEntry>)
    requires Serves(r, t) && i < |t.onus| && DownstreamOutput(t, i, f)
    ensures DecomposeFlow(r, f, groups) == Ok(map[t.onus[i].id := [OutputRule(f, FlowActions(f), OnuDown(t.onus[i]))]])
  {
    RouteIsOrderIndependent(r, t, Some(t.nni), Some(t.onus[i].uni));
  }

  lemma UnicastFlowDecomposes(r: Routes, t: Tree, f: Flow, groups: map<nat, GroupEntry>)
    requires Serves(r, t) && UnicastFlow(t, f)
    ensures DecomposeFlow(r, f, groups).Ok?
  {
    if ControllerBound(t, f) {
      DecomposeControllerBound(r, t, f, groups);
    } else if DownstreamGoto(t, f) {
      DecomposeDownstreamGoto(r, t, f, groups);
    } else if i :| 0 <= i < |t.onus| && UpstreamGoto(t, i, f) {
      DecomposeUpstreamGoto(r, t, i, f, groups);
    } else if i :| 0 <= i < |t.onus| && UpstreamOutput(t, i, f) {
      DecomposeUpstreamOutput(r, t, i, f, groups);
    } else {
      var i :| 0 <= i < |t.onus| && DownstreamOutput(t, i, f);
      DecomposeDownstreamOutput(r, t, i, f, groups);
    }
  }

  /** Such tables always decompose. */
  lemma {:induction false} UnicastTableDecomposes(r: Routes, t: Tree, flows: seq<Flow>, groups: map<nat, GroupEntry>)
    requires Serves(r, t) && UnicastTable(t, flows)
    ensures DecomposeAll(r, TreeDefaults(t), flows, groups).Ok?
  {
    if flows != [] {
      var n := |flows| - 1;
      UnicastTableDecomposes(r, t, flows[..n], groups);
      UnicastFlowDecomposes(r, t, flows[n], groups);
    }
  }

  // ----- matching after the ports were rewritten -----

  ghost predicate KeptMatch(fields: seq<Field>, keep: Field -> bool, port: nat, fr: Frame) {
    forall x :: x in fields && keep(x) ==> FieldVerdict(x, port, fr) == Yes
  }

  lemma {:induction false} RehomedMatch(fields: seq<Field>, keep: Field -> bool, home: nat, port: nat, fr: Frame)
    requires forall x :: x in fields ==> Supported(x)
    ensures IsMatch([InPort(home)] + Filter(fields, keep), port, fr) != Raises
    ensures IsMatch([InPort(home)] + Filter(fields, keep), port, fr) == Yes <==>
            home == port && KeptMatch(fields, keep, port, fr)
  {
    var kept := Filter(fields, keep);
    MatchIsConjunction([InPort(home)] + kept, port, fr);
    assert forall x :: x in [InPort(home)] + kept <==> x == InPort(home) || x in kept;
  }

  /** A logical match at the logical port is a match of the remaining fields anywhere. */
  lemma {:induction false} LogicalMatch(f: Flow, logical: nat, port: nat, fr: Frame)
    requires FromPort(f, logical) && forall x :: x in f.fields ==> Supported(x)
    ensures IsMatch(f.fields, logical, fr) == Yes <==> KeptMatch(f.fields, NotInPort, port, fr)
  {
    MatchIsConjunction(f.fields, logical, fr);
    assert forall x :: x in f.fields && NotInPort(x) ==> FieldVerdict(x, logical, fr) == FieldVerdict(x, port, fr);
  }

  lemma PinnedVid(f: Flow, vid: nat, port: nat, fr: Frame)
    requires PinsVid(f, vid) && KeptMatch(f.fields, NotInPort, port, fr)
    ensures Tagged(fr) && fr.tags[0].vid == vid
  {
    var x :| x in f.fields && x.VlanVid? && HasPresentBit(x.vid) && x.vid % 0x1000 == vid;
    assert NotInPort(x);
  }

  // ----- running actions -----

  lemma {:induction false} OutputsDoNotRewrite(actions: seq<Action>, s: ActionState, s': ActionState)
    requires s'.cur == s.cur && s'.aliased == s.aliased && s'.orig == s.orig
    ensures var a, b := RunActions(actions, s), RunActions(Filter(actions, NotOutput), s');
            && a.Ok? == b.Ok?
            && (a.Ok? ==>
                  a.value.cur == b.value.cur && a.value.aliased == b.value.aliased && a.value.orig == b.value.orig)
    decreases actions
  {
    if actions != [] {
      var rest := Filter(actions[1..], NotOutput);
      if NotOutput(actions[0]) {
        assert ([actions[0]] + rest)[1..] == rest;
        if RunAction(actions[0], s).Ok? {
          OutputsDoNotRewrite(actions[1..], RunAction(actions[0], s).value, RunAction(actions[0], s').value);
        }
      } else {
        OutputsDoNotRewrite(actions[1..], RunAction(actions[0], s).value, s');
      }
    }
  }

  /** A rule that ends with one OUTPUT sends the frame its other actions make. */
  lemma {:induction false} RunRule(
    priority: nat, cookie: bv64, fields: seq<Field>, actions: seq<Action>, out: nat, fr: Frame)
    ensures RunFlow(MkFlowStat(priority, cookie, fields, actions + [Output(out)]), fr) ==
            match RunActions(actions, Start(fr))
            case Ok(s) => Ok(Forward(Some(out), s.cur, s.aliased, s.orig))
            case Raised => Raised
  {
    RunActionsSplit(actions, [Output(out)], Start(fr));
    match RunActions(actions, Start(fr))
    case Ok(s) =>
      assert [Output(out)][1..] == [];
      assert RunActions([], s.(egress := Some(out))) == Ok(s.(egress := Some(out)));
      assert RunActions([Output(out)], s) == Ok(s.(egress := Some(out)));
    case Raised =>
  }

  lemma RunSetVid(a: Action, vid: nat, fr: Frame)
    requires SetsVid(a, vid) && Tagged(fr)
    ensures RunActions([a], Start(fr)) == Ok(ActionState(None, WithVid(fr, vid), true, WithVid(fr, vid)))
  {
    assert [a][1..] == [];
    var s := RunAction(a, Start(fr)).value;
    assert RunActions([], s) == Ok(s);
  }

  lemma RunPushAndSetVid(a: Action, vid: nat, fr: Frame)
    requires SetsVid(a, vid)
    ensures RunActions([PushVlan(0x8100), a], Start(fr)) ==
            Ok(ActionState(None, WithVid(Push(fr, 0x8100), vid), false, fr))
  {
    var s := Rebind(Start(fr), Push(fr, 0x8100));
    assert [PushVlan(0x8100), a][1..] == [a] && [a][1..] == [];
    var s' := RunAction(a, s).value;
    assert RunActions([], s') == Ok(s');
    assert RunActions([a], s) == Ok(s');
  }

  // ----- the OLT chooses as the logical table does -----

  /** The two directions in which the OLT's table is consulted. */
  datatype Direction = Up(onu: nat) | Down

  /** Whether a logical flow wants the frame. Upstream the frame comes from one UNI and carries
      that ONU's tag; a controller-bound flow has lost its in_port and vlan_vid fields. */
  predicate Wants(t: Tree, v: Direction, f: Flow, fr: Frame)
    requires v.Up? ==> v.onu < |t.onus|
  {
    match v
    case Up(i) =>
      || (ControllerBound(t, f) && IsMatch(Filter(f.fields, ControllerField), t.onus[i].uni, fr) == Yes)
      || (!ControllerBound(t, f) && UpstreamOutput(t, i, f) && IsMatch(f.fields, t.onus[i].uni, fr) == Yes)
    case Down => DownstreamGoto(t, f) && IsMatch(f.fields, t.nni, fr) == Yes
  }

  ghost function OltTakers(t: Tree, v: Direction, fr: Frame): iset<Flow>
    requires v.Up? ==> v.onu < |t.onus|
  {
    iset f | Wants(t, v, f, fr)
  }

  /** The logical flow that is elected among those that want the frame. */
  ghost function Chosen(t: Tree, v: Direction, flows: seq<Flow>, fr: Frame): Option<Flow>
    requires v.Up? ==> v.onu < |t.onus|
  {
    Elect(flows, OltTakers(t, v, fr))
  }

  function OltPort(v: Direction): nat {
    if v.Up? then PON else EDGE
  }

  function OltRule(t: Tree, v: Direction, f: Flow): Flow {
    match v
    case Up(_) => if ControllerBound(t, f) then ControllerRule(f, OltUp(t)) else OutputRule(f, FlowActions(f), OltUp(t))
    case Down => GotoRule(f, FlowActions(f), OltDown(t))
  }

  /** Upstream frames are known by the tag of the ONU they come from. */
  ghost predicate Visible(t: Tree, v: Direction, fr: Frame) {
    v.Up? ==> v.onu < |t.onus| && DistinctVids(t) && Tagged(fr) && fr.tags[0].vid == Vid(t.onus[v.onu])
  }

  lemma {:induction false} SelectOne(rule: Flow, port: nat, fr: Frame)
    ensures Select([rule], port, fr) == if Hits(rule, port, fr) then Some(rule) else None
  {
    assert [rule][..0] == [];
    assert Select([], port, fr) == None;
  }

  lemma {:induction false} SelectNone(port: nat, fr: Frame)
    ensures Select([], port, fr) == None
  {}

  lemma {:induction false} SelectContribution(
    r: Routes, t: Tree, v: Direction, f: Flow, groups: map<nat, GroupEntry>, fr: Frame)
    requires Serves(r, t) && PonSimPorts(t) && UnicastFlow(t, f) && Visible(t, v, fr)
    ensures Matchable(Contribution(r, f, groups, t.oltId), OltPort(v), fr)
    ensures Select(Contribution(r, f, groups, t.oltId), OltPort(v), fr) ==
            if Wants(t, v, f, fr) then Some(OltRule(t, v, f)) else None
  {
    var port := OltPort(v);
    SelectNone(port, fr);
    if ControllerBound(t, f) {
      DecomposeControllerBound(r, t, f, groups);
      RehomedMatch(f.fields, ControllerField, PON, port, fr);
      SelectOne(ControllerRule(f, OltUp(t)), port, fr);
      if v.Up? {
        MatchIsConjunction(Filter(f.fields, ControllerField), t.onus[v.onu].uni, fr);
        assert forall x :: x in f.fields && ControllerField(x) ==>
          FieldVerdict(x, t.onus[v.onu].uni, fr) == FieldVerdict(x, port, fr);
      }
    } else if DownstreamGoto(t, f) {
      DecomposeDownstreamGoto(r, t, f, groups);
      RehomedMatch(f.fields, NotInPort, EDGE, port, fr);
      LogicalMatch(f, t.nni, port, fr);
      SelectOne(GotoRule(f, FlowActions(f), OltDown(t)), port, fr);
    } else if i :| 0 <= i < |t.onus| && UpstreamOutput(t, i, f) {
      DecomposeUpstreamOutput(r, t, i, f, groups);
      RehomedMatch(f.fields, NotInPort, PON, port, fr);
      LogicalMatch(f, t.onus[i].uni, port, fr);
      SelectOne(OutputRule(f, FlowActions(f), OltUp(t)), port, fr);
      if v.Up? && KeptMatch(f.fields, NotInPort, port, fr) {
        PinnedVid(f, Vid(t.onus[i]), port, fr);
        assert i == v.onu;
      }
    } else if i :| 0 <= i < |t.onus| && UpstreamGoto(t, i, f) {
      DecomposeUpstreamGoto(r, t, i, f, groups);
    } else {
      var i :| 0 <= i < |t.onus| && DownstreamOutput(t, i, f);
      DecomposeDownstreamOutput(r, t, i, f, groups);
    }
  }

  /** The OLT's generated rules elect the image of the flow the logical table elects. */
  lemma {:induction false} OltElection(
    r: Routes, t: Tree, v: Direction, flows: seq<Flow>, groups: map<nat, GroupEntry>, fr: Frame)
    requires Serves(r, t) && PonSimPorts(t) && UnicastTable(t, flows) && Visible(t, v, fr)
    ensures Matchable(Contributions(r, flows, groups, t.oltId), OltPort(v), fr)
    ensures Select(Contributions(r, flows, groups, t.oltId), OltPort(v), fr) ==
            match Chosen(t, v, flows, fr) case None => None case Some(f) => Some(OltRule(t, v, f))
    ensures Chosen(t, v, flows, fr).Some? ==> Wants(t, v, Chosen(t, v, flows, fr).value, fr)
  {
    if flows == [] {
      SelectNone(OltPort(v), fr);
    } else {
      var n := |flows| - 1;
      assert flows[n] in flows;
      OltElection(r, t, v, flows[..n], groups, fr);
      SelectContribution(r, t, v, flows[n], groups, fr);
      SelectSplit(Contributions(r, flows[..n], groups, t.oltId), Contribution(r, flows[n], groups, t.oltId),
                  OltPort(v), fr);
    }
  }
}
