/** The simulator against the logical switch: what the flow table asks for, and exactly when the
    decomposed tables do that and nothing else. The logical switch has two tables. Goto flows and
    controller-bound flows are in the first and are matched on the frame as received; output flows
    are in the second and are matched on what a goto flow passes on. */
module LogicalSwitch {
  import opened Wrappers
  import opened OpenFlow
  import opened Election
  import opened PonMachine
  import opened RuleSelection
  import opened Topology
  import opened FlowDecomposer
  import opened LoopFreedom
  import opened UnicastMeaning
  import opened UnicastForwarding
  import opened DownstreamForwarding
  import opened Multicast

  // ----- one upstream pair, in any tables whatever -----

  /** Two rules in sequence: what the first sends up the PON the second sends out of the NNI. */
  lemma {:induction false} TwoStations(
    t: Tree, tables: DeviceRules, i: nat, r1: Flow, r2: Flow, fr: Frame, fr1: Frame, fr2: Frame, depth: nat)
    requires i < |t.onus| && depth >= 2
    requires Matchable(Lookup(tables, t.onus[i].id), EDGE, fr)
    requires Select(Lookup(tables, t.onus[i].id), EDGE, fr) == Some(r1)
    requires Matchable(Lookup(tables, t.oltId), PON, fr1) && Select(Lookup(tables, t.oltId), PON, fr1) == Some(r2)
    requires Sends(r1, fr, PON, fr1) && Sends(r2, fr1, EDGE, fr2)
    ensures Agrees(Inject(InstalledNet(t, tables), i + 1, fr, depth), Ok([(OLT_PORT, fr2)]))
  {
    var net := InstalledNet(t, tables);
    Wiring(t, tables, i);
    ProcessSelects(Lookup(tables, t.onus[i].id), EDGE, fr);
    ProcessSelects(Lookup(tables, t.oltId), PON, fr1);
    TwoHops(net, i, fr, fr1, fr2, depth);
  }

  lemma TwoHops(net: Net, i: nat, fr: Frame, fr1: Frame, fr2: Frame, depth: nat)
    requires WiredWithin(net) && i + 1 < |net| && depth >= 2
    requires LinksOf(net, i + 1, Some(PON)) == [ToDevice(0, PON)] && LinksOf(net, 0, Some(EDGE)) == [ToUser(OLT_PORT)]
    requires Emits(ProcessFrame(net[i + 1].flows, EDGE, fr), PON, Some(Ok(fr1)))
    requires Emits(ProcessFrame(net[0].flows, PON, fr1), EDGE, Some(Ok(fr2)))
    ensures Agrees(Inject(net, i + 1, fr, depth), Ok([(OLT_PORT, fr2)]))
  {
    IngressToDevice(net, i + 1, EDGE, fr, depth, ProcessFrame(net[i + 1].flows, EDGE, fr).value, 0, PON);
    IngressToUser(net, 0, PON, fr1, depth - 1, ProcessFrame(net[0].flows, PON, fr1).value, OLT_PORT);
  }

  /** For a goto flow f1 and a flow f2 to the NNI on one UNI, with any actions: each becomes one
      rule, and in whatever tables these rules are the ones selected, PonSim emits one frame, at
      the NNI, which is f2's actions applied after f1's. */
  lemma {:induction false} UpstreamPair(
    r: Routes, t: Tree, tables: DeviceRules, groups: map<nat, GroupEntry>, i: nat, f1: Flow, f2: Flow, fr: Frame,
    fr1: Frame, fr2: Frame, depth: nat)
    requires Serves(r, t) && PonSimPorts(t) && i < |t.onus| && depth >= 2
    requires GotoFromUni(t, i, f1) && OutputFromUni(t, i, f2)
    requires Rewrite(FlowActions(f1), fr) == Ok(fr1) && Rewrite(FlowActions(f2), fr1) == Ok(fr2)
    requires Matchable(Lookup(tables, t.onus[i].id), EDGE, fr) && Matchable(Lookup(tables, t.oltId), PON, fr1)
    requires Select(Lookup(tables, t.onus[i].id), EDGE, fr) == Some(GotoRule(f1, FlowActions(f1), OnuUp(t.onus[i])))
    requires Select(Lookup(tables, t.oltId), PON, fr1) == Some(OutputRule(f2, FlowActions(f2), OltUp(t)))
    ensures DecomposeFlow(r, f1, groups) == Ok(map[t.onus[i].id := [GotoRule(f1, FlowActions(f1), OnuUp(t.onus[i]))]])
    ensures DecomposeFlow(r, f2, groups) == Ok(map[t.oltId := [OutputRule(f2, FlowActions(f2), OltUp(t))]])
    ensures Agrees(Inject(InstalledNet(t, tables), i + 1, fr, depth), Ok([(OLT_PORT, fr2)]))
  {
    DecomposeUpstreamPair(r, t, i, f1, f2, groups);
    GotoRuleRuns(f1, OnuUp(t.onus[i]), fr);
    OutputRuleRuns(f2, OltUp(t), fr1);
    TwoStations(t, tables, i, GotoRule(f1, FlowActions(f1), OnuUp(t.onus[i])),
                OutputRule(f2, FlowActions(f2), OltUp(t)), fr, fr1, fr2, depth);
  }

  // ----- elections -----

  ghost predicate AllSupported(flows: seq<Flow>) {
    forall f, x :: f in flows && x in f.fields ==> Supported(x)
  }

  /** What the logical switch wants done with a frame. */
  datatype Intent = Nothing | ToController | Send(result: Result<(nat, Frame)>)

  /** The trace is what was wanted; `packetIn` is how the frame looks on its way to the controller. */
  predicate Fulfils(trace: Trace, intent: Intent, packetIn: Frame) {
    match intent
    case Nothing => Agrees(trace, Ok([]))
    case Send(Raised) => Agrees(trace, Raised)
    case Send(Ok(out)) => Agrees(trace, Ok([out]))
    case ToController => Agrees(trace, Ok([(OLT_PORT, packetIn)]))
  }

  // ----- upstream, whole tables -----

  predicate GotoWants(t: Tree, i: nat, f: Flow, fr: Frame)
    requires i < |t.onus|
  {
    UpstreamGoto(t, i, f) && IsMatch(f.fields, t.onus[i].uni, fr) == Yes
  }

  ghost function Gotos(t: Tree, i: nat, fr: Frame): iset<Flow>
    requires i < |t.onus|
  {
    iset f | GotoWants(t, i, f, fr)
  }

  /** The controller-bound flows whose whole match agrees with a frame at a port. */
  ghost function Controllers(t: Tree, port: nat, fr: Frame): iset<Flow> {
    iset f | ControllerBound(t, f) && IsMatch(f.fields, port, fr) == Yes
  }

  ghost function Outputs(t: Tree, i: nat, fr: Frame): iset<Flow>
    requires i < |t.onus|
  {
    iset f | !ControllerBound(t, f) && UpstreamOutput(t, i, f) && IsMatch(f.fields, t.onus[i].uni, fr) == Yes
  }

  /** The first table's choice for a frame at a UNI. */
  ghost function FirstAtUni(t: Tree, i: nat, flows: seq<Flow>, fr: Frame): Option<Flow>
    requires i < |t.onus|
  {
    Elect(flows, Gotos(t, i, fr) + Controllers(t, t.onus[i].uni, fr))
  }

  /** The flow that decides where the frame goes: a controller-bound one in the first table, or an
      output flow in the second, on what the goto flow of the first passes on. */
  ghost function AskedFlow(t: Tree, i: nat, flows: seq<Flow>, fr: Frame): Option<Flow>
    requires i < |t.onus|
  {
    match FirstAtUni(t, i, flows, fr)
    case None => None
    case Some(f) =>
      if ControllerBound(t, f) then Some(f)
      else
        match Rewrite(FlowActions(f), fr)
        case Ok(fr1) => Elect(flows, Outputs(t, i, fr1))
        case Raised => None
  }

  ghost function LogicalUpstream(t: Tree, i: nat, flows: seq<Flow>, fr: Frame): Intent
    requires i < |t.onus|
  {
    match FirstAtUni(t, i, flows, fr)
    case None => Nothing
    case Some(f) =>
      if ControllerBound(t, f) then ToController
      else
        match Rewrite(FlowActions(f), fr)
        case Raised => Send(Raised)
        case Ok(fr1) =>
          match Elect(flows, Outputs(t, i, fr1))
          case None => Nothing
          case Some(f2) => Send(AtNni(Rewrite(FlowActions(f2), fr1)))
  }

  function AtNni(made: Result<Frame>): Result<(nat, Frame)> {
    var fr :- made;
    Ok((OLT_PORT, fr))
  }

  /** On its way to the controller a frame has the in-band tag, and one from a UNI the tag of its ONU
      below it, if that lets it through. */
  function PacketIn(t: Tree, i: nat, fr: Frame): Frame
    requires i < |t.onus|
  {
    match TagFor(t.onus[i], fr)
    case None => InBand(fr)
    case Some(tagged) => InBand(tagged)
  }

  lemma GotoTags(t: Tree, i: nat, f: Flow, fr: Frame)
    requires i < |t.onus| && GotoWants(t, i, f, fr) && forall x :: x in f.fields ==> Supported(x)
    ensures TagFor(t.onus[i], fr).Some? && Rewrite(FlowActions(f), fr) == Ok(TagFor(t.onus[i], fr).value)
    ensures !ControllerBound(t, f)
  {
    var actions := FlowActions(f);
    LogicalMatch(f, t.onus[i].uni, EDGE, fr);
    FirstOutputNone(actions);
    if |actions| == 1 {
      assert actions == [actions[0]];
      PinnedVid(f, 0, EDGE, fr);
      RunSetVid(actions[0], Vid(t.onus[i]), fr);
    } else {
      assert actions == [PushVlan(0x8100), actions[1]];
      var x :| x in f.fields && x.VlanVid? && !HasPresentBit(x.vid);
      assert NotInPort(x);
      RunPushAndSetVid(actions[1], Vid(t.onus[i]), fr);
    }
  }

  /** The fields that a controller-bound flow loses on its way to the OLT would have passed: its
      in_port and its VLAN agree with the frame as received, and it has no priority bits to match
      on if the frame had none. */
  predicate LostFieldsPass(f: Flow, uni: nat, fr: Frame) {
    forall x :: x in f.fields ==>
      (x.InPort? ==> x.port == uni) && (x.VlanVid? ==> FieldVerdict(x, uni, fr) == Yes) && (x.VlanPcp? ==> Tagged(fr))
  }

  lemma {:induction false} ControllerMatch(t: Tree, i: nat, f: Flow, fr: Frame, tagged: Frame)
    requires i < |t.onus| && TagFor(t.onus[i], fr) == Some(tagged) && forall x :: x in f.fields ==> Supported(x)
    ensures IsMatch(f.fields, t.onus[i].uni, fr) == Yes <==>
            && IsMatch(Filter(f.fields, ControllerField), t.onus[i].uni, tagged) == Yes
            && LostFieldsPass(f, t.onus[i].uni, fr)
  {
    var uni := t.onus[i].uni;
    MatchIsConjunction(f.fields, uni, fr);
    MatchIsConjunction(Filter(f.fields, ControllerField), uni, tagged);
    forall x | x in f.fields && ControllerField(x)
      ensures FieldVerdict(x, uni, fr) == FieldVerdict(x, uni, tagged)
              || (x.VlanPcp? && FieldVerdict(x, uni, fr) == No && !Tagged(fr))
    {
      TaggingKeepsMatches(t.onus[i], x, uni, fr);
    }
  }

  lemma TaggingKeepsMatches(o: Onu, x: Field, port: nat, fr: Frame)
    requires TagFor(o, fr).Some? && ControllerField(x) && Supported(x)
    ensures x.VlanPcp? && !Tagged(fr) ==> FieldVerdict(x, port, fr) == No
    ensures !(x.VlanPcp? && !Tagged(fr)) ==> FieldVerdict(x, port, fr) == FieldVerdict(x, port, TagFor(o, fr).value)
  {}

  /** Those who ask at the UNI, for the frame or for what is passed on, are among those the OLT would
      serve; of the controller-bound flows it would serve, those ask whose lost fields pass. */
  lemma AskersAreServed(t: Tree, i: nat, flows: seq<Flow>, f: Flow, fr: Frame, tagged: Frame)
    requires i < |t.onus| && AllSupported(flows) && f in flows && TagFor(t.onus[i], fr) == Some(tagged)
    ensures f in Controllers(t, t.onus[i].uni, fr) <==>
            ControllerBound(t, f) && f in OltTakers(t, Up(i), tagged) && LostFieldsPass(f, t.onus[i].uni, fr)
    ensures f in Outputs(t, i, tagged) <==> !ControllerBound(t, f) && f in OltTakers(t, Up(i), tagged)
    ensures f in Gotos(t, i, fr) ==> !ControllerBound(t, f) && Rewrite(FlowActions(f), fr) == Ok(tagged)
  {
    if ControllerBound(t, f) {
      ControllerMatch(t, i, f, fr, tagged);
    }
    if GotoWants(t, i, f, fr) {
      GotoTags(t, i, f, fr);
    }
  }

  /** The asked flow is the first table's if that is controller-bound, and otherwise an output flow on
      the tagged frame. */
  lemma {:induction false} FirstDecides(t: Tree, i: nat, flows: seq<Flow>, fr: Frame, tagged: Frame)
    requires i < |t.onus| && AllSupported(flows) && TagFor(t.onus[i], fr) == Some(tagged)
    ensures var first := FirstAtUni(t, i, flows, fr);
            && (first.Some? ==>
                  first.value in flows && (ControllerBound(t, first.value) <==> first.value !in Gotos(t, i, fr)))
            && AskedFlow(t, i, flows, fr) ==
               (if first.None? then None
                else if ControllerBound(t, first.value) then first
                else Elect(flows, Outputs(t, i, tagged)))
            && (AskedFlow(t, i, flows, fr).Some? && ControllerBound(t, AskedFlow(t, i, flows, fr).value) ==>
                  AskedFlow(t, i, flows, fr) == first)
  {
    ElectedWants(flows, Gotos(t, i, fr) + Controllers(t, t.onus[i].uni, fr));
    ElectedWants(flows, Outputs(t, i, tagged));
    var first := FirstAtUni(t, i, flows, fr);
    if first.Some? {
      AskersAreServed(t, i, flows, first.value, fr, tagged);
    }
  }

  /** A controller-bound flow matches the frame at the UNI, and the elected one is outranked by no goto
      flow that does. */
  ghost predicate ControllerAsked(t: Tree, i: nat, flows: seq<Flow>, fr: Frame)
    requires i < |t.onus|
  {
    var c := Elect(flows, Controllers(t, t.onus[i].uni, fr));
    c.Some? && Leads(flows, c.value, Gotos(t, i, fr))
  }

  /** A goto flow matches the frame at the UNI, and the elected one is outranked by no controller-bound
      flow that does. */
  ghost predicate PassedOn(t: Tree, i: nat, flows: seq<Flow>, fr: Frame)
    requires i < |t.onus|
  {
    var g := Elect(flows, Gotos(t, i, fr));
    g.Some? && Leads(flows, g.value, Controllers(t, t.onus[i].uni, fr))
  }

  /** The first table by kinds: which of the two leads decides who is asked. */
  lemma {:induction false} AskedByKind(t: Tree, i: nat, flows: seq<Flow>, fr: Frame, tagged: Frame)
    requires i < |t.onus| && AllSupported(flows) && TagFor(t.onus[i], fr) == Some(tagged)
    ensures AskedFlow(t, i, flows, fr) ==
            if ControllerAsked(t, i, flows, fr) then Elect(flows, Controllers(t, t.onus[i].uni, fr))
            else if PassedOn(t, i, flows, fr) then Elect(flows, Outputs(t, i, tagged))
            else None
    ensures !(ControllerAsked(t, i, flows, fr) && PassedOn(t, i, flows, fr))
  {
    var gotos, controllers := Gotos(t, i, fr), Controllers(t, t.onus[i].uni, fr);
    var first, c, g := FirstAtUni(t, i, flows, fr), Elect(flows, controllers), Elect(flows, gotos);
    FirstDecides(t, i, flows, fr, tagged);
    ElectedWants(flows, gotos + controllers);
    ElectedWants(flows, controllers);
    ElectedWants(flows, gotos);
    assert gotos + controllers == controllers + gotos;
    if c.Some? {
      ElectedOfTwoKinds(flows, controllers, gotos, c.value);
    }
    if g.Some? {
      ElectedOfTwoKinds(flows, gotos, controllers, g.value);
      AskersAreServed(t, i, flows, g.value, fr, tagged);
    }
    if first.Some? && first.value in gotos {
      ElectedOfTwoKinds(flows, gotos, controllers, first.value);
    } else if first.Some? {
      ElectedOfTwoKinds(flows, controllers, gotos, first.value);
    }
  }

  /** If the OLT elects an output flow, the second table does too. */
  lemma {:induction false} OutputIsElected(t: Tree, i: nat, flows: seq<Flow>, f: Flow, fr: Frame, tagged: Frame)
    requires i < |t.onus| && AllSupported(flows) && TagFor(t.onus[i], fr) == Some(tagged)
    requires Elect(flows, OltTakers(t, Up(i), tagged)) == Some(f) && !ControllerBound(t, f)
    ensures Elect(flows, Outputs(t, i, tagged)) == Some(f)
  {
    ElectedWants(flows, OltTakers(t, Up(i), tagged));
    forall o | o in flows && o in Outputs(t, i, tagged) ensures o in OltTakers(t, Up(i), tagged) {
      AskersAreServed(t, i, flows, o, fr, tagged);
    }
    AskersAreServed(t, i, flows, f, fr, tagged);
    ElectedAmongFewer(flows, OltTakers(t, Up(i), tagged), Outputs(t, i, tagged));
  }

  lemma {:induction false} NobodyAsks(t: Tree, i: nat, flows: seq<Flow>, fr: Frame, tagged: Frame)
    requires i < |t.onus| && AllSupported(flows) && TagFor(t.onus[i], fr) == Some(tagged)
    requires Elect(flows, OltTakers(t, Up(i), tagged)).None?
    ensures AskedFlow(t, i, flows, fr).None?
  {
    FirstDecides(t, i, flows, fr, tagged);
    ElectedWants(flows, OltTakers(t, Up(i), tagged));
    ElectedWants(flows, Outputs(t, i, tagged));
    ElectedWants(flows, Gotos(t, i, fr) + Controllers(t, t.onus[i].uni, fr));
    var asked := AskedFlow(t, i, flows, fr);
    if asked.Some? {
      AskersAreServed(t, i, flows, asked.value, fr, tagged);
    }
  }

  /** An output flow's actions look to the network like the way to the controller. */
  predicate MakesInBand(f: Flow, tagged: Frame) {
    Rewrite(FlowActions(f), tagged) == Ok(InBand(tagged))
  }

  /** The exact condition upstream, by the kind of flow that the OLT elects for the tagged frame. A
      controller-bound flow: the controller is asked for in the first table, or the frame is passed on
      to an output flow that makes the same of it. An output flow: the frame is passed on, or the
      controller is asked for and the flow makes the same of it. A frame that the ONU does not let
      through is asked for by no controller-bound flow. */
  ghost predicate UpstreamAsAsked(t: Tree, i: nat, flows: seq<Flow>, fr: Frame)
    requires i < |t.onus|
  {
    match TagFor(t.onus[i], fr)
    case None => forall f :: f in flows ==> f !in Controllers(t, t.onus[i].uni, fr)
    case Some(tagged) =>
      match Chosen(t, Up(i), flows, tagged)
      case None => true
      case Some(f) =>
        if ControllerBound(t, f) then
          var o := Elect(flows, Outputs(t, i, tagged));
          ControllerAsked(t, i, flows, fr) || (PassedOn(t, i, flows, fr) && o.Some? && MakesInBand(o.value, tagged))
        else
          PassedOn(t, i, flows, fr) || (ControllerAsked(t, i, flows, fr) && MakesInBand(f, tagged))
  }

  lemma UntaggableAsked(t: Tree, i: nat, flows: seq<Flow>, fr: Frame)
    requires i < |t.onus| && AllSupported(flows) && TagFor(t.onus[i], fr).None?
    ensures LogicalUpstream(t, i, flows, fr) == if UpstreamAsAsked(t, i, flows, fr) then Nothing else ToController
  {
    var first := FirstAtUni(t, i, flows, fr);
    ElectedWants(flows, Gotos(t, i, fr) + Controllers(t, t.onus[i].uni, fr));
    if first.Some? && first.value in Gotos(t, i, fr) {
      GotoTags(t, i, first.value, fr);
    }
    forall f | f in flows && f in Gotos(t, i, fr) ensures false {
      GotoTags(t, i, f, fr);
    }
  }

  /** What the asked flow wants is what the OLT would do on its behalf. */
  ghost function IntentOf(t: Tree, asked: Option<Flow>, tagged: Frame): Intent {
    if asked.None? then Nothing
    else if ControllerBound(t, asked.value) then ToController
    else Send(AtNni(UpEffect(t, asked.value, tagged)))
  }

  lemma IntentIsEffect(t: Tree, i: nat, flows: seq<Flow>, fr: Frame, tagged: Frame)
    requires i < |t.onus| && AllSupported(flows) && TagFor(t.onus[i], fr) == Some(tagged)
    ensures LogicalUpstream(t, i, flows, fr) == IntentOf(t, AskedFlow(t, i, flows, fr), tagged)
  {
    FirstDecides(t, i, flows, fr, tagged);
    ElectedWants(flows, Outputs(t, i, tagged));
    var first := FirstAtUni(t, i, flows, fr);
    if first.Some? {
      AskersAreServed(t, i, flows, first.value, fr, tagged);
    }
  }

  lemma FulfilsWhenSame(t: Tree, tagged: Frame, trace: Trace, f: Flow, asked: Option<Flow>)
    requires match UpEffect(t, f, tagged)
             case Ok(fr') => Agrees(trace, Ok([(OLT_PORT, fr')]))
             case Raised => Agrees(trace, Raised)
    ensures Fulfils(trace, IntentOf(t, asked, tagged), InBand(tagged)) <==>
            asked.Some? && UpEffect(t, asked.value, tagged) == UpEffect(t, f, tagged)
  {
    if asked.Some? {
      match UpEffect(t, f, tagged)
      case Ok(fr') => assert trace.out[0].1 == fr';
      case Raised =>
    }
  }

  lemma TaggedMeaning(t: Tree, i: nat, flows: seq<Flow>, fr: Frame, tagged: Frame, trace: Trace)
    requires i < |t.onus| && AllSupported(flows) && TagFor(t.onus[i], fr) == Some(tagged)
    requires Agrees(trace, TaggedResult(t, i, flows, tagged))
    ensures Fulfils(trace, LogicalUpstream(t, i, flows, fr), PacketIn(t, i, fr)) <==> UpstreamAsAsked(t, i, flows, fr)
  {
    IntentIsEffect(t, i, flows, fr, tagged);
    match Chosen(t, Up(i), flows, tagged)
    case None => NobodyAsks(t, i, flows, fr, tagged);
    case Some(f) =>
      FulfilsWhenSame(t, tagged, trace, f, AskedFlow(t, i, flows, fr));
      EffectIsAsked(t, i, flows, f, fr, tagged);
  }

  /** The asked flow does with the frame what the OLT's choice does, if and only if the guards hold. */
  lemma EffectIsAsked(t: Tree, i: nat, flows: seq<Flow>, f: Flow, fr: Frame, tagged: Frame)
    requires i < |t.onus| && AllSupported(flows) && TagFor(t.onus[i], fr) == Some(tagged)
    requires Chosen(t, Up(i), flows, tagged) == Some(f)
    ensures var asked := AskedFlow(t, i, flows, fr);
            asked.Some? && UpEffect(t, asked.value, tagged) == UpEffect(t, f, tagged) <==>
            UpstreamAsAsked(t, i, flows, fr)
  {
    AskedByKind(t, i, flows, fr, tagged);
    ElectedWants(flows, Controllers(t, t.onus[i].uni, fr));
    ElectedWants(flows, Outputs(t, i, tagged));
    if !ControllerBound(t, f) {
      OutputIsElected(t, i, flows, f, fr, tagged);
    }
  }

  /** Upstream meaning of any trace that is the simulator's result for a frame at a UNI. */
  lemma ResultMeaning(t: Tree, i: nat, flows: seq<Flow>, fr: Frame, trace: Trace)
    requires i < |t.onus| && AllSupported(flows) && Agrees(trace, UpstreamResult(t, i, flows, fr))
    ensures Fulfils(trace, LogicalUpstream(t, i, flows, fr), PacketIn(t, i, fr)) <==> UpstreamAsAsked(t, i, flows, fr)
  {
    match TagFor(t.onus[i], fr)
    case None => UntaggableAsked(t, i, flows, fr);
    case Some(tagged) => TaggedMeaning(t, i, flows, fr, tagged, trace);
  }

  /** A table of controller-bound flows only, such as one for EAPOL at every UNI: a frame the ONU lets
      through is treated as asked if and only if some flow asks for it as received, or none takes it. */
  lemma {:induction false} ControllersOnly(t: Tree, i: nat, flows: seq<Flow>, fr: Frame, tagged: Frame)
    requires i < |t.onus| && AllSupported(flows) && TagFor(t.onus[i], fr) == Some(tagged)
    requires forall f :: f in flows ==> ControllerBound(t, f)
    ensures UpstreamAsAsked(t, i, flows, fr) <==>
            || (exists f :: f in flows && f in Controllers(t, t.onus[i].uni, fr))
            || (forall f :: f in flows ==> !Wants(t, Up(i), f, tagged))
  {
    ElectedWants(flows, OltTakers(t, Up(i), tagged));
    ElectedWants(flows, Controllers(t, t.onus[i].uni, fr));
    ElectedWants(flows, Gotos(t, i, fr));
    forall f | f in flows ensures f !in Gotos(t, i, fr) {
      AskersAreServed(t, i, flows, f, fr, tagged);
    }
    assert forall k :: 0 <= k < |flows| ==> flows[k] in flows;
  }

  lemma UnicastIsSupported(t: Tree, flows: seq<Flow>)
    requires UnicastTable(t, flows)
    ensures AllSupported(flows)
  {}

  /** Upstream meaning, and its exact limit, for any table of unicast and controller-bound flows and
      any frame at any UNI. */
  lemma UpstreamMeaning(r: Routes, t: Tree, i: nat, flows: seq<Flow>, fr: Frame, depth: nat)
    requires Serves(r, t) && PonSimPorts(t) && DistinctVids(t) && i < |t.onus| && UnicastTable(t, flows) && depth >= 2
    ensures Fulfils(Inject(InstalledNet(t, Tables(r, t, flows)), i + 1, fr, depth),
                    LogicalUpstream(t, i, flows, fr), PacketIn(t, i, fr))
            <==> UpstreamAsAsked(t, i, flows, fr)
  {
    UpstreamExact(r, t, i, flows, fr, depth);
    UnicastIsSupported(t, flows);
    ResultMeaning(t, i, flows, fr, Inject(InstalledNet(t, Tables(r, t, flows)), i + 1, fr, depth));
  }

  // ----- downstream, whole tables -----

  /** A downstream output flow that matches the frame, whichever UNI it leads to. */
  predicate OutputWants(t: Tree, f: Flow, fr: Frame) {
    var target := FirstOutput(FlowActions(f));
    && target.Some? && OnuAt(t, target.value).Some?
    && DownstreamOutput(t, OnuAt(t, target.value).value, f)
    && IsMatch(f.fields, t.nni, fr) == Yes
  }

  ghost function OutputChosen(t: Tree, flows: seq<Flow>, fr: Frame): Option<Flow> {
    Elect(flows, iset f | OutputWants(t, f, fr))
  }

  /** The first table's choice for a frame at the NNI; a controller-bound flow without in_port is in
      the running. */
  ghost function FirstAtNni(t: Tree, flows: seq<Flow>, fr: Frame): Option<Flow> {
    Elect(flows, OltTakers(t, Down, fr) + Controllers(t, t.nni, fr))
  }

  /** What the elected output flow makes of a frame, at the UNI it leads to. */
  ghost function SecondAtNni(t: Tree, flows: seq<Flow>, fr: Frame): Intent {
    match OutputChosen(t, flows, fr)
    case None => Nothing
    case Some(f) =>
      var target := FirstOutput(FlowActions(f));
      if target.None? || OnuAt(t, target.value).None? then Nothing
      else
        match Rewrite(FlowActions(f), fr)
        case Raised => Send(Raised)
        case Ok(fr') => Send(Ok((OnuPort(OnuAt(t, target.value).value), fr')))
  }

  ghost function LogicalDownstream(t: Tree, flows: seq<Flow>, fr: Frame): Intent {
    match FirstAtNni(t, flows, fr)
    case None => Nothing
    case Some(f) =>
      if ControllerBound(t, f) then ToController
      else
        match Rewrite(FlowActions(f), fr)
        case Raised => Send(Raised)
        case Ok(fr1) => SecondAtNni(t, flows, fr1)
  }

  /** The OLT's in-band rule takes the frame, from no flow or from one that does not outrank it. */
  ghost predicate InBandTaken(t: Tree, flows: seq<Flow>, fr: Frame) {
    InBandTag(fr) && (Chosen(t, Down, flows, fr).Some? ==> Chosen(t, Down, flows, fr).value.priority <= 2000)
  }

  ghost predicate Owned(t: Tree, i: nat, fr: Frame) {
    i < |t.onus| && Owns(t.onus[i], fr)
  }

  ghost predicate Unowned(t: Tree, fr: Frame) {
    forall i :: !Owned(t, i, fr)
  }

  ghost predicate SomeOutputWants(t: Tree, flows: seq<Flow>, fr: Frame) {
    exists f :: f in flows && OutputWants(t, f, fr)
  }

  lemma {:induction false} OwnerIsServed(t: Tree, i: nat, fr: Frame)
    requires IsolatingVids(t) && Owned(t, i, fr)
    ensures Delivered(t, 0, fr) == [(OnuPort(i), WithVid(fr, 0))]
  {
    DeliveredToOne(t, 0, i, fr);
  }

  lemma {:induction false} NobodyIsServed(t: Tree, fr: Frame)
    ensures Delivered(t, 0, fr) == [] <==> Unowned(t, fr)
  {
    DeliveredNothing(t, 0, fr);
    assert forall i :: 0 <= i < |t.onus| && Owns(t.onus[i], fr) ==> Owned(t, i, fr);
  }

  /** An output flow that matches a frame leads to the owner of its VLAN and takes the VLAN off. */
  lemma OutputFlowServesOwner(t: Tree, f: Flow, fr: Frame) returns (i: nat)
    requires OutputWants(t, f, fr) && forall x :: x in f.fields ==> Supported(x)
    ensures OnuAt(t, FirstOutput(FlowActions(f)).value) == Some(i) && Owned(t, i, fr)
    ensures Rewrite(FlowActions(f), fr) == Ok(WithVid(fr, 0))
  {
    i := OnuAt(t, FirstOutput(FlowActions(f)).value).value;
    LogicalMatch(f, t.nni, PON, fr);
    PinnedVid(f, Vid(t.onus[i]), PON, fr);
    var kept := Filter(FlowActions(f), NotOutput);
    assert kept == [kept[0]];
    RunSetVid(kept[0], 0, fr);
    OutputsDoNotRewrite(FlowActions(f), Start(fr), Start(fr));
  }

  /** The second table asks for what the owner of the frame's VLAN gets, or for nothing if no output
      flow wants the frame. */
  lemma SecondMeaning(t: Tree, flows: seq<Flow>, fr: Frame)
    requires AllSupported(flows) && IsolatingVids(t)
    ensures SomeOutputWants(t, flows, fr) ==>
              exists i :: Owned(t, i, fr) && SecondAtNni(t, flows, fr) == Send(Ok((OnuPort(i), WithVid(fr, 0))))
    ensures !SomeOutputWants(t, flows, fr) ==> SecondAtNni(t, flows, fr) == Nothing
  {
    ElectedWants(flows, iset f | OutputWants(t, f, fr));
    var chosen := OutputChosen(t, flows, fr);
    if chosen.Some? {
      var i := OutputFlowServesOwner(t, chosen.value, fr);
    }
  }

  /** What the ONUs deliver is what the second table asks for, if and only if some output flow wants
      the frame or nobody owns it: the default rules of an ONU serve its owner in any case. */
  lemma {:induction false} OutputMeaning(
    t: Tree, flows: seq<Flow>, fr: Frame, trace: Trace, packetIn: Frame)
    requires AllSupported(flows) && IsolatingVids(t) && Agrees(trace, Ok(Delivered(t, 0, fr)))
    ensures Fulfils(trace, SecondAtNni(t, flows, fr), packetIn) <==> SomeOutputWants(t, flows, fr) || Unowned(t, fr)
  {
    SecondMeaning(t, flows, fr);
    NobodyIsServed(t, fr);
    if SomeOutputWants(t, flows, fr) {
      var i :| Owned(t, i, fr) && SecondAtNni(t, flows, fr) == Send(Ok((OnuPort(i), WithVid(fr, 0))));
      OwnerIsServed(t, i, fr);
    }
  }

  /** The second table asks for what is delivered of another frame: both frames are the same, or no
      output flow wants the one and nobody owns the other. */
  lemma {:induction false} OtherFrameMeaning(
    t: Tree, flows: seq<Flow>, fr1: Frame, fr': Frame, trace: Trace, packetIn: Frame)
    requires AllSupported(flows) && IsolatingVids(t) && Agrees(trace, Ok(Delivered(t, 0, fr')))
    ensures Fulfils(trace, SecondAtNni(t, flows, fr1), packetIn) <==>
            if SomeOutputWants(t, flows, fr1) then fr1 == fr' else Unowned(t, fr')
  {
    SecondMeaning(t, flows, fr1);
    NobodyIsServed(t, fr');
    if SomeOutputWants(t, flows, fr1) {
      var i :| Owned(t, i, fr1) && SecondAtNni(t, flows, fr1) == Send(Ok((OnuPort(i), WithVid(fr1, 0))));
      if fr1 == fr' {
        OwnerIsServed(t, i, fr1);
      } else if j :| Owned(t, j, fr') {
        OwnerIsServed(t, j, fr');
        SameOwnerSameFrame(t, i, j, fr1, fr');
      }
    }
  }

  lemma SameOwnerSameFrame(t: Tree, i: nat, j: nat, a: Frame, b: Frame)
    requires Owned(t, i, a) && Owned(t, j, b)
    ensures OnuPort(i) == OnuPort(j) && WithVid(a, 0) == WithVid(b, 0) ==> a == b
  {
    if i == j && WithVid(a, 0) == WithVid(b, 0) {
      assert WithVid(a, 0).tags[0].(vid := Vid(t.onus[i])) == a.tags[0];
      assert WithVid(b, 0).tags[0].(vid := Vid(t.onus[i])) == b.tags[0];
      assert a.tags == WithVid(a, 0).tags[0 := a.tags[0]] && b.tags == WithVid(b, 0).tags[0 := b.tags[0]];
    }
  }

  /** No controller-bound flow that matches the frame at the NNI is elected there: there is none, or a
      goto flow outranks it. */
  ghost predicate NoPacketIn(t: Tree, flows: seq<Flow>, fr: Frame) {
    var c := Elect(flows, Controllers(t, t.nni, fr));
    c.Some? ==> !Leads(flows, c.value, OltTakers(t, Down, fr))
  }

  /** The exact condition downstream. No controller-bound flow is elected, because its rule is for
      frames from the PON only. Outside the in-band channel: some output flow wants what the goto
      flow makes, or nobody owns it. For a frame the in-band rule takes: the goto flow makes the
      frame below the tag too, if an output flow wants what it makes; otherwise nobody owns that
      frame. */
  ghost predicate DownstreamAsAsked(t: Tree, flows: seq<Flow>, fr: Frame) {
    && NoPacketIn(t, flows, fr)
    && match Chosen(t, Down, flows, fr)
       case None => InBandTag(fr) ==> Unowned(t, Pop(fr))
       case Some(g) =>
         match Rewrite(FlowActions(g), fr)
         case Raised => !InBandTaken(t, flows, fr)
         case Ok(fr1) =>
           if !InBandTaken(t, flows, fr) then SomeOutputWants(t, flows, fr1) || Unowned(t, fr1)
           else if SomeOutputWants(t, flows, fr1) then fr1 == Pop(fr)
           else Unowned(t, Pop(fr))
  }

  lemma GotoIsNotControllerBound(t: Tree, f: Flow, fr: Frame)
    requires Wants(t, Down, f, fr)
    ensures !ControllerBound(t, f)
  {}

  /** The first table at the NNI elects what the OLT elects, unless a controller-bound flow comes
      first. */
  lemma {:induction false} FirstAtNniIsChosen(t: Tree, flows: seq<Flow>, fr: Frame)
    ensures var first, takers := FirstAtNni(t, flows, fr), OltTakers(t, Down, fr);
            if NoPacketIn(t, flows, fr) then
              first == Chosen(t, Down, flows, fr) && (first.Some? ==> !ControllerBound(t, first.value))
            else first.Some? && ControllerBound(t, first.value)
  {
    var takers, controllers := OltTakers(t, Down, fr), Controllers(t, t.nni, fr);
    var first, c := FirstAtNni(t, flows, fr), Elect(flows, controllers);
    ElectedWants(flows, takers + controllers);
    ElectedWants(flows, takers);
    ElectedWants(flows, controllers);
    assert takers + controllers == controllers + takers;
    if c.Some? {
      ElectedOfTwoKinds(flows, controllers, takers, c.value);
    }
    if first.Some? && first.value in takers {
      ElectedOfTwoKinds(flows, takers, controllers, first.value);
      GotoIsNotControllerBound(t, first.value, fr);
    } else if first.Some? {
      ElectedOfTwoKinds(flows, controllers, takers, first.value);
    }
  }

  /** Nothing leaves where the controller would get it. */
  ghost predicate NothingAtNni(trace: Trace) {
    forall c :: c in trace.out ==> c.0 != OLT_PORT
  }

  lemma NothingAtNniMisses(trace: Trace, fr: Frame)
    requires NothingAtNni(trace)
    ensures !Agrees(trace, Ok([(OLT_PORT, fr)]))
  {
    assert (OLT_PORT, fr) in [(OLT_PORT, fr)];
  }

  /** Downstream meaning of any trace that is the simulator's result for a frame at the NNI. */
  lemma DownstreamResultMeaning(t: Tree, flows: seq<Flow>, fr: Frame, trace: Trace)
    requires AllSupported(flows) && IsolatingVids(t)
    requires Agrees(trace, DownstreamResult(t, flows, fr)) && NothingAtNni(trace)
    ensures Fulfils(trace, LogicalDownstream(t, flows, fr), InBand(fr)) <==> DownstreamAsAsked(t, flows, fr)
  {
    NothingAtNniMisses(trace, InBand(fr));
    FirstAtNniIsChosen(t, flows, fr);
    var chosen := Chosen(t, Down, flows, fr);
    NobodyIsServed(t, Pop(fr));
    if NoPacketIn(t, flows, fr) && chosen.Some? && Rewrite(FlowActions(chosen.value), fr).Ok? {
      var fr1 := Rewrite(FlowActions(chosen.value), fr).value;
      if InBandTaken(t, flows, fr) {
        OtherFrameMeaning(t, flows, fr1, Pop(fr), trace, InBand(fr));
      } else {
        OutputMeaning(t, flows, fr1, trace, InBand(fr));
      }
    }
  }

  /** Downstream meaning, and its exact limit, for any table of unicast and controller-bound flows
      and any frame at the NNI. */
  lemma DownstreamMeaning(r: Routes, t: Tree, flows: seq<Flow>, fr: Frame, depth: nat)
    requires Serves(r, t) && PonSimPorts(t) && UnicastTable(t, flows) && depth >= 2 && IsolatingVids(t)
    ensures Fulfils(Inject(InstalledNet(t, Tables(r, t, flows)), 0, fr, depth),
                    LogicalDownstream(t, flows, fr), InBand(fr))
            <==> DownstreamAsAsked(t, flows, fr)
  {
    DownstreamExact(r, t, flows, fr, depth);
    UnicastIsSupported(t, flows);
    UnicastTableDecomposes(r, t, flows, map[]);
    DecomposedTablesCross(r, t, flows, [], 0, fr, depth);
    DownstreamResultMeaning(t, flows, fr, Inject(InstalledNet(t, Tables(r, t, flows)), 0, fr, depth));
  }

  /** A downstream pair on whole tables: when the elected goto flow makes fr1 of the frame and an
      output flow of some UNI matches fr1, exactly that UNI emits the pair's result. */
  lemma {:induction false} DownstreamPair(r: Routes, t: Tree, i: nat, flows: seq<Flow>, f2: Flow, fr: Frame, depth: nat)
    requires Serves(r, t) && PonSimPorts(t) && UnicastTable(t, flows) && depth >= 2 && IsolatingVids(t) && i < |t.onus|
    requires Chosen(t, Down, flows, fr).Some? && !InBandTaken(t, flows, fr)
    requires f2 in flows && DownstreamOutput(t, i, f2)
    requires var fr1 := Rewrite(FlowActions(Chosen(t, Down, flows, fr).value), fr);
             fr1.Ok? && IsMatch(f2.fields, t.nni, fr1.value) == Yes
    ensures var fr1 := Rewrite(FlowActions(Chosen(t, Down, flows, fr).value), fr).value;
            && Rewrite(FlowActions(f2), fr1).Ok?
            && Inject(InstalledNet(t, Tables(r, t, flows)), 0, fr, depth).out ==
               [(OnuPort(i), Rewrite(FlowActions(f2), fr1).value)]
  {
    var fr1 := Rewrite(FlowActions(Chosen(t, Down, flows, fr).value), fr).value;
    PairIsDelivered(t, i, f2, fr1);
    DownstreamExact(r, t, flows, fr, depth);
  }

  lemma {:induction false} PairIsDelivered(t: Tree, i: nat, f: Flow, fr: Frame)
    requires IsolatingVids(t) && ValidTree(t) && i < |t.onus| && DownstreamOutput(t, i, f)
    requires IsMatch(f.fields, t.nni, fr) == Yes && forall x :: x in f.fields ==> Supported(x)
    ensures Rewrite(FlowActions(f), fr).Ok? && Delivered(t, 0, fr) == [(OnuPort(i), Rewrite(FlowActions(f), fr).value)]
  {
    assert OutputWants(t, f, fr);
    var j := OutputFlowServesOwner(t, f, fr);
    OwnerIsServed(t, i, fr);
  }
}
