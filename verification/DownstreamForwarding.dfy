/** Frames from the network: the OLT's choice, the broadcast of one shared frame object to all
    ONUs, isolation between subscribers, and the controller channel's round trip. */
module DownstreamForwarding {
  import opened Wrappers
  import opened OpenFlow
  import opened PonMachine
  import opened RuleSelection
  import opened Topology
  import opened FlowDecomposer
  import opened LoopFreedom
  import opened UnicastMeaning
  import opened UnicastForwarding

  /** What the ONUs from the k-th on emit when they are handed one object in turn: the owner of
      its VLAN emits it with VLAN 0, and hands the changed object on. */
  function Delivered(t: Tree, k: nat, fr: Frame): seq<(nat, Frame)>
    requires k <= |t.onus|
    decreases |t.onus| - k
  {
    if k == |t.onus| then []
    else if Owns(t.onus[k], fr) then [(OnuPort(k), WithVid(fr, 0))] + Delivered(t, k + 1, WithVid(fr, 0))
    else Delivered(t, k + 1, fr)
  }

  /** What ONU k does with a frame from the PON: how it leaves the object it was handed. */
  function OnuReaction(t: Tree, k: nat, fr: Frame): Trace
    requires k < |t.onus|
  {
    if Owns(t.onus[k], fr) then Trace([(OnuPort(k), WithVid(fr, 0))], WithVid(fr, 0), Done) else Trace([], fr, Done)
  }

  ghost predicate OnuReactsAt(net: Net, t: Tree, k: nat, depth: nat)
    requires |net| == |t.onus| + 1 && WiredWithin(net) && k < |t.onus|
  {
    forall fr :: HandOne(net, ToDevice(k + 1, PON), fr, depth) == OnuReaction(t, k, fr)
  }

  ghost predicate OnusReact(net: Net, t: Tree, depth: nat) {
    && |net| == |t.onus| + 1 && WiredWithin(net)
    && forall k :: 0 <= k < |t.onus| ==> OnuReactsAt(net, t, k, depth)
  }

  lemma OnuFromPon(r: Routes, t: Tree, k: nat, flows: seq<Flow>, fr: Frame, depth: nat)
    requires Serves(r, t) && PonSimPorts(t) && UnicastTable(t, flows) && k < |t.onus| && depth >= 1
    ensures Ingress(InstalledNet(t, Tables(r, t, flows)), k + 1, PON, fr, depth) == OnuReaction(t, k, fr)
  {
    var net := InstalledNet(t, Tables(r, t, flows));
    Wiring(t, Tables(r, t, flows), k);
    OnuBehaviour(r, t, k, flows, PON, fr);
    IngressStops(net, k + 1, PON, fr, depth);
    if Owns(t.onus[k], fr) {
      IngressToUser(net, k + 1, PON, fr, depth, ProcessFrame(net[k + 1].flows, PON, fr).value, OnuPort(k));
    }
  }

  lemma AllOnusReact(r: Routes, t: Tree, flows: seq<Flow>, depth: nat)
    requires Serves(r, t) && PonSimPorts(t) && UnicastTable(t, flows) && depth >= 1
    ensures OnusReact(InstalledNet(t, Tables(r, t, flows)), t, depth)
  {
    var net := InstalledNet(t, Tables(r, t, flows));
    forall k | 0 <= k < |t.onus| ensures OnuReactsAt(net, t, k, depth) {
      forall fr ensures HandOne(net, ToDevice(k + 1, PON), fr, depth) == OnuReaction(t, k, fr) {
        OnuFromPon(r, t, k, flows, fr, depth);
      }
    }
  }

  lemma {:induction false} BroadcastDelivers(net: Net, t: Tree, k: nat, links: seq<Link>, fr: Frame, depth: nat)
    requires OnusReact(net, t, depth)
    requires k + |links| == |t.onus| && forall j :: 0 <= j < |links| ==> links[j] == ToDevice(k + j + 1, PON)
    ensures forall l :: l in links ==> LinkWithin(l, |net|)
    ensures Hand(net, links, fr, depth).status == Done && Hand(net, links, fr, depth).out == Delivered(t, k, fr)
    decreases |links|
  {
    if links != [] {
      assert links[0] == ToDevice(k + 1, PON) && links[0..] == links;
      assert OnuReactsAt(net, t, k, depth);
      var next := OnuReaction(t, k, fr).fr;
      BroadcastDelivers(net, t, k + 1, links[1..], next, depth);
      HandStep(net, links, 0, fr, depth);
    }
  }

  /** The OLT's reaction to a frame from the network: none, or the frame put on the PON. The
      in-band rule has priority 2000 and wins ties because it is installed first. */
  ghost function DownEffect(t: Tree, flows: seq<Flow>, fr: Frame): Option<Result<Frame>> {
    var chosen := Chosen(t, Down, flows, fr);
    if Tagged(fr) && fr.tags[0].vid == 4000 && fr.tags[0].pcp == 0 && (chosen.None? || chosen.value.priority <= 2000)
    then Some(Ok(Pop(fr)))
    else if chosen.Some? then Some(Rewrite(FlowActions(chosen.value), fr))
    else None
  }

  ghost function DownstreamResult(t: Tree, flows: seq<Flow>, fr: Frame): Result<seq<(nat, Frame)>> {
    BroadcastResult(t, DownEffect(t, flows, fr))
  }

  function BroadcastResult(t: Tree, effect: Option<Result<Frame>>): Result<seq<(nat, Frame)>> {
    match effect
    case None => Ok([])
    case Some(Raised) => Raised
    case Some(Ok(fr')) => Ok(Delivered(t, 0, fr'))
  }

  lemma RootDefaultRuns(t: Tree, fr: Frame)
    requires PonSimPorts(t) && Tagged(fr)
    ensures RunFlow(RootDefaults(t)[0], fr) == Ok(Forward(Some(PON), Pop(fr), false, fr))
  {
    assert [PopVlan] + [Output(PON)] == [PopVlan, Output(PON)];
    RunRule(2000, 0, [InPort(EDGE), VlanVid(Present(4000)), VlanPcp(0)], [PopVlan], PON, fr);
    assert [PopVlan][1..] == [];
    var s := Rebind(Start(fr), Pop(fr));
    assert RunActions([], s) == Ok(s);
  }

  lemma {:induction false} OltDownBehaviour(r: Routes, t: Tree, flows: seq<Flow>, fr: Frame)
    requires Serves(r, t) && PonSimPorts(t) && UnicastTable(t, flows)
    ensures Emits(ProcessFrame(SortedByPriority(Lookup(Tables(r, t, flows), t.oltId)), EDGE, fr), PON,
                  DownEffect(t, flows, fr))
  {
    OltBehaviour(r, t, Down, flows, fr);
    RootDefaultMatch(t, EDGE, fr);
    var chosen := Chosen(t, Down, flows, fr);
    if Hits(RootDefaults(t)[0], EDGE, fr) && (chosen.None? || chosen.value.priority <= 2000) {
      RootDefaultRuns(t, fr);
    } else if chosen.Some? {
      GotoRuleRuns(chosen.value, OltDown(t), fr);
    }
  }

  lemma PonLinks(t: Tree, tables: DeviceRules)
    ensures var links := LinksOf(InstalledNet(t, tables), 0, Some(PON));
            |links| == |t.onus| && forall j :: 0 <= j < |links| ==> links[j] == ToDevice(j + 1, PON)
  {}

  lemma {:induction false} IngressHands(net: Net, d: nat, port: nat, fr: Frame, depth: nat, o: Outcome)
    requires WiredWithin(net) && d < |net| && depth >= 1
    requires ProcessFrame(net[d].flows, port, fr) == Ok(o) && o.Forward?
    ensures Ingress(net, d, port, fr, depth).out == Hand(net, LinksOf(net, d, o.egress), o.fr, depth - 1).out
    ensures Ingress(net, d, port, fr, depth).status == Hand(net, LinksOf(net, d, o.egress), o.fr, depth - 1).status
  {}

  lemma {:induction false} OltBroadcasts(net: Net, t: Tree, fr: Frame, fr': Frame, depth: nat)
    requires depth >= 2 && OnusReact(net, t, depth - 1)
    requires Emits(ProcessFrame(net[0].flows, EDGE, fr), PON, Some(Ok(fr')))
    requires |LinksOf(net, 0, Some(PON))| == |t.onus|
    requires forall j :: 0 <= j < |t.onus| ==> LinksOf(net, 0, Some(PON))[j] == ToDevice(j + 1, PON)
    ensures Inject(net, 0, fr, depth).status == Done && Inject(net, 0, fr, depth).out == Delivered(t, 0, fr')
  {
    IngressHands(net, 0, EDGE, fr, depth, ProcessFrame(net[0].flows, EDGE, fr).value);
    BroadcastDelivers(net, t, 0, LinksOf(net, 0, Some(PON)), fr', depth - 1);
  }

  lemma {:induction false} InstalledBroadcasts(
    t: Tree, tables: DeviceRules, net: Net, fr: Frame, fr': Frame, depth: nat)
    requires net == InstalledNet(t, tables) && depth >= 2 && OnusReact(net, t, depth - 1)
    requires Emits(ProcessFrame(SortedByPriority(Lookup(tables, t.oltId)), EDGE, fr), PON, Some(Ok(fr')))
    ensures Inject(net, 0, fr, depth).status == Done && Inject(net, 0, fr, depth).out == Delivered(t, 0, fr')
  {
    Wiring(t, tables, 0);
    PonLinks(t, tables);
    OltBroadcasts(net, t, fr, fr', depth);
  }

  /** The OLT drops the frame or raises. */
  lemma {:induction false} OltEndsIt(t: Tree, tables: DeviceRules, fr: Frame, effect: Option<Result<Frame>>, depth: nat)
    requires depth >= 1 && (effect.Some? ==> effect.value.Raised?)
    requires Emits(ProcessFrame(SortedByPriority(Lookup(tables, t.oltId)), EDGE, fr), PON, effect)
    ensures Inject(InstalledNet(t, tables), 0, fr, depth).out == []
    ensures Inject(InstalledNet(t, tables), 0, fr, depth).status == if effect.None? then Done else Failed
  {
    Wiring(t, tables, 0);
    IngressStops(InstalledNet(t, tables), 0, EDGE, fr, depth);
  }

  lemma {:induction false} DownstreamBroadcast(
    r: Routes, t: Tree, flows: seq<Flow>, tables: DeviceRules, net: Net, fr: Frame, fr': Frame, depth: nat)
    requires Serves(r, t) && PonSimPorts(t) && UnicastTable(t, flows) && depth >= 2
    requires tables == Tables(r, t, flows) && net == InstalledNet(t, tables)
    requires Emits(ProcessFrame(SortedByPriority(Lookup(tables, t.oltId)), EDGE, fr), PON, Some(Ok(fr')))
    ensures Inject(net, 0, fr, depth).status == Done && Inject(net, 0, fr, depth).out == Delivered(t, 0, fr')
  {
    AllOnusReact(r, t, flows, depth - 1);
    InstalledBroadcasts(t, tables, net, fr, fr', depth);
  }

  /** Downstream, over whole tables: every frame at the NNI is dropped, or rewritten by the elected
      logical flow (or by the in-band rule) and delivered along the shared object. */
  lemma DownstreamExact(r: Routes, t: Tree, flows: seq<Flow>, fr: Frame, depth: nat)
    requires Serves(r, t) && PonSimPorts(t) && UnicastTable(t, flows) && depth >= 2
    ensures Agrees(Inject(InstalledNet(t, Tables(r, t, flows)), 0, fr, depth), DownstreamResult(t, flows, fr))
  {
    OltDownBehaviour(r, t, flows, fr);
    match DownEffect(t, flows, fr)
    case Some(Ok(fr')) =>
      var tables := Tables(r, t, flows);
      DownstreamBroadcast(r, t, flows, tables, InstalledNet(t, tables), fr, fr', depth);
    case effect => OltEndsIt(t, Tables(r, t, flows), fr, effect, depth);
  }

  // ----- isolation -----

  /** ONU i is the first whose VLAN the frame carries. */
  ghost predicate FirstOwner(t: Tree, k: nat, i: nat, fr: Frame) {
    k <= i < |t.onus| && Owns(t.onus[i], fr) && forall j :: k <= j < i ==> !Owns(t.onus[j], fr)
  }

  lemma {:induction false} DeliveredNothing(t: Tree, k: nat, fr: Frame)
    requires k <= |t.onus|
    ensures Delivered(t, k, fr) == [] <==> forall j :: k <= j < |t.onus| ==> !Owns(t.onus[j], fr)
    decreases |t.onus| - k
  {
    if k < |t.onus| && !Owns(t.onus[k], fr) {
      DeliveredNothing(t, k + 1, fr);
    }
  }

  /** Exactly when the shared object reaches one subscriber only: its UNI is the first owner's,
      and no later ONU has VLAN 0, which is what the owner leaves in the object. Later ONUs with
      the same VLAN do no harm, because the object has changed when they see it. */
  lemma {:induction false} DeliveredToOne(t: Tree, k: nat, i: nat, fr: Frame)
    requires k <= i < |t.onus| && Tagged(fr)
    ensures Delivered(t, k, fr) == [(OnuPort(i), WithVid(fr, 0))] <==>
            FirstOwner(t, k, i, fr) && forall j :: i < j < |t.onus| ==> Vid(t.onus[j]) != 0
    decreases |t.onus| - k
  {
    if Owns(t.onus[k], fr) {
      DeliveredNothing(t, k + 1, WithVid(fr, 0));
      assert Delivered(t, k, fr)[0] == (OnuPort(k), WithVid(fr, 0));
      if i == k {
        assert FirstOwner(t, k, i, fr);
        assert Delivered(t, k, fr)[1..] == Delivered(t, k + 1, WithVid(fr, 0));
        assert forall j :: k < j < |t.onus| ==> (Owns(t.onus[j], WithVid(fr, 0)) <==> Vid(t.onus[j]) == 0);
      }
    } else if i == k {
      DeliveredElsewhere(t, k + 1, fr);
    } else {
      DeliveredToOne(t, k + 1, i, fr);
      assert FirstOwner(t, k, i, fr) <==> FirstOwner(t, k + 1, i, fr);
    }
  }

  lemma {:induction false} DeliveredElsewhere(t: Tree, k: nat, fr: Frame)
    requires k <= |t.onus|
    ensures forall o :: o in Delivered(t, k, fr) ==> o.0 >= OnuPort(k)
    decreases |t.onus| - k
  {
    if k < |t.onus| {
      DeliveredElsewhere(t, k + 1, if Owns(t.onus[k], fr) then WithVid(fr, 0) else fr);
    }
  }

  /** The same of the simulator: what the OLT puts on the PON leaves at one UNI only, the one of ONU
      i, if and only if ONU i is the first owner and no later ONU has VLAN 0. */
  lemma IsolationCondition(r: Routes, t: Tree, i: nat, flows: seq<Flow>, fr: Frame, fr': Frame, depth: nat)
    requires Serves(r, t) && PonSimPorts(t) && UnicastTable(t, flows) && depth >= 2 && i < |t.onus|
    requires DownEffect(t, flows, fr) == Some(Ok(fr')) && Tagged(fr')
    ensures Inject(InstalledNet(t, Tables(r, t, flows)), 0, fr, depth).out == [(OnuPort(i), WithVid(fr', 0))] <==>
            FirstOwner(t, 0, i, fr') && forall j :: i < j < |t.onus| ==> Vid(t.onus[j]) != 0
  {
    DownstreamExact(r, t, flows, fr, depth);
    DeliveredToOne(t, 0, i, fr');
  }

  ghost predicate IsolatingVids(t: Tree) {
    DistinctVids(t) && forall i :: 0 <= i < |t.onus| ==> Vid(t.onus[i]) != 0
  }

  /** Downstream isolation: with distinct non-zero VLANs, whatever the flow table puts on the PON
      comes out at the UNI of the owner of its outer tag, as VLAN 0, and nowhere else. */
  lemma DownstreamIsolation(r: Routes, t: Tree, flows: seq<Flow>, fr: Frame, depth: nat)
    requires Serves(r, t) && PonSimPorts(t) && UnicastTable(t, flows) && depth >= 2 && IsolatingVids(t)
    ensures var trace := Inject(InstalledNet(t, Tables(r, t, flows)), 0, fr, depth);
            match DownEffect(t, flows, fr)
            case Some(Ok(fr')) =>
              && (forall i :: 0 <= i < |t.onus| && Owns(t.onus[i], fr') ==>
                  trace.out == [(OnuPort(i), WithVid(fr', 0))])
              && ((forall i :: 0 <= i < |t.onus| ==> !Owns(t.onus[i], fr')) ==> trace.out == [])
            case _ => trace.out == []
  {
    DownstreamExact(r, t, flows, fr, depth);
    var effect := DownEffect(t, flows, fr);
    if effect.Some? && effect.value.Ok? {
      var fr' := effect.value.value;
      DeliveredNothing(t, 0, fr');
      forall i | 0 <= i < |t.onus| && Owns(t.onus[i], fr')
        ensures Delivered(t, 0, fr') == [(OnuPort(i), WithVid(fr', 0))]
      {
        DeliveredToOne(t, 0, i, fr');
      }
    }
  }

  // ----- the controller channel -----

  /** A frame with VLAN 0 comes back as it was; an untagged one comes back with VLAN 0. */
  function Returned(fr: Frame): Frame {
    if Tagged(fr) then fr else WithVid(Push(fr, 0x8100), 0)
  }

  /** Round trip: a frame that a controller-bound flow takes from a subscriber, sent back in at
      the NNI as it came out, leaves at that subscriber's UNI and at no other. */
  lemma {:induction false} ControllerRoundTrip(r: Routes, t: Tree, i: nat, flows: seq<Flow>, fr: Frame, depth: nat)
    requires Serves(r, t) && PonSimPorts(t) && UnicastTable(t, flows) && depth >= 2 && IsolatingVids(t) && i < |t.onus|
    requires TagFor(t.onus[i], fr).Some?
    requires Chosen(t, Up(i), flows, TagFor(t.onus[i], fr).value).Some?
    requires ControllerBound(t, Chosen(t, Up(i), flows, TagFor(t.onus[i], fr).value).value)
    requires forall f :: f in flows && f.priority > 2000 ==> !Wants(t, Down, f, InBand(TagFor(t.onus[i], fr).value))
    ensures var net := InstalledNet(t, Tables(r, t, flows));
            var taken := Inject(net, i + 1, fr, depth);
            && taken.out == [(OLT_PORT, InBand(TagFor(t.onus[i], fr).value))]
            && Inject(net, 0, taken.out[0].1, depth).out == [(OnuPort(i), Returned(fr))]
  {
    var tagged := TagFor(t.onus[i], fr).value;
    UpstreamExact(r, t, i, flows, fr, depth);
    var sent := InBand(tagged);
    ChosenWithin(t, flows, sent);
    assert Pop(sent) == tagged;
    assert DownEffect(t, flows, sent) == Some(Ok(tagged));
    DownstreamIsolation(r, t, flows, sent, depth);
    TagComesOff(t.onus[i], fr);
  }

  lemma TagComesOff(o: Onu, fr: Frame)
    requires TagFor(o, fr).Some?
    ensures Owns(o, TagFor(o, fr).value) && WithVid(TagFor(o, fr).value, 0) == Returned(fr)
  {
    assert Tagged(fr) ==> fr.tags == [fr.tags[0]] + fr.tags[1..];
  }

  lemma {:induction false} ChosenWithin(t: Tree, flows: seq<Flow>, fr: Frame)
    requires forall f :: f in flows && f.priority > 2000 ==> !Wants(t, Down, f, fr)
    ensures Chosen(t, Down, flows, fr).Some? ==> Chosen(t, Down, flows, fr).value.priority <= 2000
  {
    if flows != [] {
      ChosenWithin(t, flows[..|flows| - 1], fr);
    }
  }
}
