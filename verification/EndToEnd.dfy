/** From OpenFlow messages to frames: after any run of messages the simulator, with the device tables
    the agent stored, forwards as the logical tables say, if these can be decomposed, and otherwise
    as the last ones that could be. */
module EndToEnd {
  import opened Wrappers
  import opened OpenFlow
  import opened PonMachine
  import opened RuleSelection
  import opened Topology
  import opened FlowDecomposer
  import opened LoopFreedom
  import opened UnicastMeaning
  import opened UnicastForwarding
  import opened DownstreamForwarding
  import opened Multicast
  import opened LogicalSwitch
  import opened LogicalMulticast
  import opened MixedTables
  import opened LogicalMixed
  import opened LogicalDevice

  /** The agent's cached tables describe the tree. */
  ghost predicate Manages(cfg: Config, t: Tree) {
    Serves(cfg.routes, t) && cfg.defaults == TreeDefaults(t) && PonSimPorts(t)
  }

  /** The logical tables can be decomposed if and only if every flow has its route. */
  lemma DecomposesWhenAllRoutable(cfg: Config, t: Tree, c: Content)
    requires Manages(cfg, t)
    ensures Decompose(cfg, c).Ok? <==> forall f :: f in c.flows ==> Routable(t, f, GroupMap(c.groups))
  {
    DecomposesFlowByFlow(cfg, c);
    forall f | f in c.flows
      ensures DecomposeFlow(cfg.routes, f, GroupMap(c.groups)).Ok? <==> Routable(t, f, GroupMap(c.groups))
    {
      DecomposesWhenRoutable(cfg.routes, t, f, GroupMap(c.groups));
    }
  }

  /** Device tables follow the logical tables over every run, and agree with them if and only if
      every flow has its route; one flow without a route keeps all others from the devices. */
  lemma {:induction false} RunSyncsWhenRoutable(cfg: Config, t: Tree, start: State, msgs: seq<Message>)
    requires Manages(cfg, t) && (Synced(cfg, start) || Trail(start.content, msgs) != [])
    ensures var c := RunTables(start.content, msgs);
            && Run(cfg, start, msgs).content == c
            && (Synced(cfg, Run(cfg, start, msgs)) <==> forall f :: f in c.flows ==> Routable(t, f, GroupMap(c.groups)))
  {
    RunStays(cfg, start, msgs);
    RunFollows(cfg, start, msgs);
    DecomposesWhenAllRoutable(cfg, t, RunTables(start.content, msgs));
  }

  /** Stored tables and freshly decomposed ones make the same simulator. */
  lemma StoredNet(cfg: Config, t: Tree, c: Content, stored: DeviceRules)
    requires Manages(cfg, t) && Decompose(cfg, c).Ok? && Stores(stored, Decompose(cfg, c).value)
    ensures InstalledNet(t, stored) == InstalledNet(t, Decompose(cfg, c).value)
  {
    var tables := Decompose(cfg, c).value;
    DefaultsOfTree(t, 0);
    TableIsDefaultsThenFlows(cfg.routes, cfg.defaults, c.flows, GroupMap(c.groups), t.oltId);
    assert Lookup(stored, t.oltId) == Lookup(tables, t.oltId);
    forall i | 0 <= i < |t.onus| ensures Lookup(stored, t.onus[i].id) == Lookup(tables, t.onus[i].id) {
      DefaultsOfTree(t, i);
      TableIsDefaultsThenFlows(cfg.routes, cfg.defaults, c.flows, GroupMap(c.groups), t.onus[i].id);
    }
    var a := seq(|t.onus|, i requires 0 <= i < |t.onus| => Lookup(stored, t.onus[i].id));
    var b := seq(|t.onus|, i requires 0 <= i < |t.onus| => Lookup(tables, t.onus[i].id));
    assert a == b;
  }

  lemma {:induction false} LastGoodIsDecomposed(cfg: Config, trail: seq<Content>) returns (c: Content)
    requires LastGood(cfg, trail).Some?
    ensures c in trail && Decompose(cfg, c) == Ok(LastGood(cfg, trail).value)
  {
    var n := |trail| - 1;
    if Decompose(cfg, trail[n]).Ok? {
      c := trail[n];
    } else {
      c := LastGoodIsDecomposed(cfg, trail[..n]);
    }
  }

  lemma {:induction false} UnicastIgnoresGroups(r: Routes, t: Tree, flows: seq<Flow>, groups: map<nat, GroupEntry>)
    requires Serves(r, t) && UnicastTable(t, flows)
    ensures DecomposeAll(r, TreeDefaults(t), flows, groups) == DecomposeAll(r, TreeDefaults(t), flows, map[])
  {
    if flows != [] {
      var n := |flows| - 1;
      assert flows[n] in flows;
      UnicastIgnoresGroups(r, t, flows[..n], groups);
      OneIgnoresGroups(r, t, flows[n], groups);
    }
  }

  lemma OneIgnoresGroups(r: Routes, t: Tree, f: Flow, groups: map<nat, GroupEntry>)
    requires Serves(r, t) && UnicastFlow(t, f)
    ensures DecomposeFlow(r, f, groups) == DecomposeFlow(r, f, map[])
  {
    if ControllerBound(t, f) {
      DecomposeControllerBound(r, t, f, groups);
      DecomposeControllerBound(r, t, f, map[]);
    } else if DownstreamGoto(t, f) {
      DecomposeDownstreamGoto(r, t, f, groups);
      DecomposeDownstreamGoto(r, t, f, map[]);
    } else if i :| 0 <= i < |t.onus| && UpstreamGoto(t, i, f) {
      DecomposeUpstreamGoto(r, t, i, f, groups);
      DecomposeUpstreamGoto(r, t, i, f, map[]);
    } else if i :| 0 <= i < |t.onus| && UpstreamOutput(t, i, f) {
      DecomposeUpstreamOutput(r, t, i, f, groups);
      DecomposeUpstreamOutput(r, t, i, f, map[]);
    } else {
      var i :| 0 <= i < |t.onus| && DownstreamOutput(t, i, f);
      DecomposeDownstreamOutput(r, t, i, f, groups);
      DecomposeDownstreamOutput(r, t, i, f, map[]);
    }
  }

  /** Whatever messages were sent, and even if the current tables cannot be decomposed: no frame
      loops among the devices, and none leaves on the side where it came in. */
  lemma {:induction false} RunNeverLoops(
    cfg: Config, t: Tree, start: State, msgs: seq<Message>, d: nat, fr: Frame, depth: nat)
    requires Manages(cfg, t) && d <= |t.onus| && depth >= 2
    requires Synced(cfg, start) || LastGood(cfg, Trail(start.content, msgs)).Some?
    ensures var net := InstalledNet(t, Run(cfg, start, msgs).deviceFlows);
            && Inject(net, d, fr, depth) == Inject(net, d, fr, 2) && Inject(net, d, fr, depth).status != TooDeep
            && LeavesOpposite(Inject(net, d, fr, depth).out, d, |t.onus|)
  {
    RunFollows(cfg, start, msgs);
    var c := start.content;
    if LastGood(cfg, Trail(start.content, msgs)).Some? {
      c := LastGoodIsDecomposed(cfg, Trail(start.content, msgs));
    }
    StoredNet(cfg, t, c, Run(cfg, start, msgs).deviceFlows);
    DecomposedTablesNeverLoop(cfg.routes, t, c.flows, c.groups, d, fr, depth);
    DecomposedTablesCross(cfg.routes, t, c.flows, c.groups, d, fr, depth);
  }

  /** The run has begun to matter to the devices. */
  ghost predicate Settled(cfg: Config, start: State, msgs: seq<Message>) {
    Synced(cfg, start) || Trail(start.content, msgs) != []
  }

  /** If the run ends with tables that can be decomposed, the simulator has their decomposition. */
  lemma {:induction false} RunInstalls(cfg: Config, t: Tree, start: State, msgs: seq<Message>)
    requires Manages(cfg, t) && Settled(cfg, start, msgs) && Decompose(cfg, RunTables(start.content, msgs)).Ok?
    ensures InstalledNet(t, Run(cfg, start, msgs).deviceFlows) ==
            InstalledNet(t, Decompose(cfg, RunTables(start.content, msgs)).value)
  {
    RunStays(cfg, start, msgs);
    RunFollows(cfg, start, msgs);
    StoredNet(cfg, t, RunTables(start.content, msgs), Run(cfg, start, msgs).deviceFlows);
  }

  /** After any run that ends with unicast and controller-bound flows the simulator is that of their
      tables. */
  lemma {:induction false} RunInstallsUnicast(cfg: Config, t: Tree, start: State, msgs: seq<Message>)
    requires Manages(cfg, t) && Settled(cfg, start, msgs) && UnicastTable(t, RunTables(start.content, msgs).flows)
    ensures InstalledNet(t, Run(cfg, start, msgs).deviceFlows) ==
            InstalledNet(t, Tables(cfg.routes, t, RunTables(start.content, msgs).flows))
  {
    var c := RunTables(start.content, msgs);
    UnicastTableDecomposes(cfg.routes, t, c.flows, GroupMap(c.groups));
    RunInstalls(cfg, t, start, msgs);
    UnicastIgnoresGroups(cfg.routes, t, c.flows, GroupMap(c.groups));
  }

  /** The same with multicast flows among them, or nothing else. */
  lemma {:induction false} RunInstallsMixed(cfg: Config, t: Tree, start: State, msgs: seq<Message>)
    requires Manages(cfg, t) && Settled(cfg, start, msgs)
    requires var c := RunTables(start.content, msgs); MixedTable(t, GroupMap(c.groups), c.flows)
    ensures var c := RunTables(start.content, msgs);
            InstalledNet(t, Run(cfg, start, msgs).deviceFlows) ==
            InstalledNet(t, MulticastTables(cfg.routes, t, c.flows, c.groups))
  {
    var c := RunTables(start.content, msgs);
    MixedDecomposes(cfg.routes, t, c.flows, GroupMap(c.groups));
    RunInstalls(cfg, t, start, msgs);
  }

  /** After any run that ends with unicast and controller-bound flows, for every frame at every outside
      port: the simulator does what the logical tables ask, if and only if the conditions of the
      upstream and downstream meanings hold of those tables. */
  lemma {:induction false} RunMeansUnicast(
    cfg: Config, t: Tree, start: State, msgs: seq<Message>, i: nat, fr: Frame, depth: nat)
    requires Manages(cfg, t) && Settled(cfg, start, msgs) && depth >= 2 && IsolatingVids(t) && i < |t.onus|
    requires UnicastTable(t, RunTables(start.content, msgs).flows)
    ensures var net, flows := InstalledNet(t, Run(cfg, start, msgs).deviceFlows), RunTables(start.content, msgs).flows;
            && (Fulfils(Inject(net, i + 1, fr, depth), LogicalUpstream(t, i, flows, fr), PacketIn(t, i, fr)) <==>
                UpstreamAsAsked(t, i, flows, fr))
            && (Fulfils(Inject(net, 0, fr, depth), LogicalDownstream(t, flows, fr), InBand(fr)) <==>
                DownstreamAsAsked(t, flows, fr))
  {
    RunInstallsUnicast(cfg, t, start, msgs);
    UpstreamMeaning(cfg.routes, t, i, RunTables(start.content, msgs).flows, fr, depth);
    DownstreamMeaning(cfg.routes, t, RunTables(start.content, msgs).flows, fr, depth);
  }

  /** After any run that ends with multicast flows, for every single-tagged frame at the NNI: exactly
      the buckets of the elected flow get their copies, if and only if the frame is undisturbed. */
  lemma {:induction false} RunMeansMulticast(
    cfg: Config, t: Tree, start: State, msgs: seq<Message>, fr: Frame, depth: nat)
    requires Manages(cfg, t) && Settled(cfg, start, msgs) && depth >= 2 && |fr.tags| == 1 && |t.onus| > 0
    requires var c := RunTables(start.content, msgs); MulticastTable(t, GroupMap(c.groups), c.flows)
    ensures var net, c := InstalledNet(t, Run(cfg, start, msgs).deviceFlows), RunTables(start.content, msgs);
            Delivers(Inject(net, 0, fr, depth), LogicalCopies(t, GroupMap(c.groups), c.flows, fr)) <==>
            Undisturbed(t, GroupMap(c.groups), c.flows, fr)
  {
    var c := RunTables(start.content, msgs);
    RunInstallsMixed(cfg, t, start, msgs);
    MulticastMeaning(cfg.routes, t, c.flows, c.groups, fr, depth);
  }

  /** After any run that ends with all kinds of flows together, for every frame at every outside port:
      the simulator does what the logical tables ask, if and only if the conditions of the mixed
      meanings hold of those tables. */
  lemma {:induction false} RunMeansMixed(
    cfg: Config, t: Tree, start: State, msgs: seq<Message>, i: nat, fr: Frame, depth: nat)
    requires Manages(cfg, t) && Settled(cfg, start, msgs) && depth >= 2 && IsolatingVids(t) && i < |t.onus|
    requires var c := RunTables(start.content, msgs); MixedTable(t, GroupMap(c.groups), c.flows)
    ensures var net, c := InstalledNet(t, Run(cfg, start, msgs).deviceFlows), RunTables(start.content, msgs);
            && (Fulfils(Inject(net, i + 1, fr, depth), LogicalUpstream(t, i, c.flows, fr), PacketIn(t, i, fr)) <==>
                UpstreamAsAsked(t, i, c.flows, fr))
            && (Grants(Inject(net, 0, fr, depth), LogicalAll(t, GroupMap(c.groups), c.flows, fr)) <==>
                MixedAsAsked(t, GroupMap(c.groups), c.flows, fr))
  {
    var c := RunTables(start.content, msgs);
    RunInstallsMixed(cfg, t, start, msgs);
    MixedUpstreamMeaning(cfg.routes, t, i, c.flows, c.groups, fr, depth);
    MixedDownstreamMeaning(cfg.routes, t, c.flows, c.groups, fr, depth);
  }
}
