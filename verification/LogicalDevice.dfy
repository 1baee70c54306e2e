/** The logical device's flow and group tables (voltha/core/logical_device_agent.py): flow-mod and
    group-mod messages edit them, and every edit decomposes everything into the device tables. See
    sections 6.4 and 6.5 of the OpenFlow 1.3.0 specification. */
module LogicalDevice {
  import opened Wrappers
  import opened OpenFlow
  import opened Topology
  import opened RuleSelection
  import opened FlowDecomposer

  const ALL_TABLES: nat := 0xff
  const ANY_PORT: nat := 0x7fff_ffff
  const ANY_GROUP: nat := 0x7fff_ffff
  const ALL_GROUPS: nat := 0x7fff_fffc

  datatype FlowCommand = AddFlow | DeleteFlow | DeleteFlowStrict | ModifyFlow | ModifyFlowStrict | UnknownFlowCommand

  datatype FlowMod = FlowMod(
    command: FlowCommand, tableId: nat, priority: nat, flags: nat, cookie: bv64, cookieMask: bv64,
    fields: seq<Field>, instructions: seq<Instruction>, idleTimeout: nat, hardTimeout: nat,
    outPort: nat, outGroup: nat)

  datatype GroupCommand = AddGroup | DeleteGroup | ModifyGroup | UnknownGroupCommand

  datatype GroupMod = GroupMod(command: GroupCommand, groupType: nat, groupId: nat, buckets: seq<Bucket>)

  datatype Message = FlowMessage(flowMod: FlowMod) | GroupMessage(groupMod: GroupMod)

  /** The logical tables. */
  datatype Content = Content(flows: seq<Flow>, groups: seq<GroupEntry>)

  /** The logical tables and the flow tables stored for the devices. */
  datatype State = State(content: Content, deviceFlows: DeviceRules)

  /** The cached tables of a fixed topology. */
  datatype Config = Config(routes: Routes, defaults: DeviceRules)

  /** What a handler does, given the tables it reads: the tables it writes, one write after the
      other, and whether it returns or raises in the end. */
  datatype Plan = Plan(writes: seq<Content>, ok: bool)

  /** A handled message: the state it leaves, and whether it returned or raised. */
  datatype Outcome = Outcome(state: State, ok: bool)

  // ----- flags and predicates -----

  predicate SendFlowRem(flags: nat) {
    flags % 2 == 1
  }

  predicate CheckOverlap(flags: nat) {
    (flags / 2) % 2 == 1
  }

  predicate ResetCounts(flags: nat) {
    (flags / 4) % 2 == 1
  }

  function FlowFromMod(m: FlowMod): Flow {
    Flow(m.tableId, m.priority, m.flags, m.cookie, m.fields, m.instructions, m.idleTimeout, m.hardTimeout, 0, 0)
  }

  function GroupFromMod(m: GroupMod): GroupEntry {
    GroupEntry(m.groupType, m.groupId, m.buckets)
  }

  predicate HasAction(f: Flow, a: Action) {
    exists i :: 0 <= i < |f.instructions| && f.instructions[i].ApplyActions? && a in f.instructions[i].actions
  }

  /** flow_matches_spec up to its match condition. */
  predicate Covered(f: Flow, m: FlowMod) {
    && f.cookie & m.cookieMask == m.cookie & m.cookieMask
    && (m.tableId == ALL_TABLES || f.tableId == m.tableId)
    && (m.outPort == ANY_PORT || HasAction(f, Output(m.outPort)))
    && (m.outGroup == ANY_GROUP || HasAction(f, Group(m.outGroup)))
  }

  function FindFlow(flows: seq<Flow>, key: FlowKey): (r: Option<nat>)
    ensures r.Some? ==>
              && r.value < |flows| && KeyOf(flows[r.value]) == key
              && forall j :: 0 <= j < r.value ==> KeyOf(flows[j]) != key
    ensures r.None? ==> forall j :: 0 <= j < |flows| ==> KeyOf(flows[j]) != key
  {
    if flows == [] then None
    else if KeyOf(flows[0]) == key then Some(0)
    else
      match FindFlow(flows[1..], key)
      case None => assert forall j :: 1 <= j < |flows| ==> flows[j] == flows[1..][j - 1]; None
      case Some(i) => assert forall j :: 1 <= j <= i ==> flows[j] == flows[1..][j - 1]; Some(i + 1)
  }

  // ----- flow mods -----

  function MergedFlow(flows: seq<Flow>, m: FlowMod): seq<Flow> {
    var f := FlowFromMod(m);
    match FindFlow(flows, KeyOf(f))
    case None => flows + [f]
    case Some(i) =>
      flows[i := if ResetCounts(m.flags) then f
                 else f.(packetCount := flows[i].packetCount, byteCount := flows[i].byteCount)]
  }

  function FlowAdd(c: Content, m: FlowMod): Plan {
    if m.cookieMask != 0 then Plan([], false)
    else if CheckOverlap(m.flags) then Plan([c.(flows := c.flows + [FlowFromMod(m)])], true)
    else Plan([c.(flows := MergedFlow(c.flows, m))], true)
  }

  function Deleted(flows: seq<Flow>, m: FlowMod): seq<Flow> {
    Filter(flows, f => Covered(f, m))
  }

  function Kept(flows: seq<Flow>, m: FlowMod): seq<Flow> {
    Filter(flows, f => !Covered(f, m))
  }

  lemma SplitStep(flows: seq<Flow>, m: FlowMod, i: nat, keep: seq<Flow>, gone: seq<Flow>)
    requires i < |flows|
    ensures keep + Kept(flows[i..], m) ==
            (if Covered(flows[i], m) then keep else keep + [flows[i]]) + Kept(flows[i + 1..], m)
    ensures gone + Deleted(flows[i..], m) ==
            (if Covered(flows[i], m) then gone + [flows[i]] else gone) + Deleted(flows[i + 1..], m)
  {
    assert flows[i..][0] == flows[i] && flows[i..][1..] == flows[i + 1..];
  }

  predicate AnnounceRaises(flows: seq<Flow>) {
    exists f :: f in flows && SendFlowRem(f.flags)
  }

  /** Flows are announced as deleted after the write. */
  function FlowDelete(c: Content, m: FlowMod): Plan {
    if Deleted(c.flows, m) == [] then Plan([], true)
    else if m.fields != [] then Plan([], false)
    else Plan([c.(flows := Kept(c.flows, m))], !AnnounceRaises(Deleted(c.flows, m)))
  }

  function WithoutFlow(flows: seq<Flow>, i: nat): seq<Flow>
    requires i < |flows|
  {
    flows[..i] + flows[i + 1..]
  }

  function FlowDeleteStrict(c: Content, m: FlowMod): Plan {
    match FindFlow(c.flows, KeyOf(FlowFromMod(m)))
    case None => Plan([], true)
    case Some(i) => Plan([c.(flows := WithoutFlow(c.flows, i))], true)
  }

  function HandleFlowMod(c: Content, m: FlowMod): Plan {
    match m.command
    case AddFlow => FlowAdd(c, m)
    case DeleteFlow => FlowDelete(c, m)
    case DeleteFlowStrict => FlowDeleteStrict(c, m)
    case ModifyFlow => Plan([], false)
    case ModifyFlowStrict => Plan([], false)
    case UnknownFlowCommand => Plan([], true)
  }

  // ----- group mods -----

  predicate HasGroup(groups: seq<GroupEntry>, id: nat) {
    exists g :: g in groups && g.groupId == id
  }

  function ReplacedGroup(groups: seq<GroupEntry>, entry: GroupEntry): seq<GroupEntry> {
    seq(|groups|, i requires 0 <= i < |groups| => if groups[i].groupId == entry.groupId then entry else groups[i])
  }

  function GroupsWithout(groups: seq<GroupEntry>, id: nat): seq<GroupEntry> {
    Filter(groups, (g: GroupEntry) => g.groupId != id)
  }

  function FlowsWithGroup(flows: seq<Flow>, id: nat): seq<Flow> {
    Filter(flows, f => HasAction(f, Group(id)))
  }

  function FlowsWithoutGroup(flows: seq<Flow>, id: nat): seq<Flow> {
    Filter(flows, f => !HasAction(f, Group(id)))
  }

  lemma GroupSplitStep(flows: seq<Flow>, id: nat, i: nat, keep: seq<Flow>, gone: seq<Flow>)
    requires i < |flows|
    ensures keep + FlowsWithoutGroup(flows[i..], id) ==
            (if HasAction(flows[i], Group(id)) then keep else keep + [flows[i]]) + FlowsWithoutGroup(flows[i + 1..], id)
    ensures gone + FlowsWithGroup(flows[i..], id) ==
            (if HasAction(flows[i], Group(id)) then gone + [flows[i]] else gone) + FlowsWithGroup(flows[i + 1..], id)
  {
    assert flows[i..][0] == flows[i] && flows[i..][1..] == flows[i + 1..];
  }

  /** Deleting a group writes the groups first and the flows second, each with its callback; flows
      are announced as deleted before either. */
  function GroupDelete(c: Content, id: nat): Plan {
    if id == ALL_GROUPS then Plan([c.(groups := [])], true)
    else if !HasGroup(c.groups, id) then Plan([], true)
    else if AnnounceRaises(FlowsWithGroup(c.flows, id)) then Plan([], false)
    else
      var c' := c.(groups := GroupsWithout(c.groups, id));
      if FlowsWithGroup(c.flows, id) == [] then Plan([c'], true)
      else Plan([c', c'.(flows := FlowsWithoutGroup(c.flows, id))], true)
  }

  function HandleGroupMod(c: Content, m: GroupMod): Plan {
    match m.command
    case AddGroup =>
      if HasGroup(c.groups, m.groupId) then Plan([], true) else Plan([c.(groups := c.groups + [GroupFromMod(m)])], true)
    case DeleteGroup => GroupDelete(c, m.groupId)
    case ModifyGroup =>
      if !HasGroup(c.groups, m.groupId) then Plan([], true)
      else Plan([c.(groups := ReplacedGroup(c.groups, GroupFromMod(m)))], true)
    case UnknownGroupCommand => Plan([], true)
  }

  function PlanFor(c: Content, msg: Message): Plan {
    match msg
    case FlowMessage(m) => HandleFlowMod(c, m)
    case GroupMessage(m) => HandleGroupMod(c, m)
  }

  // ----- writes with their callbacks -----

  function Decompose(cfg: Config, c: Content): Result<DeviceRules> {
    DecomposeRules(cfg.routes, cfg.defaults, c.flows, c.groups)
  }

  /** A write of equal data is no change and calls nobody. Otherwise the callback decomposes the
      new tables; if that raises, the exception is logged and dropped, the logical tables stay
      written, and the device tables stay as they were. */
  function Write(cfg: Config, s: State, c: Content): State {
    if c == s.content then s
    else
      match Decompose(cfg, c)
      case Ok(tables) => State(c, s.deviceFlows + tables)
      case Raised => State(c, s.deviceFlows)
  }

  function Perform(cfg: Config, s: State, writes: seq<Content>): State
    decreases |writes|
  {
    if writes == [] then s else Perform(cfg, Write(cfg, s, writes[0]), writes[1..])
  }

  function CarryOut(cfg: Config, s: State, plan: Plan): Outcome {
    Outcome(Perform(cfg, s, plan.writes), plan.ok)
  }

  function Handle(cfg: Config, s: State, msg: Message): Outcome {
    CarryOut(cfg, s, PlanFor(s.content, msg))
  }

  lemma {:induction false} PerformSteps(cfg: Config, s: State, c: Content, c': Content)
    ensures Perform(cfg, s, []) == s
    ensures Perform(cfg, s, [c]) == Write(cfg, s, c)
    ensures Perform(cfg, s, [c, c']) == Write(cfg, Write(cfg, s, c), c')
  {
    assert [c][1..] == [] && [c, c'][1..] == [c'] && [c'][1..] == [];
    assert Perform(cfg, Write(cfg, s, c), [c']) == Perform(cfg, Write(cfg, Write(cfg, s, c), c'), []);
  }

  function Run(cfg: Config, s: State, msgs: seq<Message>): State {
    if msgs == [] then s else Handle(cfg, Run(cfg, s, msgs[..|msgs| - 1]), msgs[|msgs| - 1]).state
  }

  // ----- device tables follow the logical tables -----

  function Last(c: Content, writes: seq<Content>): Content {
    if writes == [] then c else writes[|writes| - 1]
  }

  /** The logical tables after a message; the callbacks have no say in it. */
  function After(c: Content, msg: Message): Content {
    Last(c, PlanFor(c, msg).writes)
  }

  function RunTables(c: Content, msgs: seq<Message>): Content {
    if msgs == [] then c else After(RunTables(c, msgs[..|msgs| - 1]), msgs[|msgs| - 1])
  }

  /** The writes that change something. */
  function Effective(c: Content, writes: seq<Content>): seq<Content>
    decreases |writes|
  {
    if writes == [] then []
    else if writes[0] == c then Effective(c, writes[1..])
    else [writes[0]] + Effective(writes[0], writes[1..])
  }

  /** All that the logical tables went through, change by change. */
  function Trail(c: Content, msgs: seq<Message>): seq<Content> {
    if msgs == [] then []
    else
      var n := |msgs| - 1;
      var before := RunTables(c, msgs[..n]);
      Trail(c, msgs[..n]) + Effective(before, PlanFor(before, msgs[n]).writes)
  }

  /** The decomposition of the last tables that could be decomposed. */
  function LastGood(cfg: Config, trail: seq<Content>): Option<DeviceRules> {
    if trail == [] then None
    else
      match Decompose(cfg, trail[|trail| - 1])
      case Ok(tables) => Some(tables)
      case Raised => LastGood(cfg, trail[..|trail| - 1])
  }

  ghost predicate Stores(stored: DeviceRules, tables: DeviceRules) {
    forall d :: d in tables ==> d in stored && stored[d] == tables[d]
  }

  /** Every device that decomposition speaks of stores exactly what decomposition says. */
  ghost predicate Synced(cfg: Config, s: State) {
    Decompose(cfg, s.content).Ok? && Stores(s.deviceFlows, Decompose(cfg, s.content).value)
  }

  /** The state is what a trail of changes makes of a start: the logical tables are the last ones
      written, the device tables those of the last ones that could be decomposed. */
  ghost predicate Follows(cfg: Config, start: State, trail: seq<Content>, s: State) {
    && s.content == Last(start.content, trail)
    && match LastGood(cfg, trail)
       case None => s.deviceFlows == start.deviceFlows
       case Some(tables) => Stores(s.deviceFlows, tables)
  }

  lemma WriteFollows(cfg: Config, start: State, trail: seq<Content>, s: State, c: Content)
    requires Follows(cfg, start, trail, s)
    ensures Follows(cfg, start, trail + Effective(s.content, [c]), Write(cfg, s, c))
    ensures Write(cfg, s, c).content == c
  {
    assert [c][1..] == [] && Effective(c, []) == [];
    if c == s.content {
      assert trail + Effective(s.content, [c]) == trail;
    } else {
      assert Effective(s.content, [c]) == [c];
      assert (trail + [c])[..|trail|] == trail;
    }
  }

  lemma {:induction false} PerformFollows(
    cfg: Config, start: State, trail: seq<Content>, s: State, writes: seq<Content>)
    requires Follows(cfg, start, trail, s)
    ensures Follows(cfg, start, trail + Effective(s.content, writes), Perform(cfg, s, writes))
    decreases |writes|
  {
    if writes == [] {
      assert trail + [] == trail;
    } else {
      var c, rest := writes[0], writes[1..];
      WriteFollows(cfg, start, trail, s, c);
      PerformFollows(cfg, start, trail + Effective(s.content, [c]), Write(cfg, s, c), rest);
      EffectiveSplit(s.content, c, rest);
      assert writes == [c] + rest;
      Reassociated(trail, Effective(s.content, [c]), Effective(c, rest));
    }
  }

  lemma {:induction false} PerformTables(cfg: Config, s: State, writes: seq<Content>)
    ensures Perform(cfg, s, writes).content == Last(s.content, writes)
    decreases |writes|
  {
    if writes != [] {
      PerformTables(cfg, Write(cfg, s, writes[0]), writes[1..]);
    }
  }

  lemma {:induction false} EffectiveSplit(c: Content, first: Content, rest: seq<Content>)
    ensures Effective(c, [first] + rest) == Effective(c, [first]) + Effective(first, rest)
  {
    assert ([first] + rest)[1..] == rest && [first][1..] == [];
    assert Effective(first, []) == [] && Effective(c, []) == [];
  }

  lemma {:induction false} RunStays(cfg: Config, start: State, msgs: seq<Message>)
    ensures Run(cfg, start, msgs).content == RunTables(start.content, msgs)
    ensures Follows(cfg, start, Trail(start.content, msgs), Run(cfg, start, msgs))
  {
    if msgs != [] {
      var n := |msgs| - 1;
      RunStays(cfg, start, msgs[..n]);
      var s := Run(cfg, start, msgs[..n]);
      PerformTables(cfg, s, PlanFor(s.content, msgs[n]).writes);
      PerformFollows(cfg, start, Trail(start.content, msgs[..n]), s, PlanFor(s.content, msgs[n]).writes);
    }
  }

  /** Over every run of messages whatever, from any state, raising or not: from the first change
      on, the device tables are the decomposition of the last logical tables that could be
      decomposed, and they agree with the current ones if and only if those can be. */
  lemma {:induction false} RunFollows(cfg: Config, start: State, msgs: seq<Message>)
    ensures var s, trail := Run(cfg, start, msgs), Trail(start.content, msgs);
            && s.content == Last(start.content, trail)
            && (LastGood(cfg, trail).None? ==> s.deviceFlows == start.deviceFlows)
            && (LastGood(cfg, trail).Some? ==> Stores(s.deviceFlows, LastGood(cfg, trail).value))
            && (trail != [] || Synced(cfg, start) ==> (Synced(cfg, s) <==> Decompose(cfg, s.content).Ok?))
  {
    RunStays(cfg, start, msgs);
  }

  /** Which tables can be decomposed is a matter of each flow on its own. */
  lemma DecomposesFlowByFlow(cfg: Config, c: Content)
    ensures Decompose(cfg, c).Ok? <==>
            forall f :: f in c.flows ==> DecomposeFlow(cfg.routes, f, GroupMap(c.groups)).Ok?
  {
    AllDecompose(cfg.routes, cfg.defaults, c.flows, GroupMap(c.groups));
  }

  // ----- identity of flows -----

  lemma MergeKeepsKeys(flows: seq<Flow>, m: FlowMod)
    requires DistinctKeys(flows)
    ensures DistinctKeys(MergedFlow(flows, m))
  {}

  lemma {:induction false} FilterKeepsKeys(flows: seq<Flow>, keep: Flow -> bool)
    requires DistinctKeys(flows)
    ensures DistinctKeys(Filter(flows, keep))
  {
    if flows != [] {
      FilterKeepsKeys(flows[1..], keep);
      var rest := Filter(flows[1..], keep);
      forall j | 0 <= j < |rest| ensures KeyOf(rest[j]) != KeyOf(flows[0]) {
        assert rest[j] in flows[1..];
      }
    }
  }

  predicate NoOverlapCheck(msg: Message) {
    msg.FlowMessage? && msg.flowMod.command.AddFlow? ==> !CheckOverlap(msg.flowMod.flags)
  }

  lemma FlowModKeepsKeys(c: Content, m: FlowMod)
    requires DistinctKeys(c.flows) && (m.command.AddFlow? ==> !CheckOverlap(m.flags))
    ensures DistinctKeys(Last(c, HandleFlowMod(c, m).writes).flows)
  {
    match m.command
    case AddFlow => MergeKeepsKeys(c.flows, m);
    case DeleteFlow => FilterKeepsKeys(c.flows, f => !Covered(f, m));
    case _ =>
  }

  lemma GroupModFlows(c: Content, m: GroupMod)
    ensures var flows := Last(c, HandleGroupMod(c, m).writes).flows;
            flows == c.flows || flows == FlowsWithoutGroup(c.flows, m.groupId)
  {}

  lemma WithoutGroupKeepsKeys(flows: seq<Flow>, id: nat)
    requires DistinctKeys(flows)
    ensures DistinctKeys(FlowsWithoutGroup(flows, id))
  {
    FilterKeepsKeys(flows, f => !HasAction(f, Group(id)));
  }

  lemma AfterKeepsKeys(c: Content, msg: Message)
    requires DistinctKeys(c.flows) && NoOverlapCheck(msg)
    ensures DistinctKeys(After(c, msg).flows)
  {
    match msg
    case FlowMessage(m) => FlowModKeepsKeys(c, m);
    case GroupMessage(m) =>
      GroupModFlows(c, m);
      WithoutGroupKeepsKeys(c.flows, m.groupId);
  }

  /** No two flows share their key, over every run without CHECK_OVERLAP adds, even through
      messages that raise. */
  lemma {:induction false} RunKeepsKeys(c: Content, msgs: seq<Message>)
    requires DistinctKeys(c.flows) && forall k :: 0 <= k < |msgs| ==> NoOverlapCheck(msgs[k])
    ensures DistinctKeys(RunTables(c, msgs).flows)
  {
    if msgs != [] {
      var n := |msgs| - 1;
      RunKeepsKeys(c, msgs[..n]);
      AfterKeepsKeys(RunTables(c, msgs[..n]), msgs[n]);
    }
  }

  /** An add that asks for an overlap check never finds one, and so keeps keys distinct if and only
      if its key was not there yet. */
  lemma OverlapCheckCondition(c: Content, m: FlowMod)
    requires DistinctKeys(c.flows) && m.command.AddFlow? && m.cookieMask == 0 && CheckOverlap(m.flags)
    ensures DistinctKeys(After(c, FlowMessage(m)).flows) <==> !HasKey(c.flows, KeyOf(FlowFromMod(m)))
  {
    var f := FlowFromMod(m);
    var after := c.flows + [f];
    if HasKey(c.flows, KeyOf(f)) {
      var k :| 0 <= k < |c.flows| && KeyOf(c.flows[k]) == KeyOf(f);
      assert KeyOf(after[k]) == KeyOf(after[|c.flows|]);
    } else {
      assert forall i :: 0 <= i < |c.flows| ==> c.flows[i] in c.flows;
    }
  }

  ghost predicate AtMostOnce(flows: seq<Flow>, key: FlowKey) {
    forall i, j :: 0 <= i < j < |flows| && KeyOf(flows[i]) == key ==> KeyOf(flows[j]) != key
  }

  lemma RemoveFirst(flows: seq<Flow>, i: nat, key: FlowKey)
    requires i < |flows| && KeyOf(flows[i]) == key && forall j :: 0 <= j < i ==> KeyOf(flows[j]) != key
    ensures !HasKey(WithoutFlow(flows, i), key) <==> AtMostOnce(flows, key)
  {
    var after := WithoutFlow(flows, i);
    assert forall j :: 0 <= j < |after| ==> after[j] == flows[if j < i then j else j + 1];
    if HasKey(after, key) {
      var j :| 0 <= j < |after| && KeyOf(after[j]) == key;
      assert KeyOf(flows[i]) == key && KeyOf(flows[j + 1]) == key;
    } else {
      forall j | i < j < |flows| ensures KeyOf(flows[j]) != key {
        assert after[j - 1] in after;
      }
    }
  }

  /** A strict delete leaves no flow with its key if and only if there was at most one. */
  lemma StrictDeleteCondition(c: Content, m: FlowMod)
    requires m.command.DeleteFlowStrict?
    ensures !HasKey(After(c, FlowMessage(m)).flows, KeyOf(FlowFromMod(m))) <==>
            AtMostOnce(c.flows, KeyOf(FlowFromMod(m)))
  {
    var key := KeyOf(FlowFromMod(m));
    match FindFlow(c.flows, key)
    case None =>
    case Some(i) => RemoveFirst(c.flows, i, key);
  }

  lemma {:induction false} FilterSplits<T(!new)>(xs: seq<T>, keep: T -> bool, drop: T -> bool)
    requires forall x :: keep(x) <==> !drop(x)
    ensures multiset(xs) == multiset(Filter(xs, keep)) + multiset(Filter(xs, drop))
  {
    if xs != [] {
      FilterSplits(xs[1..], keep, drop);
      assert xs == [xs[0]] + xs[1..];
    }
  }

  lemma {:induction false} FilterKeepsOrder<T(!new)>(xs: seq<T>, ys: seq<T>, keep: T -> bool)
    ensures Filter(xs + ys, keep) == Filter(xs, keep) + Filter(ys, keep)
  {
    if xs == [] {
      assert xs + ys == ys;
    } else {
      assert (xs + ys)[1..] == xs[1..] + ys;
      FilterKeepsOrder(xs[1..], ys, keep);
    }
  }

  /** flow_delete splits the table in two by the specification: what stays is not covered, what
      goes is, together they are the table, and the split runs through the table in order. */
  lemma DeleteIsPartition(flows: seq<Flow>, later: seq<Flow>, m: FlowMod)
    ensures forall f :: f in Kept(flows, m) <==> f in flows && !Covered(f, m)
    ensures forall f :: f in Deleted(flows, m) <==> f in flows && Covered(f, m)
    ensures multiset(flows) == multiset(Kept(flows, m)) + multiset(Deleted(flows, m))
    ensures Kept(flows + later, m) == Kept(flows, m) + Kept(later, m)
  {
    var keep, drop := (f: Flow) => !Covered(f, m), (f: Flow) => Covered(f, m);
    FilterSplits(flows, keep, drop);
    FilterKeepsOrder(flows, later, keep);
  }

  // ----- groups -----

  /** Deleting a present group by id leaves neither the group nor a flow that refers to it, and it
      leaves everything else, unless it is refused. */
  lemma DeletedGroupIsGone(c: Content, id: nat)
    requires HasGroup(c.groups, id) && id != ALL_GROUPS && GroupDelete(c, id).ok
    ensures var c' := Last(c, GroupDelete(c, id).writes);
            && !HasGroup(c'.groups, id)
            && (forall f :: f in c'.flows <==> f in c.flows && !HasAction(f, Group(id)))
            && (forall g :: g in c'.groups <==> g in c.groups && g.groupId != id)
  {
    var with := FlowsWithGroup(c.flows, id);
    assert with == [] ==> forall f :: f in c.flows ==> !HasAction(f, Group(id)) by {
      assert forall f :: f in c.flows && HasAction(f, Group(id)) ==> f in with;
    }
  }
}
