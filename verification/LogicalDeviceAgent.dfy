/** LogicalDeviceAgent as an object: the handlers read the tables, edit a list in a loop, write the
    tables back, and the write's callback decomposes them into the device tables. An exception in
    the callback is caught by the configuration tree and never reaches the handler. */
module LogicalDeviceAgent {
  import opened Wrappers
  import opened OpenFlow
  import opened Topology
  import opened FlowDecomposer
  import opened DecomposerLoops
  import opened LogicalDevice

  class Agent {
    var flows: seq<Flow>
    var groups: seq<GroupEntry>
    var deviceFlows: DeviceRules
    const routes: Routes
    const defaultRules: map<DeviceId, RuleTable>   // cached, shared with every decomposition

    ghost function Value(): State
      reads this
    {
      State(Content(flows, groups), deviceFlows)
    }

    ghost function Cached(): Config
      reads this, defaultRules.Values
    {
      Config(routes, Contents(defaultRules))
    }

    constructor (routes: Routes, defaultRules: map<DeviceId, RuleTable>)
      ensures Value() == State(Content([], []), map[]) && this.routes == routes && this.defaultRules == defaultRules
    {
      this.routes, this.defaultRules := routes, defaultRules;
      flows, groups, deviceFlows := [], [], map[];
    }

    /** Either proxy's update: nothing if the data are equal; otherwise write, then the callback,
        whose failure is not reported. The tables handed to the decomposer are the cached ones, and
        they come back unchanged. */
    method Update(newFlows: seq<Flow>, newGroups: seq<GroupEntry>)
      modifies this
      ensures Value() == Write(old(Cached()), old(Value()), Content(newFlows, newGroups))
      ensures Cached() == old(Cached())
    {
      if newFlows == flows && newGroups == groups {
        return;
      }
      flows, groups := newFlows, newGroups;
      var decomposed, tables := DecomposeRulesLoop(routes, defaultRules, flows, groups);
      if decomposed {
        deviceFlows := StoreAll(deviceFlows, tables);
      }
    }

    /** The callback's loop over the device tables. */
    static method StoreAll(before: DeviceRules, tables: map<DeviceId, RuleTable>) returns (stored: DeviceRules)
      ensures stored == before + Contents(tables)
    {
      stored := before;
      var left := tables.Keys;
      while left != {}
        invariant left <= tables.Keys && stored.Keys == before.Keys + (tables.Keys - left)
        invariant forall d :: d in stored ==>
                    stored[d] == if d in tables && d !in left then tables[d].rules else before[d]
        decreases left
      {
        var d :| d in left;
        stored := stored[d := tables[d].rules];
        left := left - {d};
      }
    }

    /** find_flow */
    static method Find(table: seq<Flow>, flow: Flow) returns (found: Option<nat>)
      ensures found == FindFlow(table, KeyOf(flow))
    {
      for i := 0 to |table|
        invariant forall j :: 0 <= j < i ==> KeyOf(table[j]) != KeyOf(flow)
      {
        if KeyOf(table[i]) == KeyOf(flow) {
          return Some(i);
        }
      }
      return None;
    }

    method AddFlowEntry(m: FlowMod) returns (ok: bool)
      modifies this
      ensures Outcome(Value(), ok) == CarryOut(old(Cached()), old(Value()), FlowAdd(old(Value()).content, m))
      ensures Cached() == old(Cached())
    {
      if m.cookieMask != 0 {
        return false;
      }
      var flow := FlowFromMod(m);
      var table := flows;
      if CheckOverlap(m.flags) {
        table := table + [flow];   // find_overlapping_flows always answers []
      } else {
        var found := Find(table, flow);
        if found.Some? {
          if !ResetCounts(m.flags) {
            flow := flow.(packetCount := table[found.value].packetCount, byteCount := table[found.value].byteCount);
          }
          table := table[found.value := flow];
        } else {
          table := table + [flow];
        }
      }
      PerformSteps(Cached(), Value(), Content(table, groups), Value().content);
      Update(table, groups);
      return true;
    }

    /** The loop that sorts flows into those to keep and those to delete; it raises on a covered
        flow when the message has match fields. */
    static method Split(table: seq<Flow>, m: FlowMod) returns (ok: bool, keep: seq<Flow>, gone: seq<Flow>)
      ensures ok <==> Deleted(table, m) == [] || m.fields == []
      ensures ok ==> keep == Kept(table, m) && gone == Deleted(table, m)
    {
      ok, keep, gone := true, [], [];
      for i := 0 to |table|
        invariant ok && (m.fields != [] ==> gone == [])
        invariant Kept(table, m) == keep + Kept(table[i..], m)
        invariant Deleted(table, m) == gone + Deleted(table[i..], m)
      {
        SplitStep(table, m, i, keep, gone);
        if Covered(table[i], m) {
          if m.fields != [] {
            ok := false;
            return;
          }
          gone := gone + [table[i]];
        } else {
          keep := keep + [table[i]];
        }
      }
    }

    method DeleteFlowEntries(m: FlowMod) returns (ok: bool)
      modifies this
      ensures Outcome(Value(), ok) == CarryOut(old(Cached()), old(Value()), FlowDelete(old(Value()).content, m))
      ensures Cached() == old(Cached())
    {
      var split, keep, gone := Split(flows, m);
      if !split {
        return false;
      }
      if gone == [] {
        return true;
      }
      PerformSteps(Cached(), Value(), Content(keep, groups), Value().content);
      Update(keep, groups);
      return !AnnounceRaises(gone);
    }

    method DeleteFlowStrictly(m: FlowMod) returns (ok: bool)
      modifies this
      ensures Outcome(Value(), ok) == CarryOut(old(Cached()), old(Value()), FlowDeleteStrict(old(Value()).content, m))
      ensures Cached() == old(Cached())
    {
      var found := Find(flows, FlowFromMod(m));
      if found.None? {
        return true;
      }
      PerformSteps(Cached(), Value(), Content(WithoutFlow(flows, found.value), groups), Value().content);
      Update(WithoutFlow(flows, found.value), groups);
      return true;
    }

    method UpdateFlowTable(m: FlowMod) returns (ok: bool)
      modifies this
      ensures Outcome(Value(), ok) == CarryOut(old(Cached()), old(Value()), HandleFlowMod(old(Value()).content, m))
      ensures Cached() == old(Cached())
    {
      match m.command {
        case AddFlow => ok := AddFlowEntry(m);
        case DeleteFlow => ok := DeleteFlowEntries(m);
        case DeleteFlowStrict => ok := DeleteFlowStrictly(m);
        case ModifyFlow => ok := false;
        case ModifyFlowStrict => ok := false;
        case UnknownFlowCommand => ok := true;
      }
    }

    /** flows_delete_by_group_id */
    static method SplitByGroup(table: seq<Flow>, id: nat) returns (keep: seq<Flow>, gone: seq<Flow>)
      ensures keep == FlowsWithoutGroup(table, id) && gone == FlowsWithGroup(table, id)
    {
      keep, gone := [], [];
      for i := 0 to |table|
        invariant FlowsWithoutGroup(table, id) == keep + FlowsWithoutGroup(table[i..], id)
        invariant FlowsWithGroup(table, id) == gone + FlowsWithGroup(table[i..], id)
      {
        GroupSplitStep(table, id, i, keep, gone);
        if HasAction(table[i], Group(id)) {
          gone := gone + [table[i]];
        } else {
          keep := keep + [table[i]];
        }
      }
    }

    method DeleteGroupEntry(id: nat) returns (ok: bool)
      modifies this
      ensures Outcome(Value(), ok) == CarryOut(old(Cached()), old(Value()), GroupDelete(old(Value()).content, id))
      ensures Cached() == old(Cached())
    {
      if id == ALL_GROUPS {
        PerformSteps(Cached(), Value(), Content(flows, []), Value().content);
        Update(flows, []);
        return true;
      }
      if !HasGroup(groups, id) {
        return true;
      }
      var keep, gone := SplitByGroup(flows, id);
      if AnnounceRaises(gone) {
        return false;
      }
      var rest := GroupsWithout(groups, id);
      PerformSteps(Cached(), Value(), Content(flows, rest), Content(keep, rest));
      Update(flows, rest);
      if gone != [] {
        Update(keep, rest);
      }
      return true;
    }

    method UpdateGroupTable(m: GroupMod) returns (ok: bool)
      modifies this
      ensures Outcome(Value(), ok) == CarryOut(old(Cached()), old(Value()), HandleGroupMod(old(Value()).content, m))
      ensures Cached() == old(Cached())
    {
      match m.command {
        case AddGroup =>
          if HasGroup(groups, m.groupId) {
            return true;
          }
          PerformSteps(Cached(), Value(), Content(flows, groups + [GroupFromMod(m)]), Value().content);
          Update(flows, groups + [GroupFromMod(m)]);
          ok := true;
        case DeleteGroup =>
          ok := DeleteGroupEntry(m.groupId);
        case ModifyGroup =>
          if !HasGroup(groups, m.groupId) {
            return true;
          }
          PerformSteps(Cached(), Value(), Content(flows, ReplacedGroup(groups, GroupFromMod(m))), Value().content);
          Update(flows, ReplacedGroup(groups, GroupFromMod(m)));
          ok := true;
        case UnknownGroupCommand =>
          ok := true;
      }
    }
  }
}
