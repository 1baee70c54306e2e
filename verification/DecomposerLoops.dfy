/** The loops of voltha/core/flow_decomposer.py that fill dictionaries and lists in place, each
    proved to compute the function of FlowDecomposer that describes it. */
module DecomposerLoops {
  import opened Wrappers
  import opened OpenFlow
  import opened Topology
  import opened RuleSelection
  import opened FlowDecomposer

  /** An OrderedDict of rules by identifier, shared by reference. */
  class RuleTable {
    var rules: seq<Flow>

    constructor (initial: seq<Flow>)
      ensures rules == initial
    {
      rules := initial;
    }

    method AddRules(offered: seq<Flow>)
      modifies this
      ensures rules == AddNew(old(rules), offered)
    {
      for k := 0 to |offered|
        invariant AddNew(old(rules), offered) == AddNew(rules, offered[k..])
      {
        assert offered[k..][0] == offered[k] && offered[k..][1..] == offered[k + 1..];
        if !HasKey(rules, KeyOf(offered[k])) {
          rules := rules + [offered[k]];
        }
      }
    }
  }

  ghost function Contents(tables: map<DeviceId, RuleTable>): DeviceRules
    reads tables.Values
  {
    map d | d in tables :: tables[d].rules
  }

  ghost predicate Separate(tables: map<DeviceId, RuleTable>) {
    forall d, e :: d in tables && e in tables && d != e ==> tables[d] != tables[e]
  }

  /** `deepcopy`: new table objects with the same contents. */
  method DeepCopy(tables: map<DeviceId, RuleTable>) returns (copies: map<DeviceId, RuleTable>)
    ensures Separate(copies) && Contents(copies) == Contents(tables)
    ensures forall d :: d in copies ==> fresh(copies[d])
  {
    copies := map[];
    var left := tables.Keys;
    while left != {}
      invariant left <= tables.Keys && copies.Keys == tables.Keys - left
      invariant Separate(copies) && forall d :: d in copies ==> fresh(copies[d])
      invariant forall d :: d in copies ==> copies[d].rules == tables[d].rules
      decreases left
    {
      var d :| d in left;
      var copy := new RuleTable(tables[d].rules);
      copies := copies[d := copy];
      left := left - {d};
    }
  }

  /** `setdefault` and the two insertion loops for one device. */
  method MergeOne(
    tables: map<DeviceId, RuleTable>, d: DeviceId, offered: seq<Flow>) returns (merged: map<DeviceId, RuleTable>)
    requires Separate(tables)
    modifies if d in tables then {tables[d]} else {}
    ensures merged.Keys == tables.Keys + {d} && Separate(merged)
    ensures forall e :: e in tables ==> merged[e] == tables[e]
    ensures d !in tables ==> fresh(merged[d])
    ensures Contents(merged) == var before := old(Contents(tables)); before[d := AddNew(Lookup(before, d), offered)]
  {
    merged := tables;
    if d !in merged {
      var table := new RuleTable([]);
      merged := merged[d := table];
    }
    merged[d].AddRules(offered);
  }

  /** One pass of the outer loop body: the rules of one flow go into the tables, which are created
      on demand. */
  method MergeInto(tables: map<DeviceId, RuleTable>, rules: DeviceRules) returns (merged: map<DeviceId, RuleTable>)
    requires Separate(tables)
    modifies tables.Values
    ensures Separate(merged) && Contents(merged) == Merge(old(Contents(tables)), rules)
    ensures forall d :: d in tables ==> d in merged && merged[d] == tables[d]
    ensures forall d :: d in merged && d !in tables ==> fresh(merged[d])
  {
    merged := tables;
    ghost var before := Contents(tables);
    var left := rules.Keys;
    ghost var done := {};
    while left != {}
      invariant left <= rules.Keys && done == rules.Keys - left && merged.Keys == tables.Keys + done
      invariant Separate(merged)
      invariant forall d :: d in tables ==> merged[d] == tables[d]
      invariant forall d :: d in merged && d !in tables ==> fresh(merged[d])
      invariant Contents(merged) == MergeSome(before, rules, done)
      decreases left
    {
      var d :| d in left;
      MergeSomeStep(before, rules, done, d);
      merged := MergeOne(merged, d, rules[d]);
      left, done := left - {d}, done + {d};
    }
    assert done == rules.Keys;
    MergeSomeAll(before, rules);
  }

  ghost function MergeSome(tables: DeviceRules, rules: DeviceRules, done: set<DeviceId>): DeviceRules {
    map d | d in tables.Keys + done :: if d in done then AddNew(Lookup(tables, d), Lookup(rules, d)) else tables[d]
  }

  lemma MergeSomeStep(tables: DeviceRules, rules: DeviceRules, done: set<DeviceId>, d: DeviceId)
    requires d in rules && d !in done
    ensures MergeSome(tables, rules, done + {d}) ==
            var before := MergeSome(tables, rules, done); before[d := AddNew(Lookup(before, d), rules[d])]
  {}

  lemma MergeSomeAll(tables: DeviceRules, rules: DeviceRules)
    ensures MergeSome(tables, rules, rules.Keys) == Merge(tables, rules)
  {}

  /** decompose_rules. It writes into tables all the time and yet has nothing in its frame: the
      deep copy keeps the cached default rules as they were. */
  method DecomposeRulesLoop(r: Routes, defaults: map<DeviceId, RuleTable>, flows: seq<Flow>, groups: seq<GroupEntry>)
    returns (ok: bool, tables: map<DeviceId, RuleTable>)
    ensures ok <==> DecomposeRules(r, Contents(defaults), flows, groups).Ok?
    ensures ok ==> Contents(tables) == DecomposeRules(r, Contents(defaults), flows, groups).value
    ensures Separate(tables) && forall d :: d in tables ==> fresh(tables[d])
    ensures Contents(defaults) == old(Contents(defaults))
  {
    ok := true;
    tables := DeepCopy(defaults);
    var groupMap := GroupMap(groups);
    ghost var initial := Contents(defaults);
    for k := 0 to |flows|
      invariant Separate(tables) && (forall d :: d in tables ==> fresh(tables[d])) && Contents(defaults) == initial
      invariant DecomposeAll(r, initial, flows[..k], groupMap) == Ok(Contents(tables))
    {
      assert flows[..k + 1][..k] == flows[..k];
      var rules := DecomposeFlow(r, flows[k], groupMap);
      if rules.Raised? {
        PrefixRaises(r, initial, flows, k + 1, groupMap);
        ok := false;
        return;
      }
      tables := MergeInto(tables, rules.value);
    }
    assert flows[..|flows|] == flows;
  }

  lemma {:induction false} PrefixRaises(
    r: Routes, defaults: DeviceRules, flows: seq<Flow>, k: nat, groups: map<nat, GroupEntry>)
    requires k <= |flows| && DecomposeAll(r, defaults, flows[..k], groups).Raised?
    ensures DecomposeAll(r, defaults, flows, groups).Raised?
  {
    if k == |flows| {
      assert flows[..k] == flows;
    } else {
      assert flows[..|flows| - 1][..k] == flows[..k];
      PrefixRaises(r, defaults, flows[..|flows| - 1], k, groups);
    }
  }

  /** The inner loop over a bucket: `out_port_no` is overwritten by each OUTPUT and otherwise keeps
      its value, from earlier buckets too. */
  method ScanBucket(bucket: Bucket, port: Option<nat>) returns (out: Option<nat>, others: seq<Action>)
    ensures out == BucketPort(bucket, port) && others == BucketOthers(bucket)
  {
    out, others := port, [];
    for k := 0 to |bucket|
      invariant BucketPort(bucket, port) == BucketPort(bucket[k..], out)
      invariant BucketOthers(bucket) == others + Filter(bucket[k..], NotPopOrOutput)
    {
      var action := bucket[k];
      assert bucket[k..][0] == action && bucket[k..][1..] == bucket[k + 1..];
      if action.Output? {
        out := Some(action.port);
      } else if !action.PopVlan? {
        others := others + [action];
      }
    }
  }

  /** The loop over the buckets of a multicast group. */
  method DecomposeBucketsLoop(r: Routes, flow: Flow, ingress: Hop, buckets: seq<Bucket>, initial: DeviceRules)
    returns (result: Result<DeviceRules>)
    ensures result == DecomposeBuckets(r, flow, ingress, buckets, None, initial)
  {
    var rules, port := initial, None;
    for k := 0 to |buckets|
      invariant DecomposeBuckets(r, flow, ingress, buckets, None, initial)
             == DecomposeBuckets(r, flow, ingress, buckets[k..], port, rules)
    {
      assert buckets[k..][0] == buckets[k] && buckets[k..][1..] == buckets[k + 1..];
      var out, others := ScanBucket(buckets[k], port);
      port := out;
      var route := GetRoute(r, FirstInPort(flow.fields), port);
      if route.Raised? || route.value.0 != Some(ingress) || route.value.1.None? {
        return Raised;
      }
      var egress := route.value.1.value;
      rules := Append(rules, egress.device.id, MulticastLeafRule(flow, others, egress));
    }
    return Ok(rules);
  }
}
