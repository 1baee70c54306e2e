/** Which rule of a table fires: install_flows and process_frame of ponsim/ponsim.py against the
    OpenFlow rule "the matching entry of highest priority". */
module RuleSelection {
  import opened Wrappers
  import opened OpenFlow
  import opened Election
  import opened PonMachine

  predicate Hits(rule: Flow, port: nat, fr: Frame) {
    IsMatch(rule.fields, port, fr) == Yes
  }

  /** No rule of the table makes the matcher raise on this frame. */
  ghost predicate Matchable(rules: seq<Flow>, port: nat, fr: Frame) {
    forall r :: r in rules ==> IsMatch(r.fields, port, fr) != Raises
  }

  ghost function Hitters(port: nat, fr: Frame): iset<Flow> {
    iset r | Hits(r, port, fr)
  }

  /** The rule that should fire: highest priority, and the earliest installed among equals. */
  ghost function Select(rules: seq<Flow>, port: nat, fr: Frame): Option<Flow> {
    Elect(rules, Hitters(port, fr))
  }

  /** Position i holds a hit that no other hit outranks and no earlier hit equals. */
  ghost predicate IsBest(rules: seq<Flow>, i: nat, port: nat, fr: Frame) {
    && i < |rules|
    && Hits(rules[i], port, fr)
    && (forall j :: 0 <= j < |rules| && Hits(rules[j], port, fr) ==> rules[j].priority <= rules[i].priority)
    && (forall j :: 0 <= j < i && Hits(rules[j], port, fr) ==> rules[j].priority < rules[i].priority)
  }

  lemma {:induction false} BestIndex(rules: seq<Flow>, port: nat, fr: Frame) returns (best: nat)
    ensures Select(rules, port, fr).None? ==> forall j :: 0 <= j < |rules| ==> !Hits(rules[j], port, fr)
    ensures Select(rules, port, fr).Some? ==>
              IsBest(rules, best, port, fr) && Select(rules, port, fr).value == rules[best]
  {
    best := 0;
    if rules != [] {
      var n := |rules| - 1;
      var init := rules[..n];
      var b := BestIndex(init, port, fr);
      var r := rules[n];
      var s := Select(init, port, fr);
      best := if Hits(r, port, fr) && (s.None? || s.value.priority < r.priority) then n else b;
      assert forall j :: 0 <= j < n ==> init[j] == rules[j];
    }
  }

  /** Select is exactly "matching, of maximal priority, earliest among equals". */
  lemma {:induction false} SelectIsBest(rules: seq<Flow>, port: nat, fr: Frame)
    ensures Select(rules, port, fr).None? <==> forall i :: 0 <= i < |rules| ==> !Hits(rules[i], port, fr)
    ensures forall i: nat :: IsBest(rules, i, port, fr) ==> Select(rules, port, fr) == Some(rules[i])
    ensures Select(rules, port, fr).Some? ==>
              exists i: nat :: IsBest(rules, i, port, fr) && rules[i] == Select(rules, port, fr).value
  {
    var best := BestIndex(rules, port, fr);
    forall i: nat | IsBest(rules, i, port, fr) ensures Select(rules, port, fr) == Some(rules[i]) {
      assert IsBest(rules, best, port, fr);
      assert i == best;
    }
  }

  // ----- the sorted table -----

  function FirstHit(rules: seq<Flow>, port: nat, fr: Frame): Option<Flow> {
    if rules == [] then None
    else if Hits(rules[0], port, fr) then Some(rules[0])
    else FirstHit(rules[1..], port, fr)
  }

  predicate Descending(rules: seq<Flow>) {
    forall i, j :: 0 <= i < j < |rules| ==> rules[j].priority <= rules[i].priority
  }

  lemma {:induction false} InsertContents(sorted: seq<Flow>, r: Flow)
    ensures multiset(InsertByPriority(sorted, r)) == multiset(sorted) + multiset{r}
  {
    if sorted != [] && sorted[0].priority >= r.priority {
      InsertContents(sorted[1..], r);
      assert sorted == [sorted[0]] + sorted[1..];
    }
  }

  lemma {:induction false} InsertKeepsOrder(sorted: seq<Flow>, r: Flow)
    requires Descending(sorted)
    ensures Descending(InsertByPriority(sorted, r))
    ensures forall x :: x in InsertByPriority(sorted, r) ==> x == r || x in sorted
  {
    if sorted != [] && sorted[0].priority >= r.priority {
      InsertKeepsOrder(sorted[1..], r);
      var rest := InsertByPriority(sorted[1..], r);
      forall i | 0 <= i < |rest| ensures rest[i].priority <= sorted[0].priority {
        assert rest[i] in rest;
      }
    }
  }

  /** The installed table is a permutation of the pushed one ... */
  lemma {:induction false} SortedContents(rules: seq<Flow>)
    ensures multiset(SortedByPriority(rules)) == multiset(rules)
  {
    if rules != [] {
      var n := |rules| - 1;
      SortedContents(rules[..n]);
      InsertContents(SortedByPriority(rules[..n]), rules[n]);
      assert rules == rules[..n] + [rules[n]];
    }
  }

  /** ... in descending priority. */
  lemma {:induction false} SortedTable(rules: seq<Flow>)
    ensures Descending(SortedByPriority(rules))
  {
    if rules != [] {
      var n := |rules| - 1;
      SortedTable(rules[..n]);
      InsertKeepsOrder(SortedByPriority(rules[..n]), rules[n]);
    }
  }

  /** The rules of one priority, in their order. */
  function AtPriority(rules: seq<Flow>, p: nat): seq<Flow> {
    if rules == [] then []
    else (if rules[0].priority == p then [rules[0]] else []) + AtPriority(rules[1..], p)
  }

  lemma {:induction false} AtPriorityAppend(rules: seq<Flow>, r: Flow, p: nat)
    ensures AtPriority(rules + [r], p) == AtPriority(rules, p) + if r.priority == p then [r] else []
  {
    if rules == [] {
      assert ([] + [r])[1..] == [];
    } else {
      assert (rules + [r])[1..] == rules[1..] + [r];
      AtPriorityAppend(rules[1..], r, p);
      var head := if rules[0].priority == p then [rules[0]] else [];
      assert AtPriority(rules + [r], p) == head + AtPriority(rules[1..] + [r], p);
    }
  }

  lemma {:induction false} AtPriorityNone(rules: seq<Flow>, p: nat)
    ensures AtPriority(rules, p) == [] <==> forall i :: 0 <= i < |rules| ==> rules[i].priority != p
  {
    if rules != [] {
      AtPriorityNone(rules[1..], p);
      assert forall i :: 1 <= i < |rules| ==> rules[i] == rules[1..][i - 1];
      if AtPriority(rules, p) == [] {
        assert rules[0].priority != p && AtPriority(rules[1..], p) == [];
      }
    }
  }

  lemma {:induction false} InsertIsStable(sorted: seq<Flow>, r: Flow, p: nat)
    requires Descending(sorted)
    ensures AtPriority(InsertByPriority(sorted, r), p) == AtPriority(sorted, p) + if r.priority == p then [r] else []
  {
    if sorted == [] || sorted[0].priority < r.priority {
      assert ([r] + sorted)[1..] == sorted;
      AtPriorityNone(sorted, r.priority);
    } else {
      InsertIsStable(sorted[1..], r, p);
      assert ([sorted[0]] + InsertByPriority(sorted[1..], r))[1..] == InsertByPriority(sorted[1..], r);
    }
  }

  /** ... and rules of equal priority stay in their order. */
  lemma {:induction false} SortedIsStable(rules: seq<Flow>, p: nat)
    ensures AtPriority(SortedByPriority(rules), p) == AtPriority(rules, p)
  {
    if rules != [] {
      var n := |rules| - 1;
      SortedIsStable(rules[..n], p);
      SortedTable(rules[..n]);
      InsertIsStable(SortedByPriority(rules[..n]), rules[n], p);
      AtPriorityAppend(rules[..n], rules[n], p);
      assert rules == rules[..n] + [rules[n]];
    }
  }

  /** A stable sort by descending priority of the given rules. */
  ghost predicate StablySorted(sorted: seq<Flow>, rules: seq<Flow>) {
    && Descending(sorted) && multiset(sorted) == multiset(rules)
    && AgreeByPriority(sorted, rules)
  }

  /** There is exactly one. */
  lemma {:induction false} StableSortIsUnique(sorted: seq<Flow>, rules: seq<Flow>)
    ensures StablySorted(sorted, rules) <==> sorted == SortedByPriority(rules)
  {
    SortedTable(rules);
    SortedContents(rules);
    forall p: nat ensures AtPriority(SortedByPriority(rules), p) == AtPriority(rules, p) {
      SortedIsStable(rules, p);
    }
    if StablySorted(sorted, rules) {
      SameByPriority(sorted, SortedByPriority(rules));
    }
  }

  ghost predicate AgreeByPriority(a: seq<Flow>, b: seq<Flow>) {
    forall p: nat :: AtPriority(a, p) == AtPriority(b, p)
  }

  lemma {:induction false} SameByPriority(a: seq<Flow>, b: seq<Flow>)
    requires Descending(a) && Descending(b) && AgreeByPriority(a, b)
    ensures a == b
    decreases |a|
  {
    if a != [] && b != [] {
      SameHead(a, b);
      TailsAgree(a, b);
      SameByPriority(a[1..], b[1..]);
      assert a == [a[0]] + a[1..] && b == [b[0]] + b[1..];
    } else if a != [] {
      AtPriorityNone(a, a[0].priority);
      assert false;
    } else if b != [] {
      AtPriorityNone(b, b[0].priority);
      assert false;
    }
  }

  lemma TailsAgree(a: seq<Flow>, b: seq<Flow>)
    requires a != [] && b != [] && a[0] == b[0] && AgreeByPriority(a, b)
    ensures AgreeByPriority(a[1..], b[1..])
  {
    forall p: nat ensures AtPriority(a[1..], p) == AtPriority(b[1..], p) {
      TailAtPriority(a, p);
      TailAtPriority(b, p);
    }
  }

  lemma {:induction false} TailAtPriority(rules: seq<Flow>, p: nat)
    requires rules != []
    ensures AtPriority(rules[1..], p) ==
            if rules[0].priority == p then AtPriority(rules, p)[1..] else AtPriority(rules, p)
  {}

  lemma SameHead(a: seq<Flow>, b: seq<Flow>)
    requires a != [] && b != [] && Descending(a) && Descending(b) && AgreeByPriority(a, b)
    ensures a[0] == b[0]
  {
    var p, q := a[0].priority, b[0].priority;
    AtPriorityNone(a, p);
    AtPriorityNone(a, q);
    AtPriorityNone(b, p);
    AtPriorityNone(b, q);
    assert AtPriority(a, p) == AtPriority(b, p) && AtPriority(a, q) == AtPriority(b, q);
    assert p == q;
    assert AtPriority(a, p)[0] == a[0] && AtPriority(b, p)[0] == b[0];
  }

  lemma {:induction false} FirstHitInsert(sorted: seq<Flow>, r: Flow, port: nat, fr: Frame)
    requires Descending(sorted)
    ensures var best := FirstHit(sorted, port, fr);
            FirstHit(InsertByPriority(sorted, r), port, fr) ==
            if Hits(r, port, fr) && (best.None? || best.value.priority < r.priority) then Some(r) else best
  {
    if sorted == [] {
    } else if sorted[0].priority < r.priority {
      FirstHitBound(sorted, port, fr);
      assert ([r] + sorted)[1..] == sorted;
    } else {
      FirstHitInsert(sorted[1..], r, port, fr);
      FirstHitBound(sorted, port, fr);
    }
  }

  lemma {:induction false} FirstHitBound(sorted: seq<Flow>, port: nat, fr: Frame)
    requires Descending(sorted) && sorted != []
    ensures FirstHit(sorted, port, fr).Some? ==> FirstHit(sorted, port, fr).value.priority <= sorted[0].priority
  {
    if !Hits(sorted[0], port, fr) && |sorted| > 1 {
      FirstHitBound(sorted[1..], port, fr);
    }
  }

  /** Walking the sorted table finds what Select finds in the pushed order: the stable reverse
      sort makes the earliest of equal priority win. */
  lemma {:induction false} SortedFirstHit(rules: seq<Flow>, port: nat, fr: Frame)
    ensures FirstHit(SortedByPriority(rules), port, fr) == Select(rules, port, fr)
  {
    if rules != [] {
      var n := |rules| - 1;
      SortedFirstHit(rules[..n], port, fr);
      SortedTable(rules[..n]);
      FirstHitInsert(SortedByPriority(rules[..n]), rules[n], port, fr);
    }
  }

  lemma {:induction false} ProcessFirstHit(rules: seq<Flow>, port: nat, fr: Frame)
    requires Matchable(rules, port, fr)
    ensures ProcessFrame(rules, port, fr) ==
            match FirstHit(rules, port, fr) case None => Ok(Dropped) case Some(r) => RunFlow(r, fr)
  {
    if rules != [] {
      assert rules[0] in rules;
      ProcessFirstHit(rules[1..], port, fr);
    }
  }

  /** install_flows then process_frame runs the best matching rule of the pushed table. */
  lemma {:induction false} ProcessSelects(rules: seq<Flow>, port: nat, fr: Frame)
    requires Matchable(rules, port, fr)
    ensures ProcessFrame(SortedByPriority(rules), port, fr) ==
            match Select(rules, port, fr) case None => Ok(Dropped) case Some(r) => RunFlow(r, fr)
  {
    SortedContents(rules);
    forall r | r in SortedByPriority(rules) ensures r in rules {
      assert r in multiset(SortedByPriority(rules));
    }
    ProcessFirstHit(SortedByPriority(rules), port, fr);
    SortedFirstHit(rules, port, fr);
  }

  // ----- tables built with setdefault-style deduplication -----

  predicate HasKey(rules: seq<Flow>, key: FlowKey) {
    exists r :: r in rules && KeyOf(r) == key
  }

  /** Each rule in turn is added unless a rule with its id is already there. */
  function AddNew(table: seq<Flow>, rules: seq<Flow>): seq<Flow>
    decreases rules
  {
    if rules == [] then table
    else if HasKey(table, KeyOf(rules[0])) then AddNew(table, rules[1..])
    else AddNew(table + [rules[0]], rules[1..])
  }

  lemma {:induction false} AddNewTwice(table: seq<Flow>, a: seq<Flow>, b: seq<Flow>)
    ensures AddNew(AddNew(table, a), b) == AddNew(table, a + b)
    decreases a
  {
    if a == [] {
      assert a + b == b;
    } else {
      assert (a + b)[1..] == a[1..] + b;
      if HasKey(table, KeyOf(a[0])) {
        AddNewTwice(table, a[1..], b);
      } else {
        AddNewTwice(table + [a[0]], a[1..], b);
      }
    }
  }

  /** A table in which the flow identifiers are the keys of an OrderedDict. */
  ghost predicate DistinctKeys(rules: seq<Flow>) {
    forall i, j :: 0 <= i < j < |rules| ==> KeyOf(rules[i]) != KeyOf(rules[j])
  }

  /** The table keeps its entries first and in order, gains only offered rules, ends up with
      every offered key, and never holds a key twice. */
  lemma {:induction false} AddNewContents(table: seq<Flow>, rules: seq<Flow>)
    ensures table <= AddNew(table, rules)
    ensures forall r :: r in AddNew(table, rules) ==> r in table || r in rules
    ensures forall r :: r in table || r in rules ==> HasKey(AddNew(table, rules), KeyOf(r))
    ensures DistinctKeys(table) ==> DistinctKeys(AddNew(table, rules))
    decreases rules
  {
    if rules != [] {
      var next := if HasKey(table, KeyOf(rules[0])) then table else table + [rules[0]];
      AddNewContents(next, rules[1..]);
      assert HasKey(next, KeyOf(rules[0])) by {
        if !HasKey(table, KeyOf(rules[0])) {
          assert rules[0] in next;
        }
      }
      forall r | r in table || r in rules ensures HasKey(AddNew(table, rules), KeyOf(r)) {
        if r in table {
          assert r in next;
        } else if r == rules[0] {
          var k :| k in next && KeyOf(k) == KeyOf(r);
          assert HasKey(AddNew(next, rules[1..]), KeyOf(k));
        } else {
          assert r in rules[1..];
        }
      }
    }
  }

  lemma {:induction false} SelectSplit(a: seq<Flow>, b: seq<Flow>, port: nat, fr: Frame)
    ensures var x, y := Select(a, port, fr), Select(b, port, fr);
            Select(a + b, port, fr) ==
            if y.Some? && (x.None? || x.value.priority < y.value.priority) then y else x
  {
    if b == [] {
      assert a + b == a;
    } else {
      var n := |b| - 1;
      SelectSplit(a, b[..n], port, fr);
      assert (a + b)[..|a + b| - 1] == a + b[..n];
      assert (a + b)[|a + b| - 1] == b[n];
    }
  }

  lemma {:induction false} SelectMember(rules: seq<Flow>, r: Flow, port: nat, fr: Frame)
    ensures Select(rules, port, fr).Some? ==>
              Select(rules, port, fr).value in rules && Hits(Select(rules, port, fr).value, port, fr)
    ensures r in rules && Hits(r, port, fr) ==>
              Select(rules, port, fr).Some? && r.priority <= Select(rules, port, fr).value.priority
  {
    if rules != [] {
      SelectMember(rules[..|rules| - 1], r, port, fr);
      assert rules == rules[..|rules| - 1] + [rules[|rules| - 1]];
    }
  }

  /** Dropping a rule whose identifier is already in the table never changes which rule fires,
      although the identifier ignores the actions. */
  lemma {:induction false} DedupIsTransparent(table: seq<Flow>, rules: seq<Flow>, port: nat, fr: Frame)
    ensures Select(AddNew(table, rules), port, fr) == Select(table + rules, port, fr)
    decreases rules
  {
    if rules == [] {
      assert table + rules == table;
    } else {
      var r := rules[0];
      assert table + rules == (table + [r]) + rules[1..];
      if HasKey(table, KeyOf(r)) {
        DedupIsTransparent(table, rules[1..], port, fr);
        var k :| k in table && KeyOf(k) == KeyOf(r);
        SelectMember(table, k, port, fr);
        assert (table + [r])[..|table|] == table;
        assert Select(table + [r], port, fr) == Select(table, port, fr);
        SelectSplit(table, rules[1..], port, fr);
        SelectSplit(table + [r], rules[1..], port, fr);
      } else {
        DedupIsTransparent(table + [r], rules[1..], port, fr);
      }
    }
  }
}
