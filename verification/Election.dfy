/** Election in an OpenFlow table (section 5.3 of the OpenFlow 1.3.0 specification): of the flows that
    want a frame the one of highest priority is taken, the earliest among equals. */
module Election {
  import opened Wrappers
  import opened OpenFlow

  ghost function Elect(flows: seq<Flow>, wanting: iset<Flow>): Option<Flow> {
    if flows == [] then None
    else
      var f := flows[|flows| - 1];
      var best := Elect(flows[..|flows| - 1], wanting);
      if f in wanting && (best.None? || best.value.priority < f.priority) then Some(f) else best
  }

  /** The flow is in the table at place k or before. */
  ghost predicate OccursBy(flows: seq<Flow>, f: Flow, k: int) {
    exists j :: 0 <= j <= k && j < |flows| && flows[j] == f
  }

  ghost predicate Contends(flows: seq<Flow>, others: iset<Flow>, k: int) {
    0 <= k < |flows| && flows[k] in others
  }

  /** None of the given flows outranks f: those in the table have a lower priority, or the same and
      come no earlier. */
  ghost predicate Leads(flows: seq<Flow>, f: Flow, others: iset<Flow>) {
    forall k :: Contends(flows, others, k) ==>
      flows[k].priority < f.priority || (flows[k].priority == f.priority && OccursBy(flows, f, k))
  }

  lemma {:induction false} ElectedWants(flows: seq<Flow>, wanting: iset<Flow>)
    ensures var best := Elect(flows, wanting);
            && (best.Some? ==> best.value in flows && best.value in wanting)
            && (best.None? <==> forall f :: f in flows ==> f !in wanting)
  {
    if flows != [] {
      var n := |flows| - 1;
      ElectedWants(flows[..n], wanting);
      assert forall f :: f in flows <==> f in flows[..n] || f == flows[n];
    }
  }

  lemma {:induction false} ElectedLeads(flows: seq<Flow>, wanting: iset<Flow>)
    ensures Elect(flows, wanting).Some? ==> Leads(flows, Elect(flows, wanting).value, wanting)
  {
    if flows != [] && Elect(flows, wanting).Some? {
      var n := |flows| - 1;
      ElectedLeads(flows[..n], wanting);
      ElectedWants(flows[..n], wanting);
      LeadsOneMore(flows, n, wanting);
    }
  }

  lemma {:induction false} LeadsOneMore(flows: seq<Flow>, n: nat, wanting: iset<Flow>)
    requires |flows| == n + 1 && Elect(flows, wanting).Some?
    requires var best := Elect(flows[..n], wanting);
             && (best.Some? ==> Leads(flows[..n], best.value, wanting))
             && (best.None? ==> forall f :: f in flows[..n] ==> f !in wanting)
    requires Elect(flows[..n], wanting).Some? ==> Elect(flows[..n], wanting).value in flows[..n]
    ensures Leads(flows, Elect(flows, wanting).value, wanting)
  {
    var before, best := Elect(flows[..n], wanting), Elect(flows, wanting).value;
    forall k | Contends(flows, wanting, k)
      ensures flows[k].priority < best.priority || (flows[k].priority == best.priority && OccursBy(flows, best, k))
    {
      if k < n {
        assert flows[..n][k] == flows[k] && flows[k] in flows[..n] && Contends(flows[..n], wanting, k);
        if OccursBy(flows[..n], before.value, k) {
          var j :| 0 <= j <= k && j < n && flows[..n][j] == before.value;
          assert flows[j] == before.value;
        }
      } else if best != flows[n] {
        var j :| 0 <= j < n && flows[..n][j] == best;
        assert flows[j] == best;
      } else {
        assert flows[k] == best;
      }
    }
  }

  /** Two flows that both lead each other's company are one. */
  lemma LeaderIsUnique(flows: seq<Flow>, wanting: iset<Flow>, a: Flow, b: Flow)
    requires a in flows && b in flows && a in wanting && b in wanting
    requires Leads(flows, a, wanting) && Leads(flows, b, wanting)
    ensures a == b
  {
    var i := FirstPlace(flows, a);
    var j := FirstPlace(flows, b);
    assert Contends(flows, wanting, i) && Contends(flows, wanting, j);
    assert a.priority == b.priority && OccursBy(flows, a, j) && OccursBy(flows, b, i);
    FirstIsEarliest(flows, a, i, j);
    FirstIsEarliest(flows, b, j, i);
    assert i == j;
  }

  lemma FirstIsEarliest(flows: seq<Flow>, f: Flow, i: nat, k: nat)
    requires i < |flows| && OccursBy(flows, f, k) && forall k :: 0 <= k < i ==> flows[k] != f
    ensures i <= k
  {}

  lemma FirstPlace(flows: seq<Flow>, f: Flow) returns (i: nat)
    requires f in flows
    ensures i < |flows| && flows[i] == f && forall k :: 0 <= k < i ==> flows[k] != f
  {
    i := 0;
    while flows[i] != f
      invariant i < |flows| && f in flows[i..]
      invariant forall k :: 0 <= k < i ==> flows[k] != f
      decreases |flows| - i
    {
      assert flows[i..] == [flows[i]] + flows[i + 1..];
      i := i + 1;
    }
  }

  /** What an election means: the elected flow is the one that wants the frame and leads all others
      that do. */
  lemma {:induction false} ElectedIffLeads(flows: seq<Flow>, wanting: iset<Flow>, f: Flow)
    ensures Elect(flows, wanting) == Some(f) <==> f in flows && f in wanting && Leads(flows, f, wanting)
  {
    ElectedWants(flows, wanting);
    ElectedLeads(flows, wanting);
    if f in flows && f in wanting && Leads(flows, f, wanting) {
      LeaderIsUnique(flows, wanting, f, Elect(flows, wanting).value);
    }
  }

  /** If fewer flows want the frame and the elected one still does, it is still elected. */
  lemma {:induction false} ElectedAmongFewer(flows: seq<Flow>, more: iset<Flow>, fewer: iset<Flow>)
    requires forall f :: f in flows && f in fewer ==> f in more
    ensures Elect(flows, more).Some? && Elect(flows, more).value in fewer ==> Elect(flows, fewer) == Elect(flows, more)
    ensures Elect(flows, more).None? ==> Elect(flows, fewer).None?
  {
    ElectedWants(flows, more);
    ElectedWants(flows, fewer);
    ElectedLeads(flows, more);
    var best := Elect(flows, more);
    if best.Some? && best.value in fewer {
      assert forall k :: Contends(flows, fewer, k) ==> Contends(flows, more, k) by {
        assert forall k :: 0 <= k < |flows| ==> flows[k] in flows;
      }
      ElectedIffLeads(flows, fewer, best.value);
    }
  }

  /** Two kinds of flows in one table: one is elected if it is among its kind and leads the other. */
  lemma {:induction false} ElectedOfTwoKinds(flows: seq<Flow>, these: iset<Flow>, those: iset<Flow>, f: Flow)
    requires f in these
    ensures Elect(flows, these + those) == Some(f) <==> Elect(flows, these) == Some(f) && Leads(flows, f, those)
  {
    ElectedIffLeads(flows, these + those, f);
    ElectedIffLeads(flows, these, f);
    LeadsBoth(flows, these, those, f);
  }

  lemma LeadsBoth(flows: seq<Flow>, these: iset<Flow>, those: iset<Flow>, f: Flow)
    ensures Leads(flows, f, these + those) <==> Leads(flows, f, these) && Leads(flows, f, those)
  {
    if Leads(flows, f, these + those) {
      assert forall k :: Contends(flows, these, k) || Contends(flows, those, k) ==> Contends(flows, these + those, k);
    }
  }
}
