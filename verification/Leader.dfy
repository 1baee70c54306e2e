/** Work reassignment by the leader (voltha/leader.py): assignments are keys of a key/value store,
    and the leader revokes and assigns them one operation at a time. */
module Leader {

  type Member = string
  type Work = string
  type Assignment = (Member, Work)

  datatype KvOp = Delete(a: Assignment) | Put(a: Assignment)

  function Apply(store: set<Assignment>, op: KvOp): set<Assignment> {
    match op
    case Delete(a) => store - {a}
    case Put(a) => store + {a}
  }

  function Replay(store: set<Assignment>, ops: seq<KvOp>): set<Assignment> {
    if ops == [] then store else Apply(Replay(store, ops[..|ops| - 1]), ops[|ops| - 1])
  }

  /** No work id has two owners. */
  ghost predicate SingleOwner(store: set<Assignment>) {
    forall a, b :: a in store && b in store && a.1 == b.1 ==> a == b
  }

  /** What the hash ring wants: each work id with the node the ring gives for it. */
  function Wanted(workload: seq<Work>, node: Work -> Member): set<Assignment> {
    set w | w in workload :: (node(w), w)
  }

  function Elements(s: seq<Assignment>): set<Assignment> {
    set a | a in s
  }

  ghost predicate NoDuplicates(s: seq<Assignment>) {
    forall i, j :: 0 <= i < j < |s| ==> s[i] != s[j]
  }

  /** The revocations and assignments of one run, in the order they were issued. */
  ghost predicate IsPlan(
    current: set<Assignment>, wanted: set<Assignment>, revoked: seq<Assignment>, granted: seq<Assignment>) {
    && NoDuplicates(revoked) && Elements(revoked) == current - wanted
    && NoDuplicates(granted) && Elements(granted) == wanted - current
  }

  function Ops(revoked: seq<Assignment>, granted: seq<Assignment>): seq<KvOp> {
    seq(|revoked| + |granted|, i requires 0 <= i < |revoked| + |granted| =>
      if i < |revoked| then Delete(revoked[i]) else Put(granted[i - |revoked|]))
  }

  /** The store after the first k operations of a plan: first revocations, then assignments. */
  function StoreAfter(
    current: set<Assignment>, revoked: seq<Assignment>, granted: seq<Assignment>, k: nat): set<Assignment>
    requires k <= |revoked| + |granted|
  {
    var i := if k <= |revoked| then k else |revoked|;
    current - Elements(revoked[..i]) + Elements(granted[..k - i])
  }

  lemma ElementsGrow(s: seq<Assignment>, k: nat)
    requires 0 < k <= |s|
    ensures Elements(s[..k]) == Elements(s[..k - 1]) + {s[k - 1]}
  {
    assert s[..k] == s[..k - 1] + [s[k - 1]];
  }

  lemma {:induction false} ReplayIsStoreAfter(
    current: set<Assignment>, wanted: set<Assignment>, revoked: seq<Assignment>, granted: seq<Assignment>, k: nat)
    requires IsPlan(current, wanted, revoked, granted) && k <= |revoked| + |granted|
    ensures Replay(current, Ops(revoked, granted)[..k]) == StoreAfter(current, revoked, granted, k)
  {
    var ops := Ops(revoked, granted);
    if k == 0 {
      assert Elements(revoked[..0]) == {} && Elements(granted[..0]) == {};
    } else {
      ReplayIsStoreAfter(current, wanted, revoked, granted, k - 1);
      assert ops[..k][..k - 1] == ops[..k - 1];
      if k <= |revoked| {
        ElementsGrow(revoked, k);
        assert Elements(granted[..0]) == {};
      } else {
        ElementsGrow(granted, k - |revoked|);
      }
    }
  }

  lemma {:induction false} ElementsCount(s: seq<Assignment>)
    requires NoDuplicates(s)
    ensures |Elements(s)| == |s|
  {
    if s != [] {
      var n := |s| - 1;
      ElementsCount(s[..n]);
      assert Elements(s) == Elements(s[..n]) + {s[n]};
      assert s[n] !in s[..n];
    }
  }

  lemma WantedHasSingleOwners(workload: seq<Work>, node: Work -> Member)
    ensures SingleOwner(Wanted(workload, node))
  {}

  /** Safety: if no work id has two owners at the start, none has after any single operation, and
      in the assigning phase none has however the run began. */
  lemma {:induction false} Safety(
    current: set<Assignment>, workload: seq<Work>, node: Work -> Member,
    revoked: seq<Assignment>, granted: seq<Assignment>, k: nat)
    requires IsPlan(current, Wanted(workload, node), revoked, granted) && k <= |revoked| + |granted|
    requires SingleOwner(current) || k >= |revoked|
    ensures SingleOwner(Replay(current, Ops(revoked, granted)[..k]))
  {
    var wanted := Wanted(workload, node);
    WantedHasSingleOwners(workload, node);
    ReplayIsStoreAfter(current, wanted, revoked, granted, k);
    var store := StoreAfter(current, revoked, granted, k);
    if k >= |revoked| {
      assert revoked[..|revoked|] == revoked;
      forall a | a in store ensures a in wanted {
        if a in granted[..k - |revoked|] {
          assert a in Elements(granted);
        } else {
          assert a in current && a !in Elements(revoked);
        }
      }
    } else {
      assert Elements(granted[..0]) == {};
      assert store <= current;
    }
  }

  /** Convergence: a completed run leaves exactly the wanted assignment, with exactly as many
      operations as the two assignments differ in. */
  lemma {:induction false} Convergence(
    current: set<Assignment>, wanted: set<Assignment>, revoked: seq<Assignment>, granted: seq<Assignment>)
    requires IsPlan(current, wanted, revoked, granted)
    ensures Replay(current, Ops(revoked, granted)) == wanted
    ensures |Ops(revoked, granted)| == |current - wanted| + |wanted - current|
  {
    var ops := Ops(revoked, granted);
    ReplayIsStoreAfter(current, wanted, revoked, granted, |ops|);
    assert ops[..|ops|] == ops && granted[..|granted|] == granted && revoked[..|revoked|] == revoked;
    ElementsCount(revoked);
    ElementsCount(granted);
    Closing(current, wanted);
  }

  lemma Closing(current: set<Assignment>, wanted: set<Assignment>)
    ensures current - (current - wanted) + (wanted - current) == wanted
  {}

  /** What is still to do after k operations of a plan. */
  lemma LeftToDo(
    current: set<Assignment>, wanted: set<Assignment>, revoked: seq<Assignment>, granted: seq<Assignment>, k: nat)
    requires IsPlan(current, wanted, revoked, granted) && k <= |revoked| + |granted|
    ensures var store, i := StoreAfter(current, revoked, granted, k), if k <= |revoked| then k else |revoked|;
            store - wanted == Elements(revoked[i..]) && wanted - store == Elements(granted[k - i..])
  {
    var i := if k <= |revoked| then k else |revoked|;
    ElementsSplit(revoked, i);
    ElementsSplit(granted, k - i);
    var gone, back := Elements(revoked[..i]), Elements(granted[..k - i]);
    assert gone <= current - wanted && back <= wanted - current by {
      assert forall a :: a in revoked[..i] ==> a in Elements(revoked);
      assert forall a :: a in granted[..k - i] ==> a in Elements(granted);
    }
    assert (current - gone + back) - wanted == (current - wanted) - gone;
    assert wanted - (current - gone + back) == (wanted - current) - back;
  }

  /** Interruption: whatever prefix of a run was carried out, a new run towards the same goal
      reaches it with exactly the operations that were missing. */
  lemma {:induction false} RerunAfterInterruption(
    current: set<Assignment>, wanted: set<Assignment>, revoked: seq<Assignment>, granted: seq<Assignment>,
                               k: nat, revoked': seq<Assignment>, granted': seq<Assignment>)
    requires IsPlan(current, wanted, revoked, granted) && k <= |revoked| + |granted|
    requires IsPlan(Replay(current, Ops(revoked, granted)[..k]), wanted, revoked', granted')
    ensures Replay(Replay(current, Ops(revoked, granted)[..k]), Ops(revoked', granted')) == wanted
    ensures k + |Ops(revoked', granted')| == |Ops(revoked, granted)|
  {
    ReplayIsStoreAfter(current, wanted, revoked, granted, k);
    Convergence(StoreAfter(current, revoked, granted, k), wanted, revoked', granted');
    CountLeft(current, wanted, revoked, granted, k);
  }

  lemma CountLeft(
    current: set<Assignment>, wanted: set<Assignment>, revoked: seq<Assignment>, granted: seq<Assignment>, k: nat)
    requires IsPlan(current, wanted, revoked, granted) && k <= |revoked| + |granted|
    ensures var store := StoreAfter(current, revoked, granted, k);
            k + |store - wanted| + |wanted - store| == |Ops(revoked, granted)|
  {
    LeftToDo(current, wanted, revoked, granted, k);
    var i := if k <= |revoked| then k else |revoked|;
    ElementsSplit(revoked, i);
    ElementsSplit(granted, k - i);
    ElementsCount(revoked[i..]);
    ElementsCount(granted[k - i..]);
  }

  lemma ElementsSplit(s: seq<Assignment>, k: nat)
    requires NoDuplicates(s) && k <= |s|
    ensures NoDuplicates(s[..k]) && NoDuplicates(s[k..])
    ensures Elements(s[k..]) == Elements(s) - Elements(s[..k])
  {
    assert s == s[..k] + s[k..];
    forall i, j | 0 <= i < k && 0 <= j < |s| - k ensures s[..k][i] != s[k..][j] {
      assert s[i] != s[k + j];
    }
  }

  // ----- the run -----

  type ByMember = map<Member, set<Work>>

  function WorkOf(m: ByMember, member: Member): set<Work> {
    if member in m then m[member] else {}
  }

  /** One more work id for a member, whose set is created on demand. */
  function Add(m: ByMember, member: Member, work: Work): ByMember {
    m[member := WorkOf(m, member) + {work}]
  }

  ghost predicate Groups(m: ByMember, pairs: set<Assignment>) {
    forall member, work :: work in WorkOf(m, member) <==> (member, work) in pairs
  }

  function Deletes(revoked: seq<Assignment>): seq<KvOp> {
    seq(|revoked|, i requires 0 <= i < |revoked| => Delete(revoked[i]))
  }

  function Puts(granted: seq<Assignment>): seq<KvOp> {
    seq(|granted|, i requires 0 <= i < |granted| => Put(granted[i]))
  }

  /** The stores that a sequence of operations goes through, one after each. */
  function Stores(store: set<Assignment>, ops: seq<KvOp>): seq<set<Assignment>> {
    seq(|ops|, k requires 0 <= k < |ops| => Replay(store, ops[..k + 1]))
  }

  lemma {:induction false} StoresGrow(store: set<Assignment>, ops: seq<KvOp>, op: KvOp)
    ensures Replay(store, ops + [op]) == Apply(Replay(store, ops), op)
    ensures Stores(store, ops + [op]) == Stores(store, ops) + [Apply(Replay(store, ops), op)]
  {
    var longer := ops + [op];
    assert longer[..|ops|] == ops && longer[..|ops| + 1] == longer;
    assert forall i :: 0 <= i <= |ops| ==> longer[..i] == ops[..i];
  }

  lemma {:induction false} StoresJoin(store: set<Assignment>, a: seq<KvOp>, b: seq<KvOp>)
    ensures Replay(store, a + b) == Replay(Replay(store, a), b)
    ensures Stores(store, a + b) == Stores(store, a) + Stores(Replay(store, a), b)
    decreases |b|
  {
    if b == [] {
      assert a + b == a;
    } else {
      var n := |b| - 1;
      StoresJoin(store, a, b[..n]);
      assert a + b == (a + b[..n]) + [b[n]] && b == b[..n] + [b[n]];
      StoresGrow(store, a + b[..n], b[n]);
      StoresGrow(Replay(store, a), b[..n], b[n]);
    }
  }

  lemma OneMore(s: seq<Assignment>, a: Assignment)
    requires NoDuplicates(s) && a !in s
    ensures NoDuplicates(s + [a]) && Elements(s + [a]) == Elements(s) + {a}
    ensures Deletes(s + [a]) == Deletes(s) + [Delete(a)] && Puts(s + [a]) == Puts(s) + [Put(a)]
  {}

  /** Safety over the stores of a whole run. */
  lemma RunIsSafe(current: set<Assignment>, workload: seq<Work>, node: Work -> Member,
                  revoked: seq<Assignment>, granted: seq<Assignment>)
    requires IsPlan(current, Wanted(workload, node), revoked, granted) && SingleOwner(current)
    ensures forall k :: 0 <= k < |revoked| + |granted| ==> SingleOwner(Stores(current, Ops(revoked, granted))[k])
  {
    forall k | 0 <= k < |revoked| + |granted| ensures SingleOwner(Stores(current, Ops(revoked, granted))[k]) {
      Safety(current, workload, node, revoked, granted, k + 1);
    }
  }

  /** The two phases of a run put together. */
  lemma {:induction false} PhasesMakeRun(
    current: set<Assignment>, workload: seq<Work>, node: Work -> Member,
    revoked: seq<Assignment>, granted: seq<Assignment>)
    requires IsPlan(current, Wanted(workload, node), revoked, granted)
    ensures Replay(Replay(current, Deletes(revoked)), Puts(granted)) == Wanted(workload, node)
    ensures Stores(current, Deletes(revoked)) + Stores(Replay(current, Deletes(revoked)), Puts(granted))
            == Stores(current, Ops(revoked, granted))
    ensures SingleOwner(current) ==>
              forall k :: 0 <= k < |revoked| + |granted| ==> SingleOwner(Stores(current, Ops(revoked, granted))[k])
  {
    assert Ops(revoked, granted) == Deletes(revoked) + Puts(granted);
    StoresJoin(current, Deletes(revoked), Puts(granted));
    Convergence(current, Wanted(workload, node), revoked, granted);
    if SingleOwner(current) {
      RunIsSafe(current, workload, node, revoked, granted);
    }
  }

  class LeaderNode {
    var members: seq<Member>
    var workload: seq<Work>
    var store: set<Assignment>                  // the assignment keys in the key/value store
    ghost var history: seq<set<Assignment>>     // the store after each operation on it

    /** Step 1: the wanted assignment, grouped by member. */
    method WantedByMember(node: Work -> Member) returns (wanted: ByMember)
      ensures Groups(wanted, Wanted(workload, node))
    {
      wanted := map[];
      for k := 0 to |workload|
        invariant Groups(wanted, Wanted(workload[..k], node))
      {
        var work := workload[k];
        assert workload[..k + 1] == workload[..k] + [work];
        wanted := Add(wanted, node(work), work);
      }
      assert workload[..|workload|] == workload;
    }

    /** Step 2: the current assignment, grouped by member, keys in any order. */
    method CurrentByMember() returns (current: ByMember)
      ensures Groups(current, store)
    {
      current := map[];
      var left := store;
      while left != {}
        invariant left <= store && Groups(current, store - left)
        decreases left
      {
        var a :| a in left;
        current := Add(current, a.0, a.1);
        left := left - {a};
      }
    }

    /** One deletion in the key/value store. */
    method KvDelete(a: Assignment)
      modifies this`store, this`history
      ensures store == Apply(old(store), Delete(a)) && history == old(history) + [store]
    {
      store := store - {a};
      history := history + [store];
    }

    /** One put in the key/value store. */
    method KvPut(a: Assignment)
      modifies this`store, this`history
      ensures store == Apply(old(store), Put(a)) && history == old(history) + [store]
    {
      store := store + {a};
      history := history + [store];
    }

    /** Steps 3 and 4: revoke first, then assign, member by member in any order. The store goes
        through what the plan says, operation by operation, and if no work id had two owners at
        the start, none has at any point of the run. */
    method ReassignWork(node: Work -> Member) returns (revoked: seq<Assignment>, granted: seq<Assignment>)
      requires forall w :: w in workload ==> node(w) in members
      modifies this`store, this`history
      ensures IsPlan(old(store), Wanted(workload, node), revoked, granted)
      ensures store == Wanted(workload, node)
      ensures history == old(history) + Stores(old(store), Ops(revoked, granted))
      ensures SingleOwner(old(store)) ==> forall k :: |old(history)| <= k < |history| ==> SingleOwner(history[k])
    {
      var wanted := WantedByMember(node);
      var current := CurrentByMember();
      ghost var goal := Wanted(workload, node);
      revoked := RevokePhase(current, wanted, goal);
      granted := AssignPhase(current, wanted, old(store), goal);
      PhasesMakeRun(old(store), workload, node, revoked, granted);
    }

    method RevokePhase(
      current: ByMember, wanted: ByMember, ghost goal: set<Assignment>) returns (revoked: seq<Assignment>)
      requires Groups(current, store) && Groups(wanted, goal)
      modifies this`store, this`history
      ensures NoDuplicates(revoked) && Elements(revoked) == old(store) - goal && store == old(store) - Elements(revoked)
      ensures store == Replay(old(store), Deletes(revoked))
      ensures history == old(history) + Stores(old(store), Deletes(revoked))
    {
      revoked := [];
      var left := current.Keys;
      assert Deletes([]) == [] && Stores(store, []) == [];
      while left != {}
        invariant left <= current.Keys
        invariant NoDuplicates(revoked) && store == old(store) - Elements(revoked)
        invariant forall a :: a in Elements(revoked) <==> a in old(store) - goal && a.0 !in left
        invariant store == Replay(old(store), Deletes(revoked))
        invariant history == old(history) + Stores(old(store), Deletes(revoked))
        decreases left
      {
        var member :| member in left;
        revoked := RevokeAll(member, current[member] - WorkOf(wanted, member), revoked, old(store), old(history));
        left := left - {member};
      }
    }

    method AssignPhase(current: ByMember, wanted: ByMember, ghost initial: set<Assignment>, ghost goal: set<Assignment>)
      returns (granted: seq<Assignment>)
      requires Groups(current, initial) && Groups(wanted, goal)
      modifies this`store, this`history
      ensures NoDuplicates(granted) && Elements(granted) == goal - initial && store == old(store) + Elements(granted)
      ensures store == Replay(old(store), Puts(granted))
      ensures history == old(history) + Stores(old(store), Puts(granted))
    {
      granted := [];
      var left := wanted.Keys;
      assert Puts([]) == [] && Stores(store, []) == [];
      while left != {}
        invariant left <= wanted.Keys
        invariant NoDuplicates(granted) && store == old(store) + Elements(granted)
        invariant forall a :: a in Elements(granted) <==> a in goal - initial && a.0 !in left
        invariant store == Replay(old(store), Puts(granted))
        invariant history == old(history) + Stores(old(store), Puts(granted))
        decreases left
      {
        var member :| member in left;
        granted := AssignAll(member, wanted[member] - WorkOf(current, member), granted, old(store), old(history));
        left := left - {member};
      }
    }

    method RevokeAll(member: Member, works: set<Work>, before: seq<Assignment>,
                     ghost initial: set<Assignment>, ghost base: seq<set<Assignment>>)
      returns (revoked: seq<Assignment>)
      requires NoDuplicates(before) && store == initial - Elements(before)
      requires store == Replay(initial, Deletes(before)) && history == base + Stores(initial, Deletes(before))
      requires forall a :: a in Elements(before) ==> a.0 != member
      modifies this`store, this`history
      ensures NoDuplicates(revoked) && store == initial - Elements(revoked)
      ensures forall a :: a in Elements(revoked) <==> a in Elements(before) || (a.0 == member && a.1 in works)
      ensures store == Replay(initial, Deletes(revoked)) && history == base + Stores(initial, Deletes(revoked))
    {
      revoked := before;
      var left := works;
      while left != {}
        invariant left <= works && NoDuplicates(revoked) && store == initial - Elements(revoked)
        invariant forall a :: a in Elements(revoked) <==>
            a in Elements(before) || (a.0 == member && a.1 in works - left)
        invariant store == Replay(initial, Deletes(revoked)) && history == base + Stores(initial, Deletes(revoked))
        decreases left
      {
        var work :| work in left;
        assert (member, work) !in Elements(revoked);
        OneMore(revoked, (member, work));
        StoresGrow(initial, Deletes(revoked), Delete((member, work)));
        KvDelete((member, work));
        revoked := revoked + [(member, work)];
        left := left - {work};
      }
    }

    method AssignAll(member: Member, works: set<Work>, before: seq<Assignment>,
                     ghost initial: set<Assignment>, ghost base: seq<set<Assignment>>)
      returns (granted: seq<Assignment>)
      requires NoDuplicates(before) && store == initial + Elements(before)
      requires store == Replay(initial, Puts(before)) && history == base + Stores(initial, Puts(before))
      requires forall a :: a in Elements(before) ==> a.0 != member
      modifies this`store, this`history
      ensures NoDuplicates(granted) && store == initial + Elements(granted)
      ensures forall a :: a in Elements(granted) <==> a in Elements(before) || (a.0 == member && a.1 in works)
      ensures store == Replay(initial, Puts(granted)) && history == base + Stores(initial, Puts(granted))
    {
      granted := before;
      var left := works;
      while left != {}
        invariant left <= works && NoDuplicates(granted) && store == initial + Elements(granted)
        invariant forall a :: a in Elements(granted) <==>
            a in Elements(before) || (a.0 == member && a.1 in works - left)
        invariant store == Replay(initial, Puts(granted)) && history == base + Stores(initial, Puts(granted))
        decreases left
      {
        var work :| work in left;
        assert (member, work) !in Elements(granted);
        OneMore(granted, (member, work));
        StoresGrow(initial, Puts(granted), Put((member, work)));
        KvPut((member, work));
        granted := granted + [(member, work)];
        left := left - {work};
      }
    }
  }
}
