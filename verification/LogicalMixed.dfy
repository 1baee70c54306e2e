/** Tables with all kinds of flows against the logical switch, downstream: exactly when a frame from the
    network goes where the elected flow says, and nowhere else. */
module LogicalMixed {
  import opened Wrappers
  import opened OpenFlow
  import opened Election
  import opened PonMachine
  import opened RuleSelection
  import opened Topology
  import opened FlowDecomposer
  import opened LoopFreedom
  import opened UnicastMeaning
  import opened UnicastForwarding
  import opened DownstreamForwarding
  import opened Multicast
  import opened LogicalSwitch
  import opened LogicalMulticast
  import opened MixedTables

  // ----- what the logical switch asks for -----

  ghost function GroupFlows(t: Tree, fr: Frame): iset<Flow> {
    iset f | IsGroupFlow(f) && IsMatch(f.fields, t.nni, fr) == Yes
  }

  /** The goto flows and the group flows whose whole match agrees with a frame at the NNI. */
  ghost function Forwarders(t: Tree, fr: Frame): iset<Flow> {
    OltTakers(t, Down, fr) + GroupFlows(t, fr)
  }

  datatype Request = ToTheController | Copies(result: Result<seq<(nat, Frame)>>)

  ghost function Requested(intent: Intent): Result<seq<(nat, Frame)>> {
    match intent
    case Send(Raised) => Raised
    case Send(Ok(out)) => Ok([out])
    case _ => Ok([])
  }

  /** The flow elected at the NNI sends the frame to the controller, to the buckets of its group, or
      to the next table. */
  ghost function LogicalAll(t: Tree, groups: map<nat, GroupEntry>, flows: seq<Flow>, fr: Frame): Request {
    match Elect(flows, Forwarders(t, fr) + Controllers(t, t.nni, fr))
    case None => Copies(Ok([]))
    case Some(f) =>
      if ControllerBound(t, f) then ToTheController
      else Copies(Forwarded(t, groups, flows, f, fr))
  }

  ghost function Forwarded(
    t: Tree, groups: map<nat, GroupEntry>, flows: seq<Flow>, f: Flow, fr: Frame): Result<seq<(nat, Frame)>>
  {
    if IsGroupFlow(f) then Ok(BucketResults(t, Buckets(f, groups), fr))
    else
      match Rewrite(FlowActions(f), fr)
      case Raised => Raised
      case Ok(fr1) => Requested(SecondAtNni(t, flows, fr1))
  }

  ghost predicate Grants(trace: Trace, request: Request) {
    match request
    case ToTheController => exists x :: Agrees(trace, Ok([(OLT_PORT, x)]))
    case Copies(Raised) => Agrees(trace, Raised)
    case Copies(Ok(asked)) => Delivers(trace, asked)
  }

  // ----- what the ONUs make of one object -----

  /** Some multicast flow that the ONU subscribes to has an IP half that matches the frame. */
  ghost predicate LeafTaken(t: Tree, groups: map<nat, GroupEntry>, flows: seq<Flow>, k: nat, fr: Frame)
    requires k < |t.onus|
  {
    exists m :: m in flows && IsGroupFlow(m) && Subscribed(t, groups, m, k) && LeafMatch(m, fr)
  }

  /** The ONUs with such a flow. */
  ghost function Takers(t: Tree, groups: map<nat, GroupEntry>, flows: seq<Flow>, fr: Frame): set<nat> {
    set k: nat | k < |t.onus| && LeafTaken(t, groups, flows, k, fr)
  }

  lemma TakersIgnoreVid(t: Tree, groups: map<nat, GroupEntry>, flows: seq<Flow>, fr: Frame)
    requires Tagged(fr)
    ensures Takers(t, groups, flows, WithVid(fr, 0)) == Takers(t, groups, flows, fr)
  {
    forall m ensures LeafMatch(m, WithVid(fr, 0)) <==> LeafMatch(m, fr) {
      assert forall x :: LeafField(x) ==> FieldVerdict(x, PON, WithVid(fr, 0)) == FieldVerdict(x, PON, fr);
    }
  }

  /** A stranger's frame is passed on if some flow takes it, and otherwise ignored; the owner always
      does something with it, and passes it on only if a flow takes it. */
  lemma TreatmentOf(t: Tree, groups: map<nat, GroupEntry>, flows: seq<Flow>, k: nat, fr: Frame)
    requires PonSimPorts(t) && MixedTable(t, groups, flows) && k < |t.onus|
    ensures var treatment := Treats(t, groups, flows, k, fr);
            && (!Owns(t.onus[k], fr) ==> treatment == if LeafTaken(t, groups, flows, k, fr) then Pass else Ignore)
            && (Owns(t.onus[k], fr) ==> treatment != Ignore)
            && (treatment == Pass ==> LeafTaken(t, groups, flows, k, fr))
  {
    ElectedWants(flows, OnuTakers(t, groups, k, fr));
    var chosen := OnuChosen(t, groups, flows, k, fr);
    if chosen.Some? {
      ChosenRuleRuns(t, groups, k, chosen.value, fr);
    }
    if m :| m in flows && IsGroupFlow(m) && Subscribed(t, groups, m, k) && LeafMatch(m, fr) {
      assert OnuWants(t, groups, k, m, fr);
    }
  }

  /** One copy of a frame for each taker in a range. */
  function Passed(takers: set<nat>, from: nat, end: nat, fr: Frame): seq<(nat, Frame)>
    requires from <= end
    decreases end - from
  {
    if from == end then []
    else CopyAt(takers, from, fr) + Passed(takers, from + 1, end, fr)
  }

  function CopyAt(takers: set<nat>, k: nat, fr: Frame): seq<(nat, Frame)> {
    if k in takers then [(OnuPort(k), fr)] else []
  }

  lemma {:induction false} PassedAt(takers: set<nat>, from: nat, end: nat, fr: Frame)
    requires from <= end
    ensures forall c :: c in Passed(takers, from, end, fr) ==> c.1 == fr && OnuPort(from) <= c.0 < OnuPort(end)
    decreases end - from
  {
    if from < end {
      PassedAt(takers, from + 1, end, fr);
    }
  }

  lemma {:induction false} PassedCounted(takers: set<nat>, from: nat, end: nat, k: nat, fr: Frame)
    requires from <= k < end
    ensures multiset(Passed(takers, from, end, fr))[(OnuPort(k), fr)] == if k in takers then 1 else 0
    decreases end - from
  {
    var tail := Passed(takers, from + 1, end, fr);
    PassedAt(takers, from + 1, end, fr);
    if from < k {
      PassedCounted(takers, from + 1, end, k, fr);
    } else {
      assert (OnuPort(k), fr) !in tail;
    }
    if from in takers {
      OneAndMore((OnuPort(from), fr), tail, (OnuPort(k), fr));
    } else {
      assert [] + tail == tail;
    }
  }

  lemma {:induction false} PassedNothing(takers: set<nat>, from: nat, end: nat, fr: Frame)
    requires from <= end
    ensures Passed(takers, from, end, fr) == [] <==> forall k :: from <= k < end ==> k !in takers
    decreases end - from
  {
    if from < end {
      PassedNothing(takers, from + 1, end, fr);
      var tail := Passed(takers, from + 1, end, fr);
      if from in takers {
        assert ([(OnuPort(from), fr)] + tail)[0] == (OnuPort(from), fr);
      } else {
        assert [] + tail == tail;
      }
    }
  }

  /** A single copy. */
  lemma {:induction false} PassedOnce(takers: set<nat>, end: nat, i: nat, fr: Frame, y: Frame)
    requires i < end && forall k :: k in takers ==> k < end
    ensures Passed(takers, 0, end, fr) == [(OnuPort(i), y)] <==> fr == y && takers == {i}
  {
    var made := Passed(takers, 0, end, fr);
    PassedAt(takers, 0, end, fr);
    if made == [(OnuPort(i), y)] {
      assert made[0] in made;
      forall k | 0 <= k < end ensures k in takers <==> k == i {
        PassedCounted(takers, 0, end, k, fr);
      }
    } else if fr == y && takers == {i} {
      OnlyCopy(0, end, i, fr);
    }
  }

  lemma {:induction false} OnlyCopy(from: nat, end: nat, i: nat, fr: Frame)
    requires from <= i < end
    ensures Passed({i}, from, end, fr) == [(OnuPort(i), fr)]
    decreases i - from
  {
    if from < i {
      OnlyCopy(from + 1, end, i, fr);
    } else {
      PassedNothing({i}, i + 1, end, fr);
    }
  }

  /** The owner of the frame's VLAN, if it takes the VLAN off. */
  ghost predicate Untagger(t: Tree, groups: map<nat, GroupEntry>, flows: seq<Flow>, o: nat, fr: Frame) {
    Owned(t, o, fr) && Treats(t, groups, flows, o, fr) == Untag
  }

  /** What ONU k adds to the output, and how the object goes on. */
  ghost predicate Steps(t: Tree, groups: map<nat, GroupEntry>, flows: seq<Flow>, k: nat, fr: Frame)
    requires k < |t.onus|
  {
    && (Untagger(t, groups, flows, k, fr) ==>
          MixedDelivered(t, groups, flows, k, fr) ==
          [(OnuPort(k), WithVid(fr, 0))] + MixedDelivered(t, groups, flows, k + 1, WithVid(fr, 0)))
    && (!Untagger(t, groups, flows, k, fr) ==>
          MixedDelivered(t, groups, flows, k, fr) ==
          CopyAt(Takers(t, groups, flows, fr), k, fr) + MixedDelivered(t, groups, flows, k + 1, fr))
  }

  ghost predicate AllStep(t: Tree, groups: map<nat, GroupEntry>, flows: seq<Flow>, fr: Frame) {
    forall k :: 0 <= k < |t.onus| ==> Steps(t, groups, flows, k, fr)
  }

  lemma EveryoneSteps(t: Tree, groups: map<nat, GroupEntry>, flows: seq<Flow>, fr: Frame)
    requires PonSimPorts(t) && MixedTable(t, groups, flows)
    ensures AllStep(t, groups, flows, fr)
  {
    forall k | 0 <= k < |t.onus| ensures Steps(t, groups, flows, k, fr) {
      TreatmentOf(t, groups, flows, k, fr);
    }
  }

  /** Without an untagger from some ONU on, the object goes by unchanged. */
  lemma {:induction false} DeliveredUnchanged(
    t: Tree, groups: map<nat, GroupEntry>, flows: seq<Flow>, k: nat, fr: Frame)
    requires AllStep(t, groups, flows, fr) && k <= |t.onus|
    requires forall o :: k <= o ==> !Untagger(t, groups, flows, o, fr)
    ensures MixedDelivered(t, groups, flows, k, fr) == Passed(Takers(t, groups, flows, fr), k, |t.onus|, fr)
    decreases |t.onus| - k
  {
    if k < |t.onus| {
      assert Steps(t, groups, flows, k, fr);
      DeliveredUnchanged(t, groups, flows, k + 1, fr);
    }
  }

  /** Copies of the frame before an ONU, and of the frame with VLAN 0 from there on. */
  function Around(takers: set<nat>, k: nat, o: nat, end: nat, fr: Frame, zero: Frame): seq<(nat, Frame)>
    requires k <= o < end
  {
    Passed(takers, k, o, fr) + ([(OnuPort(o), zero)] + Passed(takers, o + 1, end, zero))
  }

  lemma {:induction false} AroundStep(takers: set<nat>, k: nat, o: nat, end: nat, fr: Frame, zero: Frame)
    requires k <= o < end
    ensures k == o ==> Around(takers, k, o, end, fr, zero) == [(OnuPort(o), zero)] + Passed(takers, o + 1, end, zero)
    ensures k < o ==> Around(takers, k, o, end, fr, zero) ==
                      CopyAt(takers, k, fr) + Around(takers, k + 1, o, end, fr, zero)
  {
    if k < o {
      Reassociated(CopyAt(takers, k, fr), Passed(takers, k + 1, o, fr),
                  [(OnuPort(o), zero)] + Passed(takers, o + 1, end, zero));
    } else {
      assert Passed(takers, k, o, fr) == [];
    }
  }

  lemma {:induction false} DeliveredByOwner(t: Tree, groups: map<nat, GroupEntry>, flows: seq<Flow>, o: nat, fr: Frame)
    requires IsolatingVids(t) && Untagger(t, groups, flows, o, fr)
    requires AllStep(t, groups, flows, fr) && AllStep(t, groups, flows, WithVid(fr, 0))
    ensures MixedDelivered(t, groups, flows, o, fr) ==
            [(OnuPort(o), WithVid(fr, 0))] + Passed(Takers(t, groups, flows, fr), o + 1, |t.onus|, WithVid(fr, 0))
  {
    assert Steps(t, groups, flows, o, fr);
    NobodyOwnsZero(t, WithVid(fr, 0));
    TakersIgnoreVid(t, groups, flows, fr);
    DeliveredUnchanged(t, groups, flows, o + 1, WithVid(fr, 0));
  }

  lemma OnlyOneUntagger(t: Tree, groups: map<nat, GroupEntry>, flows: seq<Flow>, k: nat, o: nat, fr: Frame)
    requires IsolatingVids(t) && Untagger(t, groups, flows, o, fr) && k != o
    ensures !Untagger(t, groups, flows, k, fr)
  {}

  /** The same of any outputs that begin with one copy for each taker before the ONU. */
  lemma {:induction false} AroundFrom(
    takers: set<nat>, k: nat, o: nat, end: nat, fr: Frame, zero: Frame, outputs: seq<seq<(nat, Frame)>>)
    requires k <= o < end && |outputs| == end
    requires forall j :: k <= j < o ==> outputs[j] == CopyAt(takers, j, fr) + outputs[j + 1]
    requires outputs[o] == [(OnuPort(o), zero)] + Passed(takers, o + 1, end, zero)
    ensures outputs[k] == Around(takers, k, o, end, fr, zero)
    decreases o - k
  {
    AroundStep(takers, k, o, end, fr, zero);
    if k < o {
      AroundFrom(takers, k + 1, o, end, fr, zero, outputs);
    }
  }

  /** What the ONUs emit, with an untagger and without. */
  lemma {:induction false} DeliveredAround(t: Tree, groups: map<nat, GroupEntry>, flows: seq<Flow>, o: nat, fr: Frame)
    requires PonSimPorts(t) && MixedTable(t, groups, flows) && IsolatingVids(t) && Untagger(t, groups, flows, o, fr)
    ensures MixedDelivered(t, groups, flows, 0, fr) ==
            Around(Takers(t, groups, flows, fr), 0, o, |t.onus|, fr, WithVid(fr, 0))
  {
    EveryoneSteps(t, groups, flows, fr);
    EveryoneSteps(t, groups, flows, WithVid(fr, 0));
    var takers := Takers(t, groups, flows, fr);
    var outputs := seq(|t.onus|, k requires 0 <= k < |t.onus| => MixedDelivered(t, groups, flows, k, fr));
    forall j | 0 <= j < o ensures outputs[j] == CopyAt(takers, j, fr) + outputs[j + 1] {
      OnlyOneUntagger(t, groups, flows, j, o, fr);
      assert Steps(t, groups, flows, j, fr);
    }
    DeliveredByOwner(t, groups, flows, o, fr);
    AroundFrom(takers, 0, o, |t.onus|, fr, WithVid(fr, 0), outputs);
  }

  lemma {:induction false} DeliveredToTakers(t: Tree, groups: map<nat, GroupEntry>, flows: seq<Flow>, fr: Frame)
    requires PonSimPorts(t) && MixedTable(t, groups, flows) && forall o :: !Untagger(t, groups, flows, o, fr)
    ensures MixedDelivered(t, groups, flows, 0, fr) == Passed(Takers(t, groups, flows, fr), 0, |t.onus|, fr)
  {
    EveryoneSteps(t, groups, flows, fr);
    DeliveredUnchanged(t, groups, flows, 0, fr);
  }

  lemma NobodyOwnsZero(t: Tree, fr: Frame)
    requires IsolatingVids(t) && Tagged(fr) && fr.tags[0].vid == 0
    ensures Unowned(t, fr)
  {}

  // ----- nothing, one frame, the copies of a group -----

  /** Nobody owns the frame and nobody's flow takes it. */
  ghost predicate Silent(t: Tree, groups: map<nat, GroupEntry>, flows: seq<Flow>, fr: Frame) {
    Unowned(t, fr) && Takers(t, groups, flows, fr) == {}
  }

  lemma {:induction false} SilentMeaning(t: Tree, groups: map<nat, GroupEntry>, flows: seq<Flow>, fr: Frame)
    requires PonSimPorts(t) && MixedTable(t, groups, flows) && IsolatingVids(t)
    ensures MixedDelivered(t, groups, flows, 0, fr) == [] <==> Silent(t, groups, flows, fr)
  {
    if o: nat :| Untagger(t, groups, flows, o, fr) {
      DeliveredAround(t, groups, flows, o, fr);
    } else {
      DeliveredToTakers(t, groups, flows, fr);
      PassedNothing(Takers(t, groups, flows, fr), 0, |t.onus|, fr);
      forall o: nat | Owned(t, o, fr) ensures o in Takers(t, groups, flows, fr) {
        assert !Untagger(t, groups, flows, o, fr);
        TreatmentOf(t, groups, flows, o, fr);
      }
    }
  }

  /** The frame on the PON is the one the goto flow makes, its owner takes the VLAN off and nobody
      else's flow takes it; or it has VLAN 0 already and only that ONU's flow takes it. */
  ghost predicate PairServed(t: Tree, groups: map<nat, GroupEntry>, flows: seq<Flow>, i: nat, fr1: Frame, fr: Frame)
    requires Owned(t, i, fr1)
  {
    || (fr == fr1 && Untagger(t, groups, flows, i, fr) && Takers(t, groups, flows, fr) <= {i})
    || (fr == WithVid(fr1, 0) && Takers(t, groups, flows, fr) == {i})
  }

  lemma {:induction false} AroundIsOne(
    t: Tree, groups: map<nat, GroupEntry>, flows: seq<Flow>, o: nat, fr: Frame, c: (nat, Frame))
    requires PonSimPorts(t) && MixedTable(t, groups, flows) && IsolatingVids(t) && Untagger(t, groups, flows, o, fr)
    ensures MixedDelivered(t, groups, flows, 0, fr) == [c] <==>
            c == (OnuPort(o), WithVid(fr, 0)) && Takers(t, groups, flows, fr) <= {o}
  {
    DeliveredAround(t, groups, flows, o, fr);
    OnlyTheMiddle(Takers(t, groups, flows, fr), o, |t.onus|, fr, WithVid(fr, 0), c);
  }

  lemma OnlyTheMiddle(takers: set<nat>, o: nat, end: nat, fr: Frame, zero: Frame, c: (nat, Frame))
    requires o < end && forall k :: k in takers ==> k < end
    ensures Around(takers, 0, o, end, fr, zero) == [c] <==> c == (OnuPort(o), zero) && takers <= {o}
  {
    PassedNothing(takers, 0, o, fr);
    PassedNothing(takers, o + 1, end, zero);
    OneInTheMiddle(Passed(takers, 0, o, fr), (OnuPort(o), zero), Passed(takers, o + 1, end, zero), c);
  }

  lemma OneInTheMiddle<T>(a: seq<T>, x: T, b: seq<T>, c: T)
    ensures a + ([x] + b) == [c] <==> c == x && a == [] && b == []
  {
    var all := a + ([x] + b);
    assert |all| == |a| + 1 + |b|;
    if a == [] && b == [] {
      assert all == [x];
    }
  }

  lemma {:induction false} PairMeaning(
    t: Tree, groups: map<nat, GroupEntry>, flows: seq<Flow>, i: nat, fr1: Frame, fr: Frame)
    requires PonSimPorts(t) && MixedTable(t, groups, flows) && IsolatingVids(t) && Owned(t, i, fr1)
    ensures MixedDelivered(t, groups, flows, 0, fr) == [(OnuPort(i), WithVid(fr1, 0))] <==>
            PairServed(t, groups, flows, i, fr1, fr)
  {
    var y := WithVid(fr1, 0);
    if o: nat :| Untagger(t, groups, flows, o, fr) {
      AroundIsOne(t, groups, flows, o, fr, (OnuPort(i), y));
      SameOwnerSameFrame(t, i, o, fr1, fr);
      assert fr != y by {
        assert y.tags[0].vid == 0 && Vid(t.onus[o]) != 0;
      }
      assert fr == fr1 ==> o == i;
    } else {
      DeliveredToTakers(t, groups, flows, fr);
      PassedOnce(Takers(t, groups, flows, fr), |t.onus|, i, fr, y);
    }
  }

  ghost function Subscribers(t: Tree, groups: map<nat, GroupEntry>, m: Flow): set<nat> {
    set k: nat | k < |t.onus| && Subscribed(t, groups, m, k)
  }

  /** The frame keeps its VLAN, and the ONUs whose flows take it are those the group lists, each once. */
  ghost predicate GroupServed(t: Tree, groups: map<nat, GroupEntry>, flows: seq<Flow>, m: Flow, fr: Frame) {
    && (forall o :: !Untagger(t, groups, flows, o, fr))
    && EachBucketOnce(Buckets(m, groups))
    && Takers(t, groups, flows, fr) == Subscribers(t, groups, m)
  }

  lemma CountsOfGroup(t: Tree, groups: map<nat, GroupEntry>, m: Flow, takers: set<nat>)
    requires MulticastFlow(t, groups, m) && forall k :: k in takers ==> k < |t.onus|
    ensures (forall k :: 0 <= k < |t.onus| ==>
               multiset(Buckets(m, groups))[BucketFor(t, k)] == if k in takers then 1 else 0) <==>
            EachBucketOnce(Buckets(m, groups)) && takers == Subscribers(t, groups, m)
  {
    var buckets := Buckets(m, groups);
    if EachBucketOnce(buckets) {
      forall k | 0 <= k < |t.onus|
        ensures multiset(buckets)[BucketFor(t, k)] == if Subscribed(t, groups, m, k) then 1 else 0
      {
        OnceIsCountOne(buckets, BucketFor(t, k));
      }
    } else {
      var i, j :| 0 <= i < j < |buckets| && buckets[i] == buckets[j];
      TwiceIsCountTwo(buckets, i, j);
      assert buckets[i] in buckets && buckets[i] == [PopVlan, Output(buckets[i][1].port)];
      var k := OnuAt(t, buckets[i][1].port).value;
      assert BucketFor(t, k) == buckets[i];
    }
  }

  lemma {:induction false} PassedToGroup(t: Tree, groups: map<nat, GroupEntry>, m: Flow, takers: set<nat>, fr: Frame)
    requires ValidTree(t) && MulticastFlow(t, groups, m) && forall k :: k in takers ==> k < |t.onus|
    ensures multiset(Passed(takers, 0, |t.onus|, Pop(fr))) == multiset(BucketResults(t, Buckets(m, groups), fr)) <==>
            EachBucketOnce(Buckets(m, groups)) && takers == Subscribers(t, groups, m)
  {
    var made, asked := Passed(takers, 0, |t.onus|, Pop(fr)), BucketResults(t, Buckets(m, groups), fr);
    ResultsAtUnis(t, Buckets(m, groups), fr);
    PassedAt(takers, 0, |t.onus|, Pop(fr));
    SameCounts(t, made, asked, Pop(fr));
    forall k | 0 <= k < |t.onus|
      ensures multiset(made)[(OnuPort(k), Pop(fr))] == if k in takers then 1 else 0
      ensures multiset(asked)[(OnuPort(k), Pop(fr))] == multiset(Buckets(m, groups))[BucketFor(t, k)]
    {
      PassedCounted(takers, 0, |t.onus|, k, Pop(fr));
      ResultsCounted(t, Buckets(m, groups), fr, k);
    }
    CountsOfGroup(t, groups, m, takers);
  }

  lemma {:induction false} GroupMeaning(t: Tree, groups: map<nat, GroupEntry>, flows: seq<Flow>, m: Flow, fr: Frame)
    requires ValidTree(t) && PonSimPorts(t) && MixedTable(t, groups, flows) && IsolatingVids(t)
    requires MulticastFlow(t, groups, m)
    ensures multiset(MixedDelivered(t, groups, flows, 0, Pop(fr))) ==
            multiset(BucketResults(t, Buckets(m, groups), fr)) <==>
            GroupServed(t, groups, flows, m, Pop(fr))
  {
    if o: nat :| Untagger(t, groups, flows, o, Pop(fr)) {
      DeliveredAround(t, groups, flows, o, Pop(fr));
      ResultsAtUnis(t, Buckets(m, groups), fr);
      ZeroIsNotAsked(t, groups, flows, o, Pop(fr), BucketResults(t, Buckets(m, groups), fr));
    } else {
      DeliveredToTakers(t, groups, flows, Pop(fr));
      PassedToGroup(t, groups, m, Takers(t, groups, flows, Pop(fr)), fr);
    }
  }

  lemma {:induction false} ZeroIsNotAsked(
    t: Tree, groups: map<nat, GroupEntry>, flows: seq<Flow>, o: nat, x: Frame, asked: seq<(nat, Frame)>)
    requires IsolatingVids(t) && Untagger(t, groups, flows, o, x) && AtUnis(t, asked, x)
    requires (OnuPort(o), WithVid(x, 0)) in MixedDelivered(t, groups, flows, 0, x)
    ensures multiset(MixedDelivered(t, groups, flows, 0, x)) != multiset(asked)
  {
    var c := (OnuPort(o), WithVid(x, 0));
    assert WithVid(x, 0).tags[0].vid != x.tags[0].vid;
    assert c in multiset(MixedDelivered(t, groups, flows, 0, x)) && c !in asked;
  }

  // ----- the whole -----

  lemma ForwarderIsWanted(t: Tree, groups: map<nat, GroupEntry>, f: Flow, fr: Frame)
    requires MixedFlow(t, groups, f) && f in Forwarders(t, fr)
    ensures OltWants(t, Down, f, fr) && !ControllerBound(t, f) && (!IsGroupFlow(f) ==> DownstreamGoto(t, f))
  {
    Kinds(t, groups, f);
    if IsGroupFlow(f) {
      MatchIsConjunction(f.fields, t.nni, fr);
      assert forall x :: RootField(x) ==> FieldVerdict(x, EDGE, fr) == FieldVerdict(x, t.nni, fr);
    }
  }

  /** If the OLT elects a goto flow or none, so do the forwarders; and what it then puts on the PON is
      that flow's doing. Otherwise it puts the frame below the tag there. */
  lemma {:induction false} OltAndForwarders(t: Tree, groups: map<nat, GroupEntry>, flows: seq<Flow>, fr: Frame)
    requires MixedTable(t, groups, flows)
    ensures var n := Elect(flows, Forwarders(t, fr));
            && (n.Some? ==> n.value in flows && n.value in Forwarders(t, fr))
            && match OntoPon(t, flows, fr)
               case None => n.None?
               case Some(Raised) => n.Some? && !IsGroupFlow(n.value) && Rewrite(FlowActions(n.value), fr).Raised?
               case Some(Ok(x)) =>
                 x == Pop(fr) || (n.Some? && !IsGroupFlow(n.value) && Rewrite(FlowActions(n.value), fr) == Ok(x))
  {
    var wanting := MixedTakers(t, Down, fr);
    ElectedWants(flows, wanting);
    ElectedWants(flows, Forwarders(t, fr));
    forall f | f in flows && f in Forwarders(t, fr) ensures f in wanting {
      ForwarderIsWanted(t, groups, f, fr);
    }
    ElectedAmongFewer(flows, wanting, Forwarders(t, fr));
  }

  /** No controller-bound flow is elected at the NNI. */
  ghost predicate NoneForController(t: Tree, flows: seq<Flow>, fr: Frame) {
    var c := Elect(flows, Controllers(t, t.nni, fr));
    c.Some? ==> !Leads(flows, c.value, Forwarders(t, fr))
  }

  lemma {:induction false} ElectedForwarder(t: Tree, groups: map<nat, GroupEntry>, flows: seq<Flow>, fr: Frame)
    requires MixedTable(t, groups, flows)
    ensures var first := Elect(flows, Forwarders(t, fr) + Controllers(t, t.nni, fr));
            if NoneForController(t, flows, fr) then
              first == Elect(flows, Forwarders(t, fr)) && (first.Some? ==> !ControllerBound(t, first.value))
            else first.Some? && ControllerBound(t, first.value)
  {
    var these, those := Forwarders(t, fr), Controllers(t, t.nni, fr);
    var first, c := Elect(flows, these + those), Elect(flows, those);
    ElectedWants(flows, these + those);
    ElectedWants(flows, these);
    ElectedWants(flows, those);
    assert these + those == those + these;
    if c.Some? {
      ElectedOfTwoKinds(flows, those, these, c.value);
    }
    if first.Some? && first.value in these {
      ElectedOfTwoKinds(flows, these, those, first.value);
      ForwarderIsWanted(t, groups, first.value, fr);
    } else if first.Some? {
      ElectedOfTwoKinds(flows, those, these, first.value);
    }
  }

  /** The exact condition for a frame x on the PON when flow n is elected at the NNI, or none. */
  ghost predicate Served(
    t: Tree, groups: map<nat, GroupEntry>, flows: seq<Flow>, n: Option<Flow>, fr: Frame, x: Frame)
  {
    if n.None? then Silent(t, groups, flows, x)
    else if IsGroupFlow(n.value) then GroupServed(t, groups, flows, n.value, x)
    else
      match Rewrite(FlowActions(n.value), fr)
      case Raised => false
      case Ok(fr1) =>
        if SomeOutputWants(t, flows, fr1) then OwnerServed(t, groups, flows, fr1, x) else Silent(t, groups, flows, x)
  }

  ghost predicate OwnerServed(t: Tree, groups: map<nat, GroupEntry>, flows: seq<Flow>, fr1: Frame, x: Frame) {
    exists i: nat :: Owned(t, i, fr1) && PairServed(t, groups, flows, i, fr1, x)
  }

  ghost predicate MixedAsAsked(t: Tree, groups: map<nat, GroupEntry>, flows: seq<Flow>, fr: Frame) {
    && NoneForController(t, flows, fr)
    && match OntoPon(t, flows, fr)
       case None => true
       case Some(Raised) => true
       case Some(Ok(x)) => Served(t, groups, flows, Elect(flows, Forwarders(t, fr)), fr, x)
  }

  lemma OneInAnyOrder(a: seq<(nat, Frame)>, c: (nat, Frame))
    ensures multiset(a) == multiset([c]) <==> a == [c]
    ensures multiset(a) == multiset([]) <==> a == []
  {
    if multiset(a) == multiset([c]) {
      assert |a| == |multiset(a)| == 1;
      assert a[0] in multiset(a);
    }
    if multiset(a) == multiset([]) {
      assert |a| == |multiset(a)| == 0;
    }
  }

  lemma {:induction false} PairGranted(
    t: Tree, groups: map<nat, GroupEntry>, flows: seq<Flow>, i: nat, fr1: Frame, x: Frame, trace: Trace)
    requires PonSimPorts(t) && MixedTable(t, groups, flows) && IsolatingVids(t) && Owned(t, i, fr1)
    requires Agrees(trace, Ok(MixedDelivered(t, groups, flows, 0, x)))
    ensures Delivers(trace, [(OnuPort(i), WithVid(fr1, 0))]) <==> OwnerServed(t, groups, flows, fr1, x)
  {
    OneInAnyOrder(trace.out, (OnuPort(i), WithVid(fr1, 0)));
    PairMeaning(t, groups, flows, i, fr1, x);
    if OwnerServed(t, groups, flows, fr1, x) {
      var j: nat :| Owned(t, j, fr1) && PairServed(t, groups, flows, j, fr1, x);
      assert j == i;
    }
  }

  lemma {:induction false} SilenceGranted(
    t: Tree, groups: map<nat, GroupEntry>, flows: seq<Flow>, x: Frame, trace: Trace)
    requires PonSimPorts(t) && MixedTable(t, groups, flows) && IsolatingVids(t)
    requires Agrees(trace, Ok(MixedDelivered(t, groups, flows, 0, x)))
    ensures Delivers(trace, []) <==> Silent(t, groups, flows, x)
  {
    SilentMeaning(t, groups, flows, x);
    OneInAnyOrder(trace.out, (0, x));
  }

  /** The second table's request, granted by what the ONUs make of the object. */
  lemma SecondGranted(t: Tree, groups: map<nat, GroupEntry>, flows: seq<Flow>, fr1: Frame, x: Frame, trace: Trace)
    requires AllSupported(flows) && IsolatingVids(t)
    requires forall i: nat :: Owned(t, i, fr1) ==>
               (Delivers(trace, [(OnuPort(i), WithVid(fr1, 0))]) <==> OwnerServed(t, groups, flows, fr1, x))
    requires Delivers(trace, []) <==> Silent(t, groups, flows, x)
    ensures Grants(trace, Copies(Requested(SecondAtNni(t, flows, fr1)))) <==>
            if SomeOutputWants(t, flows, fr1) then OwnerServed(t, groups, flows, fr1, x)
            else Silent(t, groups, flows, x)
  {
    SecondMeaning(t, flows, fr1);
  }

  lemma {:induction false} PassedOnGranted(
    t: Tree, groups: map<nat, GroupEntry>, flows: seq<Flow>, fr1: Frame, x: Frame, trace: Trace)
    requires PonSimPorts(t) && MixedTable(t, groups, flows) && IsolatingVids(t)
    requires Agrees(trace, Ok(MixedDelivered(t, groups, flows, 0, x)))
    ensures Grants(trace, Copies(Requested(SecondAtNni(t, flows, fr1)))) <==>
            if SomeOutputWants(t, flows, fr1) then OwnerServed(t, groups, flows, fr1, x)
            else Silent(t, groups, flows, x)
  {
    MixedIsSupported(t, groups, flows);
    forall i: nat | Owned(t, i, fr1)
      ensures Delivers(trace, [(OnuPort(i), WithVid(fr1, 0))]) <==> OwnerServed(t, groups, flows, fr1, x)
    {
      PairGranted(t, groups, flows, i, fr1, x, trace);
    }
    SilenceGranted(t, groups, flows, x, trace);
    SecondGranted(t, groups, flows, fr1, x, trace);
  }

  lemma {:induction false} ServedMeaning(
    t: Tree, groups: map<nat, GroupEntry>, flows: seq<Flow>, f: Flow, fr: Frame, x: Frame, trace: Trace)
    requires ValidTree(t) && PonSimPorts(t) && MixedTable(t, groups, flows) && IsolatingVids(t)
    requires f in flows && (IsGroupFlow(f) ==> x == Pop(fr))
    requires Agrees(trace, Ok(MixedDelivered(t, groups, flows, 0, x)))
    ensures Grants(trace, Copies(Forwarded(t, groups, flows, f, fr))) <==> Served(t, groups, flows, Some(f), fr, x)
  {
    if IsGroupFlow(f) {
      Kinds(t, groups, f);
      GroupMeaning(t, groups, flows, f, fr);
    } else if Rewrite(FlowActions(f), fr).Ok? {
      PassedOnGranted(t, groups, flows, Rewrite(FlowActions(f), fr).value, x, trace);
    }
  }

  /** Downstream meaning, and its exact limit, for any table of unicast, controller-bound and multicast
      flows and any frame at the NNI. */
  lemma {:induction false} MixedDownstreamMeaning(
    r: Routes, t: Tree, flows: seq<Flow>, groups: seq<GroupEntry>, fr: Frame, depth: nat)
    requires Serves(r, t) && PonSimPorts(t) && MixedTable(t, GroupMap(groups), flows) && depth >= 2 && IsolatingVids(t)
    ensures Grants(Inject(InstalledNet(t, MulticastTables(r, t, flows, groups)), 0, fr, depth),
                   LogicalAll(t, GroupMap(groups), flows, fr))
            <==> MixedAsAsked(t, GroupMap(groups), flows, fr)
  {
    MixedDownstreamExact(r, t, flows, groups, fr, depth);
    MixedDecomposes(r, t, flows, GroupMap(groups));
    DecomposedTablesCross(r, t, flows, groups, 0, fr, depth);
    ResultGrants(t, GroupMap(groups), flows, fr,
                 Inject(InstalledNet(t, MulticastTables(r, t, flows, groups)), 0, fr, depth));
  }

  lemma ResultGrants(t: Tree, groups: map<nat, GroupEntry>, flows: seq<Flow>, fr: Frame, trace: Trace)
    requires ValidTree(t) && PonSimPorts(t) && MixedTable(t, groups, flows) && IsolatingVids(t)
    requires Agrees(trace, MixedDownstream(t, groups, flows, fr)) && NothingAtNni(trace)
    ensures Grants(trace, LogicalAll(t, groups, flows, fr)) <==> MixedAsAsked(t, groups, flows, fr)
  {
    forall x ensures !Agrees(trace, Ok([(OLT_PORT, x)])) {
      NothingAtNniMisses(trace, x);
    }
    ElectedForwarder(t, groups, flows, fr);
    OltAndForwarders(t, groups, flows, fr);
    var n := Elect(flows, Forwarders(t, fr));
    match OntoPon(t, flows, fr)
    case None =>
    case Some(Raised) =>
    case Some(Ok(x)) =>
      if n.Some? {
        ServedMeaning(t, groups, flows, n.value, fr, x, trace);
      } else {
        SilenceGranted(t, groups, flows, x, trace);
      }
  }
}
