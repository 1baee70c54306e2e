/** Multicast against the logical switch: the buckets of the elected flow ask for copies, and the
    decomposed tables make exactly those copies under exactly these conditions. */
module LogicalMulticast {
  import opened Wrappers
  import opened OpenFlow
  import opened Election
  import opened PonMachine
  import opened RuleSelection
  import opened Topology
  import opened FlowDecomposer
  import opened LoopFreedom
  import opened UnicastMeaning
  import opened UnicastForwarding
  import opened DownstreamForwarding
  import opened Multicast

  // ----- what the logical switch asks for -----

  /** A bucket runs its actions on a frame of its own, which leaves where they say. */
  function BucketResult(t: Tree, b: Bucket, fr: Frame): seq<(nat, Frame)> {
    match RunActions(b, Start(fr))
    case Raised => []
    case Ok(s) =>
      if s.egress.Some? && OnuAt(t, s.egress.value).Some?
      then [(OnuPort(OnuAt(t, s.egress.value).value), s.cur)] else []
  }

  function BucketResults(t: Tree, buckets: seq<Bucket>, fr: Frame): seq<(nat, Frame)> {
    if buckets == [] then [] else BucketResult(t, buckets[0], fr) + BucketResults(t, buckets[1..], fr)
  }

  /** The matching flow of highest priority, and it alone, sends the frame to its group's buckets,
      once for each. */
  ghost function LogicalCopies(t: Tree, groups: map<nat, GroupEntry>, flows: seq<Flow>, fr: Frame): seq<(nat, Frame)> {
    match Select(flows, t.nni, fr)
    case None => []
    case Some(m) => BucketResults(t, Buckets(m, groups), fr)
  }

  /** What is emitted is what is asked for, in whatever order. */
  predicate Delivers(trace: Trace, asked: seq<(nat, Frame)>) {
    trace.status == Done && multiset(trace.out) == multiset(asked)
  }

  ghost predicate DeliversAsAsked(
    r: Routes, t: Tree, flows: seq<Flow>, groups: seq<GroupEntry>, fr: Frame, depth: nat)
    requires depth >= 2
  {
    Delivers(Inject(InstalledNet(t, MulticastTables(r, t, flows, groups)), 0, fr, depth),
             LogicalCopies(t, GroupMap(groups), flows, fr))
  }

  // ----- counting copies -----

  function BucketFor(t: Tree, k: nat): Bucket
    requires k < |t.onus|
  {
    [PopVlan, Output(t.onus[k].uni)]
  }

  lemma PopBucketResult(t: Tree, b: Bucket, fr: Frame)
    requires PopToUni(t, b)
    ensures BucketResult(t, b, fr) == [(OnuPort(OnuAt(t, b[1].port).value), Pop(fr))]
  {
    assert b == [PopVlan, b[1]] && b[1..] == [b[1]] && b[1..][1..] == [];
    var s := RunAction(PopVlan, Start(fr)).value;
    assert RunActions([], s.(egress := Some(b[1].port))) == Ok(s.(egress := Some(b[1].port)));
    assert RunActions([b[1]], s) == Ok(s.(egress := Some(b[1].port)));
  }

  /** As many copies as buckets. */
  lemma {:induction false} ResultsCounted(t: Tree, buckets: seq<Bucket>, fr: Frame, k: nat)
    requires ValidTree(t) && (forall b :: b in buckets ==> PopToUni(t, b)) && k < |t.onus|
    ensures multiset(BucketResults(t, buckets, fr))[(OnuPort(k), Pop(fr))] == multiset(buckets)[BucketFor(t, k)]
  {
    if buckets != [] {
      var b, tail := buckets[0], BucketResults(t, buckets[1..], fr);
      assert b in buckets;
      PopBucketResult(t, b, fr);
      ResultsCounted(t, buckets[1..], fr, k);
      SameSubscriber(t, b, k);
      OneAndMore((OnuPort(OnuAt(t, b[1].port).value), Pop(fr)), tail, (OnuPort(k), Pop(fr)));
      OneAndMore(b, buckets[1..], BucketFor(t, k));
      assert buckets == [b] + buckets[1..];
    }
  }

  lemma OneAndMore<T>(first: T, rest: seq<T>, x: T)
    ensures multiset([first] + rest)[x] == multiset(rest)[x] + if first == x then 1 else 0
  {
    assert multiset([first] + rest) == multiset([first]) + multiset(rest);
  }

  lemma PerhapsOneMore<T>(taken: bool, first: T, rest: seq<T>, x: T)
    ensures multiset((if taken then [first] else []) + rest)[x] ==
            multiset(rest)[x] + if taken && first == x then 1 else 0
  {
    OneAndMore(first, rest, x);
    assert [] + rest == rest;
  }

  lemma SameSubscriber(t: Tree, b: Bucket, k: nat)
    requires ValidTree(t) && PopToUni(t, b) && k < |t.onus|
    ensures OnuAt(t, b[1].port) == Some(k) <==> b == BucketFor(t, k)
  {
    assert b == [PopVlan, Output(b[1].port)];
  }

  ghost predicate AtUnis(t: Tree, copies: seq<(nat, Frame)>, fr: Frame) {
    forall c :: c in copies ==> c.1 == fr && OnuPort(0) <= c.0 < OnuPort(|t.onus|)
  }

  lemma {:induction false} ResultsAtUnis(t: Tree, buckets: seq<Bucket>, fr: Frame)
    requires forall b :: b in buckets ==> PopToUni(t, b)
    ensures AtUnis(t, BucketResults(t, buckets, fr), Pop(fr))
  {
    if buckets != [] {
      assert buckets[0] in buckets;
      PopBucketResult(t, buckets[0], fr);
      ResultsAtUnis(t, buckets[1..], fr);
    }
  }

  lemma {:induction false} CopiesAtUnis(t: Tree, groups: map<nat, GroupEntry>, flows: seq<Flow>, k: nat, fr: Frame)
    requires k <= |t.onus|
    ensures forall c :: c in Copies(t, groups, flows, k, fr) ==> c.1 == fr && OnuPort(k) <= c.0 < OnuPort(|t.onus|)
    decreases |t.onus| - k
  {
    if k < |t.onus| {
      CopiesAtUnis(t, groups, flows, k + 1, fr);
    }
  }

  /** One copy for each ONU that takes the frame. */
  lemma {:induction false} CopiesCounted(
    t: Tree, groups: map<nat, GroupEntry>, flows: seq<Flow>, from: nat, k: nat, fr: Frame)
    requires from <= k < |t.onus|
    ensures multiset(Copies(t, groups, flows, from, fr))[(OnuPort(k), fr)] ==
            if Takes(t, groups, flows, k, fr) then 1 else 0
    decreases |t.onus| - from
  {
    var rest := Copies(t, groups, flows, from + 1, fr);
    PerhapsOneMore(Takes(t, groups, flows, from, fr), (OnuPort(from), fr), rest, (OnuPort(k), fr));
    if from < k {
      CopiesCounted(t, groups, flows, from + 1, k, fr);
    } else {
      CopiesAtUnis(t, groups, flows, from + 1, fr);
      assert (OnuPort(k), fr) !in rest;
    }
  }

  lemma SameCounts(t: Tree, a: seq<(nat, Frame)>, b: seq<(nat, Frame)>, fr: Frame)
    requires AtUnis(t, a, fr) && AtUnis(t, b, fr)
    ensures multiset(a) == multiset(b) <==>
            forall k :: 0 <= k < |t.onus| ==> multiset(a)[(OnuPort(k), fr)] == multiset(b)[(OnuPort(k), fr)]
  {
    if forall k :: 0 <= k < |t.onus| ==> multiset(a)[(OnuPort(k), fr)] == multiset(b)[(OnuPort(k), fr)] {
      forall c: (nat, Frame) ensures multiset(a)[c] == multiset(b)[c] {
        if c in a || c in b {
          var k := c.0 - OnuPort(0);
          assert c == (OnuPort(k), fr);
        }
      }
      assert multiset(a) == multiset(b);
    }
  }

  // ----- the exact condition, frame by frame -----

  /** No bucket is listed twice. */
  ghost predicate EachBucketOnce(buckets: seq<Bucket>) {
    forall i, j :: 0 <= i < j < |buckets| ==> buckets[i] != buckets[j]
  }

  /** Whoever subscribes to a flow whose IP half the frame passes also subscribes to the elected
      flow, which lists nobody twice; if no flow is elected, nobody subscribes to such a flow, or the
      frame has no VLAN that would let it onto the PON. */
  ghost predicate Undisturbed(t: Tree, groups: map<nat, GroupEntry>, flows: seq<Flow>, fr: Frame) {
    match Select(flows, t.nni, fr)
    case None =>
      OnPon(flows, fr) ==>
        forall m, k :: m in flows && LeafMatch(m, Pop(fr)) && 0 <= k < |t.onus| ==> !Subscribed(t, groups, m, k)
    case Some(e) =>
      && EachBucketOnce(Buckets(e, groups))
      && forall m, k :: m in flows && LeafMatch(m, Pop(fr)) && 0 <= k < |t.onus| && Subscribed(t, groups, m, k) ==>
           Subscribed(t, groups, e, k)
  }

  ghost function Asked(t: Tree, groups: map<nat, GroupEntry>, flows: seq<Flow>, fr: Frame, k: nat): nat
    requires k < |t.onus|
  {
    match Select(flows, t.nni, fr)
    case None => 0
    case Some(e) => multiset(Buckets(e, groups))[BucketFor(t, k)]
  }

  ghost function Made(t: Tree, groups: map<nat, GroupEntry>, flows: seq<Flow>, fr: Frame, k: nat): nat
    requires k < |t.onus|
  {
    if OnPon(flows, fr) && Takes(t, groups, flows, k, Pop(fr)) then 1 else 0
  }

  lemma {:induction false} OnceIsCountOne(buckets: seq<Bucket>, b: Bucket)
    requires EachBucketOnce(buckets)
    ensures multiset(buckets)[b] == if b in buckets then 1 else 0
  {
    if buckets != [] {
      var n := |buckets| - 1;
      OnceIsCountOne(buckets[..n], b);
      assert buckets == buckets[..n] + [buckets[n]];
      assert buckets[n] !in buckets[..n];
    }
  }

  lemma TwiceIsCountTwo(buckets: seq<Bucket>, i: nat, j: nat)
    requires i < j < |buckets| && buckets[i] == buckets[j]
    ensures multiset(buckets)[buckets[i]] >= 2
  {
    assert buckets == buckets[..j] + [buckets[j]] + buckets[j + 1..];
    assert buckets[..j] == buckets[..i] + [buckets[i]] + buckets[i + 1..j];
  }

  lemma {:induction false} ElectedIsDelivered(
    t: Tree, groups: map<nat, GroupEntry>, flows: seq<Flow>, e: Flow, fr: Frame)
    requires MulticastTable(t, groups, flows) && |fr.tags| == 1 && Select(flows, t.nni, fr) == Some(e)
    ensures e in flows && OnPon(flows, fr) && LeafMatch(e, Pop(fr))
  {
    SelectMember(flows, e, t.nni, fr);
    MatchInHalves(t, e, fr);
  }

  lemma {:induction false} CountsAgreeForElected(
    t: Tree, groups: map<nat, GroupEntry>, flows: seq<Flow>, e: Flow, fr: Frame)
    requires ValidTree(t) && MulticastTable(t, groups, flows) && |fr.tags| == 1 && Select(flows, t.nni, fr) == Some(e)
    ensures (forall k :: 0 <= k < |t.onus| ==> Made(t, groups, flows, fr, k) == Asked(t, groups, flows, fr, k)) <==>
            Undisturbed(t, groups, flows, fr)
  {
    ElectedIsDelivered(t, groups, flows, e, fr);
    var buckets := Buckets(e, groups);
    if Undisturbed(t, groups, flows, fr) {
      forall k | 0 <= k < |t.onus| ensures Made(t, groups, flows, fr, k) == Asked(t, groups, flows, fr, k) {
        OnceIsCountOne(buckets, BucketFor(t, k));
      }
    } else if i, j :| 0 <= i < j < |buckets| && buckets[i] == buckets[j] {
      TwiceIsCountTwo(buckets, i, j);
      assert buckets[i] in buckets && buckets[i] == [PopVlan, Output(buckets[i][1].port)];
      var k := OnuAt(t, buckets[i][1].port).value;
      assert BucketFor(t, k) == buckets[i];
      assert Asked(t, groups, flows, fr, k) >= 2;
    } else {
      var m, k :| m in flows && LeafMatch(m, Pop(fr)) && 0 <= k < |t.onus| && Subscribed(t, groups, m, k)
        && !Subscribed(t, groups, e, k);
      assert Made(t, groups, flows, fr, k) == 1 && Asked(t, groups, flows, fr, k) == 0;
    }
  }

  lemma {:induction false} CountsAgreeForNone(t: Tree, groups: map<nat, GroupEntry>, flows: seq<Flow>, fr: Frame)
    requires Select(flows, t.nni, fr).None?
    ensures (forall k :: 0 <= k < |t.onus| ==> Made(t, groups, flows, fr, k) == Asked(t, groups, flows, fr, k)) <==>
            Undisturbed(t, groups, flows, fr)
  {
    if !Undisturbed(t, groups, flows, fr) {
      var m, k :| m in flows && LeafMatch(m, Pop(fr)) && 0 <= k < |t.onus| && Subscribed(t, groups, m, k);
      assert Made(t, groups, flows, fr, k) == 1;
    }
  }

  lemma {:induction false} CopiesCompared(t: Tree, groups: map<nat, GroupEntry>, flows: seq<Flow>, fr: Frame)
    requires ValidTree(t) && MulticastTable(t, groups, flows) && |fr.tags| == 1
    ensures var out := if OnPon(flows, fr) then Copies(t, groups, flows, 0, Pop(fr)) else [];
            multiset(out) == multiset(LogicalCopies(t, groups, flows, fr)) <==>
            forall k :: 0 <= k < |t.onus| ==> Made(t, groups, flows, fr, k) == Asked(t, groups, flows, fr, k)
  {
    var out := if OnPon(flows, fr) then Copies(t, groups, flows, 0, Pop(fr)) else [];
    var asked := LogicalCopies(t, groups, flows, fr);
    CopiesAtUnis(t, groups, flows, 0, Pop(fr));
    var elected := Select(flows, t.nni, fr);
    if elected.Some? {
      SelectMember(flows, elected.value, t.nni, fr);
      ResultsAtUnis(t, Buckets(elected.value, groups), fr);
    }
    SameCounts(t, out, asked, Pop(fr));
    forall k | 0 <= k < |t.onus|
      ensures multiset(out)[(OnuPort(k), Pop(fr))] == Made(t, groups, flows, fr, k)
      ensures multiset(asked)[(OnuPort(k), Pop(fr))] == Asked(t, groups, flows, fr, k)
    {
      CopiesCounted(t, groups, flows, 0, k, Pop(fr));
      if elected.Some? {
        ResultsCounted(t, Buckets(elected.value, groups), fr, k);
      }
    }
  }

  /** Multicast meaning, and its exact limit, for any table of multicast flows and any single-tagged
      frame: the buckets of the elected flow get one untagged copy each, and nobody else gets one,
      if and only if the frame is undisturbed. */
  lemma {:induction false} MulticastMeaning(
    r: Routes, t: Tree, flows: seq<Flow>, groups: seq<GroupEntry>, fr: Frame, depth: nat)
    requires Serves(r, t) && PonSimPorts(t) && MulticastTable(t, GroupMap(groups), flows) && |t.onus| > 0
    requires |fr.tags| == 1 && depth >= 2
    ensures DeliversAsAsked(r, t, flows, groups, fr, depth) <==> Undisturbed(t, GroupMap(groups), flows, fr)
  {
    MulticastExact(r, t, flows, groups, fr, depth);
    CopiesCompared(t, GroupMap(groups), flows, fr);
    match Select(flows, t.nni, fr)
    case None => CountsAgreeForNone(t, GroupMap(groups), flows, fr);
    case Some(e) => CountsAgreeForElected(t, GroupMap(groups), flows, e, fr);
  }

  /** All flows ask the OLT for the same thing, as flows on one multicast VLAN do. */
  ghost predicate OneVlan(flows: seq<Flow>) {
    forall m, m', x :: m in flows && m' in flows && x in m.fields && RootField(x) ==> x in m'.fields
  }

  lemma {:induction false} OneVlanMatch(t: Tree, groups: map<nat, GroupEntry>, flows: seq<Flow>, m: Flow, fr: Frame)
    requires MulticastTable(t, groups, flows) && OneVlan(flows) && m in flows && |fr.tags| == 1 && !InBandTag(fr)
    requires OnPon(flows, fr) && LeafMatch(m, Pop(fr))
    ensures IsMatch(m.fields, t.nni, fr) == Yes
  {
    var m' :| m' in flows && RootMatch(m', fr);
    assert RootMatch(m, fr);
    MatchInHalves(t, m, fr);
  }

  /** With one multicast VLAN for all flows, a frame outside the in-band channel is delivered exactly
      as asked if and only if the elected flow lists nobody twice and no matching flow that it
      shadows has a subscriber that it has not. */
  lemma {:induction false} OneVlanCondition(
    r: Routes, t: Tree, flows: seq<Flow>, groups: seq<GroupEntry>, fr: Frame, depth: nat)
    requires Serves(r, t) && PonSimPorts(t) && MulticastTable(t, GroupMap(groups), flows) && |t.onus| > 0
    requires OneVlan(flows) && |fr.tags| == 1 && !InBandTag(fr) && depth >= 2
    ensures DeliversAsAsked(r, t, flows, groups, fr, depth) <==>
            match Select(flows, t.nni, fr)
            case None => true
            case Some(e) =>
              && EachBucketOnce(Buckets(e, GroupMap(groups)))
              && forall m, k :: 0 <= k < |t.onus| && m in flows && IsMatch(m.fields, t.nni, fr) == Yes ==>
                   (Subscribed(t, GroupMap(groups), m, k) ==> Subscribed(t, GroupMap(groups), e, k))
  {
    MulticastMeaning(r, t, flows, groups, fr, depth);
    OneVlanUndisturbed(t, GroupMap(groups), flows, fr);
  }

  lemma {:induction false} OneVlanUndisturbed(t: Tree, groups: map<nat, GroupEntry>, flows: seq<Flow>, fr: Frame)
    requires PonSimPorts(t) && MulticastTable(t, groups, flows) && |t.onus| > 0
    requires OneVlan(flows) && |fr.tags| == 1 && !InBandTag(fr)
    ensures Undisturbed(t, groups, flows, fr) <==>
            match Select(flows, t.nni, fr)
            case None => true
            case Some(e) =>
              && EachBucketOnce(Buckets(e, groups))
              && forall m, k :: 0 <= k < |t.onus| && m in flows && IsMatch(m.fields, t.nni, fr) == Yes ==>
                   (Subscribed(t, groups, m, k) ==> Subscribed(t, groups, e, k))
  {
    var elected := Select(flows, t.nni, fr);
    if elected.Some? {
      ElectedIsDelivered(t, groups, flows, elected.value, fr);
    }
    forall m | m in flows && OnPon(flows, fr)
      ensures LeafMatch(m, Pop(fr)) <==> IsMatch(m.fields, t.nni, fr) == Yes
      ensures LeafMatch(m, Pop(fr)) ==> elected.Some?
    {
      MatchInHalves(t, m, fr);
      if LeafMatch(m, Pop(fr)) {
        OneVlanMatch(t, groups, flows, m, fr);
        SelectMember(flows, m, t.nni, fr);
      }
    }
  }

  /** One multicast flow on a VLAN other than 4000: a frame it matches is delivered as asked if and
      only if it lists nobody twice, and any other frame unless it has the in-band tag and passes
      the flow's IP match while somebody subscribes. */
  lemma {:induction false} OneFlowCondition(
    r: Routes, t: Tree, m: Flow, groups: seq<GroupEntry>, vid: nat, fr: Frame, depth: nat)
    requires Serves(r, t) && PonSimPorts(t) && MulticastFlow(t, GroupMap(groups), m) && |t.onus| > 0
    requires PinsVid(m, vid) && vid != 4000 && |fr.tags| == 1 && depth >= 2
    ensures DeliversAsAsked(r, t, [m], groups, fr, depth) <==>
            if IsMatch(m.fields, t.nni, fr) == Yes then EachBucketOnce(Buckets(m, GroupMap(groups)))
            else !(InBandTag(fr) && LeafMatch(m, Pop(fr)) &&
                   exists k :: 0 <= k < |t.onus| && Subscribed(t, GroupMap(groups), m, k))
  {
    MulticastMeaning(r, t, [m], groups, fr, depth);
    OneFlowUndisturbed(t, GroupMap(groups), m, vid, fr);
  }

  lemma {:induction false} OneFlowUndisturbed(t: Tree, groups: map<nat, GroupEntry>, m: Flow, vid: nat, fr: Frame)
    requires MulticastFlow(t, groups, m) && PinsVid(m, vid) && vid != 4000 && |fr.tags| == 1
    ensures Undisturbed(t, groups, [m], fr) <==>
            if IsMatch(m.fields, t.nni, fr) == Yes then EachBucketOnce(Buckets(m, groups))
            else !(InBandTag(fr) && LeafMatch(m, Pop(fr)) &&
                   exists k :: 0 <= k < |t.onus| && Subscribed(t, groups, m, k))
  {
    SelectOne(m, t.nni, fr);
    MatchInHalves(t, m, fr);
    assert m in [m];
    var x :| x in m.fields && x.VlanVid? && HasPresentBit(x.vid) && x.vid % 0x1000 == vid;
    assert RootField(x);
    assert RootMatch(m, fr) ==> fr.tags[0].vid == vid;
  }

  // ----- the exact condition for a table of channels, for all frames at once -----

  function FirstVid(fields: seq<Field>): nat {
    if fields == [] then 0 else if fields[0].VlanVid? then fields[0].vid else FirstVid(fields[1..])
  }

  function FirstDst(fields: seq<Field>): nat {
    if fields == [] then 0 else if fields[0].Ipv4Dst? then fields[0].addr else FirstDst(fields[1..])
  }

  function VlanOf(m: Flow): nat {
    FirstVid(m.fields) % 0x1000
  }

  function AddressOf(m: Flow): (nat, nat, nat, nat) {
    Ipv4Groups(FirstDst(m.fields))
  }

  /** A flow that matches on the NNI, a VLAN, IP and a destination address, in any order. */
  predicate IsChannel(t: Tree, m: Flow) {
    var v, a := FirstVid(m.fields), FirstDst(m.fields);
    && HasPresentBit(v) && VlanVid(v) in m.fields && Ipv4Dst(a) in m.fields && EthType(0x800) in m.fields
    && forall x :: x in m.fields ==> x == InPort(t.nni) || x == EthType(0x800) || x == VlanVid(v) || x == Ipv4Dst(a)
  }

  predicate CarriesIpTo(fr: Frame, addr: (nat, nat, nat, nat)) {
    fr.tags != [] && fr.tags[0].etype == 0x800 && fr.payload.Ip? && fr.payload.dst == addr
  }

  lemma {:induction false} ChannelMatch(t: Tree, m: Flow, fr: Frame)
    requires IsChannel(t, m) && |fr.tags| == 1
    ensures RootMatch(m, fr) <==> fr.tags[0].vid == VlanOf(m)
    ensures LeafMatch(m, Pop(fr)) <==> CarriesIpTo(fr, AddressOf(m))
    ensures IsMatch(m.fields, t.nni, fr) == Yes <==> fr.tags[0].vid == VlanOf(m) && CarriesIpTo(fr, AddressOf(m))
  {
    var v, a := FirstVid(m.fields), FirstDst(m.fields);
    MatchIsConjunction(m.fields, t.nni, fr);
    assert RootField(VlanVid(v)) && LeafField(EthType(0x800)) && LeafField(Ipv4Dst(a));
  }

  ghost function ChannelsOn(vid: nat, addr: (nat, nat, nat, nat)): iset<Flow> {
    iset m | VlanOf(m) == vid && AddressOf(m) == addr
  }

  /** The channel that is elected on a VLAN with an address. */
  ghost function ElectedChannel(flows: seq<Flow>, vid: nat, addr: (nat, nat, nat, nat)): Option<Flow> {
    Elect(flows, ChannelsOn(vid, addr))
  }

  lemma {:induction false} SelectIsElectedChannel(t: Tree, flows: seq<Flow>, fr: Frame, addr: (nat, nat, nat, nat))
    requires (forall m :: m in flows ==> IsChannel(t, m)) && |fr.tags| == 1 && CarriesIpTo(fr, addr)
    ensures Select(flows, t.nni, fr) == ElectedChannel(flows, fr.tags[0].vid, addr)
  {
    if flows != [] {
      var n := |flows| - 1;
      assert flows[n] in flows;
      SelectIsElectedChannel(t, flows[..n], fr, addr);
      ChannelMatch(t, flows[n], fr);
    }
  }

  /** Where the VLAN of one channel meets the address of another, a channel is elected that lists
      nobody twice and has the subscribers of that other; or that other has none. */
  ghost predicate KeepApart(t: Tree, groups: map<nat, GroupEntry>, flows: seq<Flow>, a: Flow, b: Flow) {
    match ElectedChannel(flows, VlanOf(a), AddressOf(b))
    case None => forall k :: 0 <= k < |t.onus| ==> !Subscribed(t, groups, b, k)
    case Some(e) =>
      && EachBucketOnce(Buckets(e, groups))
      && forall k :: 0 <= k < |t.onus| && Subscribed(t, groups, b, k) ==> Subscribed(t, groups, e, k)
  }

  ghost predicate ChannelsKeepApart(t: Tree, groups: map<nat, GroupEntry>, flows: seq<Flow>) {
    forall a, b :: a in flows && b in flows ==> KeepApart(t, groups, flows, a, b)
  }

  /** A frame on a VLAN for an address, outside the in-band channel. */
  function ChannelFrame(vid: nat, addr: (nat, nat, nat, nat)): Frame {
    Frame(0, 0, 0x8100, [Tag(vid, 1, 0x800)], Ip(17, addr, []))
  }

  ghost predicate ChannelTable(t: Tree, groups: map<nat, GroupEntry>, flows: seq<Flow>) {
    MulticastTable(t, groups, flows) && forall m :: m in flows ==> IsChannel(t, m)
  }

  lemma ApartIsUndisturbed(t: Tree, groups: map<nat, GroupEntry>, flows: seq<Flow>, fr: Frame)
    requires ChannelTable(t, groups, flows) && ChannelsKeepApart(t, groups, flows) && |fr.tags| == 1 && !InBandTag(fr)
    ensures Undisturbed(t, groups, flows, fr)
  {
    var elected := Select(flows, t.nni, fr);
    if elected.Some? {
      SelectMember(flows, elected.value, t.nni, fr);
      ChannelMatch(t, elected.value, fr);
      assert KeepApart(t, groups, flows, elected.value, elected.value);
      SelectIsElectedChannel(t, flows, fr, AddressOf(elected.value));
      forall m | m in flows && LeafMatch(m, Pop(fr))
        ensures KeepApart(t, groups, flows, elected.value, m) && AddressOf(m) == AddressOf(elected.value)
      {
        ChannelMatch(t, m, fr);
      }
    } else if OnPon(flows, fr) {
      var a :| a in flows && RootMatch(a, fr);
      ChannelMatch(t, a, fr);
      forall m | m in flows && LeafMatch(m, Pop(fr))
        ensures KeepApart(t, groups, flows, a, m) && ElectedChannel(flows, VlanOf(a), AddressOf(m)).None?
      {
        ChannelMatch(t, m, fr);
        SelectIsElectedChannel(t, flows, fr, AddressOf(m));
      }
    }
  }

  lemma UndisturbedIsApart(t: Tree, groups: map<nat, GroupEntry>, flows: seq<Flow>, a: Flow, b: Flow, fr: Frame)
    requires ChannelTable(t, groups, flows) && a in flows && b in flows && fr == ChannelFrame(VlanOf(a), AddressOf(b))
    requires Undisturbed(t, groups, flows, fr)
    ensures KeepApart(t, groups, flows, a, b)
  {
    SelectIsElectedChannel(t, flows, fr, AddressOf(b));
    ChannelMatch(t, a, fr);
    ChannelMatch(t, b, fr);
  }

  /** A table of channels delivers every single-tagged frame outside the in-band channel exactly as
      asked, if and only if its channels keep apart. */
  lemma {:induction false} ChannelTableCondition(
    r: Routes, t: Tree, flows: seq<Flow>, groups: seq<GroupEntry>, depth: nat)
    requires Serves(r, t) && PonSimPorts(t) && ChannelTable(t, GroupMap(groups), flows) && |t.onus| > 0 && depth >= 2
    ensures (forall fr: Frame :: |fr.tags| == 1 && !InBandTag(fr) ==>
               DeliversAsAsked(r, t, flows, groups, fr, depth)) <==>
            ChannelsKeepApart(t, GroupMap(groups), flows)
  {
    if ChannelsKeepApart(t, GroupMap(groups), flows) {
      forall fr: Frame | |fr.tags| == 1 && !InBandTag(fr) ensures DeliversAsAsked(r, t, flows, groups, fr, depth) {
        ApartIsUndisturbed(t, GroupMap(groups), flows, fr);
        MulticastMeaning(r, t, flows, groups, fr, depth);
      }
    }
    if forall fr: Frame :: |fr.tags| == 1 && !InBandTag(fr) ==> DeliversAsAsked(r, t, flows, groups, fr, depth) {
      forall a, b | a in flows && b in flows ensures KeepApart(t, GroupMap(groups), flows, a, b) {
        var fr := ChannelFrame(VlanOf(a), AddressOf(b));
        assert DeliversAsAsked(r, t, flows, groups, fr, depth);
        MulticastMeaning(r, t, flows, groups, fr, depth);
        UndisturbedIsApart(t, GroupMap(groups), flows, a, b, fr);
      }
    }
  }
}
