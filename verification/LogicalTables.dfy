/** The flow and group tables as the finite maps of sections 6.4 and 6.5 of the OpenFlow 1.3.0
    specification, where a flow entry is known by its table, its priority and its match. The lists
    that the agent edits carry out the same changes exactly as long as every message is regular. */
module LogicalTables {
  import opened Wrappers
  import opened OpenFlow
  import opened PonMachine
  import opened LogicalDevice

  datatype EntryKey = EntryKey(tableId: nat, priority: nat, fields: seq<Field>)

  function EntryOf(f: Flow): EntryKey {
    EntryKey(f.tableId, f.priority, f.fields)
  }

  type Entries = map<EntryKey, Flow>

  datatype Switch = Switch(flows: Entries, groups: map<nat, GroupEntry>)

  // ----- what messages mean -----

  /** One packet can satisfy both match fields: of one kind they ask for the same, and no priority
      bits are asked for where the packet is to have no tag. Matches are taken to carry the
      prerequisites that OpenFlow 1.3.0 demands of them (an ipv4_dst comes with its eth_type), so that
      fields of different layers contradict each other only through those. */
  predicate Meet(x: Field, y: Field) {
    match (x, y)
    case (InPort(p), InPort(q)) => p == q
    case (EthType(p), EthType(q)) => p == q
    case (IpProto(p), IpProto(q)) => p == q
    case (VlanVid(v), VlanVid(w)) =>
      HasPresentBit(v) == HasPresentBit(w) && (HasPresentBit(v) ==> v % 0x1000 == w % 0x1000)
    case (VlanPcp(p), VlanPcp(q)) => p == q
    case (VlanVid(v), VlanPcp(_)) => HasPresentBit(v)
    case (VlanPcp(_), VlanVid(v)) => HasPresentBit(v)
    case (Ipv4Dst(a), Ipv4Dst(b)) => Ipv4Groups(a) == Ipv4Groups(b)
    case (UdpDst(p), UdpDst(q)) => p == q
    case (OtherField(k, d), OtherField(l, e)) => k == l ==> d == e
    case _ => true
  }

  predicate AllMeet(fields: seq<Field>) {
    forall i, j :: 0 <= i < |fields| && 0 <= j < |fields| ==> Meet(fields[i], fields[j])
  }

  /** A packet may match both entries, in one table at one priority. */
  predicate Overlap(a: Flow, b: Flow) {
    a.tableId == b.tableId && a.priority == b.priority && AllMeet(a.fields + b.fields)
  }

  predicate OverlapsSome(flows: Entries, f: Flow) {
    exists k :: k in flows && Overlap(flows[k], f)
  }

  /** The entry an add leaves: counters survive unless the message asks to reset them. */
  function Entered(flows: Entries, m: FlowMod): Flow {
    var f := FlowFromMod(m);
    if EntryOf(f) in flows && !ResetCounts(m.flags)
    then f.(packetCount := flows[EntryOf(f)].packetCount, byteCount := flows[EntryOf(f)].byteCount)
    else f
  }

  function Uncovered(flows: Entries, m: FlowMod): Entries {
    map k | k in flows && !Covered(flows[k], m) :: flows[k]
  }

  /** A strict delete means the entry with its priority and match, if table, cookie and outputs
      agree as for any delete. */
  predicate StrictlyMeant(f: Flow, m: FlowMod) {
    f.priority == m.priority && f.fields == m.fields && Covered(f, m)
  }

  function NotMeant(flows: Entries, m: FlowMod): Entries {
    map k | k in flows && !StrictlyMeant(flows[k], m) :: flows[k]
  }

  function Ungrouped(flows: Entries, id: nat): Entries {
    map k | k in flows && !HasAction(flows[k], Group(id)) :: flows[k]
  }

  predicate UsesSome(f: Flow, groups: map<nat, GroupEntry>) {
    exists id :: id in groups && HasAction(f, Group(id))
  }

  function Groupless(flows: Entries, groups: map<nat, GroupEntry>): Entries {
    map k | k in flows && !UsesSome(flows[k], groups) :: flows[k]
  }

  /** What the agent refuses with an exception, before it changes anything. */
  predicate RefusedFlow(flows: Entries, m: FlowMod) {
    match m.command
    case AddFlow => m.cookieMask != 0
    case DeleteFlow => m.fields != [] && exists k :: k in flows && Covered(flows[k], m)
    case _ => false
  }

  predicate RefusedGroup(sw: Switch, m: GroupMod) {
    && m.command.DeleteGroup? && m.groupId != ALL_GROUPS && m.groupId in sw.groups
    && exists k :: k in sw.flows && HasAction(sw.flows[k], Group(m.groupId)) && SendFlowRem(sw.flows[k].flags)
  }

  function ChangeFlows(flows: Entries, m: FlowMod): Entries {
    if RefusedFlow(flows, m) then flows
    else
      match m.command
      case AddFlow =>
        if CheckOverlap(m.flags) && OverlapsSome(flows, FlowFromMod(m)) then flows
        else flows[EntryOf(FlowFromMod(m)) := Entered(flows, m)]
      case DeleteFlow => Uncovered(flows, m)
      case DeleteFlowStrict => NotMeant(flows, m)
      case _ => flows
  }

  function ChangeGroups(sw: Switch, m: GroupMod): Switch {
    if RefusedGroup(sw, m) then sw
    else
      match m.command
      case AddGroup => if m.groupId in sw.groups then sw else sw.(groups := sw.groups[m.groupId := GroupFromMod(m)])
      case ModifyGroup => if m.groupId in sw.groups then sw.(groups := sw.groups[m.groupId := GroupFromMod(m)]) else sw
      case DeleteGroup =>
        if m.groupId == ALL_GROUPS then Switch(Groupless(sw.flows, sw.groups), map[])
        else if m.groupId !in sw.groups then sw
        else Switch(Ungrouped(sw.flows, m.groupId), sw.groups - {m.groupId})
      case UnknownGroupCommand => sw
  }

  function Change(sw: Switch, msg: Message): Switch {
    match msg
    case FlowMessage(m) => sw.(flows := ChangeFlows(sw.flows, m))
    case GroupMessage(m) => ChangeGroups(sw, m)
  }

  function Changes(sw: Switch, msgs: seq<Message>): Switch {
    if msgs == [] then sw else Change(Changes(sw, msgs[..|msgs| - 1]), msgs[|msgs| - 1])
  }

  /** Where the simulator can match at all, two entries overlap exactly if they are in one table at one
      priority and it has a frame, at some port, that matches both. */
  lemma OverlapIsSeen(a: Flow, b: Flow)
    requires forall x :: x in a.fields + b.fields ==> Supported(x)
    ensures Overlap(a, b) <==>
            a.tableId == b.tableId && a.priority == b.priority &&
            exists port: nat, fr: Frame :: IsMatch(a.fields, port, fr) == Yes && IsMatch(b.fields, port, fr) == Yes
  {
    var fields := a.fields + b.fields;
    if Overlap(a, b) {
      var port, fr := CommonFrame(fields);
      MatchIsConjunction(a.fields, port, fr);
      MatchIsConjunction(b.fields, port, fr);
    }
    if port: nat, fr: Frame :| IsMatch(a.fields, port, fr) == Yes && IsMatch(b.fields, port, fr) == Yes {
      MatchIsConjunction(a.fields, port, fr);
      MatchIsConjunction(b.fields, port, fr);
      forall i, j | 0 <= i < |fields| && 0 <= j < |fields| ensures Meet(fields[i], fields[j]) {
        assert fields[i] in fields && fields[j] in fields;
        MatchedMeet(fields[i], fields[j], port, fr);
      }
    }
  }

  lemma MatchedMeet(x: Field, y: Field, port: nat, fr: Frame)
    requires FieldVerdict(x, port, fr) == Yes && FieldVerdict(y, port, fr) == Yes
    ensures Meet(x, y)
  {}

  /** Some field of those that satisfy a test, which every other one meets. */
  lemma OneOf(fields: seq<Field>, test: Field -> bool) returns (one: Option<Field>)
    requires AllMeet(fields)
    ensures one.Some? ==> test(one.value) && forall x :: x in fields ==> Meet(x, one.value)
    ensures one.None? ==> forall x :: x in fields ==> !test(x)
  {
    one := None;
    if k :| 0 <= k < |fields| && test(fields[k]) {
      one := Some(fields[k]);
      forall x | x in fields ensures Meet(x, fields[k]) {
        var i :| 0 <= i < |fields| && fields[i] == x;
      }
    }
  }

  /** A frame for fields that meet pairwise. */
  lemma CommonFrame(fields: seq<Field>) returns (port: nat, fr: Frame)
    requires (forall x :: x in fields ==> Supported(x)) && AllMeet(fields)
    ensures forall x :: x in fields ==> FieldVerdict(x, port, fr) == Yes
  {
    var inPort := OneOf(fields, (x: Field) => x.InPort?);
    var ethType := OneOf(fields, (x: Field) => x.EthType?);
    var proto := OneOf(fields, (x: Field) => x.IpProto?);
    var dst := OneOf(fields, (x: Field) => x.Ipv4Dst?);
    var vid := OneOf(fields, (x: Field) => x.VlanVid?);
    var pcp := OneOf(fields, (x: Field) => x.VlanPcp?);
    port := if inPort.Some? then inPort.value.port else 0;
    var etype := if ethType.Some? then ethType.value.ethType else 0;
    var payload := Ip(if proto.Some? then proto.value.proto else 0,
                      if dst.Some? then Ipv4Groups(dst.value.addr) else (0, 0, 0, 0), []);
    var bits := if pcp.Some? then pcp.value.pcp else 0;
    if vid.Some? && !HasPresentBit(vid.value.vid) {
      fr := Frame(0, 0, etype, [], payload);
    } else {
      fr := Frame(0, 0, 0x8100, [Tag(if vid.Some? then vid.value.vid % 0x1000 else 0, bits, etype)], payload);
    }
  }

  // ----- regular messages -----

  /** An add meets no entry with its table, priority and match but other flags or another cookie,
      and one with CHECK_OVERLAP meets no overlap and no equal entry; a strict delete means, among
      the entries with its priority and match, those with its table, flags and cookie. */
  ghost predicate RegularFlow(flows: Entries, m: FlowMod) {
    var f := FlowFromMod(m);
    match m.command
    case AddFlow =>
      RefusedFlow(flows, m) ||
      if CheckOverlap(m.flags) then !OverlapsSome(flows, f) && EntryOf(f) !in flows
      else EntryOf(f) in flows ==> KeyOf(flows[EntryOf(f)]) == KeyOf(f)
    case DeleteFlowStrict =>
      forall k :: k in flows && k.priority == m.priority && k.fields == m.fields ==>
        (Covered(flows[k], m) <==> KeyOf(flows[k]) == KeyOf(f))
    case _ => true
  }

  /** A delete of all groups meets no flow that uses one of them. */
  ghost predicate RegularGroup(sw: Switch, m: GroupMod) {
    m.command.DeleteGroup? && m.groupId == ALL_GROUPS ==>
      forall k :: k in sw.flows ==> !UsesSome(sw.flows[k], sw.groups)
  }

  ghost predicate Regular(sw: Switch, msg: Message) {
    match msg
    case FlowMessage(m) => RegularFlow(sw.flows, m)
    case GroupMessage(m) => RegularGroup(sw, m)
  }

  // ----- lists as maps -----

  ghost predicate DistinctEntries(flows: seq<Flow>) {
    forall i, j :: 0 <= i < j < |flows| ==> EntryOf(flows[i]) != EntryOf(flows[j])
  }

  ghost predicate ListsFlows(flows: seq<Flow>, entries: Entries) {
    && DistinctEntries(flows)
    && (forall f :: f in flows <==> EntryOf(f) in entries && entries[EntryOf(f)] == f)
    && (forall k :: k in entries ==> EntryOf(entries[k]) == k)
  }

  ghost predicate DistinctIds(groups: seq<GroupEntry>) {
    forall i, j :: 0 <= i < j < |groups| ==> groups[i].groupId != groups[j].groupId
  }

  ghost predicate ListsGroups(groups: seq<GroupEntry>, entries: map<nat, GroupEntry>) {
    && DistinctIds(groups)
    && (forall g :: g in groups <==> g.groupId in entries && entries[g.groupId] == g)
    && (forall id :: id in entries ==> entries[id].groupId == id)
  }

  ghost predicate Lists(c: Content, sw: Switch) {
    ListsFlows(c.flows, sw.flows) && ListsGroups(c.groups, sw.groups)
  }

  /** In a list that lists entries, a flow is found by its full key if and only if the entry at its
      place has that key. */
  lemma {:induction false} FoundByKey(flows: seq<Flow>, entries: Entries, f: Flow)
    requires ListsFlows(flows, entries)
    ensures var found := FindFlow(flows, KeyOf(f));
            && (found.Some? <==> EntryOf(f) in entries && KeyOf(entries[EntryOf(f)]) == KeyOf(f))
            && (found.Some? ==> flows[found.value] == entries[EntryOf(f)])
  {
    match FindFlow(flows, KeyOf(f))
    case Some(i) =>
      assert flows[i] in flows && EntryOf(flows[i]) == EntryOf(f);
    case None =>
      if EntryOf(f) in entries {
        assert entries[EntryOf(f)] in flows;
      }
  }

  lemma AppendCondition(flows: seq<Flow>, entries: Entries, f: Flow)
    requires ListsFlows(flows, entries)
    ensures EntryOf(f) !in entries ==> ListsFlows(flows + [f], entries[EntryOf(f) := f])
    ensures EntryOf(f) in entries ==> !DistinctEntries(flows + [f])
  {
    var after := flows + [f];
    if EntryOf(f) in entries {
      var i :| 0 <= i < |flows| && flows[i] == entries[EntryOf(f)];
      assert EntryOf(after[i]) == EntryOf(after[|flows|]);
    } else {
      forall i | 0 <= i < |flows| ensures EntryOf(flows[i]) != EntryOf(f) {
        assert flows[i] in flows;
      }
    }
  }

  lemma ReplacedContents(flows: seq<Flow>, i: nat, f: Flow, g: Flow)
    requires i < |flows| && DistinctEntries(flows) && EntryOf(f) == EntryOf(flows[i])
    ensures g in flows[i := f] <==> g == f || (g in flows && EntryOf(g) != EntryOf(f))
  {
    var after := flows[i := f];
    assert after[i] == f;
    if g in flows && EntryOf(g) != EntryOf(f) {
      var j :| 0 <= j < |flows| && flows[j] == g;
      assert after[j] == g;
    }
  }

  lemma ReplaceIsUpdate(flows: seq<Flow>, entries: Entries, i: nat, f: Flow)
    requires ListsFlows(flows, entries) && i < |flows| && EntryOf(f) == EntryOf(flows[i])
    ensures ListsFlows(flows[i := f], entries[EntryOf(f) := f])
  {
    forall g ensures g in flows[i := f] <==> g == f || (g in flows && EntryOf(g) != EntryOf(f)) {
      ReplacedContents(flows, i, f, g);
    }
  }

  /** An add is the update of the map at its entry's place, if and only if it is regular. */
  lemma AddCondition(flows: seq<Flow>, entries: Entries, m: FlowMod)
    requires ListsFlows(flows, entries) && m.command.AddFlow? && m.cookieMask == 0
    ensures ListsFlows(if CheckOverlap(m.flags) then flows + [FlowFromMod(m)] else MergedFlow(flows, m),
                       ChangeFlows(entries, m))
            <==> RegularFlow(entries, m)
  {
    var f := FlowFromMod(m);
    AppendCondition(flows, entries, f);
    FoundByKey(flows, entries, f);
    if CheckOverlap(m.flags) {
      if OverlapsSome(entries, f) {
        assert (flows + [f])[|flows|] == f;
        assert EntryOf(f) !in entries ==> f in flows + [f];
      }
    } else {
      match FindFlow(flows, KeyOf(f))
      case Some(i) => ReplaceIsUpdate(flows, entries, i, Entered(entries, m));
      case None =>
    }
  }

  lemma WithoutPlaces(flows: seq<Flow>, i: nat, f: Flow)
    requires i < |flows| && DistinctEntries(flows)
    ensures DistinctEntries(WithoutFlow(flows, i))
    ensures f in WithoutFlow(flows, i) <==> f in flows && EntryOf(f) != EntryOf(flows[i])
  {
    var after := WithoutFlow(flows, i);
    assert forall j :: 0 <= j < |after| ==> after[j] == flows[if j < i then j else j + 1];
    if f in flows && EntryOf(f) != EntryOf(flows[i]) {
      var j :| 0 <= j < |flows| && flows[j] == f;
      assert after[if j < i then j else j - 1] == f;
    }
  }

  function StrictlyDeleted(flows: seq<Flow>, m: FlowMod): seq<Flow> {
    match FindFlow(flows, KeyOf(FlowFromMod(m)))
    case None => flows
    case Some(i) => WithoutFlow(flows, i)
  }

  /** What is left in the list, said without the list. */
  lemma StrictlyDeletedContents(flows: seq<Flow>, entries: Entries, m: FlowMod, f: Flow)
    requires ListsFlows(flows, entries)
    ensures DistinctEntries(StrictlyDeleted(flows, m))
    ensures f in StrictlyDeleted(flows, m) <==> f in flows && KeyOf(f) != KeyOf(FlowFromMod(m))
  {
    var key := KeyOf(FlowFromMod(m));
    match FindFlow(flows, key)
    case None =>
    case Some(i) =>
      WithoutPlaces(flows, i, f);
      assert flows[i] in flows;
      assert f in flows && EntryOf(f) == EntryOf(flows[i]) ==> f == flows[i];
  }

  /** A strict delete removes what it means, if and only if it is regular. */
  lemma StrictDeleteRefines(flows: seq<Flow>, entries: Entries, m: FlowMod)
    requires ListsFlows(flows, entries) && m.command.DeleteFlowStrict?
    ensures ListsFlows(StrictlyDeleted(flows, m), NotMeant(entries, m)) <==> RegularFlow(entries, m)
  {
    if RegularFlow(entries, m) {
      RegularStrictDelete(flows, entries, m);
    } else {
      var k :| k in entries && k.priority == m.priority && k.fields == m.fields &&
        !(Covered(entries[k], m) <==> KeyOf(entries[k]) == KeyOf(FlowFromMod(m)));
      assert entries[k] in flows && EntryOf(entries[k]) == k;
      StrictlyDeletedContents(flows, entries, m, entries[k]);
    }
  }

  lemma RegularStrictDelete(flows: seq<Flow>, entries: Entries, m: FlowMod)
    requires ListsFlows(flows, entries) && m.command.DeleteFlowStrict? && RegularFlow(entries, m)
    ensures ListsFlows(StrictlyDeleted(flows, m), NotMeant(entries, m))
  {
    var rest := NotMeant(entries, m);
    StrictlyDeletedContents(flows, entries, m, FlowFromMod(m));
    forall f ensures f in StrictlyDeleted(flows, m) <==> EntryOf(f) in rest && rest[EntryOf(f)] == f {
      StrictlyDeletedContents(flows, entries, m, f);
      if f in flows {
        StrictAgrees(entries, m, f);
      }
    }
  }

  lemma StrictAgrees(entries: Entries, m: FlowMod, f: Flow)
    requires RegularFlow(entries, m) && m.command.DeleteFlowStrict?
    requires EntryOf(f) in entries && entries[EntryOf(f)] == f
    ensures StrictlyMeant(f, m) <==> KeyOf(f) == KeyOf(FlowFromMod(m))
  {
    var k := EntryOf(f);
    if k.priority == m.priority && k.fields == m.fields {
      assert Covered(entries[k], m) <==> KeyOf(entries[k]) == KeyOf(FlowFromMod(m));
    }
  }

  lemma {:induction false} FilterKeepsEntries(flows: seq<Flow>, keep: Flow -> bool)
    requires DistinctEntries(flows)
    ensures DistinctEntries(Filter(flows, keep))
  {
    if flows != [] {
      FilterKeepsEntries(flows[1..], keep);
      var rest := Filter(flows[1..], keep);
      forall j | 0 <= j < |rest| ensures EntryOf(rest[j]) != EntryOf(flows[0]) {
        assert rest[j] in flows[1..];
      }
    }
  }

  lemma DeleteIsRestriction(flows: seq<Flow>, entries: Entries, m: FlowMod)
    requires ListsFlows(flows, entries)
    ensures ListsFlows(Kept(flows, m), Uncovered(entries, m))
    ensures Deleted(flows, m) == [] <==> forall k :: k in entries ==> !Covered(entries[k], m)
    ensures Deleted(flows, m) == [] ==> Uncovered(entries, m) == entries
  {
    FilterKeepsEntries(flows, f => !Covered(f, m));
    assert forall f :: f in Kept(flows, m) <==> f in flows && !Covered(f, m);
    if Deleted(flows, m) == [] {
      forall k | k in entries ensures !Covered(entries[k], m) {
        assert entries[k] in flows && entries[k] !in Deleted(flows, m);
      }
    } else {
      var f := Deleted(flows, m)[0];
      assert f in flows && Covered(f, m);
    }
  }

  lemma UngroupIsRestriction(flows: seq<Flow>, entries: Entries, id: nat)
    requires ListsFlows(flows, entries)
    ensures ListsFlows(FlowsWithoutGroup(flows, id), Ungrouped(entries, id))
    ensures FlowsWithGroup(flows, id) == [] ==> Ungrouped(entries, id) == entries
  {
    FilterKeepsEntries(flows, f => !HasAction(f, Group(id)));
    assert forall f :: f in FlowsWithoutGroup(flows, id) <==> f in flows && !HasAction(f, Group(id));
    if FlowsWithGroup(flows, id) == [] {
      forall k | k in entries ensures !HasAction(entries[k], Group(id)) {
        assert entries[k] in flows && entries[k] !in FlowsWithGroup(flows, id);
      }
    }
  }

  lemma {:induction false} FilterKeepsIds(groups: seq<GroupEntry>, keep: GroupEntry -> bool)
    requires DistinctIds(groups)
    ensures DistinctIds(Filter(groups, keep))
  {
    if groups != [] {
      FilterKeepsIds(groups[1..], keep);
      var rest := Filter(groups[1..], keep);
      forall j | 0 <= j < |rest| ensures rest[j].groupId != groups[0].groupId {
        assert rest[j] in groups[1..];
      }
    }
  }

  lemma GroupListed(groups: seq<GroupEntry>, entries: map<nat, GroupEntry>, id: nat)
    requires ListsGroups(groups, entries)
    ensures HasGroup(groups, id) <==> id in entries
  {
    assert id in entries ==> entries[id] in groups;
  }

  lemma GroupAdded(groups: seq<GroupEntry>, entries: map<nat, GroupEntry>, entry: GroupEntry)
    requires ListsGroups(groups, entries) && entry.groupId !in entries
    ensures ListsGroups(groups + [entry], entries[entry.groupId := entry])
  {
    assert forall i :: 0 <= i < |groups| ==> groups[i] in groups;
  }

  lemma GroupModified(groups: seq<GroupEntry>, entries: map<nat, GroupEntry>, entry: GroupEntry)
    requires ListsGroups(groups, entries) && entry.groupId in entries
    ensures ListsGroups(ReplacedGroup(groups, entry), entries[entry.groupId := entry])
  {
    var after := ReplacedGroup(groups, entry);
    var k :| 0 <= k < |groups| && groups[k] == entries[entry.groupId];
    assert after[k] == entry;
    forall g ensures g in after <==> g == entry || (g in groups && g.groupId != entry.groupId) {
      if g in groups && g.groupId != entry.groupId {
        var j :| 0 <= j < |groups| && groups[j] == g;
        assert after[j] == g;
      }
    }
  }

  lemma GroupRemoved(groups: seq<GroupEntry>, entries: map<nat, GroupEntry>, id: nat)
    requires ListsGroups(groups, entries)
    ensures ListsGroups(GroupsWithout(groups, id), entries - {id})
  {
    FilterKeepsIds(groups, (g: GroupEntry) => g.groupId != id);
  }

  // ----- refinement -----

  lemma FlowModRefines(c: Content, sw: Switch, m: FlowMod)
    requires Lists(c, sw)
    ensures Lists(Last(c, HandleFlowMod(c, m).writes), sw.(flows := ChangeFlows(sw.flows, m))) <==>
            RegularFlow(sw.flows, m)
  {
    match m.command
    case AddFlow => if m.cookieMask == 0 { AddCondition(c.flows, sw.flows, m); }
    case DeleteFlow => DeleteIsRestriction(c.flows, sw.flows, m);
    case DeleteFlowStrict => StrictDeleteRefines(c.flows, sw.flows, m);
    case _ =>
  }

  /** A delete of one group does what section 6.5 says, in two writes. */
  lemma GroupDeleteRefines(c: Content, sw: Switch, id: nat)
    requires Lists(c, sw) && id != ALL_GROUPS && id in sw.groups
    ensures AnnounceRaises(FlowsWithGroup(c.flows, id)) <==>
            exists k :: k in sw.flows && HasAction(sw.flows[k], Group(id)) && SendFlowRem(sw.flows[k].flags)
    ensures GroupDelete(c, id).ok ==>
              Lists(Last(c, GroupDelete(c, id).writes), Switch(Ungrouped(sw.flows, id), sw.groups - {id}))
    ensures !GroupDelete(c, id).ok ==> GroupDelete(c, id).writes == [] && AnnounceRaises(FlowsWithGroup(c.flows, id))
  {
    GroupListed(c.groups, sw.groups, id);
    GroupRemoved(c.groups, sw.groups, id);
    UngroupIsRestriction(c.flows, sw.flows, id);
    if k :| k in sw.flows && HasAction(sw.flows[k], Group(id)) && SendFlowRem(sw.flows[k].flags) {
      assert sw.flows[k] in c.flows && sw.flows[k] in FlowsWithGroup(c.flows, id);
    }
    if AnnounceRaises(FlowsWithGroup(c.flows, id)) {
      var f :| f in FlowsWithGroup(c.flows, id) && SendFlowRem(f.flags);
      assert f in c.flows && sw.flows[EntryOf(f)] == f;
    }
  }

  /** A delete of all groups empties the group table but leaves the flows, so it does what section
      6.5 says if and only if no flow uses a group that was there. */
  lemma AllGroupsCondition(c: Content, sw: Switch)
    requires Lists(c, sw)
    ensures Lists(Last(c, GroupDelete(c, ALL_GROUPS).writes), Switch(Groupless(sw.flows, sw.groups), map[])) <==>
            forall k :: k in sw.flows ==> !UsesSome(sw.flows[k], sw.groups)
  {
    if forall k :: k in sw.flows ==> !UsesSome(sw.flows[k], sw.groups) {
      assert Groupless(sw.flows, sw.groups) == sw.flows;
    } else {
      var k :| k in sw.flows && UsesSome(sw.flows[k], sw.groups);
      assert sw.flows[k] in c.flows && k !in Groupless(sw.flows, sw.groups);
    }
  }

  lemma GroupModRefines(c: Content, sw: Switch, m: GroupMod)
    requires Lists(c, sw)
    ensures Lists(Last(c, HandleGroupMod(c, m).writes), ChangeGroups(sw, m)) <==> RegularGroup(sw, m)
  {
    GroupListed(c.groups, sw.groups, m.groupId);
    match m.command
    case AddGroup => if m.groupId !in sw.groups { GroupAdded(c.groups, sw.groups, GroupFromMod(m)); }
    case ModifyGroup => if m.groupId in sw.groups { GroupModified(c.groups, sw.groups, GroupFromMod(m)); }
    case DeleteGroup =>
      if m.groupId == ALL_GROUPS {
        AllGroupsCondition(c, sw);
      } else if m.groupId in sw.groups {
        GroupDeleteRefines(c, sw, m.groupId);
      }
    case UnknownGroupCommand =>
  }

  /** One message: the lists do what the maps do if and only if the message is regular. */
  lemma StepRefines(c: Content, sw: Switch, msg: Message)
    requires Lists(c, sw)
    ensures Lists(After(c, msg), Change(sw, msg)) <==> Regular(sw, msg)
  {
    match msg
    case FlowMessage(m) => FlowModRefines(c, sw, m);
    case GroupMessage(m) => GroupModRefines(c, sw, m);
  }

  ghost predicate ListsThroughout(c: Content, sw: Switch, msgs: seq<Message>) {
    forall k :: 0 <= k <= |msgs| ==> Lists(RunTables(c, msgs[..k]), Changes(sw, msgs[..k]))
  }

  ghost predicate AllRegular(sw: Switch, msgs: seq<Message>) {
    forall k :: 0 <= k < |msgs| ==> Regular(Changes(sw, msgs[..k]), msgs[k])
  }

  /** Over every run: the agent's lists hold exactly the entries of the maps, each once, all the way
      through, if and only if every message is regular where it comes. */
  lemma {:induction false} RunRefines(c: Content, sw: Switch, msgs: seq<Message>)
    requires Lists(c, sw)
    ensures ListsThroughout(c, sw, msgs) <==> AllRegular(sw, msgs)
  {
    if msgs != [] {
      var n := |msgs| - 1;
      var init := msgs[..n];
      assert msgs[..n + 1] == msgs;
      assert forall k :: 0 <= k <= n ==> init[..k] == msgs[..k];
      assert forall k :: 0 <= k < n ==> init[k] == msgs[k];
      RunRefines(c, sw, init);
      if ListsThroughout(c, sw, init) {
        assert init[..n] == init;
        StepRefines(RunTables(c, init), Changes(sw, init), msgs[n]);
      }
    }
  }
}
