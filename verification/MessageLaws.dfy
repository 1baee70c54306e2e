/** What one message does to the logical tables, attribute by attribute: the handlers of
    voltha/core/logical_device_agent.py in the numbers of OpenFlow 1.3.0, said without their helpers. */
module MessageLaws {
  import opened Wrappers
  import opened OpenFlow
  import opened FlowDecomposer
  import opened LogicalDevice

  /** OFPFF_SEND_FLOW_REM, OFPFF_CHECK_OVERLAP and OFPFF_RESET_COUNTS are the lowest three bits. */
  lemma FlagBits(removed: bool, overlap: bool, reset: bool, others: nat, flags: nat)
    requires flags == (if removed then 1 else 0) + (if overlap then 2 else 0) + (if reset then 4 else 0) + 8 * others
    ensures SendFlowRem(flags) == removed && CheckOverlap(flags) == overlap && ResetCounts(flags) == reset
  {}

  // ----- adding a flow -----

  /** The five attributes that make a flow the one a message speaks of. */
  predicate Spoken(f: Flow, m: FlowMod) {
    && f.tableId == m.tableId && f.priority == m.priority && f.flags == m.flags
    && f.cookie == m.cookie && f.fields == m.fields
  }

  ghost predicate FirstSpoken(flows: seq<Flow>, m: FlowMod, i: nat) {
    i < |flows| && Spoken(flows[i], m) && forall j :: 0 <= j < i ==> !Spoken(flows[j], m)
  }

  ghost predicate NoneSpoken(flows: seq<Flow>, m: FlowMod) {
    forall j :: 0 <= j < |flows| ==> !Spoken(flows[j], m)
  }

  /** The flow a message describes, with given counters. */
  function Described(m: FlowMod, packets: nat, bytes: nat): Flow {
    Flow(m.tableId, m.priority, m.flags, m.cookie, m.fields, m.instructions,
         m.idleTimeout, m.hardTimeout, packets, bytes)
  }

  lemma {:induction false} FoundIsSpoken(flows: seq<Flow>, m: FlowMod)
    ensures match FindFlow(flows, KeyOf(FlowFromMod(m)))
            case None => NoneSpoken(flows, m)
            case Some(i) => FirstSpoken(flows, m, i)
  {}

  /** An add with a cookie mask is refused. With CHECK_OVERLAP the flow is appended whatever there is.
      Otherwise it takes the place of the first flow with the five attributes, whose counters it keeps
      unless RESET_COUNTS is set, or is appended if there is none. */
  lemma FlowAdded(c: Content, m: FlowMod, removed: bool, overlap: bool, reset: bool, others: nat)
    requires m.command.AddFlow?
    requires m.flags == (if removed then 1 else 0) + (if overlap then 2 else 0) + (if reset then 4 else 0) + 8 * others
    ensures var c' := After(c, FlowMessage(m));
            && c'.groups == c.groups
            && (m.cookieMask != 0 ==> c' == c)
            && (m.cookieMask == 0 && (overlap || NoneSpoken(c.flows, m)) ==>
                  c'.flows == c.flows + [Described(m, 0, 0)])
            && (m.cookieMask == 0 && !overlap ==>
                  forall i: nat :: FirstSpoken(c.flows, m, i) ==>
                    var was := c.flows[i];
                    c'.flows == c.flows[i := if reset then Described(m, 0, 0)
                                             else Described(m, was.packetCount, was.byteCount)])
    ensures PlanFor(c, FlowMessage(m)).ok <==> m.cookieMask == 0
  {
    FlagBits(removed, overlap, reset, others, m.flags);
    FoundIsSpoken(c.flows, m);
  }

  /** A strict delete removes the first flow with the five attributes, and only that. */
  lemma FlowStrictlyDeleted(c: Content, m: FlowMod)
    requires m.command.DeleteFlowStrict?
    ensures var c' := After(c, FlowMessage(m));
            && c'.groups == c.groups
            && (NoneSpoken(c.flows, m) ==> c' == c)
            && forall i: nat :: FirstSpoken(c.flows, m, i) ==> c'.flows == c.flows[..i] + c.flows[i + 1..]
  {
    FoundIsSpoken(c.flows, m);
  }

  // ----- deleting flows -----

  /** Some bit of the mask is a bit in which the cookies differ. */
  predicate CookiesDiffer(a: bv64, b: bv64, mask: bv64) {
    (a ^ b) & mask != 0
  }

  lemma XorUnderMask(a: bv64, b: bv64, mask: bv64)
    ensures (a ^ b) & mask == (a & mask) ^ (b & mask)
  {}

  lemma XorOfEquals(a: bv64, b: bv64)
    ensures a ^ b == 0 <==> a == b
  {}

  lemma MaskedCookies(a: bv64, b: bv64, mask: bv64)
    ensures a & mask != b & mask <==> CookiesDiffer(a, b, mask)
  {
    XorUnderMask(a, b, mask);
    XorOfEquals(a & mask, b & mask);
  }

  /** No APPLY_ACTIONS instruction of the flow holds the action. */
  ghost predicate Lacks(f: Flow, a: Action) {
    forall i, j ::
      0 <= i < |f.instructions| && f.instructions[i].ApplyActions? && 0 <= j < |f.instructions[i].actions| ==>
        f.instructions[i].actions[j] != a
  }

  /** The flow survives a delete: some masked bit of the cookie differs, or the message names another
      table than all (0xff), or a port or group other than any (0x7fffffff), which the flow does not
      have. */
  ghost predicate Survives(f: Flow, m: FlowMod) {
    CookiesDiffer(f.cookie, m.cookie, m.cookieMask) || NotNamed(f, m)
  }

  ghost predicate NotNamed(f: Flow, m: FlowMod) {
    || (m.tableId != 0xff && f.tableId != m.tableId)
    || (m.outPort != 0x7fff_ffff && Lacks(f, Output(m.outPort)))
    || (m.outGroup != 0x7fff_ffff && Lacks(f, Group(m.outGroup)))
  }

  lemma LacksIsNot(f: Flow, a: Action)
    ensures HasAction(f, a) <==> !Lacks(f, a)
  {
    if HasAction(f, a) {
      var i :| 0 <= i < |f.instructions| && f.instructions[i].ApplyActions? && a in f.instructions[i].actions;
      var j :| 0 <= j < |f.instructions[i].actions| && f.instructions[i].actions[j] == a;
    }
  }

  lemma CoveredInParts(f: Flow, m: FlowMod)
    ensures Covered(f, m) <==> f.cookie & m.cookieMask == m.cookie & m.cookieMask && !NotNamed(f, m)
  {
    LacksIsNot(f, Output(m.outPort));
    LacksIsNot(f, Group(m.outGroup));
  }

  lemma SurvivesIsUncovered(f: Flow, m: FlowMod)
    ensures Survives(f, m) <==> !Covered(f, m)
  {
    MaskedCookies(f.cookie, m.cookie, m.cookieMask);
    CoveredInParts(f, m);
  }

  /** A delete without match fields leaves exactly the flows that survive, in their order; the handler
      raises, after that, if one of the others asked for SEND_FLOW_REM. With match fields it changes
      nothing, and raises unless all flows survive. */
  lemma {:induction false} FlowsDeleted(c: Content, m: FlowMod)
    requires m.command.DeleteFlow?
    ensures var c', ok := After(c, FlowMessage(m)), PlanFor(c, FlowMessage(m)).ok;
            && c'.groups == c.groups
            && (m.fields != [] ==> c' == c && (ok <==> forall f :: f in c.flows ==> Survives(f, m)))
            && (m.fields == [] ==>
                  && IsWithout(c.flows, c'.flows, m)
                  && (ok <==> forall f :: f in c.flows && !Survives(f, m) ==> f.flags % 2 == 0))
  {
    forall f ensures Survives(f, m) <==> !Covered(f, m) {
      SurvivesIsUncovered(f, m);
    }
    KeptIsWithout(c.flows, m);
    if Deleted(c.flows, m) == [] {
      NothingDeleted(c.flows, m);
    }
    var gone := Deleted(c.flows, m);
    assert forall f :: f in gone <==> f in c.flows && !Survives(f, m);
    assert gone == [] <==> forall f :: f in c.flows ==> Survives(f, m) by {
      if gone != [] {
        assert gone[0] in gone;
      }
    }
  }

  /** The survivors of a list, in their order. */
  ghost predicate IsWithout(flows: seq<Flow>, rest: seq<Flow>, m: FlowMod) {
    if flows == [] then rest == []
    else if Survives(flows[0], m) then rest != [] && rest[0] == flows[0] && IsWithout(flows[1..], rest[1..], m)
    else IsWithout(flows[1..], rest, m)
  }

  lemma {:induction false} KeptIsWithout(flows: seq<Flow>, m: FlowMod)
    ensures IsWithout(flows, Kept(flows, m), m)
  {
    if flows != [] {
      SurvivesIsUncovered(flows[0], m);
      KeptIsWithout(flows[1..], m);
      if Survives(flows[0], m) {
        assert Kept(flows, m)[1..] == Kept(flows[1..], m);
      }
    }
  }

  lemma {:induction false} NothingDeleted(flows: seq<Flow>, m: FlowMod)
    requires Deleted(flows, m) == []
    ensures Kept(flows, m) == flows
  {
    if flows != [] {
      NothingDeleted(flows[1..], m);
    }
  }

  /** The delete of all flows, from every table, with no cookie mask, for any port and any group: nothing
      is left. */
  lemma AllFlowsDeleted(c: Content, m: FlowMod)
    requires m.command.DeleteFlow? && m.fields == [] && m.cookieMask == 0
    requires m.tableId == 0xff && m.outPort == 0x7fff_ffff && m.outGroup == 0x7fff_ffff
    ensures After(c, FlowMessage(m)).flows == []
  {
    FlowsDeleted(c, m);
    forall f ensures !Survives(f, m) {
      MaskedCookies(f.cookie, m.cookie, m.cookieMask);
    }
    NobodySurvives(c.flows, After(c, FlowMessage(m)).flows, m);
  }

  lemma {:induction false} NobodySurvives(flows: seq<Flow>, rest: seq<Flow>, m: FlowMod)
    requires IsWithout(flows, rest, m) && forall f :: f in flows ==> !Survives(f, m)
    ensures rest == []
  {
    if flows != [] {
      assert flows[0] in flows;
      NobodySurvives(flows[1..], rest, m);
    }
  }

  // ----- groups -----

  ghost predicate GroupPresent(groups: seq<GroupEntry>, id: nat) {
    exists i :: 0 <= i < |groups| && groups[i].groupId == id
  }

  lemma {:induction false} GroupFound(groups: seq<GroupEntry>, entry: GroupEntry)
    requires GroupPresent(groups, entry.groupId)
    requires forall g :: g in groups && g.groupId == entry.groupId ==> g == entry
    ensures entry.groupId in GroupMap(groups) && GroupMap(groups)[entry.groupId] == entry
  {
    var n := |groups| - 1;
    if groups[n].groupId != entry.groupId {
      var i :| 0 <= i < |groups| && groups[i].groupId == entry.groupId;
      assert groups[..n][i] == groups[i];
      GroupFound(groups[..n], entry);
    } else {
      assert groups[n] in groups;
    }
  }

  /** An add of a group that is not there appends it, with its type and its buckets; decomposition then
      finds these buckets. An add of one that is there changes nothing. */
  lemma GroupAdded(c: Content, m: GroupMod)
    requires m.command.AddGroup?
    ensures var c' := After(c, GroupMessage(m));
            && c'.flows == c.flows && PlanFor(c, GroupMessage(m)).ok
            && (GroupPresent(c.groups, m.groupId) ==> c' == c)
            && (!GroupPresent(c.groups, m.groupId) ==>
                  && c'.groups == c.groups + [GroupEntry(m.groupType, m.groupId, m.buckets)]
                  && BucketsOf(GroupMap(c'.groups), m.groupId) == m.buckets)
  {
    if GroupPresent(c.groups, m.groupId) {
      var i :| 0 <= i < |c.groups| && c.groups[i].groupId == m.groupId;
      assert c.groups[i] in c.groups;
    }
  }

  /** A modify of a group that is there gives it the type and the buckets of the message where it is;
      a modify of one that is not there changes nothing. */
  lemma GroupChanged(c: Content, m: GroupMod)
    requires m.command.ModifyGroup?
    ensures var c' := After(c, GroupMessage(m));
            && c'.flows == c.flows && PlanFor(c, GroupMessage(m)).ok
            && (!GroupPresent(c.groups, m.groupId) ==> c' == c)
            && (GroupPresent(c.groups, m.groupId) ==>
                  && |c'.groups| == |c.groups|
                  && (forall i :: 0 <= i < |c.groups| ==>
                        c'.groups[i] == if c.groups[i].groupId != m.groupId then c.groups[i]
                                        else GroupEntry(m.groupType, m.groupId, m.buckets))
                  && BucketsOf(GroupMap(c'.groups), m.groupId) == m.buckets)
  {
    var entry := GroupEntry(m.groupType, m.groupId, m.buckets);
    if GroupPresent(c.groups, m.groupId) {
      var i :| 0 <= i < |c.groups| && c.groups[i].groupId == m.groupId;
      assert c.groups[i] in c.groups;
      var c' := After(c, GroupMessage(m));
      assert c'.groups[i] == entry;
      GroupFound(c'.groups, entry);
    }
  }

  /** A delete of all groups (0x7ffffffc) takes the groups and leaves the flows. A delete of one that is
      there takes it and the flows that lead to it, and does neither, but raises, if one of those asked
      for SEND_FLOW_REM; a delete of one that is not there changes nothing. */
  lemma GroupDeleted(c: Content, m: GroupMod)
    requires m.command.DeleteGroup?
    ensures var c', ok := After(c, GroupMessage(m)), PlanFor(c, GroupMessage(m)).ok;
            var announced := exists f :: f in c.flows && !Lacks(f, Group(m.groupId)) && f.flags % 2 == 1;
            if m.groupId == 0x7fff_fffc then c' == Content(c.flows, []) && ok
            else if !GroupPresent(c.groups, m.groupId) then c' == c && ok
            else if announced then c' == c && !ok
            else
              && ok && !GroupPresent(c'.groups, m.groupId)
              && (forall g: GroupEntry :: g.groupId != m.groupId ==> (g in c'.groups <==> g in c.groups))
              && (forall f :: f in c'.flows <==> f in c.flows && Lacks(f, Group(m.groupId)))
  {
    forall f ensures HasAction(f, Group(m.groupId)) <==> !Lacks(f, Group(m.groupId)) {
      LacksIsNot(f, Group(m.groupId));
    }
    if GroupPresent(c.groups, m.groupId) {
      var i :| 0 <= i < |c.groups| && c.groups[i].groupId == m.groupId;
      assert c.groups[i] in c.groups;
    }
    var kept := GroupsWithout(c.groups, m.groupId);
    assert forall i :: 0 <= i < |kept| ==> kept[i] in kept;
    var gone := FlowsWithGroup(c.flows, m.groupId);
    assert gone != [] ==> gone[0] in gone;
  }
}
