/** The OpenFlow vocabulary shared by the logical switch and by the devices behind it:
    match fields, actions, flow entries, group entries, and the extractors of
    voltha/core/flow_decomposer.py. */
module Wrappers {

  datatype Option<+T> = None | Some(value: T)

  /** `Raised` stands for any Python exception that leaves the call. */
  datatype Result<+T> = Ok(value: T) | Raised {
    predicate IsFailure() {
      Raised?
    }

    function PropagateFailure<U>(): Result<U>
      requires Raised?
    {
      Raised
    }

    function Extract(): T
      requires Ok?
    {
      value
    }
  }
}

module OpenFlow {
  import opened Wrappers

  /** `OtherField` stands for every match field that the simulator does not implement. */
  datatype Field =
    | InPort(port: nat)
    | EthType(ethType: nat)
    | IpProto(proto: nat)
    | VlanVid(vid: nat)
    | VlanPcp(pcp: nat)
    | Ipv4Dst(addr: nat)
    | UdpDst(dport: nat)
    | OtherField(kind: nat, data: nat)

  datatype Action =
    | Output(port: nat)
    | PopVlan
    | PushVlan(ethType: nat)
    | SetField(field: Field)
    | Group(groupId: nat)
    | OtherAction(kind: nat)

  datatype Instruction =
    | ApplyActions(actions: seq<Action>)
    | GotoTable(tableId: nat)
    | OtherInstruction(kind: nat)

  /** One ofp_flow_stats entry; logical flows and device rules share the type. */
  datatype Flow = Flow(
    tableId: nat, priority: nat, flags: nat, cookie: bv64,
    fields: seq<Field>, instructions: seq<Instruction>,
    idleTimeout: nat, hardTimeout: nat, packetCount: nat, byteCount: nat)

  /** The attributes that identify a flow. The 64-bit hash the program computes from them is
      replaced by the attributes themselves, that is, by an injective identifier. */
  datatype FlowKey = FlowKey(tableId: nat, priority: nat, flags: nat, cookie: bv64, fields: seq<Field>)

  function KeyOf(f: Flow): FlowKey {
    FlowKey(f.tableId, f.priority, f.flags, f.cookie, f.fields)
  }

  type Bucket = seq<Action>

  datatype GroupEntry = GroupEntry(groupType: nat, groupId: nat, buckets: seq<Bucket>)

  const VID_PRESENT := 0x1000
  const CONTROLLER := 0x7fff_fffd

  /** Bit 12 of a vlan_vid value: "a VLAN tag is present". */
  predicate HasPresentBit(v: nat) {
    (v / 0x1000) % 2 == 1
  }

  /** `OFPVID_PRESENT | v`. */
  function Present(v: nat): (r: nat)
    ensures HasPresentBit(r) && r % 0x1000 == v % 0x1000
  {
    if HasPresentBit(v) then v else v + VID_PRESENT
  }

  predicate IsController(port: nat) {
    port % 0x8000_0000 == CONTROLLER
  }

  // ----- extractors -----

  function GetActions(instructions: seq<Instruction>): Result<seq<Action>> {
    if instructions == [] then Raised
    else if instructions[0].ApplyActions? then Ok(instructions[0].actions)
    else GetActions(instructions[1..])
  }

  function FirstOutput(actions: seq<Action>): Option<nat> {
    if actions == [] then None
    else if actions[0].Output? then Some(actions[0].port)
    else FirstOutput(actions[1..])
  }

  function FirstGroup(actions: seq<Action>): Option<nat> {
    if actions == [] then None
    else if actions[0].Group? then Some(actions[0].groupId)
    else FirstGroup(actions[1..])
  }

  function FirstInPort(fields: seq<Field>): Option<nat> {
    if fields == [] then None
    else if fields[0].InPort? then Some(fields[0].port)
    else FirstInPort(fields[1..])
  }

  predicate HasNextTable(instructions: seq<Instruction>) {
    exists i :: 0 <= i < |instructions| && instructions[i].GotoTable?
  }

  // ----- constructors -----

  function MkFlowStat(priority: nat, cookie: bv64, fields: seq<Field>, actions: seq<Action>): Flow {
    Flow(0, priority, 0, cookie, fields, [ApplyActions(actions)], 0, 0, 0, 0)
  }

  /** The list comprehension `[x for x in xs if keep(x)]`. */
  function Filter<T(==,!new)>(xs: seq<T>, keep: T -> bool): (r: seq<T>)
    ensures forall x :: x in r <==> x in xs && keep(x)
  {
    if xs == [] then []
    else
      var rest := Filter(xs[1..], keep);
      assert forall x :: x in xs <==> x == xs[0] || x in xs[1..];
      if keep(xs[0]) then [xs[0]] + rest else rest
  }

  lemma Reassociated<T>(a: seq<T>, b: seq<T>, c: seq<T>)
    ensures a + (b + c) == (a + b) + c
  {}

  lemma {:induction false} FilterAll<T(!new)>(xs: seq<T>, keep: T -> bool)
    requires forall x :: x in xs ==> keep(x)
    ensures Filter(xs, keep) == xs
  {
    if xs != [] {
      FilterAll(xs[1..], keep);
    }
  }

  lemma {:induction false} FilterOne<T(!new)>(xs: seq<T>, keep: T -> bool, i: nat)
    requires i < |xs| && keep(xs[i]) && forall j :: 0 <= j < |xs| && j != i ==> !keep(xs[j])
    ensures Filter(xs, keep) == [xs[i]]
  {
    if i == 0 {
      assert forall x :: x in xs[1..] ==> !keep(x);
      FilterNone(xs[1..], keep);
    } else {
      FilterOne(xs[1..], keep, i - 1);
    }
  }

  /** If one element is left, it is the only one to keep. */
  lemma {:induction false} FilteredToOne<T(!new)>(xs: seq<T>, keep: T -> bool) returns (i: nat)
    requires |Filter(xs, keep)| == 1
    ensures i < |xs| && Filter(xs, keep) == [xs[i]]
    ensures keep(xs[i]) && forall j :: 0 <= j < |xs| && j != i ==> !keep(xs[j])
  {
    if keep(xs[0]) {
      i := 0;
      assert Filter(xs[1..], keep) == [];
      assert forall j :: 1 <= j < |xs| ==> xs[j] in xs[1..];
    } else {
      var k := FilteredToOne(xs[1..], keep);
      i := k + 1;
      assert forall j :: 1 <= j < |xs| ==> xs[j] == xs[1..][j - 1];
    }
  }

  lemma {:induction false} FilterNone<T(!new)>(xs: seq<T>, keep: T -> bool)
    requires forall x :: x in xs ==> !keep(x)
    ensures Filter(xs, keep) == []
  {
    if xs != [] {
      FilterNone(xs[1..], keep);
    }
  }

  lemma {:induction false} FirstOutputNone(actions: seq<Action>)
    ensures FirstOutput(actions).None? <==> forall a :: a in actions ==> !a.Output?
    ensures FirstOutput(actions).Some? ==> Output(FirstOutput(actions).value) in actions
  {
    if actions != [] {
      FirstOutputNone(actions[1..]);
      assert forall a :: a in actions <==> a == actions[0] || a in actions[1..];
    }
  }
}
