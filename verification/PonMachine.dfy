/** The PON simulator of ponsim/ponsim.py as a function: what a device does with a frame, and what
    the OLT and its ONUs do together. Python objects are tracked where they matter: a device that
    runs SET_FIELD changes the very frame object it was handed, and the OLT hands one object to
    all ONUs in turn. */
module PonMachine {
  import opened Wrappers
  import opened OpenFlow

  // ----- frames -----

  /** One 802.1Q shim: VLAN id, priority, and the type of what follows it. */
  datatype Tag = Tag(vid: nat, pcp: nat, etype: nat)

  datatype Payload =
    | Raw(bytes: seq<bv8>)
    | Ip(proto: nat, dst: (nat, nat, nat, nat), body: seq<bv8>)

  datatype Frame = Frame(src: nat, dst: nat, etherType: nat, tags: seq<Tag>, payload: Payload)

  predicate Tagged(fr: Frame) {
    fr.tags != []
  }

  /** The frame without its outermost tag; an untagged frame is left alone. */
  function Pop(fr: Frame): Frame {
    if fr.tags == [] then fr
    else fr.(etherType := fr.tags[0].etype, tags := fr.tags[1..])
  }

  /** The frame with a new outermost tag, which scapy fills with VLAN 1 and priority 0. */
  function Push(fr: Frame, ethType: nat): Frame {
    fr.(etherType := ethType, tags := [Tag(1, 0, fr.etherType)] + fr.tags)
  }

  function WithVid(fr: Frame, vid: nat): Frame
    requires Tagged(fr)
  {
    fr.(tags := fr.tags[0 := fr.tags[0].(vid := vid)])
  }

  function WithPcp(fr: Frame, pcp: nat): Frame
    requires Tagged(fr)
  {
    fr.(tags := fr.tags[0 := fr.tags[0].(pcp := pcp)])
  }

  /** The four decimal groups of ipv4int2str. */
  function Ipv4Groups(addr: nat): (nat, nat, nat, nat) {
    ((addr / 0x100_0000) % 256, (addr / 0x1_0000) % 256, (addr / 0x100) % 256, addr % 256)
  }

  // ----- matching -----

  datatype Verdict = Yes | No | Raises

  function FieldVerdict(field: Field, port: nat, fr: Frame): Verdict {
    match field
    case InPort(p) => if p == port then Yes else No
    case EthType(t) => if t == (if Tagged(fr) then fr.tags[0].etype else fr.etherType) then Yes else No
    case IpProto(p) => if fr.payload.Ip? && fr.payload.proto == p then Yes else No
    case VlanVid(v) =>
      if HasPresentBit(v) != Tagged(fr) then No
      else if Tagged(fr) && fr.tags[0].vid != v % 0x1000 then No
      else Yes
    case VlanPcp(p) => if Tagged(fr) && fr.tags[0].pcp == p then Yes else No
    case Ipv4Dst(a) => if fr.payload.Ip? && fr.payload.dst == Ipv4Groups(a) then Yes else No
    case UdpDst(_) => Raises       // reads the attribute udsp_dst, which no field has
    case OtherField(_, _) => Raises
  }

  function IsMatch(fields: seq<Field>, port: nat, fr: Frame): Verdict {
    if fields == [] then Yes
    else
      match FieldVerdict(fields[0], port, fr)
      case Yes => IsMatch(fields[1..], port, fr)
      case No => No
      case Raises => Raises
  }

  predicate Supported(field: Field) {
    !field.UdpDst? && !field.OtherField?
  }

  /** Matching is a conjunction over the fields, whatever their order. */
  lemma {:induction false} MatchIsConjunction(fields: seq<Field>, port: nat, fr: Frame)
    requires forall f :: f in fields ==> Supported(f)
    ensures IsMatch(fields, port, fr) != Raises
    ensures IsMatch(fields, port, fr) == Yes <==> forall f :: f in fields ==> FieldVerdict(f, port, fr) == Yes
  {
    if fields != [] {
      assert fields[0] in fields && Supported(fields[0]);
      MatchIsConjunction(fields[1..], port, fr);
      assert forall f :: f in fields <==> f == fields[0] || f in fields[1..];
    }
  }

  // ----- actions -----

  /** `cur` is the frame the action list works on. While `aliased` holds it is the object the
      device was handed, whose content is `orig`. */
  datatype ActionState = ActionState(egress: Option<nat>, cur: Frame, aliased: bool, orig: Frame)

  function Mutate(s: ActionState, fr: Frame): ActionState {
    s.(cur := fr, orig := if s.aliased then fr else s.orig)
  }

  function Rebind(s: ActionState, fr: Frame): ActionState {
    s.(cur := fr, aliased := false)
  }

  function RunAction(a: Action, s: ActionState): Result<ActionState> {
    match a
    case Output(p) => Ok(s.(egress := Some(p)))
    case PopVlan => Ok(if Tagged(s.cur) then Rebind(s, Pop(s.cur)) else s)
    case PushVlan(t) => Ok(Rebind(s, Push(s.cur, t)))
    case SetField(VlanVid(v)) => if Tagged(s.cur) then Ok(Mutate(s, WithVid(s.cur, v % 0x1000))) else Raised
    case SetField(VlanPcp(p)) => if Tagged(s.cur) then Ok(Mutate(s, WithPcp(s.cur, p))) else Raised
    case _ => Raised
  }

  function RunActions(actions: seq<Action>, s: ActionState): Result<ActionState> {
    if actions == [] then Ok(s)
    else
      var s' :- RunAction(actions[0], s);
      RunActions(actions[1..], s')
  }

  /** How far an action list gets: to its end, or to the action that raises. */
  function Stopped(actions: seq<Action>, s: ActionState): ActionState {
    if actions == [] then s
    else
      match RunAction(actions[0], s)
      case Ok(s') => Stopped(actions[1..], s')
      case Raised => s
  }

  lemma {:induction false} StoppedAtEnd(actions: seq<Action>, s: ActionState)
    ensures RunActions(actions, s).Ok? ==> Stopped(actions, s) == RunActions(actions, s).value
  {
    if actions != [] && RunAction(actions[0], s).Ok? {
      StoppedAtEnd(actions[1..], RunAction(actions[0], s).value);
    }
  }

  /** A tag pushed and popped again leaves the frame as it was, but as an object of its own. */
  lemma {:induction false} PushThenPop(t: nat, s: ActionState)
    ensures RunActions([PushVlan(t), PopVlan], s) == Ok(Rebind(s, s.cur))
  {
    var actions := [PushVlan(t), PopVlan];
    assert actions[1..] == [PopVlan] && [PopVlan][1..] == [];
    var pushed := Push(s.cur, t);
    assert pushed.tags[1..] == s.cur.tags;
    assert RunActions([PopVlan], Rebind(s, pushed)) == RunActions([], Rebind(s, Pop(pushed)));
  }

  /** The match that a SET_FIELD establishes. */
  function AsMatched(x: Field): Field {
    if x.VlanVid? then VlanVid(Present(x.vid % 0x1000)) else x
  }

  /** What SET_FIELD sets can be matched afterwards, and no match on anything else is affected; the
      caller's object changes with the frame exactly while the two are one. */
  lemma SetThenMatch(x: Field, y: Field, port: nat, s: ActionState)
    requires RunAction(SetField(x), s).Ok?
    ensures var s' := RunAction(SetField(x), s).value;
            && FieldVerdict(AsMatched(x), port, s'.cur) == Yes
            && (!(x.VlanVid? && y.VlanVid?) && !(x.VlanPcp? && y.VlanPcp?) ==>
                  FieldVerdict(y, port, s'.cur) == FieldVerdict(y, port, s.cur))
            && s'.orig == if s.aliased then s'.cur else s.orig
  {}

  function Start(fr: Frame): ActionState {
    ActionState(None, fr, true, fr)
  }

  // ----- one device -----

  /** What process_frame returns: `orig` is the content of the ingress object afterwards. */
  datatype Outcome = Dropped | Forward(egress: Option<nat>, fr: Frame, aliased: bool, orig: Frame)

  function RunFlow(flow: Flow, fr: Frame): Result<Outcome> {
    var actions :- GetActions(flow.instructions);
    var s :- RunActions(actions, Start(fr));
    Ok(Forward(s.egress, s.cur, s.aliased, s.orig))
  }

  function ProcessFrame(flows: seq<Flow>, port: nat, fr: Frame): Result<Outcome> {
    if flows == [] then Ok(Dropped)
    else
      match IsMatch(flows[0].fields, port, fr)
      case Yes => RunFlow(flows[0], fr)
      case No => ProcessFrame(flows[1..], port, fr)
      case Raises => Raised
  }

  /** What the ingress object contains when process_frame raises. */
  function AfterRaise(flows: seq<Flow>, port: nat, fr: Frame): Frame {
    if flows == [] then fr
    else
      match IsMatch(flows[0].fields, port, fr)
      case Raises => fr
      case No => AfterRaise(flows[1..], port, fr)
      case Yes =>
        match GetActions(flows[0].instructions)
        case Raised => fr
        case Ok(actions) => Stopped(actions, Start(fr)).orig
  }

  /** The stable sort of install_flows, highest priority first: equal keys keep their order. */
  function SortedByPriority(flows: seq<Flow>): seq<Flow> {
    if flows == [] then []
    else InsertByPriority(SortedByPriority(flows[..|flows| - 1]), flows[|flows| - 1])
  }

  function InsertByPriority(sorted: seq<Flow>, flow: Flow): seq<Flow> {
    if sorted == [] || sorted[0].priority < flow.priority then [flow] + sorted
    else [sorted[0]] + InsertByPriority(sorted[1..], flow)
  }

  // ----- the network -----

  /** The closures stored in `links`: hand the frame to the simulator's user, or to a device. */
  datatype Link = ToUser(port: nat) | ToDevice(device: nat, port: nat)

  datatype Station = Station(flows: seq<Flow>, links: map<nat, seq<Link>>)

  type Net = seq<Station>

  predicate WiredWithin(net: Net) {
    forall d, p, k :: 0 <= d < |net| && p in net[d].links && 0 <= k < |net[d].links[p]| ==>
      LinkWithin(net[d].links[p][k], |net|)
  }

  predicate LinkWithin(link: Link, n: nat) {
    link.ToDevice? ==> link.device < n
  }

  datatype Status = Done | Failed | TooDeep

  /** What an ingress call emitted, the content of the ingress object when it returned, and
      whether it returned, raised, or ran out of call depth. */
  datatype Trace = Trace(out: seq<(nat, Frame)>, fr: Frame, status: Status)

  function LinksOf(net: Net, d: nat, egress: Option<nat>): (r: seq<Link>)
    requires d < |net| && WiredWithin(net)
    ensures forall l :: l in r ==> LinkWithin(l, |net|)
  {
    if egress.Some? && egress.value in net[d].links then net[d].links[egress.value] else []
  }

  /** SimDevice.ingress, at most `depth` nested device calls deep. */
  function Ingress(net: Net, d: nat, port: nat, fr: Frame, depth: nat): Trace
    requires d < |net| && WiredWithin(net)
    decreases depth, 0
  {
    if depth == 0 then Trace([], fr, TooDeep)
    else
      match ProcessFrame(net[d].flows, port, fr)
      case Raised => Trace([], AfterRaise(net[d].flows, port, fr), Failed)
      case Ok(Dropped) => Trace([], fr, Done)
      case Ok(Forward(egress, fr', aliased, orig)) =>
        var t := Hand(net, LinksOf(net, d, egress), fr', depth - 1);
        Trace(t.out, if aliased then t.fr else orig, t.status)
  }

  /** One call of a stored closure. */
  function HandOne(net: Net, link: Link, fr: Frame, depth: nat): Trace
    requires WiredWithin(net) && LinkWithin(link, |net|)
    decreases depth, 1
  {
    match link
    case ToUser(p) => Trace([(p, fr)], fr, Done)
    case ToDevice(d, p) => Ingress(net, d, p, fr, depth)
  }

  /** The loop over the links of the egress port: one frame object is handed to each in turn. */
  function Hand(net: Net, links: seq<Link>, fr: Frame, depth: nat): Trace
    requires WiredWithin(net) && forall l :: l in links ==> LinkWithin(l, |net|)
    decreases depth, |links| + 2
  {
    if links == [] then Trace([], fr, Done)
    else
      var first := HandOne(net, links[0], fr, depth);
      if first.status != Done then first
      else
        var rest := Hand(net, links[1..], first.fr, depth);
        Trace(first.out + rest.out, rest.fr, rest.status)
  }

  lemma {:induction false} HandStep(net: Net, links: seq<Link>, k: nat, fr: Frame, depth: nat)
    requires WiredWithin(net) && k < |links| && forall l :: l in links ==> LinkWithin(l, |net|)
    ensures forall l :: l in links[k..] || l in links[k + 1..] ==> LinkWithin(l, |net|)
    ensures var first := HandOne(net, links[k], fr, depth);
            Hand(net, links[k..], fr, depth) ==
            if first.status != Done then first
            else
              var rest := Hand(net, links[k + 1..], first.fr, depth);
              Trace(first.out + rest.out, rest.fr, rest.status)
  {
    assert links[k..][0] == links[k] && links[k..][1..] == links[k + 1..];
  }

  // ----- PonSim's wiring -----

  const PON: nat := 1
  const EDGE: nat := 2
  const OLT_PORT: nat := 0

  /** The number under which PonSim knows the i-th ONU. */
  function OnuPort(i: nat): nat {
    128 + i
  }

  function OltLinks(onus: nat): map<nat, seq<Link>> {
    if onus == 0 then map[EDGE := [ToUser(OLT_PORT)]]
    else map[EDGE := [ToUser(OLT_PORT)], PON := seq(onus, i requires i >= 0 => ToDevice(i + 1, PON))]
  }

  function OnuLinks(i: nat): map<nat, seq<Link>> {
    map[PON := [ToDevice(0, PON)], EDGE := [ToUser(OnuPort(i))]]
  }

  /** Device 0 is the OLT and device i + 1 the i-th ONU; the tables are as installed. */
  function PonNet(olt: seq<Flow>, onus: seq<seq<Flow>>): (net: Net)
    ensures |net| == |onus| + 1 && WiredWithin(net)
  {
    [Station(SortedByPriority(olt), OltLinks(|onus|))]
    + seq(|onus|, i requires 0 <= i < |onus| => Station(SortedByPriority(onus[i]), OnuLinks(i)))
  }

  /** PonSim.ingress at the NNI (device 0) or at the UNI of an ONU. */
  function Inject(net: Net, d: nat, fr: Frame, depth: nat): Trace
    requires d < |net| && WiredWithin(net)
  {
    Ingress(net, d, EDGE, fr, depth)
  }
}
