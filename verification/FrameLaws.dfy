/** What matching and actions mean on the wire: is_match and process_actions of ponsim/ponsim.py
    against the header of a frame as a row of words (IEEE 802.1Q), and what no table can change. */
module FrameLaws {
  import opened Wrappers
  import opened OpenFlow
  import opened PonMachine

  // ----- the header as it is sent -----

  /** Priority, VLAN and following type of each tag, outermost first. */
  function TagWords(tags: seq<Tag>): seq<nat> {
    if tags == [] then [] else [tags[0].pcp, tags[0].vid, tags[0].etype] + TagWords(tags[1..])
  }

  /** Destination, source and type, and then the tags. */
  function Words(fr: Frame): seq<nat> {
    [fr.dst, fr.src, fr.etherType] + TagWords(fr.tags)
  }

  lemma {:induction false} TagWordsDetermine(a: seq<Tag>, b: seq<Tag>)
    requires TagWords(a) == TagWords(b)
    ensures a == b
    decreases |a|
  {
    if a != [] && b != [] {
      var x, y := TagWords(a), TagWords(b);
      assert x[0] == a[0].pcp && x[1] == a[0].vid && x[2] == a[0].etype && x[3..] == TagWords(a[1..]);
      assert y[0] == b[0].pcp && y[1] == b[0].vid && y[2] == b[0].etype && y[3..] == TagWords(b[1..]);
      TagWordsDetermine(a[1..], b[1..]);
      assert a == [a[0]] + a[1..] && b == [b[0]] + b[1..];
    }
  }

  /** Header and payload are all there is to a frame. */
  lemma {:induction false} WordsDetermine(a: Frame, b: Frame)
    ensures Words(a) == Words(b) && a.payload == b.payload <==> a == b
  {
    if Words(a) == Words(b) {
      var x, y := Words(a), Words(b);
      assert x[0] == a.dst && x[1] == a.src && x[2] == a.etherType && x[3..] == TagWords(a.tags);
      assert y[0] == b.dst && y[1] == b.src && y[2] == b.etherType && y[3..] == TagWords(b.tags);
      TagWordsDetermine(a.tags, b.tags);
    }
  }

  /** PUSH_VLAN inserts the type of the tag, priority 0 and VLAN 1 behind the addresses. */
  lemma {:induction false} PushOnWire(ethType: nat, s: ActionState)
    ensures var s' := RunAction(PushVlan(ethType), s);
            && s'.Ok? && Words(s'.value.cur) == Words(s.cur)[..2] + [ethType, 0, 1] + Words(s.cur)[2..]
            && s'.value.cur.payload == s.cur.payload
            && s'.value.egress == s.egress && !s'.value.aliased && s'.value.orig == s.orig
  {
    var tags := [Tag(1, 0, s.cur.etherType)] + s.cur.tags;
    assert tags[1..] == s.cur.tags;
  }

  /** POP_VLAN takes three words out behind the addresses, if there is a tag. */
  lemma {:induction false} PopOnWire(s: ActionState)
    ensures var s' := RunAction(PopVlan, s);
            && s'.Ok? && s'.value.cur.payload == s.cur.payload
            && s'.value.egress == s.egress && s'.value.orig == s.orig
            && (|Words(s.cur)| > 3 ==>
                  Words(s'.value.cur) == Words(s.cur)[..2] + Words(s.cur)[5..] && !s'.value.aliased)
            && (|Words(s.cur)| == 3 ==> s'.value == s)
  {
    var w := Words(s.cur);
    if s.cur.tags != [] {
      var rest := TagWords(s.cur.tags[1..]);
      assert TagWords(s.cur.tags)[2..] == [s.cur.tags[0].etype] + rest;
      assert w[5..] == [s.cur.tags[0].etype] + rest;
    }
  }

  /** SET_FIELD replaces one word of the outermost tag: the priority, or the VLAN by the low twelve
      bits. Without a tag, and for any other field, it raises. */
  lemma {:induction false} SetOnWire(x: Field, s: ActionState)
    ensures var s' := RunAction(SetField(x), s);
            && (s'.Ok? <==> |Words(s.cur)| > 3 && (x.VlanVid? || x.VlanPcp?))
            && (s'.Ok? ==>
                  && Words(s'.value.cur) ==
                     (if x.VlanVid? then Words(s.cur)[4 := x.vid % 0x1000] else Words(s.cur)[3 := x.pcp])
                  && s'.value.cur.payload == s.cur.payload && s'.value.egress == s.egress
                  && s'.value.aliased == s.aliased && s'.value.orig == if s.aliased then s'.value.cur else s.orig)
  {
    var s' := RunAction(SetField(x), s);
    if s'.Ok? {
      assert s'.value.cur.tags[1..] == s.cur.tags[1..];
    }
  }

  /** OUTPUT only names the port, and every other action raises. */
  lemma OutputOnWire(a: Action, s: ActionState)
    ensures a.Output? ==> RunAction(a, s) == Ok(ActionState(Some(a.port), s.cur, s.aliased, s.orig))
    ensures !a.Output? && !a.PopVlan? && !a.PushVlan? && !a.SetField? ==> RunAction(a, s) == Raised
  {}

  // ----- what each match field means -----

  /** A dotted address matches itself and no other, on IP frames only. Bits above 32 are ignored. */
  lemma DottedAddress(high: nat, a: nat, b: nat, c: nat, d: nat, port: nat, fr: Frame)
    requires a < 256 && b < 256 && c < 256 && d < 256
    ensures var addr := high * 0x1_0000_0000 + a * 0x100_0000 + b * 0x1_0000 + c * 0x100 + d;
            FieldVerdict(Ipv4Dst(addr), port, fr) == Yes <==> fr.payload.Ip? && fr.payload.dst == (a, b, c, d)
  {
    var addr := high * 0x1_0000_0000 + a * 0x100_0000 + b * 0x1_0000 + c * 0x100 + d;
    assert addr / 0x100 == high * 0x100_0000 + a * 0x1_0000 + b * 0x100 + c && addr % 256 == d;
    assert addr / 0x1_0000 == high * 0x1_0000 + a * 0x100 + b && (addr / 0x100) % 256 == c;
    assert addr / 0x100_0000 == high * 0x100 + a && (addr / 0x1_0000) % 256 == b;
    assert (addr / 0x100_0000) % 256 == a;
  }

  /** Bit 12 of a VLAN match asks for a tag, and then the low bits name it; without it the match is
      for untagged frames. Bits above it are ignored. */
  lemma VlanMatch(high: nat, vid: nat, port: nat, fr: Frame)
    requires vid < 0x1000
    ensures FieldVerdict(VlanVid(high * 0x2000 + 0x1000 + vid), port, fr) == Yes <==>
            |Words(fr)| > 3 && Words(fr)[4] == vid
    ensures FieldVerdict(VlanVid(high * 0x2000 + vid), port, fr) == Yes <==> |Words(fr)| == 3
  {}

  /** The other fields read the words they name: the type is the one behind the outermost tag, if
      there is a tag. UDP_DST and fields of other kinds raise. */
  lemma PlainMatch(k: nat, data: nat, port: nat, fr: Frame)
    ensures FieldVerdict(InPort(k), port, fr) == Yes <==> port == k
    ensures FieldVerdict(EthType(k), port, fr) == Yes <==> Words(fr)[if |Words(fr)| > 3 then 5 else 2] == k
    ensures FieldVerdict(VlanPcp(k), port, fr) == Yes <==> |Words(fr)| > 3 && Words(fr)[3] == k
    ensures FieldVerdict(IpProto(k), port, fr) == Yes <==> fr.payload.Ip? && fr.payload.proto == k
    ensures FieldVerdict(UdpDst(k), port, fr) == Raises && FieldVerdict(OtherField(k, data), port, fr) == Raises
  {}

  /** The fields are looked at in turn, up to the first that does not match, which decides. */
  lemma {:induction false} MatchStopsAtFirst(fields: seq<Field>, k: nat, port: nat, fr: Frame)
    requires k <= |fields| && forall j :: 0 <= j < k ==> FieldVerdict(fields[j], port, fr) == Yes
    requires k < |fields| ==> FieldVerdict(fields[k], port, fr) != Yes
    ensures IsMatch(fields, port, fr) == if k < |fields| then FieldVerdict(fields[k], port, fr) else Yes
    decreases k
  {
    if k > 0 {
      assert FieldVerdict(fields[0], port, fr) == Yes;
      MatchStopsAtFirst(fields[1..], k - 1, port, fr);
    }
  }

  // ----- what no table can change -----

  /** The type of the payload, behind all tags. */
  function InnerType(fr: Frame): nat {
    if fr.tags == [] then fr.etherType else fr.tags[|fr.tags| - 1].etype
  }

  /** The same frame for its ends: addresses, payload and the payload's type. */
  predicate SameCargo(a: Frame, b: Frame) {
    a.src == b.src && a.dst == b.dst && a.payload == b.payload && InnerType(a) == InnerType(b)
  }

  predicate StateKeeps(s: ActionState, fr: Frame) {
    SameCargo(s.cur, fr) && SameCargo(s.orig, fr)
  }

  lemma ActionKeeps(a: Action, s: ActionState, fr: Frame)
    requires StateKeeps(s, fr) && RunAction(a, s).Ok?
    ensures StateKeeps(RunAction(a, s).value, fr)
  {}

  lemma {:induction false} ActionsKeep(actions: seq<Action>, s: ActionState, fr: Frame)
    requires StateKeeps(s, fr)
    ensures RunActions(actions, s).Ok? ==> StateKeeps(RunActions(actions, s).value, fr)
    ensures StateKeeps(Stopped(actions, s), fr)
  {
    if actions != [] && RunAction(actions[0], s).Ok? {
      ActionKeeps(actions[0], s, fr);
      ActionsKeep(actions[1..], RunAction(actions[0], s).value, fr);
    }
  }

  lemma {:induction false} ProcessKeeps(flows: seq<Flow>, port: nat, fr: Frame)
    ensures var o := ProcessFrame(flows, port, fr);
            o.Ok? && o.value.Forward? ==> SameCargo(o.value.fr, fr) && SameCargo(o.value.orig, fr)
    ensures SameCargo(AfterRaise(flows, port, fr), fr)
  {
    if flows != [] {
      match IsMatch(flows[0].fields, port, fr)
      case No => ProcessKeeps(flows[1..], port, fr);
      case Raises =>
      case Yes =>
        if GetActions(flows[0].instructions).Ok? {
          ActionsKeep(GetActions(flows[0].instructions).value, Start(fr), fr);
        }
    }
  }

  ghost predicate TraceKeeps(trace: Trace, fr: Frame) {
    SameCargo(trace.fr, fr) && forall c :: c in trace.out ==> SameCargo(c.1, fr)
  }

  /** In every network with every table: whatever leaves anywhere, and the object that was handed in
      itself, has the addresses, the payload and the payload type of the frame that came in. */
  lemma {:induction false} IngressKeepsCargo(net: Net, d: nat, port: nat, fr: Frame, depth: nat)
    requires d < |net| && WiredWithin(net)
    ensures TraceKeeps(Ingress(net, d, port, fr, depth), fr)
    decreases depth, 0
  {
    if depth > 0 {
      ProcessKeeps(net[d].flows, port, fr);
      match ProcessFrame(net[d].flows, port, fr)
      case Ok(Forward(egress, fr', _, _)) => HandKeepsCargo(net, LinksOf(net, d, egress), fr', depth - 1);
      case _ =>
    }
  }

  lemma {:induction false} HandKeepsCargo(net: Net, links: seq<Link>, fr: Frame, depth: nat)
    requires WiredWithin(net) && forall l :: l in links ==> LinkWithin(l, |net|)
    ensures TraceKeeps(Hand(net, links, fr, depth), fr)
    decreases depth, |links| + 1
  {
    if links != [] {
      assert links[0] in links;
      if links[0].ToDevice? {
        IngressKeepsCargo(net, links[0].device, links[0].port, fr, depth);
      }
      var first := HandOne(net, links[0], fr, depth);
      if first.status == Done {
        HandKeepsCargo(net, links[1..], first.fr, depth);
      }
    }
  }
}
