/** ponsim/ponsim.py in its own form: packets, devices and the simulator are objects, SET_FIELD
    updates the packet in place, and ingress calls run through the stored links. Every method is
    tied to the function of PonMachine that describes it. */
module PonSim {
  import opened Wrappers
  import opened OpenFlow
  import opened PonMachine
  import opened RuleSelection

  /** A scapy frame: an object whose content SET_FIELD changes. */
  class Packet {
    var content: Frame

    constructor (fr: Frame)
      ensures content == fr
    {
      content := fr;
    }
  }

  class SimDevice {
    var flows: seq<Flow>
    var links: map<nat, seq<Link>>

    constructor ()
      ensures flows == [] && links == map[]
    {
      flows := [];
      links := map[];
    }

    /** A port may have several links; they are kept in the order in which they were added. */
    method AddLink(port: nat, link: Link)
      modifies this`links
      ensures links == old(links)[port := if port in old(links) then old(links)[port] + [link] else [link]]
    {
      links := links[port := if port in links then links[port] + [link] else [link]];
    }

    method InstallFlows(pushed: seq<Flow>)
      modifies this`flows
      ensures StablySorted(flows, pushed)
    {
      flows := SortedByPriority(pushed);
      StableSortIsUnique(flows, pushed);
    }

    /** The action loop: POP_VLAN and PUSH_VLAN rebind the local name to a new object, SET_FIELD
        writes into the object at hand, which may still be the caller's. */
    static method ProcessActions(
      actions: seq<Action>, packet: Packet) returns (ok: bool, egress: Option<nat>, out: Packet)
      modifies packet
      ensures ok <==> RunActions(actions, Start(old(packet.content))).Ok?
      ensures out == packet || fresh(out)
      ensures packet.content == Stopped(actions, Start(old(packet.content))).orig
      ensures ok ==>
                var s := RunActions(actions, Start(old(packet.content))).value;
                egress == s.egress && out.content == s.cur && packet.content == s.orig && (out == packet <==> s.aliased)
    {
      ok, egress, out := true, None, packet;
      ghost var all, last := RunActions(actions, Start(packet.content)), Stopped(actions, Start(packet.content));
      StoppedAtEnd(actions, Start(packet.content));
      var k := 0;
      while k < |actions|
        invariant 0 <= k <= |actions| && ok
        invariant out == packet || fresh(out)
        invariant all == RunActions(actions[k..], ActionState(egress, out.content, out == packet, packet.content))
        invariant last == Stopped(actions[k..], ActionState(egress, out.content, out == packet, packet.content))
      {
        var action := actions[k];
        assert actions[k..][0] == action && actions[k..][1..] == actions[k + 1..];
        match action {
          case Output(p) =>
            egress := Some(p);
          case PopVlan =>
            if Tagged(out.content) {
              out := new Packet(Pop(out.content));
            }
          case PushVlan(t) =>
            out := new Packet(Push(out.content, t));
          case SetField(VlanVid(v)) =>
            if !Tagged(out.content) {
              ok := false;
              return;
            }
            out.content := WithVid(out.content, v % 0x1000);
          case SetField(VlanPcp(p)) =>
            if !Tagged(out.content) {
              ok := false;
              return;
            }
            out.content := WithPcp(out.content, p);
          case _ =>
            ok := false;
            return;
        }
        k := k + 1;
      }
    }

    /** Roll down the table until a rule matches. */
    method ProcessFrame(port: nat, packet: Packet) returns (ok: bool, matched: bool, egress: Option<nat>, out: Packet)
      modifies packet
      ensures ok <==> PonMachine.ProcessFrame(flows, port, old(packet.content)).Ok?
      ensures out == packet || fresh(out)
      ensures !ok ==> packet.content == AfterRaise(flows, port, old(packet.content))
      ensures ok && !matched ==>
                && PonMachine.ProcessFrame(flows, port, old(packet.content)) == Ok(Dropped)
                && packet.content == old(packet.content)
      ensures ok && matched ==>
                PonMachine.ProcessFrame(flows, port, old(packet.content)) ==
                Ok(Forward(egress, out.content, out == packet, packet.content))
    {
      ok, matched, egress, out := true, false, None, packet;
      var k := 0;
      while k < |flows|
        invariant 0 <= k <= |flows| && packet.content == old(packet.content)
        invariant AfterRaise(flows, port, packet.content) == AfterRaise(flows[k..], port, packet.content)
        invariant PonMachine.ProcessFrame(flows, port, packet.content) ==
            PonMachine.ProcessFrame(flows[k..], port, packet.content)
      {
        var flow := flows[k];
        assert flows[k..][0] == flow && flows[k..][1..] == flows[k + 1..];
        match IsMatch(flow.fields, port, packet.content) {
          case Yes =>
            var actions := GetActions(flow.instructions);
            if actions.Raised? {
              ok := false;
              return;
            }
            matched := true;
            ok, egress, out := ProcessActions(actions.value, packet);
            return;
          case Raises =>
            ok := false;
            return;
          case No =>
        }
        k := k + 1;
      }
    }
  }

  /** The rest of the loop over links, from the k-th on, when so much has been emitted before. */
  ghost function HandFrom(
    net: Net, links: seq<Link>, k: nat, emitted: seq<(nat, Frame)>, fr: Frame, depth: nat): Trace
    requires WiredWithin(net) && k <= |links| && forall l :: l in links ==> LinkWithin(l, |net|)
    decreases |links| - k
  {
    if k == |links| then Trace(emitted, fr, Done)
    else
      assert links[k] in links;
      var first := HandOne(net, links[k], fr, depth);
      if first.status != Done then Trace(emitted + first.out, first.fr, first.status)
      else HandFrom(net, links, k + 1, emitted + first.out, first.fr, depth)
  }

  lemma {:induction false} HandFromIsHand(
    net: Net, links: seq<Link>, k: nat, emitted: seq<(nat, Frame)>, fr: Frame, depth: nat)
    requires WiredWithin(net) && k <= |links| && forall l :: l in links ==> LinkWithin(l, |net|)
    ensures forall l :: l in links[k..] ==> LinkWithin(l, |net|)
    ensures var rest := Hand(net, links[k..], fr, depth);
            HandFrom(net, links, k, emitted, fr, depth) == Trace(emitted + rest.out, rest.fr, rest.status)
    decreases |links| - k
  {
    if k < |links| {
      assert links[k] in links;
      HandStep(net, links, k, fr, depth);
      var first := HandOne(net, links[k], fr, depth);
      if first.status == Done {
        HandFromIsHand(net, links, k + 1, emitted + first.out, first.fr, depth);
        var rest := Hand(net, links[k + 1..], first.fr, depth);
        assert emitted + (first.out + rest.out) == (emitted + first.out) + rest.out;
      }
    }
  }

  lemma {:induction false} AllLinks(net: Net, links: seq<Link>, emitted: seq<(nat, Frame)>, fr: Frame, depth: nat)
    requires WiredWithin(net) && forall l :: l in links ==> LinkWithin(l, |net|)
    ensures var all := Hand(net, links, fr, depth);
            HandFrom(net, links, 0, emitted, fr, depth) == Trace(emitted + all.out, all.fr, all.status)
  {
    HandFromIsHand(net, links, 0, emitted, fr, depth);
    assert links[0..] == links;
  }

  /** The numbers of the constructor: an edge port is 2 and a PON port 1; outside, the OLT is port 0 and
      the i-th ONU port 128 + i. */
  lemma WiringNumbers(onus: nat, i: nat)
    ensures OnuLinks(i) == map[1 := [ToDevice(0, 1)], 2 := [ToUser(128 + i)]]
    ensures 2 in OltLinks(onus) && OltLinks(onus)[2] == [ToUser(0)] && (1 in OltLinks(onus) <==> onus > 0)
    ensures OltLinks(onus).Keys <= {1, 2}
    ensures onus > 0 ==> |OltLinks(onus)[1]| == onus
    ensures i < onus ==> OltLinks(onus)[1][i] == ToDevice(i + 1, 1)
  {}

  class PonSimulator {
    const stations: seq<SimDevice>
    var output: seq<(nat, Frame)>

    /** The state of all devices as a value. */
    ghost function Devices(): Net
      reads stations
    {
      seq(|stations|, d requires 0 <= d < |stations| reads stations => Station(stations[d].flows, stations[d].links))
    }

    ghost predicate Valid()
      reads this, stations
    {
      && |stations| > 0
      && (forall i, j :: 0 <= i < j < |stations| ==> stations[i] != stations[j])
      && WiredWithin(Devices())
    }

    /** The wiring of the constructor: each ONU is linked to the OLT and to the outside. */
    static method Wire(onus: nat) returns (devices: seq<SimDevice>)
      ensures |devices| == onus + 1 && fresh(devices)
      ensures forall j, k :: 0 <= j < k < |devices| ==> devices[j] != devices[k]
      ensures forall d :: 0 <= d < |devices| ==>
                devices[d].flows == [] && devices[d].links == if d == 0 then OltLinks(onus) else OnuLinks(d - 1)
    {
      var olt := new SimDevice();
      olt.AddLink(EDGE, ToUser(OLT_PORT));
      assert olt.links == OltLinks(0);
      devices := [olt];
      for i := 0 to onus
        invariant |devices| == i + 1 && devices[0] == olt && fresh(devices)
        invariant forall j, k :: 0 <= j < k < |devices| ==> devices[j] != devices[k]
        invariant forall d :: 0 <= d < |devices| ==>
                    devices[d].flows == [] && devices[d].links == if d == 0 then OltLinks(i) else OnuLinks(d - 1)
      {
        var onu := new SimDevice();
        onu.AddLink(PON, ToDevice(0, PON));
        onu.AddLink(EDGE, ToUser(OnuPort(i)));
        assert onu.links == OnuLinks(i);
        olt.AddLink(PON, ToDevice(i + 1, PON));
        assert i > 0 ==> OltLinks(i + 1)[PON] == OltLinks(i)[PON] + [ToDevice(i + 1, PON)];
        assert OltLinks(1)[PON] == [ToDevice(1, PON)];
        assert olt.links == OltLinks(i + 1);
        devices := devices + [onu];
      }
    }

    constructor (onus: nat)
      ensures Valid() && output == [] && |stations| == onus + 1 && fresh(stations)
      ensures Devices() == PonNet([], seq(onus, _ => []))
    {
      var devices := Wire(onus);
      stations := devices;
      output := [];
      new;
      assert Devices() == PonNet([], seq(onus, _ => []));
    }

    method DeviceInstall(d: nat, pushed: seq<Flow>)
      requires Valid() && d < |stations|
      modifies stations[d]
      ensures Valid() && Devices() == old(Devices())[d := old(Devices())[d].(flows := SortedByPriority(pushed))]
    {
      stations[d].InstallFlows(pushed);
      StableSortIsUnique(stations[d].flows, pushed);
      assert forall k :: 0 <= k < |stations| ==> Devices()[k].links == old(Devices())[k].links;
    }

    /** SimDevice.ingress together with the closures it calls; `depth` bounds the nesting of calls
        as the interpreter's recursion limit does. */
    method DeviceIngress(d: nat, port: nat, packet: Packet, depth: nat) returns (status: Status)
      requires Valid() && d < |stations|
      modifies this`output, packet
      ensures Valid() && Devices() == old(Devices())
      ensures var trace := Ingress(Devices(), d, port, old(packet.content), depth);
              && status == trace.status
              && output == old(output) + trace.out
              && packet.content == trace.fr
      decreases depth, 0
    {
      if depth == 0 {
        return TooDeep;
      }
      var ok, matched, egress, out := stations[d].ProcessFrame(port, packet);
      if !ok {
        return Failed;
      }
      if !matched {
        return Done;
      }
      var links := if egress.Some? && egress.value in stations[d].links then stations[d].links[egress.value] else [];
      assert links == LinksOf(Devices(), d, egress);
      status := HandOver(links, out, depth - 1);
    }

    /** One call of a stored closure: to the outside, or into a device. */
    method HandLink(link: Link, packet: Packet, depth: nat) returns (status: Status)
      requires Valid() && LinkWithin(link, |Devices()|)
      modifies this`output, packet
      ensures Valid() && Devices() == old(Devices())
      ensures var trace := HandOne(Devices(), link, old(packet.content), depth);
              && status == trace.status
              && output == old(output) + trace.out
              && packet.content == trace.fr
      decreases depth, 1
    {
      match link {
        case ToUser(p) =>
          output := output + [(p, packet.content)];
          return Done;
        case ToDevice(d, p) =>
          status := DeviceIngress(d, p, packet, depth);
      }
    }

    /** The loop over the links of the egress port. */
    method HandOver(links: seq<Link>, packet: Packet, depth: nat) returns (status: Status)
      requires Valid() && forall l :: l in links ==> LinkWithin(l, |Devices()|)
      modifies this`output, packet
      ensures Valid() && Devices() == old(Devices())
      ensures var trace := Hand(Devices(), links, old(packet.content), depth);
              && status == trace.status
              && output == old(output) + trace.out
              && packet.content == trace.fr
      decreases depth, 2
    {
      ghost var net := Devices();
      ghost var all := HandFrom(net, links, 0, output, packet.content, depth);
      AllLinks(net, links, output, packet.content, depth);
      for k := 0 to |links|
        invariant Devices() == net && Valid()
        invariant all == HandFrom(net, links, k, output, packet.content, depth)
      {
        assert links[k] in links;
        var s := HandLink(links[k], packet, depth);
        if s != Done {
          return s;
        }
      }
      return Done;
    }
  }
}
