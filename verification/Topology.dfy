/** The physical tree behind a logical device and the routes through it: RouteHop of
    voltha/core/flow_decomposer.py and get_route of voltha/core/logical_device_agent.py. */
module Topology {
  import opened Wrappers
  import opened OpenFlow

  type DeviceId = string

  datatype Device = Device(id: DeviceId, root: bool, vlan: nat)

  /** A device crossed by a route, with the numbers of the ports it is entered and left by. */
  datatype Hop = Hop(device: Device, ingress: nat, egress: nat)

  type Route = (Hop, Hop)

  /** An entry of the `_routes` dictionary: logical port numbers to the two hops. */
  datatype RouteEntry = RouteEntry(source: nat, target: nat, hops: Route)

  /** The cached tables: the dictionary in its iteration order, and the NNI's logical port. */
  datatype Routes = Routes(entries: seq<RouteEntry>, nni: nat)

  // ----- get_route -----

  function FirstInto(entries: seq<RouteEntry>, target: nat): Result<Route> {
    if entries == [] then Raised
    else if entries[0].target == target then Ok(entries[0].hops)
    else FirstInto(entries[1..], target)
  }

  function FirstFrom(entries: seq<RouteEntry>, source: nat): Result<Route> {
    if entries == [] then Raised
    else if entries[0].source == source then Ok(entries[0].hops)
    else FirstFrom(entries[1..], source)
  }

  function Between(entries: seq<RouteEntry>, source: nat, target: nat): Result<Route> {
    if entries == [] then Raised
    else if entries[0].source == source && entries[0].target == target then Ok(entries[0].hops)
    else Between(entries[1..], source, target)
  }

  function EffectiveEgress(nni: nat, egress: Option<nat>): Option<nat> {
    if egress.Some? && IsController(egress.value) then Some(nni) else egress
  }

  function GetRoute(r: Routes, ingress: Option<nat>, egress: Option<nat>): Result<(Option<Hop>, Option<Hop>)> {
    var target := EffectiveEgress(r.nni, egress);
    if ingress.None? && target == Some(r.nni) then
      var route :- FirstInto(r.entries, r.nni);
      Ok((None, Some(route.1)))
    else if ingress.None? then
      Raised
    else if target.None? then
      var route :- FirstFrom(r.entries, ingress.value);
      Ok((Some(route.0), None))
    else
      var route :- Between(r.entries, ingress.value, target.value);
      Ok((Some(route.0), Some(route.1)))
  }

  // ----- one OLT, one PON port, one boundary port per device -----

  /** `uni` is the logical port number of the ONU's subscriber port `edge`. */
  datatype Onu = Onu(id: DeviceId, vlan: nat, uni: nat, edge: nat, pon: nat)

  /** `nni` is the logical port number of the OLT's network port `edge`. */
  datatype Tree = Tree(oltId: DeviceId, nni: nat, edge: nat, pon: nat, onus: seq<Onu>)

  /** The VLAN id an ONU's device.vlan denotes. */
  function Vid(o: Onu): nat {
    o.vlan % 0x1000
  }

  ghost predicate ValidTree(t: Tree) {
    && !IsController(t.nni)
    && (forall i :: 0 <= i < |t.onus| ==>
          t.onus[i].uni != t.nni && !IsController(t.onus[i].uni) && t.onus[i].id != t.oltId)
    && (forall i, j :: 0 <= i < j < |t.onus| ==>
          t.onus[i].uni != t.onus[j].uni && t.onus[i].id != t.onus[j].id)
  }

  function OltUp(t: Tree): Hop {
    Hop(Device(t.oltId, true, 0), t.pon, t.edge)
  }

  function OltDown(t: Tree): Hop {
    Hop(Device(t.oltId, true, 0), t.edge, t.pon)
  }

  function OnuUp(o: Onu): Hop {
    Hop(Device(o.id, false, o.vlan), o.edge, o.pon)
  }

  function OnuDown(o: Onu): Hop {
    Hop(Device(o.id, false, o.vlan), o.pon, o.edge)
  }

  /** The entry is one of the NNI-UNI routes, in either direction. */
  ghost predicate IsTreeRoute(t: Tree, e: RouteEntry) {
    exists i :: 0 <= i < |t.onus| && (e == DownEntry(t, i) || e == UpEntry(t, i))
  }

  function DownEntry(t: Tree, i: nat): RouteEntry
    requires i < |t.onus|
  {
    RouteEntry(t.nni, t.onus[i].uni, (OltDown(t), OnuDown(t.onus[i])))
  }

  function UpEntry(t: Tree, i: nat): RouteEntry
    requires i < |t.onus|
  {
    RouteEntry(t.onus[i].uni, t.nni, (OnuUp(t.onus[i]), OltUp(t)))
  }

  /** The dictionary holds exactly the tree's routes, iterated in some order. */
  ghost predicate ListsTreeRoutes(t: Tree, entries: seq<RouteEntry>) {
    && (forall e :: e in entries ==> IsTreeRoute(t, e))
    && (forall i :: 0 <= i < |t.onus| ==> DownEntry(t, i) in entries && UpEntry(t, i) in entries)
  }

  /** The routes object answers for the tree. */
  ghost predicate Serves(r: Routes, t: Tree) {
    ValidTree(t) && r.nni == t.nni && ListsTreeRoutes(t, r.entries)
  }

  lemma {:induction false} FirstIntoAny(t: Tree, entries: seq<RouteEntry>)
    requires ValidTree(t) && forall e :: e in entries ==> IsTreeRoute(t, e)
    ensures FirstInto(entries, t.nni).Ok? ==> FirstInto(entries, t.nni).value.1 == OltUp(t)
    ensures FirstInto(entries, t.nni).Raised? ==> forall i :: 0 <= i < |t.onus| ==> UpEntry(t, i) !in entries
  {
    if entries != [] {
      assert IsTreeRoute(t, entries[0]);
      FirstIntoAny(t, entries[1..]);
      assert forall e :: e in entries <==> e == entries[0] || e in entries[1..];
    }
  }

  lemma {:induction false} FirstFromNni(t: Tree, entries: seq<RouteEntry>)
    requires ValidTree(t) && forall e :: e in entries ==> IsTreeRoute(t, e)
    ensures FirstFrom(entries, t.nni).Ok? ==> FirstFrom(entries, t.nni).value.0 == OltDown(t)
    ensures FirstFrom(entries, t.nni).Raised? ==> forall i :: 0 <= i < |t.onus| ==> DownEntry(t, i) !in entries
  {
    if entries != [] {
      assert IsTreeRoute(t, entries[0]);
      FirstFromNni(t, entries[1..]);
      assert forall e :: e in entries <==> e == entries[0] || e in entries[1..];
    }
  }

  lemma {:induction false} FirstFromUni(t: Tree, entries: seq<RouteEntry>, i: nat)
    requires ValidTree(t) && i < |t.onus| && forall e :: e in entries ==> IsTreeRoute(t, e)
    ensures FirstFrom(entries, t.onus[i].uni).Ok? ==> FirstFrom(entries, t.onus[i].uni).value == UpEntry(t, i).hops
    ensures FirstFrom(entries, t.onus[i].uni).Raised? ==> UpEntry(t, i) !in entries
  {
    if entries != [] {
      assert IsTreeRoute(t, entries[0]);
      FirstFromUni(t, entries[1..], i);
      assert forall e :: e in entries <==> e == entries[0] || e in entries[1..];
    }
  }

  lemma {:induction false} FirstFromStranger(t: Tree, entries: seq<RouteEntry>, source: nat)
    requires ValidTree(t) && forall e :: e in entries ==> IsTreeRoute(t, e)
    requires source != t.nni && forall i :: 0 <= i < |t.onus| ==> t.onus[i].uni != source
    ensures FirstFrom(entries, source).Raised?
  {
    if entries != [] {
      assert IsTreeRoute(t, entries[0]);
      FirstFromStranger(t, entries[1..], source);
    }
  }

  lemma {:induction false} BetweenFinds(t: Tree, entries: seq<RouteEntry>, source: nat, target: nat)
    requires ValidTree(t) && forall e :: e in entries ==> IsTreeRoute(t, e)
    ensures Between(entries, source, target).Ok? ==>
              RouteEntry(source, target, Between(entries, source, target).value) in entries
    ensures forall e :: e in entries && e.source == source && e.target == target ==>
              Between(entries, source, target) == Ok(e.hops)
  {
    if entries != [] {
      assert IsTreeRoute(t, entries[0]);
      BetweenFinds(t, entries[1..], source, target);
      assert entries[0] == RouteEntry(entries[0].source, entries[0].target, entries[0].hops);
      assert forall e :: e in entries <==> e == entries[0] || e in entries[1..];
      forall e | e in entries && e.source == source && e.target == target
        ensures Between(entries, source, target) == Ok(e.hops)
      {
        assert IsTreeRoute(t, e);
      }
    }
  }

  function OnuAt(t: Tree, uni: nat): Option<nat> {
    OnuFrom(t, uni, 0)
  }

  function OnuFrom(t: Tree, uni: nat, k: nat): (r: Option<nat>)
    requires k <= |t.onus|
    ensures r.Some? ==> k <= r.value < |t.onus| && t.onus[r.value].uni == uni
    ensures r.None? ==> forall i :: k <= i < |t.onus| ==> t.onus[i].uni != uni
    decreases |t.onus| - k
  {
    if k == |t.onus| then None
    else if t.onus[k].uni == uni then Some(k)
    else OnuFrom(t, uni, k + 1)
  }

  /** What get_route means on a tree, with no dictionary in sight. */
  function TreeRoute(t: Tree, ingress: Option<nat>, egress: Option<nat>): Result<(Option<Hop>, Option<Hop>)> {
    var target := EffectiveEgress(t.nni, egress);
    if ingress.None? then
      if target == Some(t.nni) && |t.onus| > 0 then Ok((None, Some(OltUp(t)))) else Raised
    else
      var from := OnuAt(t, ingress.value);
      match target
      case None =>
        if ingress.value == t.nni then (if |t.onus| > 0 then Ok((Some(OltDown(t)), None)) else Raised)
        else if from.Some? then Ok((Some(OnuUp(t.onus[from.value])), None))
        else Raised
      case Some(port) =>
        var to := OnuAt(t, port);
        if ingress.value == t.nni && to.Some? then Ok((Some(OltDown(t)), Some(OnuDown(t.onus[to.value]))))
        else if from.Some? && port == t.nni then Ok((Some(OnuUp(t.onus[from.value])), Some(OltUp(t))))
        else Raised
  }

  /** Half-routes are well defined: whatever order the dictionary iterates in, get_route gives the
      hops the tree dictates, so two requests that share an ingress port agree on that hop. */
  lemma RouteIsOrderIndependent(r: Routes, t: Tree, ingress: Option<nat>, egress: Option<nat>)
    requires Serves(r, t)
    ensures GetRoute(r, ingress, egress) == TreeRoute(t, ingress, egress)
  {
    FirstIntoAny(t, r.entries);
    FirstFromNni(t, r.entries);
    if |t.onus| > 0 {
      assert DownEntry(t, 0) in r.entries && UpEntry(t, 0) in r.entries;
    } else {
      assert r.entries != [] ==> IsTreeRoute(t, r.entries[0]);
    }
    if ingress.Some? {
      var from := OnuAt(t, ingress.value);
      if from.Some? {
        FirstFromUni(t, r.entries, from.value);
      } else if ingress.value != t.nni {
        FirstFromStranger(t, r.entries, ingress.value);
      }
      var target := EffectiveEgress(t.nni, egress);
      if target.Some? {
        BetweenIsTreeRoute(r, t, ingress.value, target.value);
      }
    }
  }

  lemma {:induction false} BetweenIsTreeRoute(r: Routes, t: Tree, source: nat, target: nat)
    requires Serves(r, t)
    ensures Between(r.entries, source, target) ==
            if source == t.nni && OnuAt(t, target).Some? then Ok(DownEntry(t, OnuAt(t, target).value).hops)
            else if OnuAt(t, source).Some? && target == t.nni then Ok(UpEntry(t, OnuAt(t, source).value).hops)
            else Raised
  {
    BetweenFinds(t, r.entries, source, target);
    var route := Between(r.entries, source, target);
    assert route.Ok? ==> IsTreeRoute(t, RouteEntry(source, target, route.value));
    if source == t.nni && OnuAt(t, target).Some? {
      assert DownEntry(t, OnuAt(t, target).value) in r.entries;
    } else if OnuAt(t, source).Some? && target == t.nni {
      assert UpEntry(t, OnuAt(t, source).value) in r.entries;
    }
  }
}
