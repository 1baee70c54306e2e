/** The route table of voltha/core/device_graph.py: shortest paths between boundary ports become
    two-hop routes. networkx contributes some shortest path for each pair of ports. */
module RouteTable {
  import opened Wrappers
  import opened OpenFlow
  import opened Topology
  import opened DeviceGraph

  type Edges = set<(Node, Node)>

  ghost predicate IsPath(edges: Edges, path: seq<Node>) {
    |path| > 0 && forall k :: 0 <= k < |path| - 1 ==> (path[k], path[k + 1]) in edges
  }

  ghost predicate Joins(edges: Edges, path: seq<Node>, a: Node, b: Node) {
    IsPath(edges, path) && path[0] == a && path[|path| - 1] == b
  }

  ghost predicate IsShortest(edges: Edges, path: seq<Node>, a: Node, b: Node) {
    Joins(edges, path, a, b) && forall other :: Joins(edges, other, a, b) ==> |path| <= |other|
  }

  // ----- _build_routes -----

  type Boundary = seq<(PortId, nat)>

  function HopOf(info: DeviceId -> Device, input: Node, device: Node, output: Node): Result<Hop> {
    if input.PortNode? && device.DeviceNode? && output.PortNode?
    then Ok(Hop(info(device.id), input.port.1, output.port.1)) else Raised
  }

  /** What one pair of boundary ports adds: nothing if the number of nodes is not a multiple of 3,
      a failed assertion if it is not 6 then. */
  function RouteAlong(info: DeviceId -> Device, path: seq<Node>): Result<Option<Route>> {
    if |path| % 3 != 0 then Ok(None)
    else if |path| != 6 then Raised
    else
      var ingress :- HopOf(info, path[0], path[1], path[2]);
      var egress :- HopOf(info, path[3], path[4], path[5]);
      Ok(Some((ingress, egress)))
  }

  /** The nodes of a path that crosses devices, each by two of its ports. */
  function PathThrough(hops: seq<(DeviceId, nat, nat)>): seq<Node> {
    if hops == [] then []
    else
      var (d, input, output) := hops[0];
      [PortNode((d, input)), DeviceNode(d), PortNode((d, output))] + PathThrough(hops[1..])
  }

  /** A path through two devices is a route, with the ports it enters and leaves by; through any other
      number of devices it breaks the assertion. Other numbers of nodes are passed over. */
  lemma {:induction false} PathRoutes(info: DeviceId -> Device, hops: seq<(DeviceId, nat, nat)>, path: seq<Node>)
    ensures RouteAlong(info, PathThrough(hops)) ==
            if |hops| == 2 then
              Ok(Some((Hop(info(hops[0].0), hops[0].1, hops[0].2), Hop(info(hops[1].0), hops[1].1, hops[1].2))))
            else Raised
    ensures |path| % 3 != 0 ==> RouteAlong(info, path) == Ok(None)
  {
    PathLength(hops);
    if |hops| == 2 {
      var rest := PathThrough(hops[1..]);
      assert hops[1..][1..] == [] && PathThrough(hops[1..][1..]) == [];
      assert rest == [PortNode((hops[1].0, hops[1].1)), DeviceNode(hops[1].0), PortNode((hops[1].0, hops[1].2))];
    }
  }

  lemma {:induction false} PathLength(hops: seq<(DeviceId, nat, nat)>)
    ensures |PathThrough(hops)| == 3 * |hops|
  {
    if hops != [] {
      PathLength(hops[1..]);
    }
  }

  datatype Search = Search(info: DeviceId -> Device, boundary: Boundary, shortest: (Node, Node) -> seq<Node>)

  function PairRoute(s: Search, i: nat, j: nat): Result<Option<Route>>
    requires i < |s.boundary| && j < |s.boundary|
  {
    if i == j then Ok(None)
    else RouteAlong(s.info, s.shortest(PortNode(s.boundary[i].0), PortNode(s.boundary[j].0)))
  }

  function PairKey(s: Search, i: nat, j: nat): (nat, nat)
    requires i < |s.boundary| && j < |s.boundary|
  {
    (s.boundary[i].1, s.boundary[j].1)
  }

  ghost predicate DistinctNumbers(s: Search) {
    forall i, j :: 0 <= i < j < |s.boundary| ==> s.boundary[i].1 != s.boundary[j].1
  }

  ghost predicate FromPair(s: Search, key: (nat, nat), route: Route, i: nat, j: nat) {
    i < |s.boundary| && j < |s.boundary| && key == PairKey(s, i, j) && PairRoute(s, i, j) == Ok(Some(route))
  }

  /** Pair (i, j) has been dealt with. */
  ghost predicate PairDone(s: Search, routes: map<(nat, nat), Route>, i: nat, j: nat)
    requires i < |s.boundary| && j < |s.boundary|
  {
    && PairRoute(s, i, j).Ok?
    && (PairRoute(s, i, j).value.Some? ==>
          PairKey(s, i, j) in routes && routes[PairKey(s, i, j)] == PairRoute(s, i, j).value.value)
  }

  /** The nested loops come to pair (a, b) before pair (i, j). */
  predicate Before(a: nat, b: nat, i: nat, j: nat) {
    a < i || (a == i && b < j)
  }

  ghost predicate HasRoute(s: Search, i: nat, j: nat) {
    i < |s.boundary| && j < |s.boundary| && PairRoute(s, i, j).Ok? && PairRoute(s, i, j).value.Some?
  }

  /** When the loops are at (i, j), a pair after (a, b) with the same numbers has had its route. */
  ghost predicate Superseded(s: Search, a: nat, b: nat, i: nat, j: nat)
    requires a < |s.boundary| && b < |s.boundary|
  {
    exists a': nat, b': nat :: HasRoute(s, a', b') && Before(a, b, a', b') && Before(a', b', i, j)
                               && PairKey(s, a', b') == PairKey(s, a, b)
  }

  /** When the loops are at (i, j), pair (a, b) has left its route, unless a later pair took its place. */
  ghost predicate PairKept(s: Search, routes: map<(nat, nat), Route>, a: nat, b: nat, i: nat, j: nat)
    requires a < |s.boundary| && b < |s.boundary|
  {
    PairRoute(s, a, b).Ok? && (Superseded(s, a, b, i, j) || PairDone(s, routes, a, b))
  }

  ghost predicate AllKept(s: Search, routes: map<(nat, nat), Route>, i: nat, j: nat) {
    forall a, b :: 0 <= a < |s.boundary| && 0 <= b < |s.boundary| && Before(a, b, i, j) ==>
        PairKept(s, routes, a, b, i, j)
  }

  ghost predicate AllFromPairs(s: Search, routes: map<(nat, nat), Route>) {
    forall key :: key in routes ==> exists i: nat, j: nat :: FromPair(s, key, routes[key], i, j)
  }

  lemma KeptStays(s: Search, routes: map<(nat, nat), Route>, i: nat, j: nat, a: nat, b: nat)
    requires i < |s.boundary| && j < |s.boundary| && a < |s.boundary| && b < |s.boundary| && PairRoute(s, i, j).Ok?
    requires Before(a, b, i, j) && PairKept(s, routes, a, b, i, j)
    ensures var route := PairRoute(s, i, j).value;
            PairKept(s, if route.Some? then routes[PairKey(s, i, j) := route.value] else routes, a, b, i, j + 1)
  {
    if Superseded(s, a, b, i, j) {
      var a': nat, b': nat :| HasRoute(s, a', b') && Before(a, b, a', b') && Before(a', b', i, j)
        && PairKey(s, a', b') == PairKey(s, a, b);
      assert Before(a', b', i, j + 1);
    } else if HasRoute(s, i, j) && PairKey(s, i, j) == PairKey(s, a, b) {
      assert Before(i, j, i, j + 1);
      assert Superseded(s, a, b, i, j + 1);
    }
  }

  function WithPair(s: Search, routes: map<(nat, nat), Route>, i: nat, j: nat): map<(nat, nat), Route>
    requires i < |s.boundary| && j < |s.boundary| && PairRoute(s, i, j).Ok?
  {
    var route := PairRoute(s, i, j).value;
    if route.Some? then routes[PairKey(s, i, j) := route.value] else routes
  }

  lemma StepKept(s: Search, routes: map<(nat, nat), Route>, i: nat, j: nat, next: nat)
    requires i < |s.boundary| && j < |s.boundary| && PairRoute(s, i, j).Ok? && AllKept(s, routes, i, j) && next == j + 1
    ensures AllKept(s, WithPair(s, routes, i, j), i, next)
  {
    var routes' := WithPair(s, routes, i, j);
    forall a, b | 0 <= a < |s.boundary| && 0 <= b < |s.boundary| && Before(a, b, i, next)
      ensures PairKept(s, routes', a, b, i, next)
    {
      if Before(a, b, i, j) {
        KeptStays(s, routes, i, j, a, b);
      } else {
        assert PairDone(s, routes', i, j);
      }
    }
  }

  lemma RowEnds(s: Search, routes: map<(nat, nat), Route>, i: nat, next: nat)
    requires AllKept(s, routes, i, |s.boundary|) && next == i + 1
    ensures AllKept(s, routes, next, 0)
  {
    forall a, b | 0 <= a < |s.boundary| && 0 <= b < |s.boundary| && Before(a, b, next, 0)
      ensures PairKept(s, routes, a, b, next, 0)
    {
      assert Before(a, b, i, |s.boundary|) && PairKept(s, routes, a, b, i, |s.boundary|);
      if Superseded(s, a, b, i, |s.boundary|) {
        var a': nat, b': nat :| HasRoute(s, a', b') && Before(a, b, a', b') && Before(a', b', i, |s.boundary|)
          && PairKey(s, a', b') == PairKey(s, a, b);
        assert Before(a', b', next, 0);
      }
    }
  }

  /** The nested loops over the boundary ports, whose numbers may coincide: the assertion on lengths
      fails exactly if some path breaks it, and otherwise the table has every pair's route, save
      where a later pair with the same numbers has one, and nothing else. */
  method BuildRoutes(s: Search) returns (ok: bool, routes: map<(nat, nat), Route>)
    ensures ok <==> forall i, j :: 0 <= i < |s.boundary| && 0 <= j < |s.boundary| ==> PairRoute(s, i, j).Ok?
    ensures AllFromPairs(s, routes)
    ensures ok ==> AllKept(s, routes, |s.boundary|, 0)
  {
    ok, routes := true, map[];
    var n := |s.boundary|;
    for i := 0 to n
      invariant ok && AllKept(s, routes, i, 0) && AllFromPairs(s, routes)
    {
      for j := 0 to n
        invariant ok && AllKept(s, routes, i, j) && AllFromPairs(s, routes)
      {
        var route := PairRoute(s, i, j);
        if route.Raised? {
          ok := false;
          return;
        }
        StepKept(s, routes, i, j, j + 1);
        if route.value.Some? {
          assert FromPair(s, PairKey(s, i, j), route.value.value, i, j);
          routes := routes[PairKey(s, i, j) := route.value.value];
        }
      }
      RowEnds(s, routes, i, i + 1);
    }
    forall i, j | 0 <= i < n && 0 <= j < n ensures PairRoute(s, i, j).Ok? {
      assert Before(i, j, n, 0) && PairKept(s, routes, i, j, n, 0);
    }
  }

  /** With distinct numbers no pair takes another's place. */
  lemma DistinctNumbersKeepAll(s: Search, routes: map<(nat, nat), Route>, i: nat, j: nat)
    requires DistinctNumbers(s) && AllKept(s, routes, |s.boundary|, 0) && i < |s.boundary| && j < |s.boundary|
    ensures PairDone(s, routes, i, j)
  {
    assert Before(i, j, |s.boundary|, 0) && PairKept(s, routes, i, j, |s.boundary|, 0);
    assert forall a: nat, b: nat :: HasRoute(s, a, b) && PairKey(s, a, b) == PairKey(s, i, j) ==> a == i && b == j;
  }

  // ----- trees -----

  ghost predicate TreePort(t: Tree, p: PortId) {
    || p == (t.oltId, t.edge) || p == (t.oltId, t.pon)
    || (exists i :: 0 <= i < |t.onus| && OnuPort(t.onus[i], p))
  }

  predicate OnuPort(o: Onu, p: PortId) {
    p == (o.id, o.edge) || p == (o.id, o.pon)
  }

  ghost predicate TreePeers(t: Tree, p: PortId, q: PortId) {
    exists i :: 0 <= i < |t.onus| && UplinkPeers(t, t.onus[i], p, q)
  }

  predicate UplinkPeers(t: Tree, o: Onu, p: PortId, q: PortId) {
    || (p == (t.oltId, t.pon) && q == (o.id, o.pon))
    || (p == (o.id, o.pon) && q == (t.oltId, t.pon))
  }

  predicate TreeDevice(t: Tree, d: DeviceId) {
    d == t.oltId || exists i :: 0 <= i < |t.onus| && t.onus[i].id == d
  }

  ghost predicate TwoPorts(t: Tree) {
    t.edge != t.pon && forall i :: 0 <= i < |t.onus| ==> t.onus[i].edge != t.onus[i].pon
  }

  /** The inventory is the tree: its devices with their two ports, and the links to the OLT. */
  ghost predicate IsTree(inv: Inventory, t: Tree) {
    && ValidTree(t) && TwoPorts(t)
    && (forall d :: d in inv.devices <==> TreeDevice(t, d))
    && (forall p :: p in inv.peers <==> TreePort(t, p))
    && (forall p, q :: p in inv.peers ==> (q in inv.peers[p] <==> TreePeers(t, p, q)))
  }

  lemma TreeIsSymmetric(inv: Inventory, t: Tree)
    requires IsTree(inv, t)
    ensures Symmetric(inv)
  {
    forall p, q | p in inv.peers && q in inv.peers[p] ensures q in inv.peers && p in inv.peers[q] {
      var i :| 0 <= i < |t.onus| && UplinkPeers(t, t.onus[i], p, q);
      assert OnuPort(t.onus[i], (t.onus[i].id, t.onus[i].pon));
      assert TreePort(t, q);
      assert UplinkPeers(t, t.onus[i], q, p);
    }
  }

  /** The edges of the tree, one way. */
  ghost predicate TreeEdge(t: Tree, a: Node, b: Node) {
    || (a == DeviceNode(t.oltId) && (b == PortNode((t.oltId, t.edge)) || b == PortNode((t.oltId, t.pon))))
    || (exists i :: 0 <= i < |t.onus| && OnuEdge(t, t.onus[i], a, b))
  }

  predicate OnuEdge(t: Tree, o: Onu, a: Node, b: Node) {
    || (a == DeviceNode(o.id) && (b == PortNode((o.id, o.edge)) || b == PortNode((o.id, o.pon))))
    || (a == PortNode((t.oltId, t.pon)) && b == PortNode((o.id, o.pon)))
  }

  ghost predicate TreeEdges(t: Tree, edges: Edges) {
    forall a, b :: (a, b) in edges <==> TreeEdge(t, a, b) || TreeEdge(t, b, a)
  }

  lemma DirectedIsTreeEdge(inv: Inventory, t: Tree, devices: set<DeviceId>, a: Node, b: Node)
    requires IsTree(inv, t) && forall d :: d in devices <==> TreeDevice(t, d)
    ensures DirectedEdge(inv, devices, a, b) ==> TreeEdge(t, a, b) || TreeEdge(t, b, a)
    ensures TreeEdge(t, a, b) ==> DirectedEdge(inv, devices, a, b)
  {
    if DirectedEdge(inv, devices, a, b) {
      if a.DeviceNode? {
        assert TreePort(t, b.port);
        if i :| 0 <= i < |t.onus| && OnuPort(t.onus[i], b.port) {
          assert OnuEdge(t, t.onus[i], a, b);
        }
      } else {
        var i :| 0 <= i < |t.onus| && UplinkPeers(t, t.onus[i], a.port, b.port);
        assert OnuEdge(t, t.onus[i], a, b) || OnuEdge(t, t.onus[i], b, a);
      }
    }
    if TreeEdge(t, a, b) {
      if a == DeviceNode(t.oltId) && (b == PortNode((t.oltId, t.edge)) || b == PortNode((t.oltId, t.pon))) {
        assert TreePort(t, b.port);
      } else {
        var i :| 0 <= i < |t.onus| && OnuEdge(t, t.onus[i], a, b);
        assert OnuPort(t.onus[i], b.port) && TreePort(t, b.port);
        if a.PortNode? {
          assert TreePort(t, a.port) && UplinkPeers(t, t.onus[i], a.port, b.port);
        }
      }
    }
  }

  /** Discovery from the devices of the boundary ports finds the edges of the tree. */
  lemma TreeGraph(inv: Inventory, t: Tree, roots: set<DeviceId>, g: Graph)
    requires IsTree(inv, t) && ExactGraph(inv, roots, g) && roots == inv.devices
    ensures TreeEdges(t, g.edges)
  {
    forall d ensures d in g.added <==> TreeDevice(t, d) {
      if TreeDevice(t, d) {
        assert ReachedIn(inv, roots, d, 0);
      }
      if d in g.added {
        var k: nat :| ReachedIn(inv, roots, d, k);
        if k > 0 {
          var from :| ReachedIn(inv, roots, from, k - 1) && PeerDevices(inv, from, d);
          var p, q :| p in inv.peers && q in inv.peers[p] && p.0 == from && q.0 == d;
          TreeIsSymmetric(inv, t);
          assert q in inv.peers;
        }
      }
    }
    forall a, b ensures (a, b) in g.edges <==> TreeEdge(t, a, b) || TreeEdge(t, b, a) {
      DirectedIsTreeEdge(inv, t, g.added, a, b);
      DirectedIsTreeEdge(inv, t, g.added, b, a);
    }
  }

  // ----- shortest paths in a tree -----

  ghost predicate Gradual(edges: Edges, level: Node -> int) {
    forall a, b :: (a, b) in edges ==> -1 <= level(a) - level(b) <= 1
  }

  lemma {:induction false} LevelBound(edges: Edges, path: seq<Node>, level: Node -> int, j: nat, k: nat)
    requires IsPath(edges, path) && Gradual(edges, level) && j <= k < |path|
    ensures level(path[k]) - level(path[j]) <= k - j
    decreases k - j
  {
    if j < k {
      LevelBound(edges, path, level, j, k - 1);
      assert (path[k - 1], path[k]) in edges;
    }
  }

  /** A path cannot be shorter than the levels it climbs, and if it is no longer it climbs at every
      step. */
  lemma Climb(edges: Edges, path: seq<Node>, level: Node -> int, height: nat)
    requires IsPath(edges, path) && Gradual(edges, level)
    requires level(path[|path| - 1]) - level(path[0]) == height
    ensures |path| >= height + 1
    ensures |path| == height + 1 ==> forall k :: 0 <= k < |path| ==> level(path[k]) == level(path[0]) + k
  {
    LevelBound(edges, path, level, 0, |path| - 1);
    if |path| == height + 1 {
      forall k | 0 <= k < |path| ensures level(path[k]) == level(path[0]) + k {
        LevelBound(edges, path, level, 0, k);
        LevelBound(edges, path, level, k, |path| - 1);
      }
    }
  }

  function IdFrom(t: Tree, id: DeviceId, k: nat): (r: Option<nat>)
    requires k <= |t.onus|
    ensures r.Some? ==> k <= r.value < |t.onus| && t.onus[r.value].id == id
    ensures r.None? ==> forall i :: k <= i < |t.onus| ==> t.onus[i].id != id
    decreases |t.onus| - k
  {
    if k == |t.onus| then None
    else if t.onus[k].id == id then Some(k)
    else IdFrom(t, id, k + 1)
  }

  predicate IsOnuEdge(t: Tree, p: PortId) {
    var i := IdFrom(t, p.0, 0);
    i.Some? && p.1 == t.onus[i.value].edge
  }

  /** How far a node is from the NNI. */
  function FromNni(t: Tree, n: Node): int {
    match n
    case DeviceNode(d) => if d == t.oltId then 1 else 4
    case PortNode(p) =>
      if p.0 == t.oltId then (if p.1 == t.edge then 0 else 2)
      else if IsOnuEdge(t, p) then 5 else 3
  }

  /** How far a node is from the UNI of ONU i. */
  function FromUni(t: Tree, i: nat, n: Node): int
    requires i < |t.onus|
  {
    match n
    case DeviceNode(d) => if d == t.oltId then 4 else if d == t.onus[i].id then 1 else 5
    case PortNode(p) =>
      if p.0 == t.oltId then (if p.1 == t.edge then 5 else 3)
      else if p.0 == t.onus[i].id then (if p.1 == t.onus[i].edge then 0 else 2)
      else if IsOnuEdge(t, p) then 6 else 4
  }

  lemma NniIsGradual(t: Tree, edges: Edges)
    requires ValidTree(t) && TwoPorts(t) && TreeEdges(t, edges)
    ensures Gradual(edges, n => FromNni(t, n))
  {
    forall a, b | TreeEdge(t, a, b) ensures -1 <= FromNni(t, a) - FromNni(t, b) <= 1 {
      if i :| 0 <= i < |t.onus| && OnuEdge(t, t.onus[i], a, b) {
        assert IdFrom(t, t.onus[i].id, 0) == Some(i);
      }
    }
  }

  lemma UniIsGradual(t: Tree, i: nat, edges: Edges)
    requires ValidTree(t) && TwoPorts(t) && TreeEdges(t, edges) && i < |t.onus|
    ensures Gradual(edges, n => FromUni(t, i, n))
  {
    forall a, b | TreeEdge(t, a, b) ensures -1 <= FromUni(t, i, a) - FromUni(t, i, b) <= 1 {
      if j :| 0 <= j < |t.onus| && OnuEdge(t, t.onus[j], a, b) {
        assert IdFrom(t, t.onus[j].id, 0) == Some(j);
      }
    }
  }

  function NniNode(t: Tree): Node {
    PortNode((t.oltId, t.edge))
  }

  function UniNode(o: Onu): Node {
    PortNode((o.id, o.edge))
  }

  function DownPath(t: Tree, o: Onu): seq<Node> {
    [NniNode(t), DeviceNode(t.oltId), PortNode((t.oltId, t.pon)), PortNode((o.id, o.pon)), DeviceNode(o.id), UniNode(o)]
  }

  function UpPath(t: Tree, o: Onu): seq<Node> {
    [UniNode(o), DeviceNode(o.id), PortNode((o.id, o.pon)), PortNode((t.oltId, t.pon)), DeviceNode(t.oltId), NniNode(t)]
  }

  function AcrossPath(t: Tree, o: Onu, o': Onu): seq<Node> {
    [UniNode(o), DeviceNode(o.id), PortNode((o.id, o.pon)), PortNode((t.oltId, t.pon)),
     PortNode((o'.id, o'.pon)), DeviceNode(o'.id), UniNode(o')]
  }

  lemma OnuSteps(t: Tree, i: nat, edges: Edges)
    requires TreeEdges(t, edges) && i < |t.onus|
    ensures var o := t.onus[i];
            && (UniNode(o), DeviceNode(o.id)) in edges && (DeviceNode(o.id), UniNode(o)) in edges
            && (DeviceNode(o.id), PortNode((o.id, o.pon))) in edges
            && (PortNode((o.id, o.pon)), DeviceNode(o.id)) in edges
            && (PortNode((o.id, o.pon)), PortNode((t.oltId, t.pon))) in edges
            && (PortNode((t.oltId, t.pon)), PortNode((o.id, o.pon))) in edges
    ensures (NniNode(t), DeviceNode(t.oltId)) in edges && (DeviceNode(t.oltId), NniNode(t)) in edges
    ensures (DeviceNode(t.oltId), PortNode((t.oltId, t.pon))) in edges
    ensures (PortNode((t.oltId, t.pon)), DeviceNode(t.oltId)) in edges
  {
    var o := t.onus[i];
    assert OnuEdge(t, o, DeviceNode(o.id), UniNode(o));
    assert OnuEdge(t, o, DeviceNode(o.id), PortNode((o.id, o.pon)));
    assert OnuEdge(t, o, PortNode((t.oltId, t.pon)), PortNode((o.id, o.pon)));
  }

  lemma PathsExist(t: Tree, i: nat, j: nat, edges: Edges)
    requires TreeEdges(t, edges) && i < |t.onus| && j < |t.onus|
    ensures Joins(edges, DownPath(t, t.onus[i]), NniNode(t), UniNode(t.onus[i]))
    ensures Joins(edges, UpPath(t, t.onus[i]), UniNode(t.onus[i]), NniNode(t))
    ensures Joins(edges, AcrossPath(t, t.onus[i], t.onus[j]), UniNode(t.onus[i]), UniNode(t.onus[j]))
  {
    OnuSteps(t, i, edges);
    OnuSteps(t, j, edges);
  }

  /** Who the neighbours of a node are. */
  lemma Neighbours(t: Tree, i: nat, edges: Edges, n: Node)
    requires ValidTree(t) && TwoPorts(t) && TreeEdges(t, edges) && i < |t.onus|
    ensures (NniNode(t), n) in edges ==> n == DeviceNode(t.oltId)
    ensures (UniNode(t.onus[i]), n) in edges ==> n == DeviceNode(t.onus[i].id)
    ensures (DeviceNode(t.onus[i].id), n) in edges ==>
            n == UniNode(t.onus[i]) || n == PortNode((t.onus[i].id, t.onus[i].pon))
    ensures (PortNode((t.onus[i].id, t.onus[i].pon)), n) in edges ==>
            n == DeviceNode(t.onus[i].id) || n == PortNode((t.oltId, t.pon))
    ensures forall a :: (a, n) in edges ==> (n, a) in edges
  {}

  /** From the NNI to a UNI there is one shortest path, of six nodes. */
  lemma ShortestDown(t: Tree, i: nat, edges: Edges, path: seq<Node>)
    requires ValidTree(t) && TwoPorts(t) && TreeEdges(t, edges) && i < |t.onus|
    requires IsShortest(edges, path, NniNode(t), UniNode(t.onus[i]))
    ensures path == DownPath(t, t.onus[i])
  {
    var o := t.onus[i];
    PathsExist(t, i, i, edges);
    NniIsGradual(t, edges);
    assert IdFrom(t, o.id, 0) == Some(i);
    Climb(edges, path, n => FromNni(t, n), 5);
    assert |path| == 6;
    assert (path[0], path[1]) in edges && (path[2], path[3]) in edges && (path[3], path[4]) in edges
        && (path[4], path[5]) in edges;
    forall n { Neighbours(t, i, edges, n); }
    assert path[4] == DeviceNode(o.id);
    assert path[3] == PortNode((o.id, o.pon));
    assert path[2] == PortNode((t.oltId, t.pon));
  }

  lemma ShortestUp(t: Tree, i: nat, edges: Edges, path: seq<Node>)
    requires ValidTree(t) && TwoPorts(t) && TreeEdges(t, edges) && i < |t.onus|
    requires IsShortest(edges, path, UniNode(t.onus[i]), NniNode(t))
    ensures path == UpPath(t, t.onus[i])
  {
    var o := t.onus[i];
    PathsExist(t, i, i, edges);
    UniIsGradual(t, i, edges);
    Climb(edges, path, n => FromUni(t, i, n), 5);
    assert |path| == 6;
    assert (path[0], path[1]) in edges && (path[1], path[2]) in edges && (path[2], path[3]) in edges
        && (path[4], path[5]) in edges;
    forall n { Neighbours(t, i, edges, n); }
    assert path[1] == DeviceNode(o.id);
    assert path[2] == PortNode((o.id, o.pon));
    assert path[3] == PortNode((t.oltId, t.pon));
  }

  /** Between two UNIs every shortest path has seven nodes, so it is skipped. */
  lemma ShortestAcross(t: Tree, i: nat, j: nat, edges: Edges, path: seq<Node>)
    requires ValidTree(t) && TwoPorts(t) && TreeEdges(t, edges) && i < |t.onus| && j < |t.onus| && i != j
    requires IsShortest(edges, path, UniNode(t.onus[i]), UniNode(t.onus[j]))
    ensures |path| == 7
  {
    PathsExist(t, i, j, edges);
    UniIsGradual(t, i, edges);
    assert IdFrom(t, t.onus[j].id, 0) == Some(j);
    Climb(edges, path, n => FromUni(t, i, n), 6);
  }

  // ----- the routes of a tree -----

  predicate BoundaryOf(t: Tree, e: (PortId, nat)) {
    || e == ((t.oltId, t.edge), t.nni)
    || (exists i :: 0 <= i < |t.onus| && UniBoundary(t.onus[i], e))
  }

  predicate UniBoundary(o: Onu, e: (PortId, nat)) {
    e == ((o.id, o.edge), o.uni)
  }

  /** The logical ports of the tree, as the items of a dictionary, in any order. */
  ghost predicate TreeBoundary(t: Tree, boundary: Boundary) {
    && (forall e :: e in boundary <==> BoundaryOf(t, e))
    && (forall i, j :: 0 <= i < j < |boundary| ==> boundary[i] != boundary[j])
  }

  ghost predicate TreeInfo(t: Tree, info: DeviceId -> Device) {
    && info(t.oltId) == Device(t.oltId, true, 0)
    && forall i :: 0 <= i < |t.onus| ==> info(t.onus[i].id) == Device(t.onus[i].id, false, t.onus[i].vlan)
  }

  ghost predicate TreeSearch(t: Tree, edges: Edges, s: Search) {
    && ValidTree(t) && TwoPorts(t) && TreeEdges(t, edges)
    && TreeBoundary(t, s.boundary) && TreeInfo(t, s.info)
    && forall i, j :: 0 <= i < |s.boundary| && 0 <= j < |s.boundary| && i != j ==>
         var a, b := PortNode(s.boundary[i].0), PortNode(s.boundary[j].0);
         IsShortest(edges, s.shortest(a, b), a, b)
  }

  lemma NumbersDistinct(t: Tree, edges: Edges, s: Search)
    requires TreeSearch(t, edges, s)
    ensures DistinctNumbers(s)
  {
    forall i, j | 0 <= i < j < |s.boundary| ensures s.boundary[i].1 != s.boundary[j].1 {
      assert BoundaryOf(t, s.boundary[i]) && BoundaryOf(t, s.boundary[j]);
    }
  }

  lemma AlongPaths(t: Tree, info: DeviceId -> Device, i: nat)
    requires TreeInfo(t, info) && i < |t.onus|
    ensures RouteAlong(info, DownPath(t, t.onus[i])) == Ok(Some(DownEntry(t, i).hops))
    ensures RouteAlong(info, UpPath(t, t.onus[i])) == Ok(Some(UpEntry(t, i).hops))
  {}

  lemma DownRoute(t: Tree, edges: Edges, s: Search, a: nat, b: nat, i: nat)
    requires TreeSearch(t, edges, s) && a < |s.boundary| && b < |s.boundary| && i < |t.onus|
    requires s.boundary[a] == ((t.oltId, t.edge), t.nni) && UniBoundary(t.onus[i], s.boundary[b])
    ensures PairRoute(s, a, b) == Ok(Some(DownEntry(t, i).hops)) && PairKey(s, a, b) == (t.nni, t.onus[i].uni)
    ensures PairRoute(s, b, a) == Ok(Some(UpEntry(t, i).hops)) && PairKey(s, b, a) == (t.onus[i].uni, t.nni)
  {
    assert a != b;
    var down, up := s.shortest(NniNode(t), UniNode(t.onus[i])), s.shortest(UniNode(t.onus[i]), NniNode(t));
    assert down == DownPath(t, t.onus[i]) by {
      ShortestDown(t, i, edges, down);
    }
    assert up == UpPath(t, t.onus[i]) by {
      ShortestUp(t, i, edges, up);
    }
    AlongPaths(t, s.info, i);
  }

  /** What any pair of boundary ports contributes: nothing, or a route of the tree; never a failed
      assertion. */
  lemma AnyPair(t: Tree, edges: Edges, s: Search, a: nat, b: nat)
    requires TreeSearch(t, edges, s) && a < |s.boundary| && b < |s.boundary|
    ensures PairRoute(s, a, b).Ok?
    ensures PairRoute(s, a, b).value.Some? ==>
              IsTreeRoute(t, RouteEntry(PairKey(s, a, b).0, PairKey(s, a, b).1, PairRoute(s, a, b).value.value))
  {
    assert BoundaryOf(t, s.boundary[a]) && BoundaryOf(t, s.boundary[b]);
    if a == b {
    } else if s.boundary[a] == ((t.oltId, t.edge), t.nni) {
      var i :| 0 <= i < |t.onus| && UniBoundary(t.onus[i], s.boundary[b]);
      DownRoute(t, edges, s, a, b, i);
    } else if s.boundary[b] == ((t.oltId, t.edge), t.nni) {
      var i :| 0 <= i < |t.onus| && UniBoundary(t.onus[i], s.boundary[a]);
      DownRoute(t, edges, s, b, a, i);
    } else {
      var i :| 0 <= i < |t.onus| && UniBoundary(t.onus[i], s.boundary[a]);
      var j :| 0 <= j < |t.onus| && UniBoundary(t.onus[j], s.boundary[b]);
      assert i != j;
      ShortestAcross(t, i, j, edges, s.shortest(UniNode(t.onus[i]), UniNode(t.onus[j])));
    }
  }

  /** Some enumeration of a dictionary of routes. */
  ghost predicate Enumerates(entries: seq<RouteEntry>, routes: map<(nat, nat), Route>) {
    forall e :: e in entries <==> (e.source, e.target) in routes && routes[(e.source, e.target)] == e.hops
  }

  /** Route table exactness: in a tree the routes are exactly the NNI-UNI pairs in both directions,
      so that get_route serves the tree whatever order the dictionary is in. */
  lemma RoutesAreExact(t: Tree, edges: Edges, s: Search, routes: map<(nat, nat), Route>, entries: seq<RouteEntry>)
    requires TreeSearch(t, edges, s) && Enumerates(entries, routes)
    requires AllFromPairs(s, routes)
    requires forall i, j :: 0 <= i < |s.boundary| && 0 <= j < |s.boundary| ==> PairDone(s, routes, i, j)
    ensures Serves(Routes(entries, t.nni), t)
  {
    forall e | e in entries ensures IsTreeRoute(t, e) {
      var i: nat, j: nat :| FromPair(s, (e.source, e.target), e.hops, i, j);
      AnyPair(t, edges, s, i, j);
    }
    forall i | 0 <= i < |t.onus| ensures DownEntry(t, i) in entries && UpEntry(t, i) in entries {
      EntriesPresent(t, edges, s, routes, entries, i);
    }
  }

  lemma EntriesPresent(
    t: Tree, edges: Edges, s: Search, routes: map<(nat, nat), Route>, entries: seq<RouteEntry>, i: nat)
    requires TreeSearch(t, edges, s) && Enumerates(entries, routes) && i < |t.onus|
    requires forall i, j :: 0 <= i < |s.boundary| && 0 <= j < |s.boundary| ==> PairDone(s, routes, i, j)
    ensures DownEntry(t, i) in entries && UpEntry(t, i) in entries
  {
    var a, b := BoundaryIndices(t, s, i);
    DownRoute(t, edges, s, a, b, i);
    assert PairDone(s, routes, a, b) && PairDone(s, routes, b, a);
    var down, up := DownEntry(t, i), UpEntry(t, i);
    assert (down.source, down.target) in routes && routes[(down.source, down.target)] == down.hops;
    assert (up.source, up.target) in routes && routes[(up.source, up.target)] == up.hops;
  }

  lemma BoundaryIndices(t: Tree, s: Search, i: nat) returns (a: nat, b: nat)
    requires TreeBoundary(t, s.boundary) && i < |t.onus|
    ensures a < |s.boundary| && b < |s.boundary|
    ensures s.boundary[a] == ((t.oltId, t.edge), t.nni) && UniBoundary(t.onus[i], s.boundary[b])
  {
    var nni, uni := ((t.oltId, t.edge), t.nni), ((t.onus[i].id, t.onus[i].edge), t.onus[i].uni);
    assert UniBoundary(t.onus[i], uni) && BoundaryOf(t, nni) && BoundaryOf(t, uni);
    a :| 0 <= a < |s.boundary| && s.boundary[a] == nni;
    b :| 0 <= b < |s.boundary| && s.boundary[b] == uni;
  }

  function Flipped(h: Hop): Hop {
    Hop(h.device, h.egress, h.ingress)
  }

  /** Reverse routes are mirror images. */
  lemma {:induction false} ReverseRouteIsMirror(r: Routes, t: Tree, source: nat, target: nat)
    requires Serves(r, t) && Between(r.entries, source, target).Ok?
    ensures var route := Between(r.entries, source, target).value;
            Between(r.entries, target, source) == Ok((Flipped(route.1), Flipped(route.0)))
  {
    BetweenIsTreeRoute(r, t, source, target);
    BetweenIsTreeRoute(r, t, target, source);
  }

  /** What networkx promises: some shortest path, wherever there is a path. */
  ghost predicate FindsShortest(nx: (Edges, Node, Node) -> seq<Node>) {
    forall edges, a, b, path :: Joins(edges, path, a, b) ==> IsShortest(edges, nx(edges, a, b), a, b)
  }

  lemma TreeSearchHolds(t: Tree, edges: Edges, boundary: Boundary, info: DeviceId -> Device,
                        nx: (Edges, Node, Node) -> seq<Node>, shortest: (Node, Node) -> seq<Node>)
    requires ValidTree(t) && TwoPorts(t) && TreeEdges(t, edges) && TreeBoundary(t, boundary) && TreeInfo(t, info)
    requires FindsShortest(nx) && forall a, b :: shortest(a, b) == nx(edges, a, b)
    ensures TreeSearch(t, edges, Search(info, boundary, shortest))
  {
    forall i, j | 0 <= i < |boundary| && 0 <= j < |boundary| && i != j
      ensures var a, b := PortNode(boundary[i].0), PortNode(boundary[j].0); IsShortest(edges, shortest(a, b), a, b)
    {
      assert BoundaryOf(t, boundary[i]) && BoundaryOf(t, boundary[j]);
      forall k, l | 0 <= k < |t.onus| && 0 <= l < |t.onus| { PathsExist(t, k, l, edges); }
    }
  }

  /** compute_routes: discovery and route table together, for an inventory that is a tree. */
  method ComputeRoutes(inv: Inventory, boundary: Boundary, info: DeviceId -> Device,
                       nx: (Edges, Node, Node) -> seq<Node>, ghost t: Tree)
    returns (ok: bool, routes: map<(nat, nat), Route>)
    requires IsTree(inv, t) && TreeBoundary(t, boundary) && TreeInfo(t, info) && FindsShortest(nx)
    ensures ok
    ensures forall entries :: Enumerates(entries, routes) ==> Serves(Routes(entries, t.nni), t)
  {
    TreeIsSymmetric(inv, t);
    var ports := seq(|boundary|, i requires 0 <= i < |boundary| => boundary[i].0.0);
    BoundaryDevices(inv, t, boundary, ports);
    var builder := new GraphBuilder(inv, inv.devices);
    builder.BuildGraph(ports);
    var edges := builder.g.edges;
    TreeGraph(inv, t, inv.devices, builder.g);
    var s := Search(info, boundary, (a, b) => nx(edges, a, b));
    TreeSearchHolds(t, edges, boundary, info, nx, s.shortest);
    ok, routes := BuildRoutes(s);
    TreeRoutes(t, edges, s, ok, routes);
  }

  /** What the loops leave on a tree. */
  lemma TreeRoutes(t: Tree, edges: Edges, s: Search, ok: bool, routes: map<(nat, nat), Route>)
    requires TreeSearch(t, edges, s) && AllFromPairs(s, routes) && (ok ==> AllKept(s, routes, |s.boundary|, 0))
    requires ok <==> forall i, j :: 0 <= i < |s.boundary| && 0 <= j < |s.boundary| ==> PairRoute(s, i, j).Ok?
    ensures ok && forall entries :: Enumerates(entries, routes) ==> Serves(Routes(entries, t.nni), t)
  {
    forall i, j | 0 <= i < |s.boundary| && 0 <= j < |s.boundary| ensures PairRoute(s, i, j).Ok? {
      AnyPair(t, edges, s, i, j);
    }
    NumbersDistinct(t, edges, s);
    forall i, j | 0 <= i < |s.boundary| && 0 <= j < |s.boundary| ensures PairDone(s, routes, i, j) {
      DistinctNumbersKeepAll(s, routes, i, j);
    }
    forall entries | Enumerates(entries, routes) ensures Serves(Routes(entries, t.nni), t) {
      RoutesAreExact(t, edges, s, routes, entries);
    }
  }

  lemma BoundaryDevices(inv: Inventory, t: Tree, boundary: Boundary, ports: seq<DeviceId>)
    requires IsTree(inv, t) && TreeBoundary(t, boundary)
    requires |ports| == |boundary| && forall i :: 0 <= i < |ports| ==> ports[i] == boundary[i].0.0
    ensures inv.devices == set d | d in ports
  {
    forall i | 0 <= i < |ports| ensures ports[i] in inv.devices {
      assert BoundaryOf(t, boundary[i]);
    }
    forall d | d in inv.devices ensures d in ports {
      assert TreeDevice(t, d);
      var e: (PortId, nat);
      if d == t.oltId {
        e := ((t.oltId, t.edge), t.nni);
      } else {
        var i :| 0 <= i < |t.onus| && t.onus[i].id == d;
        e := ((t.onus[i].id, t.onus[i].edge), t.onus[i].uni);
        assert UniBoundary(t.onus[i], e);
      }
      assert BoundaryOf(t, e);
      var k :| 0 <= k < |boundary| && boundary[k] == e;
      assert ports[k] == d;
    }
  }
}
