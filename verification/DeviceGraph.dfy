/** Discovery of the device graph (voltha/core/device_graph.py) over the peer links that add_port
    (voltha/core/adapter_agent.py) maintains. */
module DeviceGraph {
  import opened Wrappers
  import opened Topology

  type PortId = (DeviceId, nat)

  /** The part of the configuration that matters here: the devices, and the peers of each port. */
  datatype Inventory = Inventory(devices: set<DeviceId>, peers: map<PortId, seq<PortId>>)

  datatype Node = DeviceNode(id: DeviceId) | PortNode(port: PortId)

  // ----- add_port -----

  /** Every peer exists and lists the port in turn; every port is on a known device. */
  ghost predicate Symmetric(inv: Inventory) {
    && (forall p :: p in inv.peers ==> p.0 in inv.devices)
    && (forall p, q :: p in inv.peers && q in inv.peers[p] ==> q in inv.peers && p in inv.peers[q])
  }

  /** The loop that adds the port to the peer lists of the ports it names; a peer that is not
      there raises a KeyError. */
  function Augment(
    peers: map<PortId, seq<PortId>>, port: PortId, named: seq<PortId>): Result<map<PortId, seq<PortId>>> {
    if named == [] then Ok(peers)
    else
      var m :- Augment(peers, port, named[..|named| - 1]);
      var q := named[|named| - 1];
      if q !in m then Raised
      else Ok(if port in m[q] then m else m[q := m[q] + [port]])
  }

  function AddPortTo(inv: Inventory, port: PortId, named: seq<PortId>): Result<Inventory> {
    var m :- Augment(inv.peers, port, named);
    if port.0 !in inv.devices then Raised else Ok(inv.(peers := m[port := named]))
  }

  lemma {:induction false} AugmentContents(peers: map<PortId, seq<PortId>>, port: PortId, named: seq<PortId>)
    ensures Augment(peers, port, named).Ok? <==> forall q :: q in named ==> q in peers
    ensures Augment(peers, port, named).Ok? ==>
              var m := Augment(peers, port, named).value;
              && m.Keys == peers.Keys
              && forall p, q :: p in peers ==> (q in m[p] <==> q in peers[p] || (q == port && p in named))
  {
    if named != [] {
      var n := |named| - 1;
      AugmentContents(peers, port, named[..n]);
      assert forall q :: q in named <==> q in named[..n] || q == named[n];
    }
  }

  /** A port added for the first time leaves the peer relation symmetric. */
  lemma AddPortKeepsSymmetry(inv: Inventory, port: PortId, named: seq<PortId>)
    requires Symmetric(inv) && port !in inv.peers && AddPortTo(inv, port, named).Ok?
    ensures Symmetric(AddPortTo(inv, port, named).value)
  {
    AugmentContents(inv.peers, port, named);
  }

  function AddPorts(inv: Inventory, requests: seq<(PortId, seq<PortId>)>): Result<Inventory> {
    if requests == [] then Ok(inv)
    else
      var before :- AddPorts(inv, requests[..|requests| - 1]);
      var last := requests[|requests| - 1];
      AddPortTo(before, last.0, last.1)
  }

  ghost predicate Added(requests: seq<(PortId, seq<PortId>)>, p: PortId) {
    exists i :: 0 <= i < |requests| && requests[i].0 == p
  }

  /** Some call added port p and named q as its peer. */
  ghost predicate Named(requests: seq<(PortId, seq<PortId>)>, p: PortId, q: PortId) {
    exists i :: 0 <= i < |requests| && requests[i].0 == p && q in requests[i].1
  }

  lemma RequestsSplit(requests: seq<(PortId, seq<PortId>)>, p: PortId, q: PortId)
    requires requests != []
    ensures var n := |requests| - 1;
            && (Added(requests, p) <==> Added(requests[..n], p) || p == requests[n].0)
            && (Named(requests, p, q) <==> Named(requests[..n], p, q) || (p == requests[n].0 && q in requests[n].1))
  {
    var n := |requests| - 1;
    assert forall i :: 0 <= i < n ==> requests[..n][i] == requests[i];
    if Added(requests[..n], p) {
      var i :| 0 <= i < n && requests[..n][i].0 == p;
      assert requests[i].0 == p;
    }
    if Named(requests[..n], p, q) {
      var i :| 0 <= i < n && requests[..n][i].0 == p && q in requests[..n][i].1;
      assert requests[i].0 == p && q in requests[i].1;
    }
  }

  /** The stored peers are the symmetric closure of the peers that were named. */
  ghost predicate IsClosure(inv: Inventory, requests: seq<(PortId, seq<PortId>)>) {
    && (forall p :: p in inv.peers <==> Added(requests, p))
    && (forall p, q :: p in inv.peers ==> (q in inv.peers[p] <==> Named(requests, p, q) || Named(requests, q, p)))
  }

  /** Over every run of first-time add_port calls on an empty inventory. */
  lemma {:induction false} RunKeepsSymmetry(devices: set<DeviceId>, requests: seq<(PortId, seq<PortId>)>)
    requires AddPorts(Inventory(devices, map[]), requests).Ok?
    requires forall i, j :: 0 <= i < j < |requests| ==> requests[i].0 != requests[j].0
    ensures Symmetric(AddPorts(Inventory(devices, map[]), requests).value)
    ensures IsClosure(AddPorts(Inventory(devices, map[]), requests).value, requests)
  {
    if requests != [] {
      var n := |requests| - 1;
      RunKeepsSymmetry(devices, requests[..n]);
      var before := AddPorts(Inventory(devices, map[]), requests[..n]).value;
      assert requests[n].0 !in before.peers;
      AddPortKeepsSymmetry(before, requests[n].0, requests[n].1);
      ClosureStep(before, requests);
    }
  }

  lemma ClosureStep(before: Inventory, requests: seq<(PortId, seq<PortId>)>)
    requires requests != [] && Symmetric(before) && IsClosure(before, requests[..|requests| - 1])
    requires var last := requests[|requests| - 1]; last.0 !in before.peers && AddPortTo(before, last.0, last.1).Ok?
    ensures var last := requests[|requests| - 1]; IsClosure(AddPortTo(before, last.0, last.1).value, requests)
  {
    var n := |requests| - 1;
    var (port, named) := requests[n];
    var after := AddPortTo(before, port, named).value;
    AugmentContents(before.peers, port, named);
    forall p ensures p in after.peers <==> Added(requests, p) {
      RequestsSplit(requests, p, p);
    }
    forall p, q | p in after.peers ensures q in after.peers[p] <==> Named(requests, p, q) || Named(requests, q, p) {
      RequestsSplit(requests, p, q);
      RequestsSplit(requests, q, p);
      NamedIsAdded(before, requests[..n], p, q);
      NamedIsAdded(before, requests[..n], q, p);
    }
  }

  lemma NamedIsAdded(inv: Inventory, requests: seq<(PortId, seq<PortId>)>, p: PortId, q: PortId)
    requires Symmetric(inv) && IsClosure(inv, requests)
    ensures Named(requests, p, q) ==> p in inv.peers && q in inv.peers
  {
    if Named(requests, p, q) {
      assert Added(requests, p);
      assert q in inv.peers[p];
    }
  }

  /** The k-th peer is the first that is not there; all are there if there is no such peer. */
  ghost predicate StopsAt(inv: Inventory, named: seq<PortId>, k: nat) {
    && k <= |named| && (k < |named| ==> named[k] !in inv.peers)
    && forall j :: 0 <= j < k ==> named[j] in inv.peers
  }

  class AdapterAgent {
    var inv: Inventory

    constructor (devices: set<DeviceId>)
      ensures inv == Inventory(devices, map[])
    {
      inv := Inventory(devices, map[]);
    }

    /** add_port updates the peers' records one by one and then stores the port; when it raises, the
        records updated so far stay updated. */
    method AddPort(port: PortId, named: seq<PortId>) returns (ok: bool)
      modifies this
      ensures ok <==> AddPortTo(old(inv), port, named).Ok?
      ensures ok ==> inv == AddPortTo(old(inv), port, named).value
      ensures !ok ==>
                exists k: nat :: && StopsAt(old(inv), named, k)
                                 && Augment(old(inv).peers, port, named[..k]) == Ok(inv.peers)
      ensures inv.devices == old(inv.devices)
    {
      for k := 0 to |named|
        invariant inv.devices == old(inv.devices) && Augment(old(inv).peers, port, named[..k]) == Ok(inv.peers)
      {
        assert named[..k + 1][..k] == named[..k];
        if named[k] !in inv.peers {
          AugmentContents(old(inv).peers, port, named);
          AugmentContents(old(inv).peers, port, named[..k]);
          assert named[k] in named && StopsAt(old(inv), named, k);
          return false;
        }
        if port !in inv.peers[named[k]] {
          inv := inv.(peers := inv.peers[named[k] := inv.peers[named[k]] + [port]]);
        }
      }
      assert named[..|named|] == named;
      if port.0 !in inv.devices {
        AugmentContents(old(inv).peers, port, named);
        assert StopsAt(old(inv), named, |named|);
        return false;
      }
      inv := inv.(peers := inv.peers[port := named]);
      return true;
    }
  }

  // ----- what the graph should be -----

  ghost predicate PeerDevices(inv: Inventory, a: DeviceId, b: DeviceId) {
    exists p, q :: p in inv.peers && q in inv.peers[p] && p.0 == a && q.0 == b
  }

  ghost predicate ReachedIn(inv: Inventory, roots: set<DeviceId>, d: DeviceId, k: nat)
    decreases k
  {
    if k == 0 then d in roots
    else exists from :: ReachedIn(inv, roots, from, k - 1) && PeerDevices(inv, from, d)
  }

  ghost predicate Reachable(inv: Inventory, roots: set<DeviceId>, d: DeviceId) {
    exists k: nat :: ReachedIn(inv, roots, d, k)
  }

  /** An edge of the graph over the given devices: a device with its port, or two peers. */
  ghost predicate DirectedEdge(inv: Inventory, devices: set<DeviceId>, a: Node, b: Node) {
    || (a.DeviceNode? && b.PortNode? && a.id in devices && b.port in inv.peers && b.port.0 == a.id)
    || (a.PortNode? && b.PortNode? && a.port.0 in devices && b.port.0 in devices
        && a.port in inv.peers && b.port in inv.peers[a.port])
  }

  ghost predicate ExpectedEdge(inv: Inventory, devices: set<DeviceId>, a: Node, b: Node) {
    DirectedEdge(inv, devices, a, b) || DirectedEdge(inv, devices, b, a)
  }

  // ----- the search -----

  /** `graph`, `devices_added` and `peer_links`; undirected edges and links are kept both ways. */
  datatype Graph = Graph(nodes: set<Node>, edges: set<(Node, Node)>, added: set<DeviceId>, links: set<(PortId, PortId)>)

  function WithEdge(g: Graph, a: Node, b: Node): Graph {
    g.(nodes := g.nodes + {a, b}, edges := g.edges + {(a, b), (b, a)})
  }

  ghost predicate Grows(g: Graph, g': Graph) {
    g.nodes <= g'.nodes && g.edges <= g'.edges && g.added <= g'.added && g.links <= g'.links
  }

  ghost predicate PortDone(inv: Inventory, g: Graph, p: PortId)
    requires p in inv.peers
  {
    && PortNode(p) in g.nodes
    && (DeviceNode(p.0), PortNode(p)) in g.edges
    && forall q :: q in inv.peers[p] ==> LinkDone(g, p, q)
  }

  ghost predicate LinkDone(g: Graph, p: PortId, q: PortId) {
    q.0 in g.added && (PortNode(p), PortNode(q)) in g.edges
  }

  /** The device's node, ports, port edges and peer edges are all in the graph. */
  ghost predicate DeviceDone(inv: Inventory, g: Graph, d: DeviceId) {
    DeviceNode(d) in g.nodes && forall p :: p in inv.peers && p.0 == d ==> PortDone(inv, g, p)
  }

  ghost predicate NodeExpected(inv: Inventory, g: Graph, n: Node) {
    match n
    case DeviceNode(d) => d in g.added
    case PortNode(p) => p.0 in g.added && p in inv.peers
  }

  /** Nothing is in the graph that does not belong there. */
  ghost predicate Sound(inv: Inventory, roots: set<DeviceId>, g: Graph) {
    && (forall d :: d in g.added ==> d in inv.devices && Reachable(inv, roots, d))
    && (forall n :: n in g.nodes ==> NodeExpected(inv, g, n))
    && (forall a, b :: (a, b) in g.edges ==> (b, a) in g.edges && ExpectedEdge(inv, g.added, a, b))
    && (forall p, q :: (p, q) in g.links ==> (PortNode(p), PortNode(q)) in g.edges)
  }

  lemma DoneStaysDone(inv: Inventory, g: Graph, g': Graph, d: DeviceId)
    requires Grows(g, g') && DeviceDone(inv, g, d)
    ensures DeviceDone(inv, g', d)
  {
    forall p | p in inv.peers && p.0 == d ensures PortDone(inv, g', p) {
      assert PortDone(inv, g, p);
      forall q | q in inv.peers[p] ensures LinkDone(g', p, q) {
        assert LinkDone(g, p, q);
      }
    }
  }

  lemma PortStaysDone(inv: Inventory, g: Graph, g': Graph, p: PortId)
    requires p in inv.peers && Grows(g, g') && PortDone(inv, g, p)
    ensures PortDone(inv, g', p)
  {
    forall q | q in inv.peers[p] ensures LinkDone(g', p, q) {
      assert LinkDone(g, p, q);
    }
  }

  /** Adding nodes and edges over devices that are already in keeps the graph sound. */
  lemma EdgeKeepsSound(inv: Inventory, roots: set<DeviceId>, g: Graph, a: Node, b: Node)
    requires Sound(inv, roots, g) && ExpectedEdge(inv, g.added, a, b) && NodeExpected(inv, g, a)
    requires NodeExpected(inv, g, b)
    ensures Sound(inv, roots, WithEdge(g, a, b))
  {}

  lemma StepReaches(inv: Inventory, roots: set<DeviceId>, p: PortId, q: PortId)
    requires p in inv.peers && q in inv.peers[p] && Reachable(inv, roots, p.0)
    ensures Reachable(inv, roots, q.0)
  {
    var k: nat :| ReachedIn(inv, roots, p.0, k);
    assert PeerDevices(inv, p.0, q.0);
    assert ReachedIn(inv, roots, q.0, k + 1);
  }

  class GraphBuilder {
    const inv: Inventory
    ghost const roots: set<DeviceId>
    var g: Graph

    constructor (inv: Inventory, ghost roots: set<DeviceId>)
      ensures this.inv == inv && this.roots == roots && g == Graph({}, {}, {}, {})
    {
      this.inv, this.roots := inv, roots;
      g := Graph({}, {}, {}, {});
    }

    /** The recursive closure add_device. A peer device met for the first time is visited at once
        and no edge is recorded; the visit itself finds the link back, because links are
        symmetric. The devices not yet visited bound the recursion. */
    method AddDevice(d: DeviceId)
      requires Symmetric(inv) && d in inv.devices && Reachable(inv, roots, d) && Sound(inv, roots, g)
      modifies this
      ensures Sound(inv, roots, g) && Grows(old(g), g) && d in g.added
      ensures forall c :: c in g.added - old(g).added ==> DeviceDone(inv, g, c)
      decreases inv.devices - g.added, 0
    {
      if d in g.added {
        return;
      }
      g := g.(nodes := g.nodes + {DeviceNode(d)}, added := g.added + {d});
      var left := set p | p in inv.peers && p.0 == d;
      while left != {}
        invariant forall p :: p in left ==> p in inv.peers && p.0 == d
        invariant Sound(inv, roots, g) && Grows(old(g), g) && d in g.added && DeviceNode(d) in g.nodes
        invariant forall c :: c in g.added - old(g).added && c != d ==> DeviceDone(inv, g, c)
        invariant forall p :: p in inv.peers && p.0 == d && p !in left ==> PortDone(inv, g, p)
        decreases left
      {
        var p :| p in left;
        ghost var before := g;
        VisitPort(p);
        forall c | c in before.added - old(g).added && c != d ensures DeviceDone(inv, g, c) {
          DoneStaysDone(inv, before, g, c);
        }
        forall p' | p' in inv.peers && p'.0 == d && p' !in left ensures PortDone(inv, g, p') {
          PortStaysDone(inv, before, g, p');
        }
        left := left - {p};
      }
    }

    /** The body of the loop over a device's ports. */
    method VisitPort(p: PortId)
      requires Symmetric(inv) && p in inv.peers && p.0 in g.added
      requires Sound(inv, roots, g) && DeviceNode(p.0) in g.nodes
      modifies this
      ensures Sound(inv, roots, g) && Grows(old(g), g) && PortDone(inv, g, p)
      ensures forall c :: c in g.added - old(g).added ==> DeviceDone(inv, g, c)
      decreases inv.devices - g.added, 2
    {
      EdgeKeepsSound(inv, roots, g, DeviceNode(p.0), PortNode(p));
      g := WithEdge(g, DeviceNode(p.0), PortNode(p));
      var peers := inv.peers[p];
      for k := 0 to |peers|
        invariant Sound(inv, roots, g) && Grows(old(g), g)
        invariant PortNode(p) in g.nodes && (DeviceNode(p.0), PortNode(p)) in g.edges
        invariant forall c :: c in g.added - old(g).added ==> DeviceDone(inv, g, c)
        invariant forall j :: 0 <= j < k ==> LinkDone(g, p, peers[j])
      {
        ghost var before := g;
        VisitPeer(p, peers[k]);
        forall c | c in before.added - old(g).added ensures DeviceDone(inv, g, c) {
          DoneStaysDone(inv, before, g, c);
        }
      }
    }

    /** The body of the loop over a port's peers. */
    method VisitPeer(p: PortId, q: PortId)
      requires Symmetric(inv) && p in inv.peers && q in inv.peers[p] && p.0 in g.added && Sound(inv, roots, g)
      modifies this
      ensures Sound(inv, roots, g) && Grows(old(g), g) && LinkDone(g, p, q)
      ensures forall c :: c in g.added - old(g).added ==> DeviceDone(inv, g, c)
      decreases inv.devices - g.added, 1
    {
      if q.0 !in g.added {
        StepReaches(inv, roots, p, q);
        AddDevice(q.0);
        assert DeviceDone(inv, g, q.0) && PortDone(inv, g, q) && LinkDone(g, q, p);
      } else if (p, q) !in g.links {
        EdgeKeepsSound(inv, roots, g, PortNode(p), PortNode(q));
        g := WithEdge(g, PortNode(p), PortNode(q));
        g := g.(links := g.links + {(p, q), (q, p)});
      }
    }

    /** _build_graph: a search from the device of each logical port. */
    method BuildGraph(ports: seq<DeviceId>)
      requires Symmetric(inv) && g == Graph({}, {}, {}, {}) && roots == (set d | d in ports) && roots <= inv.devices
      modifies this
      ensures ExactGraph(inv, roots, g)
    {
      for k := 0 to |ports|
        invariant Sound(inv, roots, g) && forall c :: c in g.added ==> DeviceDone(inv, g, c)
        invariant forall j :: 0 <= j < k ==> ports[j] in g.added
      {
        ghost var before := g;
        assert ReachedIn(inv, roots, ports[k], 0);
        AddDevice(ports[k]);
        forall c | c in before.added ensures DeviceDone(inv, g, c) {
          DoneStaysDone(inv, before, g, c);
        }
      }
      DoneIsExact(inv, roots, g);
    }
  }

  /** The graph is precisely what is reachable from the logical ports: those devices, their ports,
      an edge for each port, and an edge for each peer link. */
  ghost predicate ExactGraph(inv: Inventory, roots: set<DeviceId>, g: Graph) {
    && (forall d :: d in g.added <==> Reachable(inv, roots, d))
    && (forall n :: n in g.nodes <==> NodeExpected(inv, g, n))
    && (forall a, b :: (a, b) in g.edges <==> ExpectedEdge(inv, g.added, a, b))
  }

  lemma {:induction false} ReachedIsAdded(inv: Inventory, roots: set<DeviceId>, g: Graph, d: DeviceId, k: nat)
    requires roots <= g.added && (forall c :: c in g.added ==> DeviceDone(inv, g, c)) && ReachedIn(inv, roots, d, k)
    ensures d in g.added
    decreases k
  {
    if k > 0 {
      var from :| ReachedIn(inv, roots, from, k - 1) && PeerDevices(inv, from, d);
      ReachedIsAdded(inv, roots, g, from, k - 1);
      var p, q :| p in inv.peers && q in inv.peers[p] && p.0 == from && q.0 == d;
      assert DeviceDone(inv, g, from) && PortDone(inv, g, p) && LinkDone(g, p, q);
    }
  }

  lemma DoneIsExact(inv: Inventory, roots: set<DeviceId>, g: Graph)
    requires Sound(inv, roots, g) && roots <= g.added && forall c :: c in g.added ==> DeviceDone(inv, g, c)
    ensures ExactGraph(inv, roots, g)
  {
    forall d | Reachable(inv, roots, d) ensures d in g.added {
      var k: nat :| ReachedIn(inv, roots, d, k);
      ReachedIsAdded(inv, roots, g, d, k);
    }
    forall n | NodeExpected(inv, g, n) ensures n in g.nodes {
      if n.PortNode? {
        assert DeviceDone(inv, g, n.port.0) && PortDone(inv, g, n.port);
      } else {
        assert DeviceDone(inv, g, n.id);
      }
    }
    forall a, b | DirectedEdge(inv, g.added, a, b) ensures (a, b) in g.edges && (b, a) in g.edges {
      if a.DeviceNode? {
        assert DeviceDone(inv, g, a.id) && PortDone(inv, g, b.port);
      } else {
        assert DeviceDone(inv, g, a.port.0) && PortDone(inv, g, a.port) && LinkDone(g, a.port, b.port);
      }
    }
  }
}
