/** The cached tables of the logical device agent (voltha/core/logical_device_agent.py): routes, default
    rules and the number of the NNI, computed from the stored devices, ports and logical ports. */
module CachedTables {
  import opened Wrappers
  import opened OpenFlow
  import opened PonMachine
  import opened Topology
  import opened FlowDecomposer
  import opened DeviceGraph
  import opened RouteTable
  import opened DefaultRules
  import opened LoopFreedom
  import opened LogicalDevice
  import opened EndToEnd

  datatype LogicalPort = LogicalPort(port: PortId, number: nat, root: bool)

  function BoundaryOfPorts(ports: seq<LogicalPort>): Boundary {
    seq(|ports|, i requires 0 <= i < |ports| => (ports[i].port, ports[i].number))
  }

  /** The number of the only root port. */
  function RootNumber(ports: seq<LogicalPort>): Result<nat> {
    var roots := Filter(ports, (p: LogicalPort) => p.root);
    if |roots| == 1 then Ok(roots[0].number) else Raised
  }

  /** The logical ports are those of the tree, in any order, and the NNI is the root port. */
  ghost predicate PortsOfTree(t: Tree, ports: seq<LogicalPort>) {
    && TreeBoundary(t, BoundaryOfPorts(ports))
    && forall i :: 0 <= i < |ports| ==> (ports[i].root <==> ports[i].port == (t.oltId, t.edge))
  }

  lemma RootNumberIsNni(t: Tree, ports: seq<LogicalPort>)
    requires ValidTree(t) && PortsOfTree(t, ports)
    ensures RootNumber(ports) == Ok(t.nni)
  {
    var boundary := BoundaryOfPorts(ports);
    assert BoundaryOf(t, ((t.oltId, t.edge), t.nni));
    var i :| 0 <= i < |boundary| && boundary[i] == ((t.oltId, t.edge), t.nni);
    forall j | 0 <= j < |ports| && j != i ensures !ports[j].root {
      assert boundary[j] in boundary && boundary[j] != boundary[i];
    }
    FilterOne(ports, (p: LogicalPort) => p.root, i);
  }

  ghost predicate OnlyRoot(ports: seq<LogicalPort>, i: nat) {
    i < |ports| && ports[i].root && forall j :: 0 <= j < |ports| && j != i ==> !ports[j].root
  }

  /** The assertion that there is one root port fails on none and on several. */
  lemma RootNumberCondition(ports: seq<LogicalPort>)
    ensures RootNumber(ports).Ok? <==> exists i: nat :: OnlyRoot(ports, i)
    ensures forall i: nat :: OnlyRoot(ports, i) ==> RootNumber(ports) == Ok(ports[i].number)
  {
    forall i: nat | OnlyRoot(ports, i) ensures RootNumber(ports) == Ok(ports[i].number) {
      FilterOne(ports, (p: LogicalPort) => p.root, i);
    }
    if RootNumber(ports).Ok? {
      var i := FilteredToOne(ports, (p: LogicalPort) => p.root);
      assert OnlyRoot(ports, i);
    }
  }

  /** From what is stored for a tree, the tables that manage the tree, for any shortest-path function
      and in any order of the route dictionary; no assertion fails on the way. */
  method AssureCachedTables(inv: Inventory, devices: Devices, rootDevice: DeviceId, ports: seq<LogicalPort>,
                            info: DeviceId -> Device, nx: (Edges, Node, Node) -> seq<Node>, ghost t: Tree)
    returns (ok: bool, routes: map<(nat, nat), Route>, defaults: DeviceRules, nni: nat)
    requires IsTree(inv, t) && TreeInfo(t, info) && FindsShortest(nx) && PonSimPorts(t)
    requires Describes(t, devices) && rootDevice == t.oltId && PortsOfTree(t, ports)
    ensures ok
    ensures forall entries :: Enumerates(entries, routes) ==> Manages(Config(Routes(entries, nni), defaults), t)
  {
    var computed, generated;
    computed, routes := ComputeRoutes(inv, BoundaryOfPorts(ports), info, nx, t);
    generated, defaults := GenerateDefaultRules(devices, rootDevice);
    TreeDefaultsGenerated(t, devices, defaults);
    RootNumberIsNni(t, ports);
    var root := RootNumber(ports);
    ok, nni := computed && generated && root.Ok?, if root.Ok? then root.value else 0;
  }
}
