/** The generation of default rules (voltha/core/logical_device_agent.py): for each device of the
    graph, from its ports by their type. */
module DefaultRules {
  import opened Wrappers
  import opened OpenFlow
  import opened Topology
  import opened FlowDecomposer

  datatype PortType = EthernetNni | EthernetUni | PonOlt | PonOnu | OtherPort

  datatype DevicePort = DevicePort(number: nat, kind: PortType)

  datatype DeviceRecord = DeviceRecord(ports: seq<DevicePort>, vlan: nat)

  type Devices = map<DeviceId, DeviceRecord>

  /** The port of a type, which there must be exactly one of. */
  function TheOnly(ports: seq<DevicePort>, kind: PortType): Result<nat> {
    var found := Filter(ports, (p: DevicePort) => p.kind == kind);
    if |found| == 1 then Ok(found[0].number) else Raised
  }

  function RootRules(d: DeviceRecord): Result<seq<Flow>> {
    var edge :- TheOnly(d.ports, EthernetNni);
    var pon :- TheOnly(d.ports, PonOlt);
    Ok(RootDefaults(Tree("", 0, edge, pon, [])))
  }

  function LeafRules(d: DeviceRecord): Result<seq<Flow>> {
    var pon :- TheOnly(d.ports, PonOnu);
    var edge :- TheOnly(d.ports, EthernetUni);
    Ok(LeafDefaults(Onu("", d.vlan, 0, edge, pon)))
  }

  function RulesFor(devices: Devices, root: DeviceId, d: DeviceId): Result<seq<Flow>>
    requires d in devices
  {
    if d == root then RootRules(devices[d]) else LeafRules(devices[d])
  }

  /** The loop over the devices of the graph, in any order: it raises exactly if some device does not
      have exactly one port of each of its two types. */
  method GenerateDefaultRules(devices: Devices, root: DeviceId) returns (ok: bool, rules: DeviceRules)
    ensures ok <==> forall d :: d in devices ==> RulesFor(devices, root, d).Ok?
    ensures ok ==> rules.Keys == devices.Keys && forall d :: d in devices ==> RulesFor(devices, root, d) == Ok(rules[d])
  {
    ok, rules := true, map[];
    var left := devices.Keys;
    while left != {}
      invariant ok && left <= devices.Keys && rules.Keys == devices.Keys - left
      invariant forall d :: d in rules ==> RulesFor(devices, root, d) == Ok(rules[d])
      decreases left
    {
      var d :| d in left;
      var made := RulesFor(devices, root, d);
      if made.Raised? {
        ok := false;
        return;
      }
      rules := rules[d := made.value];
      left := left - {d};
    }
  }

  /** One port with a number, and no other of its type. */
  ghost predicate HasOnly(ports: seq<DevicePort>, kind: PortType, number: nat) {
    exists i :: 0 <= i < |ports| && ports[i] == DevicePort(number, kind)
                && forall j :: 0 <= j < |ports| && j != i ==> ports[j].kind != kind
  }

  /** The only port of a type is found whatever other ports there are, and the assertion fails on none
      and on several. */
  lemma TheOnlyIsFound(ports: seq<DevicePort>, kind: PortType, number: nat)
    ensures TheOnly(ports, kind) == Ok(number) <==> HasOnly(ports, kind, number)
  {
    if i :| 0 <= i < |ports| && ports[i] == DevicePort(number, kind)
            && forall j :: 0 <= j < |ports| && j != i ==> ports[j].kind != kind
    {
      FilterOne(ports, (p: DevicePort) => p.kind == kind, i);
    } else if TheOnly(ports, kind).Ok? {
      var k := FilteredToOne(ports, (p: DevicePort) => p.kind == kind);
    }
  }

  /** The devices are those of the tree, each with the ports the tree gives it, among others of other
      types. */
  ghost predicate Describes(t: Tree, devices: Devices) {
    && (forall d :: d in devices <==> d == t.oltId || exists i :: 0 <= i < |t.onus| && t.onus[i].id == d)
    && HasOnly(devices[t.oltId].ports, EthernetNni, t.edge) && HasOnly(devices[t.oltId].ports, PonOlt, t.pon)
    && forall i :: 0 <= i < |t.onus| ==>
         var o, d := t.onus[i], devices[t.onus[i].id];
         d.vlan == o.vlan && HasOnly(d.ports, PonOnu, o.pon) && HasOnly(d.ports, EthernetUni, o.edge)
  }

  /** On a tree the generated rules are the default rules that the forwarding results speak of. */
  lemma TreeDefaultsGenerated(t: Tree, devices: Devices, rules: DeviceRules)
    requires ValidTree(t) && Describes(t, devices)
    ensures forall d :: d in devices ==> RulesFor(devices, t.oltId, d).Ok?
    ensures (rules.Keys == devices.Keys && forall d :: d in devices ==> RulesFor(devices, t.oltId, d) == Ok(rules[d]))
            ==> rules == TreeDefaults(t)
  {
    DefaultKeys(t);
    forall d | d in devices ensures RulesFor(devices, t.oltId, d) == Ok(TreeDefaults(t)[d]) {
      RulesForDevice(t, devices, d);
    }
  }

  lemma RulesForDevice(t: Tree, devices: Devices, d: DeviceId)
    requires ValidTree(t) && Describes(t, devices) && d in devices
    ensures d in TreeDefaults(t) && RulesFor(devices, t.oltId, d) == Ok(TreeDefaults(t)[d])
  {
    if d == t.oltId {
      TheOnlyIsFound(devices[d].ports, EthernetNni, t.edge);
      TheOnlyIsFound(devices[d].ports, PonOlt, t.pon);
      DefaultsOfTree(t, 0);
    } else {
      var i :| 0 <= i < |t.onus| && t.onus[i].id == d;
      TheOnlyIsFound(devices[d].ports, PonOnu, t.onus[i].pon);
      TheOnlyIsFound(devices[d].ports, EthernetUni, t.onus[i].edge);
      DefaultsOfTree(t, i);
    }
  }

  lemma DefaultKeys(t: Tree)
    ensures forall d :: d in TreeDefaults(t) <==> d == t.oltId || exists i :: 0 <= i < |t.onus| && t.onus[i].id == d
  {
    OnuDefaultKeys(t.onus);
  }

  lemma {:induction false} OnuDefaultKeys(onus: seq<Onu>)
    ensures forall d :: d in OnuDefaults(onus) <==> exists i :: 0 <= i < |onus| && onus[i].id == d
  {
    if onus != [] {
      var n := |onus| - 1;
      OnuDefaultKeys(onus[..n]);
      forall d ensures d in OnuDefaults(onus) <==> exists i :: 0 <= i < |onus| && onus[i].id == d {
        if d in OnuDefaults(onus[..n]) {
          var i :| 0 <= i < n && onus[..n][i].id == d;
          assert onus[i].id == d;
        }
        if i :| 0 <= i < |onus| && onus[i].id == d {
          assert i < n ==> onus[..n][i].id == d;
        }
      }
    }
  }
}
