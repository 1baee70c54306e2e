# VOLTHA flow decomposition and its neighbours, in Dafny

VOLTHA presents one OLT and the ONUs behind it as a single OpenFlow switch. This project models
the parts of it that have to be right for that picture to hold, and proves what they do.

**The compiler and its target machine.** `FlowDecomposer` is the translation of logical flows and
groups into rules per device, on top of default rules; `PonMachine` is the PON simulator as a
function on frames (a stack of 802.1Q tags over a payload), with the identity of frame objects
tracked, because SET_FIELD writes into the object a device was handed and the OLT hands one object
to all ONUs. The theorems relate the two:

- `FrameLaws` and `RuleLaws`: what actions and match fields do to the words of a header, what no table
  can change, and every attribute of every rule that decomposition emits.
- `RuleSelection`: sorting and scanning elects the matching rule of highest priority, the earliest
  installed among equals; dropping rules with a known id never changes the election.
- `LoopFreedom`: for all flows and groups whatsoever, every rule crosses its device, so ingress
  calls nest at most two devices deep and no frame leaves on the side where it came in.
- `UnicastMeaning`, `UnicastForwarding`, `DownstreamForwarding`: whole tables of upstream,
  downstream and controller-bound flows, with the exact output for every frame at every outside
  port; isolation of subscribers; the controller channel's round trip.
- `Multicast`: whole tables of multicast flows, with the exact output for every single-tagged frame.
- `MixedTables`: all kinds of flows in one table, with the exact output for every frame.
- `LogicalSwitch`, `LogicalMulticast` and `LogicalMixed`: the same outputs against what the logical
  flows ask for, with `Election` for the choice among them, each with the exact condition under which
  the two agree. `Deviations` has inputs outside those conditions.
- `EndToEnd`: the results above for the tables left behind by any run of messages.

**Topology.** `DeviceGraph` (peer symmetry kept by add_port, discovery by depth-first search),
`RouteTable` (shortest paths and routes), `Topology` (what a route lookup answers), `CachedTables`
(the agent's cached tables, from all of these).

**State.** `LogicalDevice` and `LogicalDeviceAgent`: flow-mod and group-mod messages as a state
machine and as an object; `MessageLaws`: what each message leaves, attribute by attribute;
`LogicalTables`: the same tables as the finite maps of the OpenFlow specification. `DefaultRules`,
`DecomposerLoops` and `PonSim` are the loops over devices, rules and buckets and the simulator's
objects in their own imperative form, tied to the functions above.

**Smaller cores.** `Leader` (work reassignment), `StreamReassembly` (OpenFlow messages from a byte
stream), `MessageQueue` (predicate-selective queue), `Igmp` (floating-point response codes),
`SwaggerDefinitions` (worklist of definitions).

A `Tree` is one OLT with its ONUs and logical port numbers. `Serves(r, t)` says that a route table
lists exactly the routes of the tree, in any order; `RouteTable.ComputeRoutes` establishes it from
the stored ports. `InstalledNet(t, tables)` is the simulator with given device tables installed.
Inductions are written out: lemmas that Dafny would otherwise give an induction hypothesis of its own
carry `{:induction false}`.

## What turned out not to hold

Each of these has a lemma with an input, and a lemma that says exactly when the code does meet the
property.

- The default rules of an ONU tag and forward frames that no goto flow asks for, so an output flow
  alone already forwards upstream (`Deviations.UpstreamWithoutGoto`); likewise they serve the owner of
  a VLAN downstream without an output flow. Exactly when: `LogicalSwitch.UpstreamMeaning`,
  `LogicalSwitch.DownstreamMeaning`.
- A controller-bound flow loses its in_port and VLAN match and takes frames from other subscribers
  too (`Deviations.ControllerFlowTakesOtherUnis`); its rule is on the OLT and never meets the goto
  flows it should compete with (`Deviations.OutrankedControllerTakes`); and one without in_port does not
  get what the network sends (`Deviations.WildcardMissesTheNni`). Exactly when:
  `LogicalSwitch.UpstreamMeaning`, `LogicalSwitch.DownstreamMeaning`.
- A multicast frame goes to the subscribers of flows that are not elected
  (`Deviations.ShadowedFlowDelivers`), one flow's VLAN lets a frame through to the subscribers of
  another (`Deviations.OneVlanOpensAnotherChannel`), the in-band VLAN does so too
  (`Deviations.InBandFrameLeaks`), and a bucket listed twice is served once
  (`Deviations.RepeatedBucketIsServedOnce`). Exactly when, frame by frame:
  `LogicalMulticast.MulticastMeaning`; for a whole table: `LogicalMulticast.ChannelTableCondition`.
- An ONU whose VLAN is 0 also receives what was meant for an earlier ONU
  (`Deviations.VlanZeroIsNotIsolated`). Exactly when: `DownstreamForwarding.IsolationCondition`.
- An exception in the callback of a write is logged and dropped, so a flow without a route is
  accepted and keeps all later flows from the devices (`Deviations.PoisonedTable`). Exactly when:
  `EndToEnd.RunSyncsWhenRoutable`.
- An add with CHECK_OVERLAP never finds an overlap (`Deviations.OverlapCheckDuplicates`), flows that
  differ in cookie or flags alone do not replace each other (`Deviations.OtherCookieDuplicates`), and
  a delete of all groups leaves the flows that use them (`Deviations.AllGroupsLeaveTheirFlows`).
  Exactly when: `LogicalTables.RunRefines`.
- A message type used only as the value of a map is referred to but not defined
  (`SwaggerDefinitions.MapValueDangles`). Exactly when: `SwaggerDefinitions.DanglingCondition`.

## Model

| member | source | states |
|---|---|---|
| `PonMachine.MatchIsConjunction` | ponsim/ponsim.py:84-147 | on the implemented fields the sequential match, with its early exits, never raises and says yes exactly when every field does |
| `PonMachine.PushThenPop` | ponsim/ponsim.py:157-171 | a tag pushed and popped leaves the frame as it was, as a new object |
| `PonMachine.SetThenMatch` | ponsim/ponsim.py:122-184 | a field that was set matches afterwards, matches on other fields are unaffected, and the caller's object changes exactly while it is the frame at hand |
| `FrameLaws.WordsDetermine` | ponsim/ponsim.py:149-193 | the header as a row of words (destination, source, type, then priority, VLAN and type of each tag) and the payload determine a frame |
| `FrameLaws.PushOnWire` | ponsim/ponsim.py:165-171 | PUSH_VLAN inserts its type, priority 0 and VLAN 1 behind the addresses and changes nothing else; the object handed in stays as it was |
| `FrameLaws.PopOnWire` | ponsim/ponsim.py:157-163 | POP_VLAN takes three words out behind the addresses and changes nothing else, and does nothing without a tag |
| `FrameLaws.SetOnWire` | ponsim/ponsim.py:173-188 | SET_FIELD replaces one word of the outermost tag, the priority or the low twelve bits of the VLAN, in the object handed in as long as it is the one at hand; without a tag and for other fields it raises |
| `FrameLaws.OutputOnWire` | ponsim/ponsim.py:149-193 | OUTPUT only names the port, the last one counts, and actions of other types raise |
| `FrameLaws.DottedAddress` | ponsim/ponsim.py:33-39 | an ipv4_dst of four bytes matches IP frames to the address written with those bytes in that order, and no others |
| `FrameLaws.VlanMatch` | ponsim/ponsim.py:119-127 | bit 12 of vlan_vid asks for a tag with the VLAN in the low twelve bits, and its absence for an untagged frame |
| `FrameLaws.PlainMatch` | ponsim/ponsim.py:107-145 | the other fields read the words they name, the type being that behind the outermost tag; UDP_DST and fields of other types raise |
| `FrameLaws.MatchStopsAtFirst` | ponsim/ponsim.py:105-147 | the first field that does not match decides, whether it says no or raises |
| `FrameLaws.IngressKeepsCargo` | ponsim/ponsim.py:55-193 | in every network with every table, whatever leaves, and the object handed in, has the addresses, the payload and the payload type of the frame that came in |
| `PonSim.SimDevice.InstallFlows` | ponsim/ponsim.py:72-74 | the new table has the pushed flows, each as often, in descending priority, with flows of equal priority in the order they were pushed |
| `PonSim.SimDevice.ProcessActions` | ponsim/ponsim.py:149-193 | the action loop over objects computes egress port, resulting frame, what became of the caller's object and whether the result is that object; it raises exactly when the described run does, and then the caller's object is as the last action before left it |
| `PonSim.SimDevice.ProcessFrame` | ponsim/ponsim.py:76-82 | the first matching rule's actions are run; without one the frame object is untouched; if it raises, the object is as the actions before left it |
| `PonSim.PonSimulator.Wire` | ponsim/ponsim.py:198-221 | the objects are distinct and linked as one OLT with its ONUs, each ONU to the OLT and to its own outside port |
| `PonSim.WiringNumbers` | ponsim/ponsim.py:198-221 | edge ports are 2 and PON ports 1; outside, the OLT is port 0 and the i-th ONU port 128 + i |
| `PonSim.PonSimulator.constructor` | ponsim/ponsim.py:198-221 | a new simulator is the PON network with empty tables and has emitted nothing |
| `PonSim.PonSimulator.DeviceInstall` | ponsim/ponsim.py:226-230 | one device's table changes, and no other device and no link does |
| `PonSim.PonSimulator.DeviceIngress` | ponsim/ponsim.py:55-70 | output, status and the final content of the frame object, after an exception too, are those of the functional machine, for any tables, and no device changes |
| `PonSim.PonSimulator.HandLink` | ponsim/ponsim.py:63-66 | one closure call: the frame leaves, or goes through a device, with what that emits and does to the object |
| `PonSim.PonSimulator.HandOver` | ponsim/ponsim.py:61-66 | the loop over links, with the devices' recursive calls inside, emits exactly what the functional machine emits |
| `RuleSelection.SelectIsBest` | ponsim/ponsim.py:72-82 | the elected rule is the matching rule of maximal priority, the earliest among equals, and none is elected only if none matches |
| `RuleSelection.SortedTable` | ponsim/ponsim.py:72-74 | the installed table is in descending order of priority |
| `RuleSelection.SortedContents` | ponsim/ponsim.py:72-74 | sorting loses no rule and adds none, with multiplicity |
| `RuleSelection.SortedIsStable` | ponsim/ponsim.py:72-74 | rules of equal priority keep their order |
| `RuleSelection.StableSortIsUnique` | ponsim/ponsim.py:72-74 | descending priority, the same rules and their order within a priority determine the installed table |
| `RuleSelection.SortedFirstHit` | ponsim/ponsim.py:72-82 | the first hit of the sorted table is the elected rule of the pushed one |
| `RuleSelection.ProcessSelects` | ponsim/ponsim.py:72-82 | installing and then processing a frame runs the elected rule, or drops the frame if there is none |
| `RuleSelection.AddNewTwice` | voltha/core/flow_decomposer.py:417-424 | adding the rules of two flows one after the other is adding them together |
| `RuleSelection.AddNewContents` | voltha/core/flow_decomposer.py:420-424 | rules in the table stay where they are, every offered id is present afterwards, nothing else appears, and distinct ids stay distinct |
| `RuleSelection.DedupIsTransparent` | voltha/core/flow_decomposer.py:420-424 | leaving out rules whose id is already there never changes which rule is elected, for any frame, although ids ignore the actions |
| `RuleSelection.SelectSplit` | voltha/core/flow_decomposer.py:414-424 | of two lists one after the other the first wins ties, so default rules win ties against decomposed ones |
| `Election.ElectedIffLeads` | ponsim/ponsim.py:72-82 | an election, of rules on a device or of logical flows, yields the one that wants the frame and that no other such flow outranks, by priority and then by place |
| `Election.ElectedOfTwoKinds` | voltha/core/flow_decomposer.py:430-638 | of two kinds of flows in one table one is elected if and only if it is elected among its kind and no flow of the other kind outranks it |
| `Topology.RouteIsOrderIndependent` | voltha/core/logical_device_agent.py:667-695 | on a tree a lookup, half-routes and controller ports included, is determined by the tree alone, whatever order the dictionary is in |
| `Topology.BetweenIsTreeRoute` | voltha/core/logical_device_agent.py:695-695 | a full route exists exactly between the NNI and a UNI, in both directions |
| `FlowDecomposer.TableIsDefaultsThenFlows` | voltha/core/flow_decomposer.py:404-428 | a device's table is its default rules and then the rules of the flows in order, without repeated ids |
| `FlowDecomposer.BucketsDecompose` | voltha/core/flow_decomposer.py:602-636 | the loop over buckets raises if and only if some bucket, with the port it inherits, ends at no UNI: the assertion that ingress hops agree never fails |
| `FlowDecomposer.DecomposesWhenRoutable` | voltha/core/flow_decomposer.py:430-638 | decompose_flow raises on a flow if and only if the flow is not one of: to the controller, to the next table, between NNI and UNI, to a group that ends at UNIs |
| `RuleLaws.Extracted` | voltha/core/flow_decomposer.py:224-269 | actions, output port, in_port, group and next table are those that stand first in the flow |
| `RuleLaws.ControllerPorts` | voltha/core/flow_decomposer.py:455-456 | of all 32-bit ports, 0x7ffffffd and 0xfffffffd are the controller |
| `RuleLaws.ControllerFlowRules` | voltha/core/flow_decomposer.py:455-483 | the one rule of a controller-bound flow, on the OLT, with every attribute: cookie, priority, all match fields but in_port and VLAN, and the in-band tag 4000 |
| `RuleLaws.UpstreamGotoRules` | voltha/core/flow_decomposer.py:494-512 | the one rule of a goto flow from a UNI, on the ONU, with every attribute |
| `RuleLaws.UpstreamOutputRules` | voltha/core/flow_decomposer.py:514-533 | the one rule of a flow from a UNI to the NNI, on the OLT, with every attribute |
| `RuleLaws.DownstreamGotoRules` | voltha/core/flow_decomposer.py:536-554 | the one rule of a goto flow from the NNI, on the OLT, with every attribute |
| `RuleLaws.DownstreamOutputRules` | voltha/core/flow_decomposer.py:555-574 | the one rule of a flow from the NNI to a UNI, on the ONU, with every attribute |
| `RuleLaws.GroupFlowRules` | voltha/core/flow_decomposer.py:576-636 | the rules of a flow to a group with any actions and any buckets: one on the OLT, and for each ONU one per bucket whose last OUTPUT, its own or an earlier bucket's, is its UNI, in bucket order |
| `RuleLaws.GroupsById` | voltha/core/flow_decomposer.py:415-415 | of groups with one id the last is found |
| `RuleLaws.DefaultsSpelledOut` | voltha/core/logical_device_agent.py:577-652 | the default rules of the OLT and of an ONU, with every attribute |
| `RuleLaws.RulesServe` | voltha/core/flow_decomposer.py:430-638 | on any routes, every rule that a flow becomes has its cookie and priority, table 0, and no flags, timeouts or counts |
| `RuleLaws.TablesServe` | voltha/core/flow_decomposer.py:404-428 | every rule of every device's table is a default rule or has the cookie and priority of some flow |
| `DefaultRules.GenerateDefaultRules` | voltha/core/logical_device_agent.py:575-665 | the loop over devices gives each the rules for its ports and raises exactly if some device does not have one port of each of its two types |
| `DefaultRules.TheOnlyIsFound` | voltha/core/logical_device_agent.py:577-616 | the one port of a type is found among any others, and the assertion fails if there is none or more than one |
| `DefaultRules.TreeDefaultsGenerated` | voltha/core/logical_device_agent.py:575-665 | for the devices of a tree, with any further ports of other types, generation succeeds and gives the default rules of the tree |
| `DecomposerLoops.RuleTable.AddRules` | voltha/core/flow_decomposer.py:422-424 | the table object receives the new rules in order and keeps its old ones |
| `DecomposerLoops.DeepCopy` | voltha/core/flow_decomposer.py:414-414 | new objects, no two of them shared, with the contents of the old |
| `DecomposerLoops.MergeOne` | voltha/core/flow_decomposer.py:420-424 | only the named device's table changes, and it is created on demand |
| `DecomposerLoops.MergeInto` | voltha/core/flow_decomposer.py:418-424 | the rules of one flow are merged into all their devices' tables, in whatever order the devices come, and no table object is replaced |
| `DecomposerLoops.DecomposeRulesLoop` | voltha/core/flow_decomposer.py:404-428 | the loops compute the decomposition and raise exactly when it does; all resulting tables are new objects and the cached default tables keep their contents |
| `DecomposerLoops.ScanBucket` | voltha/core/flow_decomposer.py:604-613 | the last OUTPUT of a bucket sets the port, a bucket without one keeps the port of the bucket before, and the other actions are collected in order |
| `DecomposerLoops.DecomposeBucketsLoop` | voltha/core/flow_decomposer.py:602-636 | the loop over buckets yields the leaf rules of the specification and raises exactly when that does |
| `LoopFreedom.FlowRulesAreSided` | voltha/core/flow_decomposer.py:430-638 | for any flow and any groups, every rule has one in_port and one OUTPUT, the last action, on the other side of its device |
| `LoopFreedom.DefaultsAreSided` | voltha/core/logical_device_agent.py:575-665 | the same of all default rules |
| `LoopFreedom.TablesAreSided` | voltha/core/flow_decomposer.py:404-638 | the same of every rule of every decomposed table, for all flows and groups |
| `LoopFreedom.RunActionsSplit` | ponsim/ponsim.py:149-193 | running two action lists joined is running one after the other |
| `LoopFreedom.SidedStation` | ponsim/ponsim.py:55-82 | with such tables a frame leaves a device only on the side opposite to the one it came in |
| `LoopFreedom.FromPon` | ponsim/ponsim.py:55-70 | a frame from the PON leaves the device at most once, at its outside port, without any further device call |
| `LoopFreedom.IngressTerminates` | ponsim/ponsim.py:55-70 | for every frame at every outside port two nested device calls suffice, and more depth changes nothing |
| `LoopFreedom.DecomposedTablesNeverLoop` | ponsim/ponsim.py:198-221 | whatever flows and groups are decomposed and installed, no frame loops |
| `LoopFreedom.DecomposedTablesCross` | ponsim/ponsim.py:198-221 | whatever flows and groups are decomposed and installed: a subscriber's frame never reaches another subscriber, a frame of the network never goes back to it, and nobody gets a frame twice |
| `UnicastMeaning.DecomposeUpstreamGoto` | voltha/core/flow_decomposer.py:494-512 | a goto flow of a UNI becomes one rule, on that ONU |
| `UnicastMeaning.DecomposeUpstreamOutput` | voltha/core/flow_decomposer.py:514-533 | an output flow to the NNI becomes one rule, on the OLT |
| `UnicastMeaning.DecomposeUpstreamPair` | voltha/core/flow_decomposer.py:487-533 | the same for goto and output flows of a UNI with any other fields and any actions |
| `UnicastMeaning.DecomposeControllerBound` | voltha/core/flow_decomposer.py:455-483 | a controller-bound flow becomes one rule, on the OLT, with or without an in_port |
| `UnicastMeaning.DecomposeDownstreamGoto` | voltha/core/flow_decomposer.py:536-553 | a goto flow of the NNI becomes one rule, on the OLT |
| `UnicastMeaning.DecomposeDownstreamOutput` | voltha/core/flow_decomposer.py:555-574 | an output flow to a UNI becomes one rule, on that ONU |
| `UnicastMeaning.UnicastTableDecomposes` | voltha/core/flow_decomposer.py:404-428 | a table of such flows decomposes without an exception |
| `UnicastMeaning.RehomedMatch` | voltha/core/flow_decomposer.py:494-533 | a rule with a new in_port and some of the fields matches exactly when the port is that one and those fields agree |
| `UnicastMeaning.LogicalMatch` | voltha/core/flow_decomposer.py:494-533 | a logical flow matches at its port exactly when all its other fields agree, at whatever device port they are evaluated |
| `UnicastMeaning.OutputsDoNotRewrite` | voltha/core/flow_decomposer.py:507-533 | dropping OUTPUT actions changes neither the resulting frame nor whether the list raises |
| `UnicastMeaning.SelectContribution` | voltha/core/flow_decomposer.py:430-574 | a flow's rule takes a frame at the OLT exactly when the flow, with the fields it keeps there, matches it; what the lost fields mean is for LogicalSwitch.AskersAreServed |
| `UnicastMeaning.OltElection` | voltha/core/flow_decomposer.py:430-574 | over a whole table the OLT elects the rule of the flow of highest priority, earliest among equals, whose kept fields match |
| `UnicastForwarding.LeafDefaultsAreSound` | voltha/core/logical_device_agent.py:605-650 | the default rules of an ONU catch untagged, 0-tagged and own-VLAN frames, and tag and untag correctly |
| `UnicastForwarding.OnuContribution` | voltha/core/flow_decomposer.py:487-574 | what each kind of flow puts on an ONU agrees with those default rules on every frame |
| `UnicastForwarding.OnuBehaviour` | ponsim/ponsim.py:55-193 | in a whole table an ONU tags frames of its subscriber with its VLAN, untags its own frames from the PON in place, and drops everything else |
| `UnicastForwarding.OltBehaviour` | ponsim/ponsim.py:55-193 | the OLT runs the rule of the elected logical flow, or the in-band default rule, which wins ties at priority 2000 |
| `UnicastForwarding.GotoRuleRuns` | voltha/core/flow_decomposer.py:494-512 | the rule of a goto flow sends the flow's own rewriting of the frame to the next hop, and raises exactly when that does |
| `UnicastForwarding.OutputRuleRuns` | voltha/core/flow_decomposer.py:514-533 | the rule of an output flow sends the flow's own rewriting of the frame, its OUTPUT replaced by the device's |
| `UnicastForwarding.OltUpstream` | ponsim/ponsim.py:55-193 | from the PON a tagged frame leaves at the NNI as the elected flow rewrites it, or not at all |
| `UnicastForwarding.UpstreamExact` | ponsim/ponsim.py:55-193 | over whole tables, for any frame at any UNI: one frame at the NNI, as the elected flow rewrites the tagged frame, or nothing, and nothing elsewhere; it raises exactly when that flow's actions do |
| `DownstreamForwarding.AllOnusReact` | ponsim/ponsim.py:55-70 | every ONU, handed the shared object, emits and changes it or leaves it alone, according to its VLAN |
| `DownstreamForwarding.BroadcastDelivers` | ponsim/ponsim.py:63-66 | the loop over the ONUs emits in order what each makes of the object as the previous ones left it |
| `DownstreamForwarding.DownstreamExact` | ponsim/ponsim.py:55-193 | over whole tables, for any frame at the NNI: the exact output, or an exception exactly when the elected flow's actions raise |
| `DownstreamForwarding.IsolationCondition` | ponsim/ponsim.py:55-70 | what the OLT puts on the PON leaves the simulator at exactly one UNI if and only if that is the first owner's and no later ONU has VLAN 0 |
| `DownstreamForwarding.DownstreamIsolation` | voltha/core/flow_decomposer.py:535-574 | with distinct non-zero VLANs, what the table puts on the PON leaves at the UNI of the owner of its outer tag and nowhere else |
| `DownstreamForwarding.ControllerRoundTrip` | voltha/core/logical_device_agent.py:588-650 | a frame taken by a controller-bound flow and sent back in at the NNI leaves at the same UNI, unchanged (0-tagged if it was untagged), and at no other |
| `Multicast.MulticastContribution` | voltha/core/flow_decomposer.py:576-636 | a multicast flow becomes one rule on the OLT and rules on exactly the ONUs in its group's buckets |
| `Multicast.RootContributions` | voltha/core/flow_decomposer.py:577-598 | a whole table gives the OLT exactly one kind of rule per flow |
| `Multicast.LeafContributions` | voltha/core/flow_decomposer.py:602-636 | a whole table gives an ONU exactly the rules of the flows it subscribes to |
| `Multicast.MatchInHalves` | voltha/core/flow_decomposer.py:585-631 | on a single-tagged frame the logical match is the OLT's half on the frame together with the ONU's half on the frame without its tag |
| `Multicast.UnanimousTable` | ponsim/ponsim.py:72-82 | if all rules that match a frame do the same with it, the device does that, whatever the priorities and the order |
| `Multicast.OltMulticast` | ponsim/ponsim.py:55-193 | the OLT pops a tagged frame onto the PON if some flow's VLAN half or the in-band rule lets it through, and drops it otherwise |
| `Multicast.OnuMulticast` | ponsim/ponsim.py:55-193 | an ONU hands an untagged frame to its subscriber exactly when some subscribed flow's IP half matches |
| `Multicast.BroadcastCopies` | ponsim/ponsim.py:63-66 | the frame passes all ONUs unchanged, and exactly those that take it emit one copy each |
| `Multicast.MulticastExact` | ponsim/ponsim.py:55-193 | for any table of multicast flows and any single-tagged frame at the NNI: the exact list of copies |
| `LogicalSwitch.UpstreamPair` | voltha/core/flow_decomposer.py:487-533 | a goto flow and an output flow of one UNI, with any actions, become one rule each, on the ONU and on the OLT; in whatever tables those are the rules selected, one frame leaves, at the NNI, the second flow's actions applied after the first's |
| `LogicalSwitch.ControllerMatch` | voltha/core/flow_decomposer.py:455-483 | a controller-bound flow matches the frame as received if and only if the fields it keeps match the tagged frame at the OLT and the in_port, VLAN and priority fields it loses would have passed |
| `LogicalSwitch.AskersAreServed` | voltha/core/flow_decomposer.py:455-533 | of the flows whose rules the OLT would run, the controller-bound ones match the frame as received if and only if their lost fields pass, and the others are the output flows that match what a goto flow passes on |
| `LogicalSwitch.AskedByKind` | voltha/core/flow_decomposer.py:455-533 | who decides in the logical switch: the elected controller-bound flow if no matching goto flow outranks it, the elected output flow if the elected goto flow is outranked by no matching controller-bound flow, and otherwise nobody |
| `LogicalSwitch.OutputIsElected` | voltha/core/flow_decomposer.py:487-533 | an output flow that the OLT elects, among controller-bound flows without their lost fields, is the one the second table elects |
| `LogicalSwitch.UpstreamMeaning` | voltha/core/flow_decomposer.py:455-533 | for any table of unicast and controller-bound flows and any frame at any UNI: the simulator does what the logical switch asks if and only if, where the OLT elects a controller-bound flow, the controller is asked for in the first table (or the frame is passed on to an output flow whose actions amount to the in-band tag), and where it elects an output flow, the frame is passed on (or the controller is asked for and the actions amount to that) |
| `LogicalSwitch.ControllersOnly` | voltha/core/flow_decomposer.py:455-486 | in a table of controller-bound flows only, one per UNI for instance, a frame is treated as asked if and only if some flow matches it as received or no rule takes it |
| `LogicalSwitch.OutputMeaning` | voltha/core/flow_decomposer.py:555-574 | the ONUs deliver what the elected output flow asks for if and only if an output flow wants the frame or nobody owns its VLAN |
| `LogicalSwitch.OtherFrameMeaning` | voltha/core/flow_decomposer.py:535-574 | they deliver of one frame what the output flows ask for of another if and only if the two are the same, or no output flow wants the one and nobody owns the other |
| `LogicalSwitch.DownstreamMeaning` | voltha/core/flow_decomposer.py:455-574 | for any such table and any frame at the NNI: the logical switch, which may ask for the controller there too, is obeyed if and only if no controller-bound flow is elected (nothing ever leaves at the NNI) and, outside the in-band channel, some output flow wants what the goto flow makes or nobody owns it; for a frame the in-band rule takes, the goto flow makes the frame below the tag too, or nobody owns that |
| `LogicalSwitch.DownstreamPair` | voltha/core/flow_decomposer.py:535-574 | a goto flow that outranks the in-band rule where that matters and an output flow downstream: the one frame that leaves is the second flow's actions applied after the first's |
| `LogicalMulticast.ResultsCounted` | voltha/core/flow_decomposer.py:604-636 | the elected flow asks for as many untagged copies at a subscriber as its group has buckets for it |
| `LogicalMulticast.CopiesCounted` | ponsim/ponsim.py:63-66 | the simulator makes one copy at each ONU that takes the frame |
| `LogicalMulticast.CopiesCompared` | voltha/core/flow_decomposer.py:576-636 | the copies made are the copies asked for if and only if the numbers agree at each ONU |
| `LogicalMulticast.MulticastMeaning` | voltha/core/flow_decomposer.py:576-636 | for any table of multicast flows and any single-tagged frame: the buckets of the elected flow get one copy each and nobody else gets one, if and only if that flow lists nobody twice and has every subscriber of the flows whose IP half passes; or, if none is elected, such flows have no subscribers or no VLAN lets the frame through |
| `LogicalMulticast.OneVlanCondition` | voltha/core/flow_decomposer.py:576-636 | with all flows on one VLAN and outside the in-band channel, delivery is exact if and only if the elected flow lists nobody twice and no matching flow it shadows has a subscriber it has not |
| `LogicalMulticast.OneFlowCondition` | voltha/core/flow_decomposer.py:576-636 | for one flow on a VLAN other than 4000: exact on matching frames if and only if no bucket repeats, and on others unless the frame is in-band, passes the IP match and somebody subscribes |
| `LogicalMulticast.SelectIsElectedChannel` | voltha/core/flow_decomposer.py:576-636 | among channels the election depends on VLAN, address and priority alone |
| `LogicalMulticast.ChannelTableCondition` | voltha/core/flow_decomposer.py:576-636 | a table of channels delivers all single-tagged frames outside the in-band channel exactly if and only if, wherever one channel's VLAN meets another's address, a channel is elected that has that other's subscribers and lists nobody twice, or that other has none |
| `MixedTables.MixedElection` | voltha/core/flow_decomposer.py:404-638 | in tables of unicast, controller-bound and multicast flows together the OLT elects the rule of the flow of highest priority, earliest among equals, whose kept fields match |
| `MixedTables.OnuElection` | voltha/core/flow_decomposer.py:404-638 | the same at an ONU for frames from the PON |
| `MixedTables.MixedOnuFromPon` | ponsim/ponsim.py:55-193 | an ONU untags, passes on or ignores a frame from the PON, as the elected flow or its default rule of priority 500 says |
| `MixedTables.MixedUpstreamExact` | ponsim/ponsim.py:55-193 | in mixed tables, for any frame at any UNI: the exact output, as if the multicast flows were not there |
| `MixedTables.MixedUpstreamMeaning` | voltha/core/flow_decomposer.py:455-533 | in mixed tables the logical switch is obeyed upstream under the same exact condition as without multicast flows |
| `MixedTables.MixedDownstreamExact` | ponsim/ponsim.py:55-193 | in mixed tables, for any frame at the NNI, with any number of tags: the exact output |
| `LogicalMixed.TreatmentOf` | voltha/core/flow_decomposer.py:555-636 | a stranger's frame is passed on by an ONU if a multicast flow takes it and ignored otherwise; the owner never ignores it |
| `LogicalMixed.DeliveredAround` | ponsim/ponsim.py:55-70 | with an owner that takes the VLAN off, takers before it get the frame as it was and takers after it with VLAN 0 |
| `LogicalMixed.PairMeaning` | voltha/core/flow_decomposer.py:535-574 | in mixed tables exactly the owner gets its frame if and only if the frame on the PON is the one the goto flow makes, the owner takes the VLAN off and no other ONU's multicast flow takes it; or it has VLAN 0 already and that ONU alone takes it |
| `LogicalMixed.GroupMeaning` | voltha/core/flow_decomposer.py:576-636 | in mixed tables exactly the buckets of a group get their copies if and only if nobody takes the VLAN off, no bucket repeats, and the ONUs that take the frame are those the group lists |
| `LogicalMixed.MixedDownstreamMeaning` | voltha/core/flow_decomposer.py:404-638 | for any table of all kinds of flows and any frame at the NNI: goto, group and controller-bound flows elected in one table are obeyed if and only if no controller-bound flow is elected and those conditions hold of the frame on the PON |
| `Deviations.UpstreamWithoutGoto` | voltha/core/logical_device_agent.py:605-650 | a table with an output flow alone that forwards although the logical switch asks for nothing |
| `Deviations.ControllerFlowTakesOtherUnis` | voltha/core/flow_decomposer.py:455-483 | a controller-bound flow of one UNI that takes a frame of another, for which the logical switch asks nothing |
| `Deviations.OutrankedControllerTakes` | voltha/core/flow_decomposer.py:455-512 | a goto flow that outranks a controller-bound flow on one frame: the logical switch sends it on, and it leaves as a packet for the controller |
| `Deviations.WildcardMissesTheNni` | voltha/core/logical_device_agent.py:674-685 | a controller-bound flow without in_port that is elected for a frame of the network: the simulator emits nothing |
| `Deviations.VlanZeroIsNotIsolated` | ponsim/ponsim.py:173-184 | a frame at the NNI that leaves at two UNIs, because the second ONU has VLAN 0 |
| `Deviations.InBandFrameLeaks` | voltha/core/flow_decomposer.py:576-636 | an in-band frame delivered to a channel's subscriber although it does not match the channel |
| `Deviations.RepeatedBucketIsServedOnce` | voltha/core/flow_decomposer.py:420-424 | a group that lists one subscriber twice, who gets one copy |
| `Deviations.OneVlanOpensAnotherChannel` | voltha/core/flow_decomposer.py:585-631 | two channels and a frame on the VLAN of the first for the address of the second, which matches neither and is delivered |
| `Deviations.ShadowedFlowDelivers` | voltha/core/flow_decomposer.py:576-636 | two flows for one channel, the one of lower priority delivering although it is not elected |
| `Deviations.OverlapCheckDuplicates` | voltha/core/logical_device_agent.py:153-253 | two equal adds with CHECK_OVERLAP on an empty table make two flows, and a strict delete then leaves one |
| `Deviations.OtherCookieDuplicates` | voltha/core/logical_device_agent.py:262-268 | two adds for one table, priority and match that differ in their cookie make two flows |
| `Deviations.AllGroupsLeaveTheirFlows` | voltha/core/logical_device_agent.py:406-411 | a delete of all groups that leaves a flow to one of them |
| `Deviations.PoisonedTable` | voltha/core/config/config_proxy.py:142-153 | a flow to a port that does not exist is accepted, and a good flow after it is accepted too and reaches no device |
| `LogicalDevice.RunFollows` | voltha/core/config/config_node.py:261-304 | over every run of messages from any state, raising or not: from the first change on the device tables are the decomposition of the last logical tables that could be decomposed, and agree with the current ones if and only if these can be |
| `LogicalDevice.PerformFollows` | voltha/core/logical_device_agent.py:488-518 | the same through the writes of one message, the two of a group delete included, where a write of equal data does nothing and an exception in the callback is dropped |
| `LogicalDevice.DecomposesFlowByFlow` | voltha/core/flow_decomposer.py:404-428 | tables can be decomposed if and only if each flow can |
| `LogicalDevice.RunKeepsKeys` | voltha/core/logical_device_agent.py:153-268 | over every run without CHECK_OVERLAP no two flows agree on table, priority, flags, cookie and match |
| `LogicalDevice.OverlapCheckCondition` | voltha/core/logical_device_agent.py:244-253 | an add with CHECK_OVERLAP keeps flows distinct if and only if no flow with its key was there |
| `LogicalDevice.StrictDeleteCondition` | voltha/core/logical_device_agent.py:219-236 | a strict delete leaves no flow with its key if and only if there was at most one |
| `LogicalDevice.DeleteIsPartition` | voltha/core/logical_device_agent.py:194-217 | deletion splits the flows by the covering predicate, with multiplicity and in order |
| `LogicalDevice.DeletedGroupIsGone` | voltha/core/logical_device_agent.py:397-429 | after deleting a present group neither the group nor a flow with it is left, and all other flows are |
| `MessageLaws.FlagBits` | voltha/protos/openflow_13.proto:1177-1183 | SEND_FLOW_REM, CHECK_OVERLAP and RESET_COUNTS are bits 0, 1 and 2 |
| `MessageLaws.FlowAdded` | voltha/core/logical_device_agent.py:153-192 | the tables after an add, attribute by attribute: refused with a cookie mask, appended with CHECK_OVERLAP or if no flow has the five attributes, otherwise in place of the first that has them, with its counters unless they are reset |
| `MessageLaws.FlowStrictlyDeleted` | voltha/core/logical_device_agent.py:219-236 | a strict delete removes the first flow with the five attributes and nothing else |
| `MessageLaws.MaskedCookies` | voltha/core/logical_device_agent.py:285-288 | cookies differ under a mask if and only if some bit of the mask is a bit in which they differ |
| `MessageLaws.FlowsDeleted` | voltha/core/logical_device_agent.py:194-217 | a delete leaves, in their order, the flows that differ in a masked cookie bit, are not in the table named, or lack the port or the group named; it raises after that if one of the others asked for SEND_FLOW_REM, and before it if the message has match fields and would delete something |
| `MessageLaws.AllFlowsDeleted` | voltha/core/logical_device_agent.py:271-318 | a delete for all tables, any port and any group without a cookie mask leaves nothing |
| `MessageLaws.GroupAdded` | voltha/core/logical_device_agent.py:380-395 | a new group is stored with its type and its buckets, which decomposition then finds; one that is there stays as it is |
| `MessageLaws.GroupChanged` | voltha/core/logical_device_agent.py:431-450 | a group that is there gets the type and the buckets of the message, in its place; no other is touched |
| `MessageLaws.GroupDeleted` | voltha/core/logical_device_agent.py:397-429 | what each kind of group delete leaves of groups and flows, and when it raises |
| `LogicalTables.AddCondition` | voltha/core/logical_device_agent.py:153-192 | an add is the update of a map at table, priority and match, counters kept unless reset, if and only if the entry there has the same flags and cookie; with CHECK_OVERLAP, if and only if no entry of the table and priority agrees with it on the fields they share and nothing is there |
| `LogicalTables.OverlapIsSeen` | voltha/core/logical_device_agent.py:244-253 | entries with fields that the simulator can match overlap if and only if they have one table and priority and it has a frame, at some port, that matches both |
| `LogicalTables.DeleteIsRestriction` | voltha/core/logical_device_agent.py:194-217 | a delete restricts the map to the flows that are not covered |
| `LogicalTables.StrictDeleteRefines` | voltha/core/logical_device_agent.py:219-236 | a strict delete removes what section 6.4 says if and only if, among the entries with its priority and match, the covered ones are those with its table, flags and cookie |
| `LogicalTables.FlowModRefines` | voltha/core/logical_device_agent.py:111-236 | every flow mod, refused or not, changes the list as it changes the map if and only if it is regular |
| `LogicalTables.GroupDeleteRefines` | voltha/core/logical_device_agent.py:397-429 | deleting one group removes it and the flows that use it, or is refused because a flow wants its removal announced |
| `LogicalTables.AllGroupsCondition` | voltha/core/logical_device_agent.py:406-411 | deleting all groups does what section 6.5 says if and only if no flow uses one of them |
| `LogicalTables.GroupModRefines` | voltha/core/logical_device_agent.py:380-448 | every group mod changes the lists as it changes the maps if and only if it is regular |
| `LogicalTables.StepRefines` | voltha/core/logical_device_agent.py:111-149 | the same for every message |
| `LogicalTables.RunRefines` | voltha/core/logical_device_agent.py:111-448 | over every run the lists hold exactly the entries of the maps, each once, all the way through, if and only if every message is regular where it comes |
| `LogicalDeviceAgent.Agent.Update` | voltha/core/config/config_node.py:261-304 | a write of equal data does nothing; any other stores the tables and then the decomposition for the devices, or leaves the devices alone if that raises, which is not reported; the cached default rules are unchanged |
| `LogicalDeviceAgent.Agent.Find` | voltha/core/logical_device_agent.py:255-268 | the first flow with the same key, or none |
| `LogicalDeviceAgent.Agent.AddFlowEntry` | voltha/core/logical_device_agent.py:153-192 | the new state is that of the state machine, for both kinds of add, replacement in place included |
| `LogicalDeviceAgent.Agent.Split` | voltha/core/logical_device_agent.py:197-207 | the loop yields kept and deleted flows in order, and raises exactly when a covered flow meets a match it cannot compare |
| `LogicalDeviceAgent.Agent.DeleteFlowEntries` | voltha/core/logical_device_agent.py:194-217 | the new state is that of the state machine, exceptions included |
| `LogicalDeviceAgent.Agent.DeleteFlowStrictly` | voltha/core/logical_device_agent.py:219-236 | the new state is that of the state machine |
| `LogicalDeviceAgent.Agent.UpdateFlowTable` | voltha/core/logical_device_agent.py:111-132 | every flow-mod command does what the state machine says |
| `LogicalDeviceAgent.Agent.SplitByGroup` | voltha/core/logical_device_agent.py:356-376 | flows with and without the group, in order |
| `LogicalDeviceAgent.Agent.DeleteGroupEntry` | voltha/core/logical_device_agent.py:397-429 | two writes, groups first, the second whatever became of the first one's callback |
| `LogicalDeviceAgent.Agent.UpdateGroupTable` | voltha/core/logical_device_agent.py:134-149 | every group-mod command does what the state machine says |
| `EndToEnd.StoredNet` | voltha/core/logical_device_agent.py:488-518 | device tables that store a decomposition make the simulator of that decomposition |
| `EndToEnd.DecomposesWhenAllRoutable` | voltha/core/flow_decomposer.py:404-428 | the logical tables of a tree can be decomposed if and only if every flow has its route |
| `EndToEnd.RunSyncsWhenRoutable` | voltha/core/config/config_proxy.py:142-153 | over every run, from a synced state or from the first change on, device tables agree with the logical ones if and only if every flow has its route |
| `EndToEnd.UnicastIgnoresGroups` | voltha/core/flow_decomposer.py:404-428 | groups have no influence on tables of unicast flows |
| `EndToEnd.RunNeverLoops` | voltha/core/logical_device_agent.py:111-149 | after any run no frame loops and none leaves on the side where it came in, even if the current tables cannot be decomposed |
| `EndToEnd.RunInstalls` | voltha/core/logical_device_agent.py:488-518 | after any run that ends with tables that can be decomposed, the simulator with the stored device tables is the one with their decomposition |
| `EndToEnd.RunMeansUnicast` | voltha/core/logical_device_agent.py:111-149 | after any run that ends with unicast and controller-bound flows, for every frame at every outside port: the logical switch is obeyed if and only if the upstream and downstream conditions hold of the tables the run ends with |
| `EndToEnd.RunMeansMulticast` | voltha/core/logical_device_agent.py:111-149 | after any run that ends with multicast flows, for every single-tagged frame: the buckets of the elected flow get their copies and nobody else does, if and only if the multicast condition holds |
| `EndToEnd.RunMeansMixed` | voltha/core/logical_device_agent.py:111-149 | the same for runs that end with all kinds of flows, for any frame at every outside port |
| `CachedTables.RootNumberIsNni` | voltha/core/logical_device_agent.py:570-572 | the one root port of a tree is its NNI |
| `CachedTables.RootNumberCondition` | voltha/core/logical_device_agent.py:570-572 | the number of the root port is found if and only if there is exactly one |
| `CachedTables.AssureCachedTables` | voltha/core/logical_device_agent.py:564-572 | from what is stored for a tree, with any shortest-path function: no assertion fails, and the routes in any order, the default rules and the number of the NNI are tables that manage the tree, as the results on runs ask |
| `DeviceGraph.AddPortKeepsSymmetry` | voltha/core/adapter_agent.py:175-191 | a first-time add keeps the peer relation symmetric |
| `DeviceGraph.RunKeepsSymmetry` | voltha/core/adapter_agent.py:175-191 | over every run of first-time adds from nothing the peer relation stays symmetric, and it is exactly the symmetric closure of the peers named by the ports added |
| `DeviceGraph.AdapterAgent.AddPort` | voltha/core/adapter_agent.py:175-191 | the store becomes that of the specification; it raises exactly when a named peer or the device is missing, and then the peers before that one have been updated and the port is not stored |
| `DeviceGraph.GraphBuilder.AddDevice` | voltha/core/device_graph.py:48-75 | the recursive search terminates, adds the device and completes every device it newly adds, and keeps the graph within what is reachable |
| `DeviceGraph.GraphBuilder.VisitPort` | voltha/core/device_graph.py:56-75 | the port, its edge to the device and all its links are in the graph |
| `DeviceGraph.GraphBuilder.VisitPeer` | voltha/core/device_graph.py:62-75 | the link is in the graph once, and the peer's device has been visited |
| `DeviceGraph.GraphBuilder.BuildGraph` | voltha/core/device_graph.py:34-82 | exactly the reachable devices, their ports, their device-port edges and their peer edges |
| `DeviceGraph.DoneIsExact` | voltha/core/device_graph.py:34-82 | a graph within the reachable part that contains the roots and in which every device is completed is exact |
| `RouteTable.BuildRoutes` | voltha/core/device_graph.py:84-122 | for any boundary ports, also with equal numbers: the length assertion fails if and only if some path breaks it; otherwise the table has every pair's route, save where a later pair with the same numbers has one, and nothing else |
| `RouteTable.PathRoutes` | voltha/core/device_graph.py:94-120 | a path through two devices becomes the route with the ports it enters and leaves by, one through any other number breaks the assertion, and other lengths are passed over |
| `RouteTable.DistinctNumbersKeepAll` | voltha/core/device_graph.py:118-120 | with distinct numbers no pair takes another's place |
| `RouteTable.TreeGraph` | voltha/core/device_graph.py:34-82 | the exact graph of a tree inventory has the edges of the tree and no others |
| `RouteTable.ShortestDown` | voltha/core/device_graph.py:94-102 | any shortest path from the NNI to a UNI is the one of six nodes through OLT and ONU |
| `RouteTable.ShortestUp` | voltha/core/device_graph.py:94-102 | likewise from a UNI to the NNI |
| `RouteTable.ShortestAcross` | voltha/core/device_graph.py:94-98 | any shortest path between two UNIs has seven nodes, so it is skipped |
| `RouteTable.AnyPair` | voltha/core/device_graph.py:88-120 | any pair of boundary ports gives nothing or a route of the tree, and never fails the assertion |
| `RouteTable.RoutesAreExact` | voltha/core/device_graph.py:84-122 | the routes are exactly the NNI-UNI pairs in both directions |
| `RouteTable.ReverseRouteIsMirror` | voltha/core/device_graph.py:105-120 | the route back is the mirror image |
| `RouteTable.ComputeRoutes` | voltha/core/device_graph.py:29-32 | from stored ports and logical ports of a tree, with any shortest-path function: never fails, and the routes serve the tree in any dictionary order |
| `Leader.WantedHasSingleOwners` | voltha/leader.py:205-211 | no work id is wanted by two members |
| `Leader.Safety` | voltha/leader.py:233-257 | if no work id has two owners at the start, none has after any number of single store operations; and once all revocations are done none has, whatever the start |
| `Leader.RunIsSafe` | voltha/leader.py:233-257 | none of the stores a whole run goes through has a work id with two owners |
| `Leader.Convergence` | voltha/leader.py:233-257 | a completed run leaves exactly the wanted assignment, with as many operations as there are differences |
| `Leader.RerunAfterInterruption` | voltha/leader.py:201-257 | a new run after any interruption reaches the same assignment, and the two together use no more operations than one complete run |
| `Leader.LeaderNode.WantedByMember` | voltha/leader.py:205-211 | sets of work per member that together are the wanted assignment |
| `Leader.LeaderNode.CurrentByMember` | voltha/leader.py:218-229 | sets of work per member that together are the stored assignment |
| `Leader.LeaderNode.ReassignWork` | voltha/leader.py:201-257 | the operations issued are a duplicate-free plan, revocations first; the store goes through exactly the stores of that plan, one operation at a time; at the end it is the wanted assignment; and if no work id had two owners at the start, none has at any point |
| `Leader.LeaderNode.RevokePhase` | voltha/leader.py:233-245 | exactly the unwanted assignments are deleted, each once, one operation at a time |
| `Leader.LeaderNode.AssignPhase` | voltha/leader.py:249-257 | exactly the missing assignments are put, each once, one operation at a time |
| `StreamReassembly.ParseResumes` | ofagent/of_connection.py:42-82 | parsing a buffer and then feeding more is parsing both together |
| `StreamReassembly.ChunkingInvariance` | ofagent/of_connection.py:42-82 | for every byte stream and every split: same messages, same leftover, same failure as in one piece |
| `StreamReassembly.RecoversMessages` | ofagent/of_connection.py:42-82 | messages written as version, type, size in network order, transaction id and body, sent back to back, are recovered one by one, and of one that has not arrived in full every byte stays in the buffer |
| `StreamReassembly.BreaksAtMessage` | ofagent/of_connection.py:42-82 | a message of unknown version breaks the connection once its header is there and one that does not parse once it is there in full, after all messages before it were received |
| `StreamReassembly.Connection.DataReceived` | ofagent/of_connection.py:42-82 | the loop over the offset enqueues and keeps exactly what parsing says |
| `MessageQueue.RunKeepsOrder` | common/utils/message_queue.py:32-87 | over every run no waiting predicate accepts a queued object, and the queue is in put order |
| `MessageQueue.RunConserves` | common/utils/message_queue.py:32-87 | over every run the put objects are the queued, the delivered and the reset ones, with multiplicity |
| `MessageQueue.QueueCorrectness` | common/utils/message_queue.py:32-87 | both, and no object is delivered twice, and without a reset nothing is lost |
| `MessageQueue.EachGetFiresOnce` | common/utils/message_queue.py:52-87 | over every run a get fires at most once, and never while it still waits |
| `MessageQueue.RunServesAsAsked` | common/utils/message_queue.py:52-87 | over every run a get receives only an object that its own predicate accepts |
| `MessageQueue.FirstAccepting` | common/utils/message_queue.py:58-63 | the waiter that has waited longest among those that accept, or none accepts |
| `MessageQueue.FirstAccepted` | common/utils/message_queue.py:77-81 | the earliest queued object that is accepted, or none is |
| `MessageQueue.Queue.DoPut` | common/utils/message_queue.py:52-68 | the loop over waiters has the effect of the specification's put and calls the longest waiting get that accepts the object, or none |
| `MessageQueue.Queue.DoGet` | common/utils/message_queue.py:70-87 | the loop over the queue has the effect of the specification's get and yields the earliest object that the predicate accepts, or waits |
| `MessageQueue.Queue.DoReset` | common/utils/message_queue.py:32-40 | everything waiting and queued is given up |
| `Igmp.EncodeFloat` | voltha/extensions/IGMP.py:148-159 | the shifting loop returns the largest code that stands for no more than the value |
| `Igmp.DecodeStrict` | voltha/extensions/IGMP.py:162-167 | larger codes stand for longer times |
| `Igmp.GaloisConnection` | voltha/extensions/IGMP.py:148-167 | a code is at most the code of a value if and only if it stands for at most the value |
| `Igmp.EncodeMonotone` | voltha/extensions/IGMP.py:148-159 | longer times have no smaller codes |
| `Igmp.RoundTrip` | voltha/extensions/IGMP.py:148-167 | every code survives decoding and encoding |
| `Igmp.RelativeError` | voltha/extensions/IGMP.py:148-167 | below saturation less than a sixteenth of the value is lost |
| `SwaggerDefinitions.MakeObjectLoop` | chameleon/protoc_plugins/swagger_template.py:207-226 | the loop over fields yields the properties and the union of the references, and raises exactly when a field does |
| `SwaggerDefinitions.PropertyShape` | chameleon/protoc_plugins/swagger_template.py:229-294 | a field that is no map becomes an array if and only if it is repeated, of what it would be alone; a map becomes an object of its value's property and is never an array; groups and unknown types raise |
| `SwaggerDefinitions.ObjectIsMade` | chameleon/protoc_plugins/swagger_template.py:207-226 | an object raises if and only if one of its fields does |
| `SwaggerDefinitions.ObjectProperties` | chameleon/protoc_plugins/swagger_template.py:213-218 | an object's properties are those of its fields by name, the last of a name counting |
| `SwaggerDefinitions.ObjectRefersTo` | chameleon/protoc_plugins/swagger_template.py:213-218 | an object refers to what its fields refer to |
| `SwaggerDefinitions.DefinitionShape` | chameleon/protoc_plugins/swagger_template.py:175-205 | an enumeration is defined by all its values and raises without any; a message by its fields |
| `SwaggerDefinitions.ReachedIsLeast` | chameleon/protoc_plugins/swagger_template.py:155-170 | what is reachable is in every set that contains the roots and is closed under references |
| `SwaggerDefinitions.Worklist` | chameleon/protoc_plugins/swagger_template.py:155-170 | terminates on any reference graph, cyclic or not; the keys are exactly the reachable types, each made once; a failure names a reachable type that cannot be made |
| `SwaggerDefinitions.GenerateDefinitions` | chameleon/protoc_plugins/swagger_template.py:155-226 | the keys are exactly the types reachable through the references that definitions return, each defined once, or it fails at a reachable type that cannot be defined; and every reference in the document is defined if and only if what reachable types point to from inside their maps is reachable |
| `SwaggerDefinitions.ObjectReferences` | chameleon/protoc_plugins/swagger_template.py:207-294 | an object's reference set covers what its properties point to outside of maps |
| `SwaggerDefinitions.DanglingCondition` | chameleon/protoc_plugins/swagger_template.py:229-294 | in the document generated for some roots all references are defined if and only if those inside maps lead to types reachable for another reason |
| `SwaggerDefinitions.MapValueDangles` | chameleon/protoc_plugins/swagger_template.py:235-252 | a type table and a root for which the document refers to a type that is not reachable and so not defined |

## Left out

- Matching on UDP_DST (it reads a misspelt attribute) and on fields the simulator does not implement:
  both raise, and the forwarding theorems are about rules without them. Loop freedom covers them.
- Unicast tables are of the forms the controller application uses: goto flows tag with the ONU's own
  VLAN, output flows match on it, and downstream output flows set VLAN 0. Pairs of flows with arbitrary
  actions are covered by `LogicalSwitch.UpstreamPair` under the premise that their rules are selected.
- Table ids and goto targets: decomposition ignores them, and the logical switch is taken to have two
  tables, with goto, group and controller-bound flows in the first and output flows in the second.
- Multicast theorems ask every bucket to be a pop and an output to a subscriber, since the OLT pops
  whether or not the bucket says so; the comparison with the logical flows is for single-tagged frames.
- PonSim.PonSimulator.DeviceIngress: nesting is bounded by a parameter, as the interpreter bounds
  recursion; `LoopFreedom.IngressTerminates` shows that two levels suffice for decomposed tables.
- SwaggerDefinitions.GenerateDefinitions: only names, references and enumerations of a definition are
  kept, not descriptions.
- Flow ids are the key fields themselves instead of their md5 hash; counters other than in adds,
  timeouts, durations, oxm_class and match-type assertions are not modelled.
- Devices' group tables: decomposition never produces groups, so they stay empty.
- Stored groups have distinct ids, as every run from an empty table keeps them; the handlers' detour
  through a dictionary is then the identity.
- Invalidation of the cached tables, port additions and removals, packet-in and packet-out: the
  topology of a run is fixed.
- networkx, the hash ring, the loxi parser and scapy's parsing are parameters with the properties
  used here; key/value operations and configuration updates are single steps.
- Cancelled gets and callbacks that call back into the message queue; overlapping reassignment runs.
- The search for free ids and the creation of logical devices in voltha/core/adapter_agent.py, which
  would only add a counting loop.
- Flow modification, deletion by a non-empty match and flow-removed messages raise in the original;
  they are modelled as raising and no more.
- gRPC, Twisted, Consul, Kafka, NETCONF, the CLI, the worker, the coordinator and the event bus.
