# neutron-bsdbridge, modelled and proved in Dafny

neutron-bsdbridge runs OpenStack Neutron networking on FreeBSD. Three agents each compare a
desired state with the kernel and change what differs. This project models them, the parts of
the kernel they drive, and proves what their passes achieve, over every input, every reading
of the kernel, every failure of a command and every interleaving with RPC handlers.

## The planes

**L2.** `Model` is the desired document; `KernelModel` is the kernel as a state machine
(interfaces with an owned bit, bridge membership, static MAC entries, pf anchors with rules and
tables) with one step per typed op. `Planner` is `diff` as functions; `Diffing` is the same
planner as the source writes it, appending to a `Plan` object, proved to compute them.
`Writing` is the writer with its receipts; `Reconciling` reads the kernel, plans and applies.
A run takes an outcome for every op, so "whatever fails" is a quantifier over outcomes.
`Realization` says without mentioning the planner when the kernel is as the document wants it.
`PlanFields` and `Awaiting` say in fields of the document and the kernel what is claimed, created,
noted and raised; `WithoutPf` is the planner without a reading of pf.

**Port policy.** `PortConfig` flattens security groups into numbered filters and assembles the
document; `Pf` renders an anchor as a rule list. `PfSemantics` gives such a list its first-match
meaning on packets, and `Anchors` says what any filter and binding come to. `Policies` states the
security groups in Neutron's own terms (direction, ethertype, protocol, ports, remote) beside the
driver's infrastructure rules and source lock, and names the two ways an anchor differs from them:
what pf cannot express, and what a rule without a protocol admits of the other family. It reads
nothing but the fields of ports and rules, and spells protocols and port numbers out. `Segments`
says which ports share a bridge and by which uplink, `PortFields` what a port's name and stanza are,
`BuildErrors` when a build fails, and `PortClaims` when a built document claims names once.

**The L2 agent.** `Candidates` is the agent's state and one pass, with whatever the handlers do
at each yield point as a parameter; `AgentLoop` is the agent object. `Replies` says what a pass does
with the entries of a details reply, and what a pass needs to succeed.

**The jail plane.** `JailPlane` is a second kernel: VNET jails, epairs with peers, addresses,
routes, pf. `Plumbing` and `Acting` are jail.py as functions of a log of receipts, with the object
whose methods compute them; `PortPlane` sees to the ports of both agents. `Routing` is the L3 pass
and `RouterMoves` passes in a row; `Dnsmasq` is the DHCP pass with its processes and files, and
`NetworkMoves` runs of passes and deaths; `SettledPlane` and `ProvidedNetwork` say what a good pass
leaves in fields of routers, ports and networks; `Crossings` is what both agents' runs leave of
interfaces; `Forgetting` is the DHCP pass when commands fail. `MovedBack` and `DhcpExamples` are
concrete runs in which a property fails.

## What the theorems rest on

L2 theorems about passes assume `Ready`: names are claimed once and never for a bridge, bound
members are typed (for built documents, exactly when `PortClaims.DistinctExactlyWhenUncrossed`
says), bridges are not members of bridges, an interface is in at most one bridge, only current
members carry a static entry, vlan trunks exist and are not owned, claimed names are not bridges
and sit in no foreign bridge, and the planner has no conflict to raise. `Home` adds that a claimed
owned interface sits in the bridge that claims it or in none. A view is any `Reads`, partial or
whole. A pf hash is the rule list it is taken over, so hashes are equal exactly when rule lists are.

Theorems about which ports share a bridge assume `Segments.Proper` (a network type has no slash, a
network id has dashes, as UUIDs do) and that the first twelve digits of the digests tell the keys of
the ports at hand apart; otherwise a segmentation id can be spelled like a network id
(`Segments.AnIdLikeANumberCollides`).

L3 and DHCP theorems assume that desired names are distinct, that a port's addresses have one
prefix length each and a router's destinations one nexthop, and `Kin`: where both ends of a desired
epair are there, they are each other's and the host end is in the group. Nothing is asked of the
half-states a pass finds of the epairs it wants. `Plumbing.KinExactlyUnlessMispaired` says exactly
when a call that fails in part loses this, and `HalvesGo` excludes it for a whole pass: destroying
an end of a desired epair does not fail of itself, while everything else may, the destroys of
garbage collection included.

Over runs of passes the condition is exact. `Crossings.RunKinExactly` reads it off the first plane
and the lists wanted: every pass finds its names kin if and only if no two names cross, which takes
an interface that lies under a name some later pass wants and that no pass in between removes.
`RouterMoves.EveryPassSettlesExactly` and `NetworkMoves.EveryPassProvidesUncrossed` are the runs of
the two agents under it. `RouterMoves.Fit` is a simpler condition that suffices for L3: no jail end
of a port of the run is stale but those that the first pass wants; `Dnsmasq.Fit` asks that the
names of every network of the run are `Kin` at the start and that no port changes its network. An
L3 run is a sequence of planes related by what `Routing.Reconcile` promises of a fault-free pass;
`RouterMoves.Live` runs the passes and shows that this is what it gets.

## What the code does that its comments do not say

- A displaced interface is attached to its new bridge and destroyed in the same pass, because
  neither `early_destroys` nor the unwanted-bridge loop looks at `desired_ifaces`. One pass
  realizes a document exactly when no typed member or vlan uplink is displaced
  (`Displacement.OnePassRealizesExactly`); two passes always do.
- "Load policy, then member" is an order of ops, not a dependency: when the load fails, the
  member is attached all the same (`Policy.FailedLoadsStillAttach`).
- A port deleted while a pass runs becomes a candidate again when the reply still spoke of it
  (`Quiet.DeletedPortsComeBack`; `Quiet.ADeletedPortComesBack` is such a pass).
- The fast retry need not end: service devices dropped at the miss limit are found again by the
  next scan. `Quiet.FlagExactly` says when the flag is up, from the counts to begin with; any
  unresolvable service device raises it again within sixty passes (`Quiet.RetriesRecur`), and six
  of them ten misses apart keep it up for ever (`Quiet.NeverQuiet` is such a run).
- When destroying a broken epair half fails, the new pair can leave two unrelated interfaces under
  the two names, and no later pass notices. `Plumbing.Mispairs` is exactly when, for the host half
  and for the jail half.
- A stale jail end is repaired only by a pass that wants its port in that jail while the port's
  host name is free. If a pass takes the port to another router first, the later pass that takes it
  back finds both names there, unrelated, and keeps them for good (jail.py:98, 108); so it goes from
  gateway to interface and back. `RouterMoves.NextPassExactly` is exactly when, told from the first
  plane and the two lists, and `MovedBack.MovedBackPortIsCrossed` is such a run.
- Replacing a network's dhcp port makes a fault-free pass report a failure: the old jail end is
  destroyed as a broken half, its host end goes with it, stays in the local set, and is destroyed
  again in vain by garbage collection (jail.py:108-110, 171-172). `Dnsmasq.ReceiptsTellReplacedPorts`
  and `Routing.Settles` say exactly which fault-free passes have a failed receipt, and
  `DhcpExamples.ReplacedPortFailsAReceipt` is one.
- A DHCP pass that fails between writing a network's files and telling its dnsmasq forgets that
  they changed; so does one that stores a new command line and can neither stop the old dnsmasq nor
  start a new one. `Forgetting.HonestExactlyUnlessForgotten` is exactly when, and
  `Forgetting.ForgottenForGood` shows that later passes do nothing about it;
  `DhcpExamples.FailedReloadIsForgotten` is such a run.
- A security-group rule without a protocol has no address family once flattened, so an IPv4 one
  admits IPv6 packets too and the other way round (`Compiler.AnyRulePassesBothFamilies`). IPv6
  members of a remote group, IPv6 rules other than ICMPv6, protocols given by number or unknown to
  the table, and ICMPv6 in an IPv4 rule admit nothing. `Compiler.FlattenedAgainstPolicy` puts the two together.
- A kept address whose prefix length changes is lost for one pass, since dropping the old entry
  removes the address just added (`PortPlane.DoneExactlyWhenKept`).
- The dangling-reference checks can fire on a built document, but only for a rule prefix spelled
  like a table reference (`Assembly.DanglesExactlyWhenStray`, with `Assembly.AStrayPrefixDangles`); Neutron validates
  prefixes as CIDRs.

## Model

| member | source | states |
|---|---|---|
| Diffing.Diff | src/neutron_bsdbridge/l2_agent/plan.py:231-387 | the planner that appends ops and notes to a plan, phase by phase, with all its early exits, computes the functional plan or the first error; what that plan holds and raises the rows below say in terms of document and kernel |
| Awaiting.NotesExactly | src/neutron_bsdbridge/l2_agent/plan.py:291-335 | a name is noted as awaited in a bridge if and only if the kernel lacks it and the bridge wants it of other hands: attached hardware, or the trunk of a flat network |
| PlanFields.ClaimsExactly | src/neutron_bsdbridge/l2_agent/plan.py:163-182 | what a bridge claims is its members, the trunk of its flat network, or the trunk, a dot and the vlan id in digits |
| PlanFields.CreatedTapsAreDescribed | src/neutron_bsdbridge/l2_agent/plan.py:276-285 | a tap is created only for a typed member the kernel lacks, with the description of that member |
| PlanFields.ErrorNamesAConflict | src/neutron_bsdbridge/l2_agent/plan.py:237-275 | an error names a conflict of the first stanza that has one, and the kind it names is the kind of conflict the kernel or the name has |
| PlanFields.StaticLockExactly | src/neutron_bsdbridge/ifconfig.py:66-71 | the lock read of a member is its first static entry in the bridge's addresses, and none if it has only learned ones |
| WithoutPf.PlannedWithoutPf | src/neutron_bsdbridge/l2_agent/plan.py:205-228 | without a reading of the anchors a plan is the one for a kernel without anchors, but that an anchor is loaded only where its interface is attached |
| Diffing.Plan.DestroyOnce | src/neutron_bsdbridge/l2_agent/plan.py:339-347 | queues a flush of a loaded anchor and a destroy the first time a name is given, nothing afterwards |
| Diffing.PfOpsFor | src/neutron_bsdbridge/l2_agent/plan.py:205-228 | no policy gives nothing; an anchor that is absent or has another hash gives one load; a current one gives a replace per drifted table |
| Model.ParentOfVlanName | src/neutron_bsdbridge/l2_agent/plan.py:196-200 | the parent recovered from a vlan name is the trunk it was derived from, whatever dots the trunk has |
| PlanShape.GcMembers | src/neutron_bsdbridge/l2_agent/plan.py:336-361 | every queued name is destroyed exactly once and by the op of its kind, with a flush exactly when its anchor is loaded |
| PlanShape.FlushBeforeDestroy | src/neutron_bsdbridge/l2_agent/plan.py:342-347 | the op right before the destroy of an interface with a loaded anchor is the flush of that anchor |
| PlanContents.RemovesAre | src/neutron_bsdbridge/l2_agent/plan.py:327-377 | a removal is planned exactly for an unclaimed member of an owned bridge, an early flush exactly for a loaded anchor without policy that no eviction flushes |
| PlanContents.DestroysAre | src/neutron_bsdbridge/l2_agent/plan.py:336-385 | destroyed are exactly the owned interfaces that are unclaimed or in a bridge that does not claim them, and the owned bridges the document lacks; no op is there twice |
| Convergence.PlanIsExecutable | src/neutron_bsdbridge/l2_agent/plan.py:152-155 | the kernel accepts every op of a plan in the state the ops before it leave |
| Convergence.OnePassConverges | src/neutron_bsdbridge/l2_agent/plan.py:231-387 | from home, one fault-free pass realizes the document, whatever else the kernel holds |
| Convergence.TwoPassesConverge | src/neutron_bsdbridge/l2_agent/plan.py:327-361 | from anywhere, two fault-free passes realize the document |
| Failures.ThirdPlanIsEmpty | src/neutron_bsdbridge/l2_agent/plan.py:231-387 | from anywhere, the first two plans raise nothing and after them the third is empty |
| Displacement.OnePassRealizesExactly | src/neutron_bsdbridge/l2_agent/plan.py:327-361 | one fault-free pass realizes the document if and only if no typed member or vlan uplink is owned and in another bridge than its own |
| Displacement.MovedTapIsLost | src/neutron_bsdbridge/l2_agent/plan.py:349-361 | a concrete pass: a tap whose port moved to another segment is attached there and destroyed |
| Fixpoint.EmptyIffRealized | tests/test_plan.py:65-72 | a plan raises nothing and is empty if and only if the kernel realizes the document, for every kernel and view |
| Fixpoint.ErrorIffConflict | src/neutron_bsdbridge/l2_agent/plan.py:242-275 | the planner raises exactly when a desired bridge name is taken by something else, a typed member exists unowned, or a vlan name is too long |
| Parking.HeldPassRealizes | src/neutron_bsdbridge/l2_agent/writer.py:168-192 | a pass from home whose only setbacks are held destroys realizes the document but for exactly those |
| Parking.HeldDestroysAreRetried | src/neutron_bsdbridge/l2_agent/writer.py:168-192 | the next plan is exactly the held destroys, each once |
| Failures.ForeignThingsSurvive | src/neutron_bsdbridge/l2_agent/plan.py:242-253 | at every prefix of every run, whatever fails, unowned interfaces are there unchanged and the members of unowned bridges stay the ones they were, unless themselves owned |
| Failures.ForeignThingsAreNotNamed | src/neutron_bsdbridge/l2_agent/plan.py:327-358 | no op names a foreign bridge or destroys a foreign interface; an unclaimed one is at most removed from an owned bridge |
| Failures.FailuresAreTolerated | src/neutron_bsdbridge/l2_agent/writer.py:204-206 | whatever fails and wherever the run is cut off, the kernel is still one that plans without error, and what was at home still is |
| Failures.FaultyPassThenConverges | src/neutron_bsdbridge/l2_agent/writer.py:204-206 | one fault-free pass after any failed pass from home plans without error and realizes the document |
| Policy.PlanLoadsFirst | src/neutron_bsdbridge/l2_agent/plan.py:276-300 | in a whole plan, a member whose ruleset is not loaded is attached only after its load |
| Policy.RulesetExactly | src/neutron_bsdbridge/l2_agent/plan.py:276-304 | at every point of every run from home, a policied member carries its ruleset exactly when it did at the start or a load of it has worked since |
| Policy.PolicyBeforeMembership | src/neutron_bsdbridge/l2_agent/plan.py:276-304 | unless a load of it failed, a member attached by the pass already carries its ruleset, at every point of the run; a right ruleset is never lost |
| Policy.FailedLoadsStillAttach | src/neutron_bsdbridge/l2_agent/writer.py:152-166 | if only loads fail, every existing policied member is attached when the pass ends, with its ruleset exactly if it had it or its own load worked |
| PartialView.PartialViewLosesNothing | src/neutron_bsdbridge/l2_agent/reconcile.py:12-73 | any two faithful readings of one kernel, partial or whole, give the same error or the same ops as a multiset |
| Reconciling.ReadInterfaces | src/neutron_bsdbridge/ifconfig.py:193-221 | reading the owned interfaces, the named ones and the members of what was read is a faithful reading |
| Reconciling.NamesToCheck | src/neutron_bsdbridge/l2_agent/reconcile.py:12-19 | every claimed name is asked about, or an uplink name is too long |
| Reconciling.Reconcile | src/neutron_bsdbridge/l2_agent/reconcile.py:60-73 | a pass fails without touching the kernel exactly on a conflict, and otherwise runs the plan of a faithful reading with one receipt per op |
| Writing.Writer.Apply | src/neutron_bsdbridge/l2_agent/writer.py:108-202 | what one op does to the kernel and what its receipt says, for each outcome of its command; a destroy of something unowned is refused, of something absent a success |
| Writing.Writer.ApplyPlan | src/neutron_bsdbridge/l2_agent/writer.py:204-206 | every op is tried in order whatever became of the others |
| Reporting.ReceiptMeans | src/neutron_bsdbridge/l2_agent/writer.py:108-202 | an ok receipt means that the aim of its op is reached in the kernel, a parked one that an owned interface held its destroy, a failed one that nothing changed and the command failed or was refused |
| Pf.Render | src/neutron_bsdbridge/l2_agent/pf.py:77-107 | the anchor's rule list: lock, both directions in numeric order, deny tail |
| Anchors.AnchorDecides | src/neutron_bsdbridge/l2_agent/pf.py:30-107 | any member's anchor decides any packet: a bound member's DHCP broadcast passes, what it sends under another IPv4 address is blocked, and of the rest passes what the lowest numbered rule of that direction that speaks of it passes, all told from the filter and the binding |
| Incremental.IncrementalEqualsFull | src/neutron_bsdbridge/l2_agent/plan.py:219-228 | on an anchor with the wanted hash, the table ops leave the same kernel as a full load, but for tables absent in one and empty in the other |
| Incremental.TrafficCannotTell | src/neutron_bsdbridge/l2_agent/plan.py:219-228 | every packet is decided alike by the patched and the reloaded anchor |
| PortConfig.GroupSet.RemoteOf | src/neutron_bsdbridge/l2_agent/port_config.py:43-51 | a prefix wins over a group; only a group that is used is noted |
| PortConfig.SgRulesForPort | src/neutron_bsdbridge/l2_agent/port_config.py:54-106 | the two numbered tables of a port's kept rules, and the groups they name; what these admit, Compiler.FlattenedAgainstPolicy says in the rules' own fields |
| PortConfig.Build | src/neutron_bsdbridge/l2_agent/port_config.py:123-205 | the loop over ports builds the document, or the error its validation raises; which ports share a bridge, the rows below say |
| Segments.SameKeyExactly | src/neutron_bsdbridge/names.py:10-19 | two ports have one segment key if and only if they are on one segment: the same vlan of a physical network, the same flat network, or else the same segmentation id or, without one, the same network |
| Segments.BridgesAreSegments | src/neutron_bsdbridge/l2_agent/port_config.py:132-188 | members of a built document are in one bridge if and only if their ports are on one segment |
| Segments.UplinkIsTheSegments | src/neutron_bsdbridge/l2_agent/port_config.py:146-163 | the uplink of a port's bridge is the one its segment is reached by, told from the port and the mappings, and none where the mappings have none |
| Segments.VlanIsSpelled | src/neutron_bsdbridge/l2_agent/plan.py:163-182 | a vlan uplink is spelled as its trunk, a dot and digits that stand for the vlan id |
| BuildErrors.BadFieldExactly | src/neutron_bsdbridge/l2_agent/port_config.py:123-205 | a build fails for a field if and only if a trunk name does not fit, the segment that a bridge gets has no vlan or physical network that exists, or a rule that reaches a filter has no proper port range, all told from ports and rules |
| BuildErrors.AddressTables | src/neutron_bsdbridge/l2_agent/model.py:257-258 | every built bridge has room for 2000 addresses |
| PortFields.MemberFields | src/neutron_bsdbridge/l2_agent/port_config.py:132-188 | name, hands, description, filter and bound address of a port's stanza, told from its owner, id, security and fixed addresses |
| PortFields.InterfaceNames | src/neutron_bsdbridge/names.py:22-44 | interface names fit the kernel and tell the kinds apart; two ports share a name of a kind if and only if their ids begin alike |
| PortFields.NamesAsSpelled | src/neutron_bsdbridge/names.py:22-59 | interfaces, jail ends, filters and tables are named as servers, hypervisors and agents spell them: a prefix and the first characters of the id |
| PortFields.SecuredExactly | src/neutron_bsdbridge/l2_agent/port_config.py:165-172 | a port gets a filter if and only if its security is not switched off and it belongs to no agent |
| PortFields.JailNames | src/neutron_bsdbridge/names.py:47-54 | the jail of a UUID is named after its first twelve hexadecimal digits |
| PortFields.PassAttachesPorts | src/neutron_bsdbridge/l2_agent/port_config.py:132-188 | after one fault-free pass from home a port's interface is in its bridge, has an anchor if and only if the port is secured, and its MAC in the static entry when bound |
| SgOrder.SortForgetsOrder | src/neutron_bsdbridge/l2_agent/port_config.py:97-104 | the canonical order of rule bodies depends only on the multiset of bodies |
| SgOrder.ItemsInjective | src/neutron_bsdbridge/l2_agent/port_config.py:97-104 | the sort key, items with text ranked after numbers, tells any two bodies apart |
| Compiler.InfraNumbersAreFree | src/neutron_bsdbridge/l2_agent/port_config.py:97-120 | security-group rule numbers never meet the infra numbers and come after all of them |
| Compiler.NumberedInOrder | src/neutron_bsdbridge/l2_agent/port_config.py:97-104 | the rules of a direction are numbered 100, 110 and so on, in their order |
| Compiler.ProtocolsAreMeant | src/neutron_bsdbridge/l2_agent/port_config.py:10-17 | what a protocol name is taken for is what the name says, literally, and the names taken are exactly these |
| Compiler.KeptExactly | src/neutron_bsdbridge/l2_agent/port_config.py:63-81 | a rule is kept if and only if its protocol is a known name and it is not an IPv6 rule of another protocol than ICMPv6 |
| Compiler.RulesGovern | src/neutron_bsdbridge/l2_agent/port_config.py:56-61 | the rules of a port are exactly those of the groups its device entry lists |
| Compiler.BindExactly | src/neutron_bsdbridge/l2_agent/port_config.py:181-187 | a port is bound to an address if and only if it is the first of its fixed addresses that has no colon, and the port has a MAC |
| Compiler.RenderedRuleMeans | src/neutron_bsdbridge/l2_agent/pf.py:30-61 | a kept security-group rule, flattened, rendered and flipped, matches exactly the packets that Neutron's rule admits and pf can express, and those of the other family that it admits for want of a protocol or as ICMPv6 |
| Compiler.FlattenedAgainstPolicy | src/neutron_bsdbridge/l2_agent/port_config.py:72-120 | what a port's anchor passes is the policy in Neutron's terms, less packets only inexpressible rules admit, plus packets a protocol-less rule of the other ethertype admits; this equals what the flattened rules say |
| Compiler.AnyRulePassesBothFamilies | src/neutron_bsdbridge/l2_agent/port_config.py:72-95 | a rule without protocol, ports or remote lets through both families, whichever its ethertype |
| Compiler.TableMeans | src/neutron_bsdbridge/l2_agent/port_config.py:54-120 | a direction's numbered table matches a packet exactly when infra or a kept rule of that direction, flattened, admits it |
| Compiler.AnchorMeansPolicy | src/neutron_bsdbridge/l2_agent/pf.py:77-107 | a secured port's anchor decides every packet: it passes the DHCP client broadcast (section 4.1 of RFC 2131), what survives the source lock and an infra rule or a group's rule admits as far as pf can express it, and what protocol-less rules admit of the other family, and blocks the rest |
| Canonical.OrderDoesNotMatter | src/neutron_bsdbridge/l2_agent/port_config.py:54-106 | the same rules in any order give the same filter, rule lines and hash |
| Canonical.PermutationsKeepTheFilter | src/neutron_bsdbridge/l2_agent/port_config.py:54-106 | permuting a port's group list and the rules inside any group changes nothing |
| Assembly.FilterTables | src/neutron_bsdbridge/l2_agent/pf.py:64-74 | a built filter refers to exactly the tables its port's kept rules name |
| Assembly.DanglesExactlyWhenStray | src/neutron_bsdbridge/l2_agent/model.py:357-380 | the dangling-reference checks fire on a built document if and only if a surviving filter's rule has a prefix spelled as a reference to a table no group has, even where truncated names collide |
| Assembly.AStrayPrefixDangles | src/neutron_bsdbridge/l2_agent/model.py:357-380 | a concrete port whose built document fails its own reference checks |
| Assembly.BuildCloses | src/neutron_bsdbridge/l2_agent/port_config.py:123-205 | with CIDR prefixes every physnet, filter and table a built document names it defines, and `wanted_tables` is total |
| Assembly.PortIsMember | src/neutron_bsdbridge/l2_agent/port_config.py:128-188 | a port whose name no later port takes is a member of its segment's bridge with its own stanza |
| Assembly.FilterOfPort | src/neutron_bsdbridge/l2_agent/port_config.py:171-180 | the last secured port with a filter name gives the filter |
| Assembly.TableOfGroup | src/neutron_bsdbridge/l2_agent/port_config.py:190-193 | a group whose table name is its own has its own addresses there |
| Assembly.BoundMembersAreTyped | src/neutron_bsdbridge/l2_agent/port_config.py:165-188 | a built document binds typed members only |
| PortClaims.ClaimsAre | src/neutron_bsdbridge/l2_agent/port_config.py:128-188 | a bridge of a built document claims exactly its ports' interfaces and the uplink of its last port that has one |
| PortClaims.DistinctExactlyWhenUncrossed | src/neutron_bsdbridge/l2_agent/port_config.py:128-188 | a built document claims every name once if and only if no port brings a bridge's name, ports that bring one name share a bridge, and no uplink is a port's interface |
| Enforcement.DocumentMeansPolicy | src/neutron_bsdbridge/l2_agent/port_config.py:123-205 | the anchor a built document asks for decides every packet as the port's groups say in Neutron's terms, with the same two exact exceptions |
| Enforcement.PassEnforcesPolicy | src/neutron_bsdbridge/l2_agent/reconcile.py:60-73 | after one fault-free pass from home, a secured port sits in its segment's bridge and the kernel passes a packet that meets no established state exactly when the port's policy does, with the same two exact exceptions |
| Reporting.StepAsTold | src/neutron_bsdbridge/l2_agent/writer.py:137-202 | a receipt that is ok although the command failed leaves the kernel as success would have |
| Reporting.CleanReceiptsRealize | src/neutron_bsdbridge/l2_agent/agent.py:227-241 | a pass from home without a failed receipt realizes the document but for parked destroys, and no claimed interface is gone |
| Reporting.UpMeansAttached | src/neutron_bsdbridge/l2_agent/agent.py:221-270 | every device such a pass reports up has its tap or epair in its segment's bridge, with its policy in force when secured |
| Awaiting.UpExactly | src/neutron_bsdbridge/l2_agent/agent.py:245-257 | a resolved device is reported up if and only if none of its three names is wanted of other hands and missing from the kernel |
| Awaiting.PresentMeansUp | src/neutron_bsdbridge/l2_agent/agent.py:245-257 | so a resolved device whose interface names the kernel has is among the devices up |
| AgentLoop.Agent.TakeReply | src/neutron_bsdbridge/l2_agent/agent.py:186-213 | resolved and pending devices, counts and drops after a details reply, as the rows below say of its entries and failures |
| Replies.ReplyTells | src/neutron_bsdbridge/l2_agent/agent.py:186-213 | of a device that a reply speaks of once: an entry with its port id resolves it and forgets its misses; an entry without one that names it, or a place among the failed, counts one more miss and keeps it pending, or drops it at the sixtieth |
| Replies.SpeakingOnceAnswersOnce | src/neutron_bsdbridge/l2_agent/agent.py:201-213 | a reply that speaks of every queried device once, and of no other, answers each once, so the counting theorems below apply; its misses are those entries and failures |
| Replies.AnsweredStays | src/neutron_bsdbridge/l2_agent/agent.py:186-277 | however a successful pass was interrupted, a device it asked about that was resolved, or missed short of the limit, is a candidate still |
| Replies.UnmentionedGoes | src/neutron_bsdbridge/l2_agent/agent.py:272-277 | and one the reply does not speak of is a candidate no more |
| Replies.MissIsCounted | src/neutron_bsdbridge/l2_agent/agent.py:186-199 | in an undisturbed pass a miss raises the count by one and the flag during the first ten, and drops the device at the limit |
| Replies.BindInFlight | src/neutron_bsdbridge/l2_agent/agent.py:200-210 | a concrete pass: a port whose bind is in flight stays a candidate with one miss and the flag up |
| Replies.SucceedsExactly | src/neutron_bsdbridge/l2_agent/agent.py:179-271 | a pass succeeds if and only if no call it needs raises: details when it has candidates, groups when it got details, the report when a device is up or one was |
| AgentLoop.Agent.DoSync | src/neutron_bsdbridge/l2_agent/agent.py:179-279 | one pass with handlers running at every yield point computes the functional pass, success or failure; Replies.SucceedsExactly and Replies.AnsweredStays say what that pass does |
| AgentLoop.Agent.SyncIfNeeded | src/neutron_bsdbridge/l2_agent/agent.py:281-303 | nothing unless dirty or forced; a failed pass leaves the flag up and backs off |
| Candidates.AfterAllIs | src/neutron_bsdbridge/l2_agent/agent.py:140-177 | after any handlers a port is a candidate exactly when announced and not deleted since, or a candidate before and never deleted |
| Candidates.UpIsWhatWasReported | src/neutron_bsdbridge/l2_agent/agent.py:245-270 | after a pass that succeeds the devices up are exactly those the reply resolved and no note keeps waiting; one that fails changes none and counts one more failure |
| Candidates.BackoffGrows | src/neutron_bsdbridge/l2_agent/agent.py:299-303 | the wait after failures in a row never shrinks, from two seconds to thirty |
| Candidates.NoLostAnnouncement | src/neutron_bsdbridge/l2_agent/agent.py:179-303 | over every interleaving and failure, a port announced after the snapshot, not in it and not deleted since is a candidate with the flag up when the pass ends |
| Retries.CountsStayGood | src/neutron_bsdbridge/l2_agent/agent.py:186-213 | with uninterrupted passes and each device answered once, miss counts stay in 1 to 59, on candidates only, for ever |
| Retries.DroppedAtTheLimit | src/neutron_bsdbridge/l2_agent/agent.py:186-199 | an unresolvable device outside the service groups has a count equal to its misses, is dropped by the 60th pass in a row and stays out until announced |
| Quiet.SteadyFlag | src/neutron_bsdbridge/l2_agent/agent.py:278-279 | after an undisturbed pass the flag is up exactly when some device is in its first ten misses |
| Quiet.FlagExactly | src/neutron_bsdbridge/l2_agent/agent.py:179-279 | after any number of undisturbed passes the flag is up exactly when some unresolvable service device is, modulo sixty, in its first ten misses, or some other unresolvable candidate is, both told from the counts to begin with |
| Quiet.QuietAfterEleven | src/neutron_bsdbridge/l2_agent/agent.py:272-279 | undisturbed, from the eleventh pass on the flag is up exactly when a service device retries; with none unresolvable the agent is quiet |
| Quiet.RetriesRecur | src/neutron_bsdbridge/l2_agent/agent.py:179-199 | some service device retries within every sixty passes if and only if one cannot be resolved |
| Quiet.SixServicePortsAreNeverQuiet | src/neutron_bsdbridge/l2_agent/agent.py:179-199 | six unresolvable service devices ten misses apart keep the flag up after every pass |
| Quiet.NeverQuiet | src/neutron_bsdbridge/l2_agent/agent.py:179-279 | a concrete state and undisturbed run of any length after which the flag is up |
| Quiet.DeletedPortsComeBack | src/neutron_bsdbridge/l2_agent/agent.py:272-277 | a port deleted since the snapshot is a candidate after a successful pass exactly if the reply resolved it or missed it short of the limit; after a failed pass it is not |
| Quiet.ADeletedPortComesBack | src/neutron_bsdbridge/l2_agent/agent.py:272-277 | a concrete pass that succeeds and makes a port deleted meanwhile a candidate again |
| JailPlane.EffectSound | tests/jail_fake.py:24-131 | every command keeps peers matched, pair numbers fresh, groups on host ends and interfaces in existing jails |
| Plumbing.MadeHalves | src/neutron_bsdbridge/jail.py:113-135 | however making an epair goes, its two ends are each other's; which names they got to is said exactly by what failed |
| Plumbing.EnsuredUp | src/neutron_bsdbridge/jail.py:90-136 | from every half-state a fault-free call leaves the epair up, described and in the group, without a failed receipt, and keeps the addresses of a whole epair only |
| Plumbing.KinExactlyUnlessMispaired | src/neutron_bsdbridge/jail.py:98-135 | whatever fails, the two names are each other's ends afterwards if and only if no destroy of a half fails where the steps that would put the new epair under the free name work |
| Plumbing.EnsuredOther | src/neutron_bsdbridge/jail.py:90-136 | whatever fails, every other named interface is as it was, but for the other end of a half that is destroyed, which is gone |
| Plumbing.EnsuredSpares | src/neutron_bsdbridge/jail.py:90-136 | whatever fails, a whole kin epair of other names is untouched and one that lacks an end still does |
| Plumbing.FailedRepairMispairs | src/neutron_bsdbridge/jail.py:98-135 | if only the destroy of a broken host half fails, both names end up on ends of different epairs, and every later call leaves them so |
| Plumbing.FailedInnerRepairMispairs | src/neutron_bsdbridge/jail.py:108-135 | so they do if only the destroy of a broken jail half fails |
| Plumbing.CrossedStays | src/neutron_bsdbridge/jail.py:90-136 | no call, whatever works, uncrosses the names |
| Acting.Actions.EnsureEpair | src/neutron_bsdbridge/jail.py:90-136 | the commands in order, the jail end as last read, and the local set of host interfaces |
| Acting.Actions.EnsureAddrs | src/neutron_bsdbridge/jail.py:139-161 | the MAC, the missing addresses in order and the stale ones sorted, one command each, as a function of the reading |
| Acting.AddrsSetIs | src/neutron_bsdbridge/jail.py:139-161 | with no faults the MAC and the wanted addresses but for those that had another prefix length, without a failed receipt; nothing is run without drift |
| Acting.AddedLessStale | src/neutron_bsdbridge/jail.py:147-161 | adding what is missing and dropping what is stale leaves the wanted addresses less those whose prefix length changed |
| Acting.Actions.Collect | src/neutron_bsdbridge/jail.py:164-174 | processes, epairs and jails in sorted order, one command each, as a function of the two sets |
| Acting.TornIs | src/neutron_bsdbridge/jail.py:164-174 | with no faults exactly these interfaces are gone: the host interfaces to destroy, their other ends, and what is in the jails to remove; a receipt fails exactly when an interface to destroy was gone already; other jails are as they were whatever fails |
| Acting.TornSpares | src/neutron_bsdbridge/jail.py:164-174 | whatever fails, teardown spares the kin epairs of other hosts and jails |
| PortPlane.PortKin | src/neutron_bsdbridge/jail.py:90-161 | whatever fails, seeing to a port keeps its ends kin if and only if its epair is not mispaired |
| PortPlane.TourStep | src/neutron_bsdbridge/jail.py:90-161 | with no faults, each port in turn becomes as it should, later ones are spared, and of all other named interfaces exactly those whose peer had a name of a port seen to are gone |
| PortPlane.TourEnds | src/neutron_bsdbridge/jail.py:90-174 | after all ports, teardown leaves exactly the desired host interfaces in the group, of all other named interfaces exactly the remainder computed from the plane before, and a failed receipt if and only if an undesired one had its peer under a desired name |
| PortPlane.KinStep | src/neutron_bsdbridge/jail.py:90-136 | whatever else fails, if ends of desired epairs can be destroyed all desired ends stay kin |
| PortPlane.DoneExactlyWhenKept | src/neutron_bsdbridge/jail.py:139-161 | every port is done after a pass if and only if no kept address changed its prefix length |
| Routing.SyncRoutes | src/neutron_bsdbridge/l3_agent/reconcile.py:72-86 | with one nexthop per destination the jail's routes become exactly the wanted ones; right routes cost no command |
| Routing.OneRouter | src/neutron_bsdbridge/l3_agent/reconcile.py:42-99 | one router's jail, ports, routes and pf are as desired without a failed receipt; whatever fails, the other routers' jails and directories are untouched, a router whose jail cannot be made is passed over, and the routes of one that lacks a port are left as they were |
| PortPlane.AllPresentMeans | src/neutron_bsdbridge/l3_agent/reconcile.py:56-73 | routes are synced only when every port had its jail end once it was seen to |
| Routing.Reconcile | src/neutron_bsdbridge/l3_agent/reconcile.py:36-119 | from any half-states a fault-free pass settles the plane if and only if no kept address changed its prefix length, its receipts are all ok if and only if no undesired interface had its peer under a desired name, a settled plane is left without a receipt, and failures leave a plane a later pass settles; what settled means in the router's fields, the rows below say |
| SettledPlane.SettledRoutes | src/neutron_bsdbridge/l3_agent/router.py:149-155 | in a settled plane a jail has exactly the routes of its router, among them the default through a gateway that has an address |
| SettledPlane.SettledPort | src/neutron_bsdbridge/l3_agent/router.py:138-146 | in a settled plane each port has its epair with the description the L2 agent looks for, its MAC, and exactly its addresses, on the gateway the floating ones too, each with prefix 32 |
| Crossings.KinExactlyUnlessCrossing | src/neutron_bsdbridge/jail.py:90-174 | after a fault-free pass two names are kin, for whichever pass comes next, if and only if they are not both there under different epairs, which the plane before the pass and what it wanted decide |
| Crossings.RunKinExactly | src/neutron_bsdbridge/jail.py:90-174 | over every run of fault-free passes, all passes find their names kin if and only if no two names cross, told from the first plane and what the passes want |
| RouterMoves.NextPassExactly | src/neutron_bsdbridge/l3_agent/reconcile.py:36-119 | after a fault-free pass the names of the next list are kin if and only if none crosses, told from the first plane and the two lists |
| MovedBack.MovedBackPortIsCrossed | src/neutron_bsdbridge/jail.py:98-111 | a concrete run: a port goes to another router and back, a stale jail end waits for it, and its two names stay on unrelated interfaces whatever a later call does |
| RouterMoves.FitStays | src/neutron_bsdbridge/l3_agent/reconcile.py:36-119 | a fault-free pass over a plane without stale jail ends, but for those of the ports it wants, leaves none for any pass to come, also when ports move between routers or from gateway to interface |
| RouterMoves.EveryPassSettlesExactly | src/neutron_bsdbridge/l3_agent/reconcile.py:36-119 | over every run of fault-free passes, all find their names kin if and only if none cross, told from the first plane and the lists, and then each settles the plane but for changed prefix lengths |
| RouterMoves.EveryPassSettles | src/neutron_bsdbridge/l3_agent/reconcile.py:36-119 | every pass of a run settles when nothing stale lies under its names but half-states of ports the first pass wants |
| RouterMoves.Live | src/neutron_bsdbridge/l3_agent/reconcile.py:36-119 | passes run one after another, each with its own runner, follow one another as Reconcile promises and all settle when no names cross |
| Dnsmasq.ServedInForce | src/neutron_bsdbridge/dhcp_agent/reconcile.py:54-79 | restart, HUP or nothing: the desired configuration is in force, the process is kept when the command line is, and no other network is touched |
| Dnsmasq.WritesAreNoted | src/neutron_bsdbridge/dhcp_agent/reconcile.py:21-31 | a receipt tells of each file whose text the pass changes, and of no other |
| Dnsmasq.DeathsAreHonest | src/neutron_bsdbridge/dhcp_agent/reconcile.py:62-72 | whichever dnsmasq die between passes, a live one still runs the stored command line with the files as they are |
| Dnsmasq.RetiredInForce | src/neutron_bsdbridge/dhcp_agent/reconcile.py:81-97 | garbage collection leaves every desired configuration in force and no other directory |
| Dnsmasq.DhcpHost.Reconcile | src/neutron_bsdbridge/dhcp_agent/reconcile.py:15-99 | the pass over kernel, files, pid files and processes computes the functional pass, whatever fails |
| Dnsmasq.PassProvides | src/neutron_bsdbridge/dhcp_agent/reconcile.py:15-99 | from any half-states a fault-free pass over an honest plane leaves exactly the desired networks, each with its jail, epair and configuration in force, and its receipts are all ok if and only if no undesired interface had its peer under a desired name |
| ProvidedNetwork.NetworkHas | src/neutron_bsdbridge/dhcp_agent/reconcile.py:33-52 | each network a pass provides has its epair with the description the L2 agent looks for, its port's MAC, and its addresses but for those that had another prefix length |
| Dnsmasq.PassKin | src/neutron_bsdbridge/dhcp_agent/reconcile.py:33-88 | whatever else fails, if ends of desired epairs can be destroyed a later pass can provide the networks |
| Dnsmasq.PassQuiet | src/neutron_bsdbridge/dhcp_agent/reconcile.py:15-99 | a plane at rest is left alone, without a command or a receipt |
| Dnsmasq.ReceiptsTellReplacedPorts | src/neutron_bsdbridge/dhcp_agent/reconcile.py:33-88 | after a pass that provided some networks, the next one's receipts are all ok if and only if no network it keeps has had its port replaced |
| Dnsmasq.PassFits | src/neutron_bsdbridge/dhcp_agent/reconcile.py:15-99 | a fault-free pass leaves a plane fit for every pass to come, also when ports are replaced |
| Dnsmasq.EveryPassProvides | src/neutron_bsdbridge/dhcp_agent/reconcile.py:15-99 | over every run of fault-free passes, each with networks of its own, and of deaths in between, a live dnsmasq always runs the stored command line with the files as they are, and each pass ends with exactly its networks provided |
| NetworkMoves.NextPassExactly | src/neutron_bsdbridge/dhcp_agent/reconcile.py:15-99 | after a fault-free pass over an honest plane the names of the next list are kin if and only if none crosses |
| NetworkMoves.EveryPassProvidesUncrossed | src/neutron_bsdbridge/dhcp_agent/reconcile.py:15-99 | over every run of fault-free passes and deaths, all passes find their names kin if and only if none cross, told from the first plane and the lists, and then each provides what it wants and every dnsmasq is honest |
| DhcpExamples.ReplacedPortFailsAReceipt | src/neutron_bsdbridge/dhcp_agent/reconcile.py:33-88 | a concrete pair of fault-free passes, the second of which provides its network and reports a failure |
| DhcpExamples.FailedReloadIsForgotten | src/neutron_bsdbridge/dhcp_agent/reconcile.py:54-79 | a concrete network whose reload fails: what it runs is not what is stored, whatever later passes do |
| Forgetting.HonestExactlyUnlessForgotten | src/neutron_bsdbridge/dhcp_agent/reconcile.py:21-79 | whatever fails, a live dnsmasq agrees with what is stored if and only if the pass got as far as telling it, or had nothing to tell |
| Forgetting.ForgottenForGood | src/neutron_bsdbridge/dhcp_agent/reconcile.py:54-79 | what was forgotten of a network is never put right by later passes over the same network |
| Forgetting.PassHonestExactly | src/neutron_bsdbridge/dhcp_agent/reconcile.py:15-99 | whatever fails, every live dnsmasq agrees with what is stored after a pass if and only if nothing was forgotten of a network whose jail is still there |
| Forgetting.UndesiredProcessesGo | src/neutron_bsdbridge/jail.py:164-174 | whatever else fails, if killing works no process outlives the pass in a jail that is not wanted, even where the jail itself does |

## Left out

- vxlan segments: the document builder never makes them and peer drift is not compared.
- Interface descriptions of taps: set on creation, never compared.
- Subprocess execution, argv spelling, ifconfig and pfctl text: a command is an op with an effect; parsed views are inputs.
- SHA-256, uuid5 and the 12-digit digest of a bridge name: hashes stand for what they are taken over, the digest is a parameter.
- LockMemberMac is one atomic op: the planner looks only at the static entry.
- Killing pf states after a load or flush: no planner decision reads states.
- Enforcement.PassEnforcesPolicy: rules keep state, and a packet of an established connection passes by its state; what is decided here is a packet that meets none.
- Compiler.FlattenedAgainstPolicy: protocols by number are read as Neutron does for TCP, UDP and the two ICMPs; of other protocols a name and a number are not known to be the same.
- Negative rule numbers and ports, MAC syntax and the type checks of `from_tree`: rule numbers and port bounds are naturals, MACs are opaque strings.
- Port values on icmp or protocol-less rules: whether pf accepts them is outside this repository; the packet semantics matches ports of any protocol.
- Address and CIDR matching: a parameter of the packet semantics.
- Reconciling.NamesToCheck: an uplink name that is too long is raised before any other conflict is looked for, so which of several errors is raised first differs from the planner's own order.
- The device file, the devd socket, state reports and the seconds slept: the delay is computed, the rest is not modelled; a failing device file is a pass that fails after applying.
- Quiet.FlagExactly: is for passes in which nothing happens and each device is answered once; what handlers and failures do to the flag is in Candidates.AfterAllIs and AgentLoop.Agent.SyncIfNeeded.
- Routing.Reconcile: under failures promises that desired ends stay kin only if ends of desired epairs can be destroyed, because Plumbing.KinExactlyUnlessMispaired shows that they do not otherwise; every other command may fail.
- Reconciling.Reconcile: readings never fail; a listing of anchors that fails yields an empty list in the source.
- JailPlane.EffectSound: an address is dropped by its value, as FreeBSD does, where tests/jail_fake.py drops the exact address and prefix length; that an address with a new prefix length is lost for one pass rests on this.
- Policy.PolicyBeforeMembership: speaks of rulesets; the tables of an anchor that is only patched may follow.
- Routes that vanish with an interface, and whether a nexthop is reachable: a route is added when its destination has none.
- The `up` flag and loopback of jails: never compared after creation.
- Ends of epairs that return to the host with a removed jail: the plane no longer follows them.
- JailPlane readings: listing jails, groups, routes and pf always succeeds.
- Dnsmasq.EveryPassProvides: is for fault-free passes, because Forgetting.ForgottenForGood shows that a failure can leave a network out of force for good; process ids are not reused and SIGTERM takes effect at once.
- dnsmasq and pf.conf text, router specs from RPC dictionaries: the rendered texts and specs are inputs.
- The ML2 mechanism driver and the agents' RPC clients.
