# LadderAirport: a verified model of the control plane

LadderAirport is a Panel that compiles proxy chains and route plans into one route table per node,
rolls them out to a fleet of Agents, and drives leased queues of work; each Agent runs the box, the
FRPS service and the log stream of its node. This project models that logic in Dafny and proves
what it is for. `dafny verify dfyconfig.toml` checks everything.

Objects whose methods update fields are classes, loops are methods with invariants, and each such
method is proved equal to a specification function or relation; the lemmas are about those. Steps
that race are state machines over their atomic actions. A call into another process, the database
or a provider is a parameter that says whether it succeeds, fails without effect or fails after its
effect; a crash is one more outcome where a stored row is replayed.

* **Route compiler** - `Text`, `Fleet`, `ChainStore`, `Converter`, `LocalPorts`, `NodeConfig` are the
  rows and the code; `ForwardingTable` gives tables their meaning (first matching rule, then
  direct); `ChainTables`, `FrpListeners`, `NodeTables`, `HopDecisions`, `NodeDecisions` say what a built
  table decides; `HopDial`, `FrpProxies`, `ListenerRows` read what is dialled and what listens off the
  rows; `StageOutcomes`, `BuildOutcomes` say when a node builds; `FleetRouting` follows connections
  across the fleet by the labels of the tables and `HopDelivery` by address; `RouteOrder` and
  `TagCollisions` say what the hypothesis of distinct inbound tags is for; `FleetExample`,
  `DeliveryExample` and `CollisionExample` build fleets with and without what the theorems ask for.
* **Rollout** - `RolloutPlan`, `RolloutOrder`, `RolloutFleets`, `Rollout`, `RolloutSafety`, `RolloutExample`.
* **Agent runtimes** - `BoxConfig`, `BoxRuntime`, `Traffic`, `FrpsRuntime`, `FrpsCalls`.
* **Queues and staged state** - `AutomationJobs`, `AgentCommands`, `CommandDelivery`,
  `CommandWakeup`, `CertificateIssue`, `AcmeOrder`, `AcmeOutcomes`, `AcmeNames`.
* **Reconcilers** - `NodeFrps`, `UplinkSync`, `UplinkRuns`, `UplinkRecord`, `DnsZone`, `DnsReconcile`,
  `DnsConvergence`, `DnsOutcomes`, `DnsService`.
* **Logs and small algorithms** - `LogBuffer`, `LogStream`, `LineWriter`, `PortMappings`, `Semver`.

Every lemma carries `{:induction false}`: no proof rests on automatic induction.

## What turned out to be false of the code

Each item names the exact condition under which the code does what is wanted, and an input for
which it does not.

* Inbound tags are not unique, because ids are cut to eight characters. A relay hop follows its own
  chain exactly when no earlier relay hop of its node has its tag (`TagCollisions.RelayFollowsChainIff`);
  otherwise a connection can circle for ever (`CollisionExample.LoopExists`). The parser of the embedded
  sing-box (v1.12.22) is not part of this model: if it refuses documents with two equal inbound tags,
  the Agent's apply is refused, the document before goes on running (`BoxRuntime.ApplyContract`), and
  the loop cannot form; the same lemma shows that at least one of its two tables is such a document.
* A chain through an inbound pinned to loopback builds, and breaks at that hop: a hop dialled by its
  rows is reached exactly when its inbound is exposed through FRP or listens elsewhere
  (`HopDelivery.HopReachedIff`, `DeliveryExample.PinnedHopSilent`).
* Two FRP clients whose registered names differ can be refused for sharing one: exactly when joining
  host, port, user and name by colons gives the same text (`StageOutcomes.RelocateIff`, `FrpProxies.NamesConfused`).
* A rollback goes on after a failed re-apply, so the changed hops need not be a suffix any more: they
  are exactly when no node was taken back after one that kept something new to it
  (`RolloutFleets.UndoneCutIff`, `RolloutExample.HalfRollback`).
* `Disable` takes nothing back when its last store write fails. The Agents are then in step with the
  store exactly where the chain makes no difference to what they build (the `Unrecorded` clause of
  `Rollout.Service.Disable`, `RolloutExample.UnrecordedDisable`).
* A failed clean-up of an unselected DNS record is made up for exactly when the old value is still
  the target (`DnsConvergence.FailedDeleteForgotten`): the failed run stores the new target in its place.
  The created flag, raised before the write, is true exactly when the write took effect
  (`FlagBeforeWrite`), and deleting a managed domain leaves nothing behind exactly when there was no
  created alias (`CleanupCompleteIff`).
* A validation record is left in the zone exactly when its write was reported failed but took effect,
  or taking it down did not reach the zone (`AcmeOrder.ChallengeSpec`, `LateWriteStrands`); one that the
  operator had put up with the same value is lost (`DnsZone.TextRoundTripIff`).
* A pull-mode node whose hashes agree need not run the wanted document. It is on record exactly when
  no other was accepted over the live channel since the last confirmed apply
  (`UplinkRecord.RecordedIff`, `PushExample`). The replies of Start and Stop are dropped, so a round
  succeeds although the box did not start: the node then runs exactly if the box ran when asked or the
  start took (`UplinkSync.StateReached`, `UplinkRecord.RefusedStart`, `DownSticks`). Removing the FRPS
  configuration only clears a hash and leaves no service running exactly when none was
  (`UplinkRuns.RemovalOnlyForgets`).
* The log stream misses a matching line, although its comment says it cannot, exactly when one was
  left out of the tail and another was in it (`LogStream.NothingMissedIff`, `GapExample`).
* Job fencing goes by name. A nameless finish revives a finished job exactly when its target has no
  active one (`AutomationJobs.NamelessRevives`); a late finish is accepted exactly when the next worker has
  the same name (`LateFinishIff`).
* With more than one poll of a node, a wakeup is lost exactly when a lease leaves commands behind a
  waiting poll (`CommandWakeup.NextCovered`, `TwoPollsLoseOne`).
* A node with a bound certificate can be built exactly while its status is active or deploying, not
  while a renewal waits for its retry (`CertificateIssue.RenewalBlocksBuilds`, `RenewalExample`).
* The comparison of pre-releases is not that of section 11 of Semantic Versioning 2.0.0: it takes
  signed numerals for numbers and numbers above 64 bits for words. Where that changes the order is
  stated exactly (`Semver.PartAgreesIff`, `ListsAgreeIff`), with an input each (`SignedMisplaced`,
  `OversizedMisplaced`).

## Model

| member | source | states |
|---|---|---|
| Text.NumberedKeyInjective | panel/internal/converter/converter.go:71-71 | listener keys `address:port` are equal only when both parts are, whatever colons the address holds |
| ChainStore.ValidateHops | panel/internal/store/store.go:2588-2616 | accepts exactly chains of 2 to 8 complete hops on distinct nodes, numbering and trimming every hop in place |
| ChainStore.CreateSpec | panel/internal/store/store.go:2618-2723 | a chain is appended, switched off, exactly if it is well formed, its id is new, and every hop is on a known node and an enabled inbound that neither the node itself nor another chain uses there |
| ChainStore.UpdateSpec | panel/internal/store/store.go:2725-2763 | the row with the id is replaced and no other, exactly if it is stored, the new chain is well formed, and its hops are free of all chains but the one replaced |
| ChainStore.DeleteSpec | panel/internal/store/store.go:2887-2907 | the row is taken out and the others stay in order, exactly if it is stored and switched off |
| ChainStore.AttachSpec | panel/internal/store/store.go:1477-1526 | a node's own inbounds become exactly those given, and those of other nodes stay, exactly if the node and every inbound exist and none of them is a hop of the node |
| ChainStore.EveryRunSound | panel/internal/store/store.go:2618-2760 | after any creates, updates, deletes and attachments: chains well formed with distinct ids, and each (node, inbound) pair owned by one hop or by the node, never both |
| Converter.ConvertDocument | panel/internal/converter/converter.go:50-147 | the loops over enabled inbounds and routes produce the specified document or the first error |
| Converter.EntriesMatchInbounds | panel/internal/converter/converter.go:61-78 | the i-th enabled inbound owns the i-th entry; no two entries share a listener; conversion fails otherwise |
| Converter.ConvertedTable | panel/internal/converter/converter.go:91-133 | outbound tags are distinct, chain rules precede plan rules, every emitted rule names an outbound that exists |
| LocalPorts.AllocateLocalPort | panel/internal/nodeconfig/builder.go:198-210 | the probing loop finds the first free candidate |
| LocalPorts.AllocateSpec | panel/internal/nodeconfig/builder.go:198-210 | the port lies in 49152..65535 and is free; allocation fails exactly when all 16384 are used |
| NodeConfig.CollectHops | panel/internal/nodeconfig/builder.go:55-96 | the nested chain loop gathers the node's hop inbounds and relay routes, or the first error; what a relay dials is `HopDial.EndpointIff`, and when the loop goes through `BuildOutcomes.CollectIff` |
| NodeConfig.GlobalRouteRules | panel/internal/nodeconfig/builder.go:217-255 | the rule loop resolves the plans as seen from this node |
| NodeConfig.OverlayManagedTls | panel/internal/nodeconfig/builder.go:280-295 | managed certificates are overlaid inbound by inbound, or the first one not ready fails the build (`NodeConfig.ManagedTlsIff`) |
| NodeConfig.ManagedTlsIff | panel/internal/nodeconfig/builder.go:280-295 | the overlay succeeds exactly when no inbound has a managed certificate that is not ready; every inbound then names its managed certificate and is otherwise what it was, and else the first one not ready is reported |
| NodeConfig.RelocateFrpListeners | panel/internal/nodeconfig/builder.go:118-187 | the loop over enabled inbounds moves the FRP ones and collects their clients, or stops at the first refusal (`FrpProxies.ProxiesSpec`) |
| NodeConfig.BuildWithChains | panel/internal/nodeconfig/builder.go:39-196 | a build is the composition of these stages, including every error path; when it succeeds is `BuildOutcomes.BuildIff`, what it holds `ListenerRows.BuiltListens`, `BuildOutcomes.BuiltOutbounds` and `NodeDecisions.BuiltDecides` |
| HopDial.EndpointIff | panel/internal/nodeconfig/builder.go:473-533 | read off the rows of the hop at the position alone: the server is the first non-blank of its dial address, the FRPS host, the managed hostname, the public address and the address of its node; the port is its dial port, else the FRP remote port, else the public port of the inbound on that node; resolving fails exactly when there is no such server or port or the rows are unusable |
| FrpProxies.ProxiesSpec | panel/internal/nodeconfig/builder.go:118-187 | with distinct tags, the FRP clients are exactly those of the FRP inbounds, each forwarding its remote port to the port its listener was moved to, and no two have the same remote port or name at one FRPS; a relocation is refused only for a reason found in the rows or when half the local port range is wanted |
| FrpProxies.NamesConfused | panel/internal/nodeconfig/builder.go:162-166 | two clients of one FRPS whose user and name differ are refused as one, because the check joins user and name by a colon |
| ListenerRows.BuiltListens | panel/internal/nodeconfig/builder.go:39-196 | with distinct tags, a built node has a listener for every enabled row assigned to it, its own inbounds and those of its hops, and none besides: with the tag and the certificate of the row, at the address and port of the row or, for FRP, on loopback behind the client of its tag |
| ListenerRows.CertificatesReady | panel/internal/nodeconfig/builder.go:280-295 | a node to which a row with a managed certificate that is not ready is assigned does not build |
| ListenerRows.BuiltApart | panel/internal/nodeconfig/builder.go:152-166 | two FRP rows of a built node ask their FRPS for different ports and different names |
| BuildOutcomes.BuiltOutbounds | panel/internal/nodeconfig/builder.go:56-96 | the outbounds of a built node are "direct", bound to the interface of the node, and one for each relay hop in chain and hop order, to the very address and port at which the next hop is dialled |
| BuildOutcomes.BuildIff | panel/internal/nodeconfig/builder.go:39-196 | a node builds exactly when its rows allow it: hops on enabled, unshared inbounds whose next hops can be dialled and rendered, certificates ready, convertible rows that listen apart, relay names of their own, FRP settings that fit and do not clash; the one other refusal takes as many rows as half the local port range |
| FrpListeners.BuiltListeners | panel/internal/nodeconfig/builder.go:118-187 | in every successful build all listeners are distinct and every FRP listener is a local port in range that nothing else uses |
| ChainTables.AddChainsExplained | panel/internal/nodeconfig/builder.go:56-96 | the collected inbounds and routes are exactly those of the node's hops on enabled chains |
| NodeTables.BuiltTable | panel/internal/nodeconfig/builder.go:39-196 | what a built document holds: one leading rule per relay hop, hop inbounds tagged, plan rules after |
| HopDecisions.RelayDecision | panel/internal/nodeconfig/builder.go:56-96 | traffic on a relay hop's inbound goes to the next hop of its own chain, whatever the plans say |
| HopDecisions.PlanRuleCompiles | panel/internal/nodeconfig/builder.go:217-278 | a compiled plan rule has the rule's meaning at this node: into the chain, leave at its exit, reject, or not emitted |
| NodeDecisions.CompiledPlanDecides | panel/internal/nodeconfig/builder.go:217-255 | the compiled plan part decides as the first applying rule of the plans does |
| NodeDecisions.TransitDecision | panel/internal/converter/converter.go:91-133 | traffic on any other inbound is decided by the plans alone |
| NodeDecisions.BuiltDecides | panel/internal/nodeconfig/builder.go:39-196 | with distinct tags, the built table means: relay hops follow their chain, everything else the plans |
| FleetRouting.ChainDelivers | panel/internal/nodeconfig/builder.go:56-96 | traffic on hop i of an enabled chain visits hops i+1, i+2, ... in order, whatever the plans say |
| FleetRouting.RuleAtExit | panel/internal/nodeconfig/builder.go:261-278 | a rule that sends traffic into a chain applies at the chain's exit too and means "leave" there |
| FleetRouting.TransitSettles | panel/internal/nodeconfig/builder.go:217-278 | the selected rule index strictly decreases from one chain exit to the next, so traffic leaves |
| FleetRouting.EveryConnectionSettles | panel/internal/nodeconfig/builder.go:217-278 | every connection leaves the fleet or is rejected after at most 7(R+1)+1 decisions, R the number of plan rules |
| HopDelivery.HopReachedIff | panel/internal/nodeconfig/builder.go:473-533 | a hop dialled by its rows is reached, at the address and port its predecessor dials, by the listener of its own inbound exactly when that inbound is exposed through FRP or not pinned to loopback |
| HopDelivery.WalkByAddress | panel/internal/nodeconfig/builder.go:39-196 | in a built fleet, on a network that brings a connection to a listener answering at its address, every connection takes by address and port the very steps that the labels of the tables say |
| HopDelivery.DeliveredByAddress | panel/internal/nodeconfig/builder.go:56-96 | traffic on hop i of an enabled chain is brought by the addresses its relays dial to the listeners of hops i+1, i+2, ... in order |
| HopDelivery.SettlesByAddress | panel/internal/nodeconfig/builder.go:217-278 | every connection that goes where it is dialled leaves the fleet or is rejected after at most 7(R+1)+1 decisions |
| FleetExample.FleetExists | panel/internal/nodeconfig/builder.go:39-196 | two nodes, a chain and a proxy rule into it build and meet every hypothesis of the fleet theorems; the rule sends matching traffic into the chain at its entry and out at its exit |
| DeliveryExample.AddressedFleet | panel/internal/nodeconfig/builder.go:39-196 | two nodes and a network meet every hypothesis of delivery by address |
| DeliveryExample.PinnedHopSilent | panel/internal/nodeconfig/builder.go:473-533 | a chain through an inbound pinned to loopback builds on both nodes, and the exit does not answer where the entry dials it |
| TagCollisions.RelayFollowsChainIff | panel/internal/converter/converter.go:647-670 | whatever the tags, traffic of a relay hop follows its own chain exactly when no relay hop of the node before it, in the order of chains and hops, has the same tag |
| TagCollisions.LongIdsCollide | panel/internal/converter/converter.go:661-667 | equal names and equal first eight id characters give equal tags, for ids as long as UUIDs |
| TagCollisions.CollidingTagsLoop | panel/internal/converter/converter.go:91-133 | two crossing chains whose relay hops share tags with earlier hops keep a connection circling for ever |
| RouteOrder.BuiltRoutes | panel/internal/nodeconfig/builder.go:56-96 | the k-th route of a build is that of the k-th relay hop of the node in chain and hop order |
| CollisionExample.LoopExists | panel/internal/converter/converter.go:647-670 | concrete rows with UUID ids build on both nodes and keep every connection circling; at least one of the two tables repeats an inbound tag |
| RolloutPlan.CollectEffectiveChains | panel/internal/proxychain/service.go:203-230 | the loop returns the enabled chains with the candidate put in place, appended or left out |
| RolloutPlan.CommittedDeploy | panel/internal/proxychain/service.go:116-168 | planning with the candidate in place is planning from the store after the commit |
| RolloutPlan.CommittedDisable | panel/internal/proxychain/service.go:170-201 | the same for disabling |
| RolloutPlan.BuildRelevant | panel/internal/nodeconfig/builder.go:39-196 | a node's configuration depends only on the chains through it and the targets of plan rules on it |
| RolloutPlan.OffChainUnchanged | panel/internal/proxychain/service.go:232-279 | a node on neither the old nor the new hops builds the same before and after |
| RolloutOrder.OrderForDeploy | panel/internal/proxychain/service.go:259-286 | the loops produce the deploy order |
| RolloutOrder.OrderForDisable | panel/internal/proxychain/service.go:259-286 | the loops produce the disable order |
| RolloutOrder.DeployOrderShape | panel/internal/proxychain/service.go:259-277 | each node once: the candidate's hops from exit to entry, then the nodes only the current chain uses |
| RolloutOrder.DisableOrderShape | panel/internal/proxychain/service.go:259-277 | the current hops from entry to exit, each once |
| Rollout.Service.ApplyOrdered | panel/internal/proxychain/service.go:316-356 | stops at the first node whose row cannot be read or whose call fails; exactly the push nodes before it are changed, in order, to their planned configurations, and their rows where the write succeeds |
| Rollout.Service.Rollback | panel/internal/proxychain/service.go:358-384 | re-applies old configurations in reverse and goes on after a failure; it succeeds exactly when every re-apply does, and the fleet and its whole history are those of the turns that succeeded |
| Rollout.Service.PlanConfigs | panel/internal/proxychain/service.go:232-279 | old and new configuration of exactly the nodes on the old or new hops, and the order; it fails exactly when one of them does not build |
| Rollout.Service.Deploy | panel/internal/proxychain/service.go:116-168 | how it ends is decided by what its calls say, node by node. Done: the row with the id is enabled and has the requested hops and name, or the stored ones where none were requested, no other row changes, every push node on the old or requested hops runs what these rows build, and every other node that was in step still does; failed and restored: chains unchanged and every agent that was in step is again; every fleet on the way, of any run, is one of changes in order and some taken back, and a cut of the order unless a re-apply failed; node rows carry the new configuration of exactly the changed nodes whose write succeeded |
| Rollout.DeployReplaces | panel/internal/proxychain/service.go:116-168 | a completed deployment in terms of the request and the rows: exactly the requested row is replaced, keeping stored hops or name only where the request has none, and the push nodes on the requested hops run what the enabled rows build |
| Rollout.Service.Disable | panel/internal/proxychain/service.go:170-201 | the same for disabling; if the last store write fails, exactly the push nodes on the chain run what they build without it, in step with the store exactly where that is no different |
| Rollout.RollbackRestores | panel/internal/proxychain/service.go:358-384 | taking every change back leaves each agent that was in step exactly as it was |
| RolloutSafety.DeployChangesSuffix | panel/internal/proxychain/service.go:259-277 | in a fleet cut from the deploy order, a changed hop has only changed push hops after it |
| RolloutSafety.DisableChangesPrefix | panel/internal/proxychain/service.go:259-277 | in a fleet cut from the disable order, a changed hop has only changed push hops before it |
| RolloutSafety.DeployKeepsChainWhole | panel/internal/proxychain/service.go:316-356 | in a fleet cut from the deploy order, traffic on a changed hop reaches the exit of the new chain |
| RolloutSafety.DisableKeepsChainWhole | panel/internal/proxychain/service.go:316-356 | in a fleet cut from the disable order, traffic on an unchanged hop reaches the exit of the old chain |
| RolloutSafety.EveryDeployFleet | panel/internal/proxychain/service.go:316-384 | every fleet in the history of a deploy whose re-applies succeed: changed hops are a suffix of those pushed to, and each carries its traffic to the exit of the new chain |
| RolloutSafety.EveryDisableFleet | panel/internal/proxychain/service.go:316-384 | every fleet in the history of a disable whose re-applies succeed: changed hops are a prefix, and every other hop carries its traffic to the exit of the old chain |
| RolloutFleets.UndoneCutIff | panel/internal/proxychain/service.go:358-384 | whatever re-applies fail, the fleet is still a cut of the order exactly when no node whose builds differ was taken back after one that kept a configuration new to it |
| RolloutFleets.OrderlyCut | panel/internal/proxychain/service.go:358-384 | a rollback none of whose re-applies failed passes through cuts only |
| RolloutExample.HalfRollback | panel/internal/proxychain/service.go:358-384 | a rollback whose first re-apply fails leaves the entry sending into an exit that no longer serves the hop; the fleet is no cut |
| RolloutExample.UnrecordedDisable | panel/internal/proxychain/service.go:170-201 | a disable whose last store write fails leaves both agents of a chain out of step with the store; `UnrecordedDisableExists` gives such a fleet |
| BoxConfig.PrepareConfig | agent/internal/control/runtime_box.go:368-432 | rejects exactly malformed text; otherwise the document has DNS servers, keeps everything `PrepareKeeps` says, and preparing it again gives it back |
| BoxConfig.PrepareIdempotent | agent/internal/control/runtime_box.go:368-432 | preparing a prepared document changes nothing, so a restore runs the same document |
| BoxConfig.PrepareKeeps | agent/internal/control/runtime_box.go:368-432 | a document keeps its own DNS servers and gets the default ones only if it has none; on Android its entries and its route lose the interface they name and nothing else; every other member is untouched |
| BoxConfig.SanitizeAndroidConfig | agent/internal/control/runtime_box_sanitize.go:19-80 | the key-deleting loops produce the sanitized document and report a change exactly when it differs |
| BoxConfig.SanitizeIdempotent | agent/internal/control/runtime_box_sanitize.go:19-80 | sanitizing twice is sanitizing once |
| BoxRuntime.Box.Apply | agent/internal/control/runtime_box.go:83-146 | at most one box open, no byte lost; reply, document, error shown, totals saved and applied document written are exactly what `ApplySettles` says |
| BoxRuntime.Box.Start | agent/internal/control/runtime_box.go:253-271 | runs exactly the remembered document and hash, or nothing because the box did not start; leaves a running box and an empty memory alone |
| BoxRuntime.Box.Stop | agent/internal/control/runtime_box.go:273-279 | no box is left open, its traffic is in the total and saved if there is a data directory, and document, hash and everything else stay |
| BoxRuntime.ApplyContract | agent/internal/control/runtime_box.go:83-146 | refused changes touch only the error; otherwise the new document runs, or exactly the previous document and hash run again, or nothing runs and the failed starts account for it |
| BoxRuntime.ApplySettles | agent/internal/control/runtime_box.go:83-146 | the reply follows from the document, the one on record and the start attempts, and with it every field: which box runs what, the error shown, the totals saved, the applied document written |
| BoxRuntime.RecordAfter | agent/internal/control/runtime_box.go:83-279 | a call puts a new document and hash on record exactly if it is an accepted apply |
| BoxRuntime.StartRunsIff | agent/internal/control/runtime_box.go:253-271 | after a start the box runs exactly if it ran before, or has a document on record and this attempt succeeds |
| BoxRuntime.EveryRunSound | agent/internal/control/runtime_box.go:83-279 | over every sequence of applies, starts and stops at most one box is ever open, the state says running exactly while one is, and traffic is conserved |
| Traffic.EveryRunSound | agent/internal/control/runtime_box.go:149-167 | under every interleaving of counting, rolling up, saving, reporting and restarting, no more is counted than was relayed, and the total never falls while the process lives |
| Traffic.AnswersNeverDecrease | agent/internal/control/runtime_box.go:295-304 | two reported totals of one process are in order |
| Traffic.Conservation | agent/internal/control/runtime_box.go:470-516 | bytes relayed are exactly the total, plus what each tracker counted after its roll-up, plus what this process did not load |
| Traffic.FromTheFirst | agent/internal/control/runtime_box.go:470-516 | from the first process on no total exceeds what was relayed, and until a restart exactly the late bytes are missing |
| Traffic.StopThenRestart | agent/internal/control/runtime_box.go:273-279 | an orderly stop and restart lose nothing |
| Traffic.Tracker.Close | agent/internal/control/traffic_tracker.go:71-90 | however often a connection is closed, it counts once; the active count is the number still open |
| FrpsRuntime.EveryInterleavingSound | agent/internal/frpsruntime/runtime.go:71-244 | under every interleaving of calls, critical sections and exits: running exactly while a service is installed, at most one active, and a failed apply leaves the previous enabled configuration in service or none; which of the two is `FrpsCalls.ApplyRunsThrough` |
| FrpsRuntime.ExitIsolated | agent/internal/frpsruntime/runtime.go:127-185 | the exit of an old service touches no field of a newer one |
| FrpsCalls.ApplyRunsThrough | agent/internal/frpsruntime/runtime.go:72-124 | an apply run through step by step with nothing in between: a first launch that fails leaves a service exactly if the configuration before was enabled, with a hash, and starts again, and that service has its configuration and hash; record, service and reply are those of the whole call `NodeFrps.ApplyFrps` |
| FrpsCalls.StartAndStopRunThrough | agent/internal/frpsruntime/runtime.go:187-244 | a start and a stop run through do what the whole calls do |
| AutomationJobs.JobStore.EnqueueJob | panel/internal/store/automation.go:33-66 | returns the one active job of the target, new only if there was none, and then pending, first due at the time asked for or now; earlier rows are untouched and the invariant is kept |
| AutomationJobs.JobStore.ForceEnqueueJob | panel/internal/store/automation.go:68-132 | returns an active job of the target that is under a live lease or due at once; rows of other targets are untouched and the invariant is kept |
| AutomationJobs.JobStore.ClaimJobs | panel/internal/store/automation.go:200-272 | hands out and leases exactly the candidates, one attempt more each, to the worker and for the time asked for; the guard repeated on each update never skips one |
| AutomationJobs.JobStore.FinishJob | panel/internal/store/automation.go:274-295 | changes only a row held under that id and name, to the given state, message and next run and without owner, and is refused exactly when there is none; the invariant is kept |
| AutomationJobs.CandidatesSpec | panel/internal/store/automation.go:214-230 | candidates are due, distinct and earliest first; a due job is left out only when the batch is full of no later ones |
| AutomationJobs.ClaimSpec | panel/internal/store/automation.go:200-272 | on the fields of the rows: a named claim with room in its batch hands out exactly the rows that are pending or waiting for a retry, due and under no live lease, or running with a lease that has ended; of more rows than the batch holds, earliest first |
| AutomationJobs.EnqueueSpec | panel/internal/store/automation.go:33-66 | on the fields of the rows: refused exactly for an incomplete target or a taken id; the target has its active row, or one row more with the first run asked for, or now |
| AutomationJobs.ForceSpec | panel/internal/store/automation.go:68-132 | on the fields of the rows: a job under a live lease stays, a pending one becomes due now, any other is failed and followed by a new one due now |
| AutomationJobs.FinishSpec | panel/internal/store/automation.go:274-295 | on the fields of the rows: the row held under id and name gets state, message and next run, loses its owner and lease, and no other row changes; otherwise the reason it is refused |
| AutomationJobs.EveryRunKeepsInv | panel/internal/store/automation.go:33-314 | every reachable table has at most one active job per target and an owner exactly while a job runs |
| AutomationJobs.LeaseExclusive | panel/internal/store/automation.go:200-272 | until a lease expires nobody else is handed the target, through every run in which its owner does not act |
| AutomationJobs.LeaseLasts | panel/internal/store/automation.go:200-314 | a claim or renewal holds for the time asked for, a minute by default, through every run before its end |
| AutomationJobs.Fenced | panel/internal/store/automation.go:274-314 | once a job is no longer its own, an owner's finish and renewal are refused and change nothing, ever after |
| AutomationJobs.LosesLease | panel/internal/store/automation.go:68-132 | a foreign claim and a forced replacement both end an owner's hold |
| AutomationJobs.LateFinishIff | panel/internal/store/automation.go:274-295 | after a running job was handed out again, its first worker's finish is accepted exactly when both workers use one name |
| AutomationJobs.SameOwnerNotFenced | panel/internal/automation/runner.go:139-196 | a second claim under the same name does not fence the first worker |
| AutomationJobs.FinishedStays | panel/internal/store/automation.go:274-295 | a finished job never changes while every worker uses a name |
| AutomationJobs.NamelessRevives | panel/internal/store/automation.go:274-295 | a nameless retry revives a finished job exactly when its target has no active one |
| AgentCommands.CreateSpec | panel/internal/store/store.go:1858-1904 | a new command is pending, never attempted, and expires when asked or after the default five minutes; refused exactly without a node or under a taken id |
| AgentCommands.CommandStore.LeaseCommands | panel/internal/store/store.go:1922-1991 | expires what is past its time to live, then leases the answered rows one update at a time, one attempt more each and for the time asked for; a failure midway keeps the updates made |
| AgentCommands.SelectedIff | panel/internal/store/store.go:1922-1991 | what the query answers, on the fields of the rows: the node's pending rows and those whose lease has ended, not past their time to live, oldest first, and all of them unless the batch is full |
| AgentCommands.LeaseSpec | panel/internal/store/store.go:1922-1991 | row by row: expired, leased for the time asked for with one attempt more, or as it was |
| AgentCommands.CompleteSpec | panel/internal/store/store.go:1996-2025 | row by row: the first result of an unfinished command is recorded with its time and ends its lease; every other row stays, and the reply says which it was |
| AgentCommands.CommandStore.CompleteCommand | panel/internal/store/store.go:1996-2025 | changes only an unfinished command of that id, to the reported result; reports "recorded" exactly when it did and "already finished" exactly when it was |
| AgentCommands.FinishedStays | panel/internal/store/store.go:1922-2025 | terminal states are absorbing |
| AgentCommands.AppliedAtMostOnce | panel/internal/store/store.go:1996-2025 | over every run at most one result is recorded for a command |
| AgentCommands.RecordedForGood | panel/internal/store/store.go:1996-2025 | the first result is recorded as reported and never changes |
| CommandDelivery.EveryRunDelivers | panel/internal/store/store.go:1922-1991 | redeliveries are at least a lease apart, nothing is delivered at or past its time to live, attempts are bounded by the leases that begin within it |
| CommandDelivery.FiveAttempts | panel/internal/store/store.go:1899-1902 | with the defaults, five attempts |
| CommandDelivery.DefaultFive | panel/internal/store/store.go:1858-1904 | a command created without an expiry is attempted at most five times in any run of default leases |
| CommandWakeup.NextCovered | panel/internal/api/handlers_agent_commands.go:70-111 | with any number of polls, a step loses a wakeup exactly when a lease leaves commands behind a waiting poll |
| CommandWakeup.NoLostWakeup | panel/internal/api/handlers_agent_commands.go:176-214 | one poll: parked with a command pending, a token is there or an enqueuer has not sent yet |
| CommandWakeup.TwoPollsLoseOne | panel/internal/api/handlers_agent_commands.go:50-50 | two polls and more than one batch lose a wakeup |
| CertificateIssue.Issuer.Issue | panel/internal/certmanager/service.go:67-204 | keeps what `IssueSound` says and ends as `IssueOutcome` says; a failed issue whose row is saved waits 1, 5, 15 minutes, an hour, then 6 hours |
| CertificateIssue.IssueOutcome | panel/internal/certmanager/service.go:67-262 | decided by the calls alone: it is done exactly when every call due on its path was fine, and the stored revision of a bound certificate advances only if saving the deploying row, building and applying the configuration were; a path is confirmed only with an apply that was fine |
| CertificateIssue.IssueSound | panel/internal/certmanager/service.go:144-262 | active files are those of the revision, the candidate's of it or the next; both advance together by one, for a bound certificate only after the node accepted a configuration naming the new files; configurations never name files the node does not hold |
| CertificateIssue.EveryRunSound | panel/internal/certmanager/service.go:67-262 | the same over every run of issues, bindings and pushes |
| CertificateIssue.UndisturbedIssue | panel/internal/certmanager/service.go:144-152 | after any failures one undisturbed issue activates the next generation, reusing an installed candidate, unless a bound certificate never had one |
| CertificateIssue.RenewalBlocksBuilds | panel/internal/nodeconfig/builder.go:404-418 | over every run from the start, a bound certificate has installed active files, and a configuration can be built with it exactly while its status is active or deploying |
| CertificateIssue.RenewalExample | panel/internal/certmanager/service.go:75-85 | issue, bind, failed renewal: generation 1 is active and installed, yet until the retry nothing can be built or pushed |
| AcmeOrder.Order.Run | panel/internal/acme/issuer.go:46-75 | the loop stops at the first failure; whatever fails its calls are disciplined, and success leaves none of its records in the zone; when it succeeds and which calls it makes is `AcmeOutcomes.OrderIff` |
| AcmeOrder.EveryPresentCleaned | panel/internal/acme/issuer.go:95-121 | whichever calls fail, waiting, accepting and authorizing find the record in the zone, and each record reported up gets exactly one clean-up, before the next |
| AcmeOrder.ChallengeSpec | panel/internal/acme/issuer.go:95-121 | a challenge value new to the zone stays in it exactly when its write was reported failed but took effect, or taking it down did not reach the zone; nothing else changes |
| AcmeOrder.TakeDownSpec | panel/internal/dnsprovider/helpers.go:8-26 | deleting a text value removes it exactly when the lookup and the first deletion reach the zone; other values stay |
| AcmeOrder.OrderLeaves | panel/internal/acme/issuer.go:46-75 | the zone after an order, record by record: at most the record of the authorization it stopped at is left behind, exactly when stranded |
| AcmeOrder.LateWriteStrands | panel/internal/acme/issuer.go:104-106 | a write reported failed that took effect leaves its record, and no clean-up is made |
| AcmeOutcomes.OrderIff | panel/internal/acme/issuer.go:46-121 | an order succeeds exactly when each authorization is valid already or has a DNS challenge whose record goes up, is waited for, accepted and granted, and comes down; it makes exactly the calls of the authorizations it works on, in that order, with the name and digest of the first DNS challenge and a time to live of sixty seconds |
| AcmeNames.SameNames | panel/internal/acme/issuer.go:150-166 | true exactly when both lists hold the same names as often, up to case and a final dot |
| AcmeNames.SameKeyIff | panel/internal/acme/issuer.go:150-166 | two names count as one exactly when they are the same, letter by letter in either case, without the final dot |
| UplinkSync.Client.SyncConfig | agent/internal/uplink/client.go:215-258 | keeps soundness, asks nothing before the delay is over, backs off exactly after a failure, comes one closer to a fixed target with each success, and leaves the node as `StateReached` says |
| UplinkSync.RoundIff | agent/internal/uplink/client.go:215-258 | a round asks nothing exactly while the delay runs, and succeeds exactly when the head says that both hashes agree, or the answer is had and whatever differs is accepted |
| UplinkSync.Client.Apply | agent/internal/uplink/client.go:294-366 | remembers a hash exactly when the box accepted its document; success means stopped if that is wanted, and running exactly if the box ran when asked or the start took |
| UplinkSync.EveryRunSound | panel/internal/api/handlers_agent.go:160-211 | over every run of rounds and of calls by others, also in the midst of a round: the remembered hash is that of the last confirmed apply, the box has on record what was last accepted from anyone, and every confirmed configuration was stored by the Panel first |
| UplinkSync.StateReached | agent/internal/uplink/client.go:349-366 | a successful round that wants the node stopped stops it; one that wants it running leaves it so exactly if it ran when asked or the start took, whose reply is dropped |
| UplinkSync.RoundCloser | agent/internal/uplink/client.go:215-258 | towards a fixed target a successful round comes one closer, any other no farther; in sync nothing is applied |
| UplinkRuns.Converges | agent/internal/uplink/client.go:215-258 | two successful rounds reach equal hashes, whatever others do, and the configuration is confirmed at most once on the way |
| UplinkRuns.OneRoundIff | agent/internal/uplink/client.go:318-322 | one successful round is enough exactly unless FRPS was removed while the configuration changed |
| UplinkRuns.StaysInSync | agent/internal/uplink/client.go:226-236 | once in sync the client applies neither configuration again |
| UplinkRuns.RemovalOnlyForgets | agent/internal/uplink/client.go:318-322 | removing the FRPS configuration reaches no service, so a successful removal leaves none running exactly when none was |
| UplinkRuns.FrpsServedIff | agent/internal/uplink/client.go:318-346 | after a successful round the FRPS service is as wanted exactly when it was sent now or was so before |
| UplinkRuns.QuietAfterFailure | agent/internal/uplink/client.go:368-380 | after a failure nothing is asked before one, five or fifteen minutes are over, and only what others do happens |
| UplinkRecord.RecordedIff | agent/internal/uplink/client.go:294-313 | in every reachable world, equal hashes mean that the prepared wanted document is on record exactly when no other was accepted from others since the last confirmed apply |
| UplinkRecord.RecordStays | agent/internal/uplink/client.go:226-236 | in sync, and with no document pushed by others, the same document stays on record, and the FRPS service is left alone unless others call it or it exits |
| UplinkRecord.RunsDesiredIff | agent/internal/uplink/client.go:294-366 | after a successful round that ends in sync, the node runs the wanted document exactly when nothing else was accepted from others and the box ran when asked or the start took |
| UplinkRecord.RefusedStart | agent/internal/control/server.go:370-375 | in sync, stopped, start refused: the round succeeds, failures are cleared, nothing runs |
| UplinkRecord.DownSticks | agent/internal/control/runtime_box.go:118-131 | a document that does not start, with the one before it not starting again and then wanted again: in sync, nothing pushed by others, and nothing runs while starts are refused |
| UplinkRecord.PushSticks | agent/internal/uplinkws/handlers.go:173-179 | a document that others push to a node in sync stays on record, whatever the rounds and whoever stops or starts the box |
| UplinkRecord.PushExample | panel/internal/certmanager/service.go:250-262 | a pushed document goes on running while the hashes say the wanted one does |
| NodeFrps.ApplyServes | agent/internal/frpsruntime/runtime.go:72-124 | a successful FRPS apply serves what it was given; a failed one leaves what was there, or none, or the enabled configuration before it if that starts again |
| DnsZone.UpsertSpec | panel/internal/dnsproviders/libdns.go:92-141 | a text value joins those of its set and is not written if it is there, any other value replaces its set; or nothing changes; other types and names stay |
| DnsZone.DeleteSpec | panel/internal/dnsproviders/libdns.go:143-172 | a deletion removes one value of one record set, or nothing, and writes only if there is a match |
| DnsZone.TextRoundTripIff | panel/internal/dnsproviders/libdns.go:109-172 | putting a text value up and taking it down gives the very zone back exactly when it was not there before |
| DnsService.Service.ReconcileDomain | panel/internal/dnsreconcile/service.go:48-87 | succeeds exactly when there are targets, the clean-ups and writes due go through and the row is saved; each selected record set is then exactly its target; the saved row carries state, retries, targets and what was seen; other names never change; a domain already stored that way is not written; failure is scheduled again |
| DnsService.Service.WriteRecord | panel/internal/dnsreconcile/service.go:258-299 | record set, writes sent, slot and outcome exactly as the calls decide: it succeeds when the wanted value is there, or is written and then seen; other sets stay, and the created flag rises exactly when the set was seen empty |
| DnsConvergence.ConvergeSpec | panel/internal/dnsreconcile/service.go:137-209 | after success each selected type has exactly its target; wherever it fails, other names never change and an unselected type loses at most the value desired before, if created here |
| DnsOutcomes.ConvergeIff | panel/internal/dnsreconcile/service.go:137-209 | a run succeeds exactly when the mode is known, every value to be removed is looked up and removed if there, and every wanted value is given, looked up, and there already or written and seen |
| DnsOutcomes.RecordEnds | panel/internal/dnsreconcile/service.go:258-299 | one record set to the last field: the set afterwards, with the time to live of the domain, whether a write was sent, the observed values, the created flag, and the outcome |
| DnsConvergence.QuietAfterSuccess | panel/internal/dnsreconcile/service.go:258-283 | after one saved success no later run against the same targets writes, whatever fails |
| DnsConvergence.FlagBeforeWrite | panel/internal/dnsreconcile/service.go:283-289 | the created flag rises when the set was empty, and is true of the zone exactly when the write took effect |
| DnsConvergence.FailedDeleteForgotten | panel/internal/dnsreconcile/service.go:151-176 | for each managed type, a failed deletion is made up for by the next success exactly when the old value is still the target |
| DnsConvergence.CleanupSpec | panel/internal/dnsreconcile/service.go:92-132 | a clean-up removes the created addresses and no alias, no other name |
| DnsConvergence.CleanupCompleteIff | panel/internal/dnsreconcile/service.go:92-132 | it leaves nothing of the Panel's behind exactly when there was no created alias |
| LogBuffer.LogBuf.Append | agent/internal/control/logbuf.go:44-66 | appends one consecutively numbered line to the log the ring refines and offers it to open subscribers only |
| LogBuffer.LogBuf.Tail | agent/internal/control/logbuf.go:69-85 | returns the last min(n, stored) lines of the log |
| LogBuffer.LogBuf.Unsubscribe | agent/internal/control/logbuf.go:95-104 | a channel leaves the list before it is closed |
| LogBuffer.ModDistinct | agent/internal/control/logbuf.go:56-60 | two lines less than a ring apart never share a slot |
| LogBuffer.OfferFed | agent/internal/control/logbuf.go:60-66 | a subscriber sees lines in order, and all of them unless its channel overflowed |
| LogStream.StreamLogs | agent/internal/control/server.go:453-491 | sends the matching tail, then matching live lines with larger numbers |
| LogStream.SentIff | agent/internal/control/server.go:453-491 | what is sent is what the level admits: of the tail all of it, and of the live lines those later than every line sent of the tail |
| LogStream.StreamIncreasing | agent/internal/control/server.go:453-491 | nothing is sent twice or out of order |
| LogStream.LaterLinesSent | agent/internal/control/server.go:474-490 | every matching line from the tail window on is sent |
| LogStream.NothingMissedIff | agent/internal/control/server.go:453-472 | a matching line is missed exactly when one was left out of the tail and another matching one was in it |
| LogStream.SmallGapMissesNothing | agent/internal/control/server.go:453-472 | nothing is missed when no more lines arrive between subscription and tail than the caller asks for and the ring holds |
| LogStream.GapExample | agent/internal/control/server.go:453-472 | asking for one line while two matching ones arrive loses the first |
| LineWriter.Writer.Write | agent/internal/control/logbuf.go:124-142 | logs the complete lines of pending plus written bytes, none of them empty or with a newline in it, and keeps the rest, which has none either |
| LineWriter.PrintedIsLogged | agent/internal/control/logbuf.go:124-142 | text printed line by line, ended by a newline with or without a carriage return, is logged line by line as it was, blank lines left out; what follows waits |
| LineWriter.ChunkingInvariant | agent/internal/control/logbuf.go:124-142 | however a stream is cut into writes, the same lines are logged and the same bytes wait |
| LineWriter.RestIsSuffix | agent/internal/control/logbuf.go:124-142 | what waits is exactly what follows the last newline |
| PortMappings.NormalizePortMappings | panel/internal/store/models.go:148-185 | the loop over rows produces the normalized mappings |
| PortMappings.NormalizedSpec | panel/internal/store/models.go:148-185 | each listen port once, with its last row if that is usable and not at all otherwise |
| PortMappings.NormalizedRows | panel/internal/store/models.go:148-185 | on the rows: a row is kept exactly if both its ports are valid, they differ, and no later row is for its listen port |
| PortMappings.NormalizeIdempotent | panel/internal/store/models.go:148-185 | normalizing again changes nothing |
| PortMappings.LookupByLastRow | panel/internal/store/models.go:189-196 | a lookup in the normalized rows answers by the last row of the port |
| Semver.ComparePre | pkg/semver/semver.go:154-183 | the loop over identifiers compares as specified, and as section 11 of Semantic Versioning 2.0.0 does when no identifier is a signed numeral or a numeral above 64 bits |
| Semver.Precedence | pkg/semver/semver.go:154-183 | the order of section 11: the first differing identifier decides, digits by value and before words, words by characters; otherwise the longer list is newer |
| Semver.TextOrderIff | pkg/semver/semver.go:162-181 | words are ordered by the first character in which they differ, or the shorter one first |
| Semver.SplitIs | pkg/semver/semver.go:154-156 | the identifiers are the pieces between the dots |
| Semver.PartAgreesIff | pkg/semver/semver.go:162-181 | two identifiers are ordered as section 11 orders them exactly when neither is misread, or the misreading gives the same place |
| Semver.ListsAgreeIff | pkg/semver/semver.go:154-183 | whole pre-releases, whatever is in them: agreement with section 11 is decided at the first pair that either order tells apart |
| Semver.SignedMisplaced | pkg/semver/semver.go:185-194 | 1.0.0--5 comes before 1.0.0-1, because -5 is read as a number |
| Semver.OversizedMisplaced | pkg/semver/semver.go:185-194 | two numbers above 64 bits are placed by their characters |
| Semver.CoreDecides | pkg/semver/semver.go:111-141 | major, minor and patch decide in turn, and a pre-release comes before its release |
| Semver.TotalPreorder | pkg/semver/semver.go:111-183 | comparison is a total preorder on all versions, invalid ones included |

## Left out

- Transport, TLS, authentication, sessions, PKI and the web interface: they rest on libraries.
- HTTP, gRPC and database calls are outcomes; the database is a sequence of rows with atomic statements, and a query with a limit answers any rows its clauses allow.
- The per-protocol inbound fields, secrets and templates: a row says whether its protocol's fields convert (`mappable`) and whether an outbound can be rendered for it (`dialable`).
- Managed TLS is reduced to the certificate path it overlays; the other TLS parameters follow the same branch.
- JSON text is a map with a canonical encoding, and a hash stands for its document; strings are ASCII, so Unicode trimming and case folding are not modelled.
- HopDelivery.DeliveredByAddress: the network is a function from address and port to a place; two listeners that answer at one address and port are outside the hypothesis `Faithful`, and a dial address or port set by hand is taken to lead to its hop. NAT beyond the port mappings of the rows is not modelled.
- HopDial.EndpointIff: the credentials and parameters of the endpoint are those of the inbound row; a row whose outbound cannot be rendered is `dialable` being false.
- What domain, address and process conditions match is an uninterpreted predicate of rule and connection, the same on every node.
- The tables other than chains are fixed during a rollout; the plan and certificate rows a fingerprint omits are therefore not modelled.
- Rollout.Service.Deploy: a failed apply is taken to leave its agent as it was; a rollback does not restore the configuration on node rows, because the code does not (`RowsWritten`).
- Rollout.Service.Rollback: node rows keep the hash of the new configuration, as in the code.
- CollisionExample.LoopExists: what the sing-box parser does with two equal inbound tags is not modelled; both tables are taken to run.
- Nodes in pull mode are not pushed to during a rollout; their later fetch is `UplinkSync`.
- BoxRuntime.EveryRunSound: bytes are counted between calls; counting during a call is in `Traffic`.
- Traffic.EveryRunSound: one direction of traffic; the other is counted by the same code. The shared temporary file is abstracted to "some overlapping saver's value, or unreadable text".
- FRPS is modelled on values because its calls and its goroutine interleave; validation of its configuration is a boolean. For its callers (`NodeFrps`) a call is one step, and a service may exit between any two.
- UplinkSync.EveryRunSound: others act between the client's calls on the box; between other steps of a round their calls commute with it, and stand before or after. The control surface is in the same process, so a call on it always returns.
- UplinkRecord.RecordedIff: a hash names one document, for the Panel and for others (`Named`).
- AutomationJobs.JobStore.EnqueueJob: payloads, and states or attempts set by the caller, are not modelled; lease lengths are whole seconds.
- AgentCommands.CommandStore.CreateCommand: status, attempt and creation time set by the caller are not modelled; deleting a node's commands with the node is not either.
- The sweep and the query of a lease are one step; a command created between them is as good as created before or after.
- CommandWakeup models one node's channel as atomic actions, not the map of channels; commands whose lease ran out wake nobody, in the code as in the model.
- CertificateIssue.Issuer.Issue: certificate and key file stand for one path, and the preliminary checks, dialling and capability query are one step; two issues of one certificate at once are excluded by the job lease.
- AcmeOrder.Order.Run: nobody else writes the zone during an order, and names are not cut to the zone; creating the order, waiting for it and fetching the chain come before or after and touch no record.
- DnsService.Service.ReconcileDomain: resolving the target addresses is a parameter, record ids, times and the paused state are omitted, and values are in canonical form.
- LogStream.StreamLogs: a failing send ends the stream early, leaving a prefix of what is stated.
- LineWriter.Writer.Write: the lines are collected by the writer; passing each to the log is LogBuffer.LogBuf.Append.
- Semver.ComparePre: identifiers are compared as characters, which is the order of their bytes for ASCII.
- Semver.TotalPreorder: parsing of free-form version text and the outdated check around it are not modelled.
- ChainStore.EveryRunSound: chain names and their uniqueness are not modelled.
- The worker pool and heartbeat of the job runner, chain probes, self-upgrade, metrics and node reports: easy beside the above.
