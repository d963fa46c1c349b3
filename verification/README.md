# Compute Agent and Control Service: a verified model

The Compute Agent runs on a hypervisor and serves the GPU metrics of the guests on it. Every so often it syncs with the
Control Service, which discovers the GPU guests of the host, keeps one persistent port per host and tenant network, and
answers with endpoints and targets. The agent builds a network namespace and a veth pair for each endpoint, scrapes the
guests' exporters inside those namespaces with a bounded worker pool, relabels and merges what they answer, and serves
the result from a short-lived cache. This project models that loop, from desired state to served metrics, and proves
what the reconciler, the pool, the cache, the merge and the port keeping promise.

`dafny verify dfyconfig.toml` checks everything.

## How the model is built

- **The outside world is one value.** `Kernel` has the namespaces, the links keyed by namespace and name, the bridges
  and the Open vSwitch ports. A command is one atomic step on it: accepted with an effect, or refused. `Command` adds a
  schedule of faults: any command may be reported as failed, with any error text the agent looks at, and may have been
  applied or not. An exhausted schedule means no further faults.
- **Code that changes state is code that changes state.** `Network`, `Scraper`, `Server`, `Processor`, `Controller`,
  `Coordinator` and `Transport` have the classes and loops of the sources. A map iteration picks any remaining key.
  Each method is proved equal to a specification function or to a property of the history; the theorems are about
  those.
- **Ownership carries the reconciler's proof.** `Placement` says which commands an endpoint owns and proves, command by
  command, that an owned command keeps the placement of every endpoint, the rest of the managed names, and everything
  foreign. `Ownership` proves that each function issues owned commands only. Everything about runs follows by replaying
  the log, whatever the faults: `Runs` adds restarts and crashes between any two commands. `LogPrefix` carries it to a
  manager at any time of its life.
- **Commands are spelled out.** `Steps` lists the commands of a sync in order and proves that it stops at a fault;
  `Removal` proves that a removal does not.
- **What is left behind is read off the log.** `Leftovers` says exactly when an endpoint that is no longer wanted leaves
  something, and that it then stays.
- **One closed form for recovery.** `Convergence` proves that every way through `EnsureVethPair` that returns nil ends
  in the same world `Settle`. Crash recovery, exactness and idempotence in `Reconciliation` rest on it.
- **Overlap is a step relation.** `Pool` (workers, channel, cancellation), `Freshness` (overlapping requests and target
  updates) and `Transport` (callers between two lock modes) are state machines over every schedule.
- **Samples live on the heap.** In `Metrics` and `Processor` label pairs are rewritten through pointers and families are
  aliased by the merge, as in the source; `ReadOut` says what the objects mean, and `Exposition` proves conservation
  and fault isolation of all that is served, `Served` what each sample says, label by label. `Tally` has the part that
  is about iteration orders alone.

## What the code does where a reader may expect otherwise

- `findPortByNameAndHost` looks at the name only; the host is not compared. Port names contain the host, and
  `NamesAreInjective` shows that for eight-byte short ids this suffices.
- "One persistent port per network" is a matter of the first eight bytes of the network id, within a call and across
  calls. `PortsOnOwnNetworksIff` is the exact condition for any store; `SharedPrefixSharesThePort` and
  `SharedPrefixInTwoCalls` are counterexamples, `LaterCallSharesThePort` the general case.
- An early error leaves the old tracking map (`TrackedIsTheListOrTheOld`), so endpoints that the failed call built are
  untracked until a later sync lists them; a sync that does not list them returns nil and leaves them
  (`EarlyErrorLeavesANamespace`). `CleanCallCleansIff` is the exact condition for a call without faults.
- Errors of the deletion loop are dropped and the endpoint is forgotten all the same (`DeletionsMayAllFail`).
  `LeftBehindIff` reads off the commands what is left, `ForgottenUnlessDeleted` says for how long.
- A changed address is added to the old ones (`AddressesAccumulate`).
- `lastScrape` can go backwards (`LastScrapeCanGoBack`); bodies are fresh all the same (`ServedBodiesAreFresh`).
- Isolation is proved for endpoints that have a namespace. An endpoint with neither namespace nor network id is built in
  the root namespace (`EnsureVethPairInRoot`); the Control Service never sends one.

## Conditions that the theorems carry

- `Compatible(names)`: over all endpoints of a run, interface and namespace names determine each other and do not clash.
  `ControlNamesAreCompatibleIff` says for which short ids the Control Service's naming rule gives that; eight bytes are
  enough.
- `Untouched`: at the start of a run nothing on the host uses a managed name.
- `ParsesDistinct`: the parser never returns a sample that has a label name twice.
- `ShortsDiffer`: network ids have at least eight bytes and differ in them.

## Model

| member | source | states |
|---|---|---|
| Naming.NamesAreInjective | pkg/openstack/gophercloud.go:241-246 | for eight-byte short ids: host interface, peer and namespace names each tell the short id, port names tell host and short id, no host name is a peer name, the peer is exactly 15 characters and the host name shorter |
| Naming.NamesSpelledOut | pkg/openstack/gophercloud.go:241-246 | interface, peer, namespace and port names in letters: the fixed parts around the first eight bytes of the network id |
| Naming.DerivedIsNamespaceFor | pkg/network/manager.go:56-65 | a namespace that is given is kept, a missing one is named after the network, and without a network there is none |
| Naming.ControlNamesAreCompatible | pkg/openstack/gophercloud.go:241-246 | in particular for any set of eight-byte short ids |
| Naming.ApartIff | pkg/network/manager.go:53-65 | for short ids of any length: all names of two endpoints differ if and only if the ids differ and neither is the other followed by the peer suffix |
| Naming.SoundIff | docs/adr/0002-tenant-network-namespace-isolation.md:21 | interface and peer name fit the kernel if and only if the short id has at most eight bytes |
| Naming.ControlNamesAreCompatibleIff | pkg/network/manager.go:53-65 | the names of a set of short ids determine each other and never collide if and only if no id is longer than eight bytes or another one followed by the peer suffix |
| Kernel.ApplyKeepsWellFormed | pkg/network/command.go:30-41 | every command, accepted or refused, leaves links in existing namespaces and the two ends of a pair pointing at each other |
| Command.CommandRunner.Run | pkg/network/command.go:30-41 | one command is one step of the world: accepted, refused, or struck by a fault that may or may not have applied it |
| Command.CommandRunner.RunNetnsList | pkg/network/netns.go:21-25 | the listing has a line for exactly the namespaces that exist |
| Network.NetNSManager.NetNSExists | pkg/network/netns.go:20-33 | scanning the lines for a first field finds a namespace if and only if it exists, and a failed listing is an error |
| Network.NetNSManager.EnsureNetNS | pkg/network/netns.go:36-53 | the step-by-step code issues the commands, in the order and under the conditions, of the specification that EnsureNetNSDone is about |
| Network.NetNSManager.DeleteNetNS | pkg/network/netns.go:56-66 | refines the specification: nothing is deleted unless the listing shows the name |
| Network.VethManager.LinkExistsInNetNS | pkg/network/veth.go:20-35 | only an error that says that the device is missing reads as absence; any other error is passed on |
| Network.VethManager.EnsureVethPair | pkg/network/veth.go:44-135 | both branches refine the specification that EnsureVethPairDone and EnsureVethPairInRoot are about, under every fault schedule |
| Network.VethManager.DeleteVethPair | pkg/network/veth.go:138-161 | refines the specification: the peer is tried first, then the host end where it should be |
| Network.OVSManager.EnsurePort | pkg/network/ovs.go:32-53 | adds the port and sets the interface id only if it is not empty, stopping at the first error |
| Network.OVSManager.DeletePort | pkg/network/ovs.go:56-62 | an empty bridge means the default bridge |
| Network.NetworkManager.constructor | pkg/network/manager.go:23-40 | an empty bridge means br-int, and nothing is tracked yet |
| Network.NetworkManager.ReconcileEndpoints | pkg/network/manager.go:43-103 | world, tracking map and result are those of the specification for some order of the old map's keys, each visited once; whatever was called before, the call is a sync of the run model, so that every theorem about runs applies to the manager |
| Network.NetworkManager.RemoveEndpoint | pkg/network/manager.go:93-97 | refines the specification that RemoveEndpointTries is about: no error of one part keeps the next from being tried |
| Removal.DeleteVethPairTries | pkg/network/veth.go:138-161 | under any faults: a look at the peer end and, if it succeeded, its deletion; else a look at the host end and, if that succeeded, its deletion; an error only if the deletion failed |
| Removal.DeleteNetNSTries | pkg/network/netns.go:56-66 | under any faults: a listing and, if it succeeded and showed the namespace, its deletion; an error exactly if one of the two failed |
| Removal.RemoveEndpointTries | pkg/network/manager.go:93-97 | under any faults the log of a removal is the port's deletion, then all of the pair's part, then all of the namespace's part |
| Removal.StaleAreTried | pkg/network/manager.go:89-120 | in the log of a nil sync or a cleanup under any faults there is such a removal for every endpoint that was tracked and no longer is |
| Removal.FailingPortsKeepNothingElse | pkg/network/manager.go:93-97 | if only deletions of ports fail, no stale endpoint keeps its pair or its namespace |
| Network.NetworkManager.Remove | pkg/network/manager.go:89-99 | the deletion loop goes through the tracked interfaces in any order and removes those not desired |
| Network.NetworkManager.Cleanup | pkg/network/manager.go:106-120 | everything tracked is removed in some order and the tracking map is empty afterwards; the call is a cleanup of the run model |
| LogPrefix.ReconcileIsSync | pkg/network/manager.go:43-103 | what was issued before a call changes nothing of it: the same world, tracking map, result and commands |
| LogPrefix.RemovalIsCleanup | pkg/network/manager.go:106-120 | the same of a cleanup |
| Placement.CommandKeepsPlaced | pkg/network/veth.go:86-108 | every command an endpoint may issue keeps the placement of every endpoint: both links absent, or peers with the peer end in root and the host end in root or in its own namespace, never both |
| Placement.CommandKeepsOthers | pkg/network/manager.go:89-99 | a command of one endpoint, even the deletion of its namespace, changes nothing under another endpoint's names |
| Placement.CommandKeepsForeign | pkg/network/netns.go:56-66 | no command changes a namespace, link, bridge or port that is under no managed name |
| Placement.OwnedCommandsKeep | pkg/network/manager.go:43-103 | the three facts above over any run of commands with any faults |
| Ownership.EnsureVethPairActs | pkg/network/veth.go:84-135 | every command issued for an endpoint is one that it owns, whatever fails |
| Ownership.EnsureEndpointActs | pkg/network/manager.go:67-82 | the same for the three stages of one endpoint |
| Ownership.EnsureAllActs | pkg/network/manager.go:49-86 | the first loop issues only commands owned by listed endpoints, and what it returns is tracked under its own names |
| Ownership.RemoveStaleActs | pkg/network/manager.go:89-99 | the deletion loop issues only commands owned by tracked endpoints that are not desired, in any order |
| Ownership.ReconcileActs | pkg/network/manager.go:43-103 | a whole call issues only commands owned by listed or tracked endpoints, also if it returns early |
| Convergence.EnsureNetNSDone | pkg/network/netns.go:36-53 | a nil error means that the namespace is there with its loopback up, even after a tolerated "File exists"; without faults there is no error |
| Convergence.EnsureVethPairDone | pkg/network/veth.go:84-135 | from every placement a nil error means one closed form of the links; without faults there is no error |
| Convergence.EnsureEndpointDone | pkg/network/manager.go:67-82 | every branch of the recovery code, under every fault schedule, ends in one and the same closed form if it returns nil, and it returns nil if no command fails |
| Convergence.SettleReachesGoal | pkg/network/veth.go:84-135 | that closed form has the namespace, the host end inside it, up, with its MAC and address, the peer in root and up, and the port with its interface id |
| Convergence.AddressesAccumulate | pkg/network/veth.go:122-127 | a successful call adds the new address to those the host end already had and removes none |
| Convergence.EnsureVethPairInRoot | pkg/network/veth.go:45-82 | without a namespace a nil error means both ends in root, up, with MAC and address, every other link unchanged; without faults there is a nil error if and only if both names are there or the pair can be made, so half a pair is not mended |
| Steps.EndpointCarries | pkg/network/manager.go:67-82 | the exact commands of one endpoint in their order, for each place where an earlier run left the host end; a fault that is not tolerated is the last command issued, and an error |
| Steps.LooksCarry | pkg/network/veth.go:27-34 | a look tells presence without faults, and any error but a missing device ends the call |
| Steps.NoNamespaceNoPair | pkg/network/veth.go:86-89 | in a namespace that is not there the first look fails and nothing is built |
| Steps.FileExistsIsTolerated | pkg/network/netns.go:42-51 | when the namespace appears between listing and add, the answer "File exists" is no error and its loopback is brought up; the call succeeds exactly if the namespace is there |
| Convergence.RemoveEndpointClears | pkg/network/manager.go:93-97 | without faults a removal takes away exactly the namespace, the pair and the port of one endpoint |
| Runs.EveryCommandKeeps | pkg/network/manager.go:43-120 | after every single command of a call the invariant holds, foreign resources are as before, and so is everything under names that are neither listed nor tracked |
| Runs.RunKeeps | pkg/network/manager.go:43-120 | the invariant and the foreign resources survive any run of syncs, cleanups and restarts, and of syncs and cleanups cut off between any two commands by a crash, under any faults |
| Runs.PlacementInEveryReachableWorld | pkg/network/veth.go:86-108 | in every reachable world every endpoint is placed, and `link add` is accepted whenever the host end is in neither namespace |
| Runs.IsolationInEveryReachableWorld | docs/adr/0002-tenant-network-namespace-isolation.md:13-21 | in every reachable world a link in root carries no address unless it was there from the start, and a managed namespace holds its own host interface and no other link |
| Runs.ForgottenStays | pkg/network/manager.go:93-101 | an endpoint that is tracked and listed by nobody is never touched again by any later run |
| Reconciliation.TrackedIsTheListOrTheOld | pkg/network/manager.go:69-102 | under any faults a sync that returns nil tracks its list keyed by interface, and one that fails tracks what was tracked before, whatever it had already built |
| Steps.SyncTakesAllSteps | pkg/network/manager.go:49-86 | a sync whose first loop meets no fault returns nil and begins with the spelled-out commands of all its endpoints, each in the world that the ones before have settled |
| Steps.SyncStopsAtAFault | pkg/network/manager.go:69-82 | a sync that meets a fault at its k-th command has issued exactly the first k of those commands, returns an error, and tracks what it tracked |
| Steps.ErrorRemovesNothing | pkg/network/manager.go:69-99 | after an error of any kind no endpoint that was not listed has been touched: the deletion loop has not run |
| Leftovers.LeftBehindIff | pkg/network/manager.go:89-99 | after any number of commands of any call under any faults, an endpoint that the call does not list has left nothing if and only if its port, its namespace and its pair, where there were any, have each had a deletion that took effect; the pair also goes with the namespace, but only if the host end is inside |
| Leftovers.ForgottenUnlessDeleted | pkg/network/manager.go:89-101 | a nil sync or a cleanup forgets every endpoint that it does not list, deleted or not, and what the log does not show as deleted stays through every later run that does not list the endpoint |
| Leftovers.CleanCallCleansIff | pkg/network/manager.go:89-102 | without faults an endpoint that is not listed leaves nothing if and only if it was tracked or had left nothing before |
| Leftovers.EarlyErrorLeavesANamespace | pkg/network/manager.go:69-72 | from every clean host: a sync that fails on its third command, then one with an empty list that returns nil and tracks nothing, and the first one's namespace stays through every later run that does not list the endpoint |
| Leftovers.DeletionsMayAllFail | pkg/network/manager.go:93-101 | when each deletion command fails the sync returns nil, tracks nothing and leaves the world as it was |
| Reconciliation.KeyedHolds | pkg/network/manager.go:47-86 | of a list with distinct interface names every endpoint is tracked, with its namespace filled in |
| Reconciliation.EnsureAllDone | pkg/network/manager.go:49-86 | the first loop reaches the goal of every endpoint so far and keeps it while it builds the next ones |
| Reconciliation.StaleRemovalIsFramed | pkg/network/manager.go:89-99 | in any order and under any faults the deletion loop leaves every desired, every untracked endpoint and everything foreign unchanged, although deleting a namespace destroys what is inside |
| Reconciliation.StaleRemovalClears | pkg/network/manager.go:89-99 | without faults nothing is left under the names of the stale endpoints |
| Reconciliation.SyncReachesGoals | pkg/network/manager.go:43-103 | a sync that returns nil, whatever faults it met, tracks the list keyed by interface and has reached all its goals |
| Reconciliation.CrashRecovery | pkg/network/manager.go:43-103 | after any run with any faults, cuts and restarts, one call in which no command fails returns nil and reaches the goal of every endpoint of a list with distinct interface names |
| Reconciliation.CleanSyncIsExact | pkg/network/manager.go:43-103 | without faults a sync leaves under the managed names what its list wants and nothing else |
| Reconciliation.CleanRunIsExact | pkg/network/manager.go:43-120 | the same over any run without faults, and what is tracked is the last list |
| Reconciliation.CleanupRestoresTheWorld | pkg/network/manager.go:106-120 | a cleanup after such a run restores the starting world and an empty tracking map |
| Reconciliation.RepeatedSyncIsIdle | pkg/network/manager.go:43-103 | repeating a successful sync returns nil, ends in the identical world and tracking map, and issues no command that creates, moves or deletes |
| Status.StatusRefinesHistory | pkg/scraper/scraper.go:124-170 | for every interleaving of records and prunes: an id is present if and only if recorded since the last prune that omitted it, its row shows its latest record, LastSuccess is the time of its latest success since then or zero |
| Status.EndpointIsShown | pkg/scraper/scraper.go:128-131 | the endpoint of a row is the address, a colon, and the port in decimal, 9400 where the port is not positive |
| Status.KeysAfterRecords | pkg/scraper/scraper.go:152 | records only add the ids they are about |
| Pool.BeginInv | pkg/scraper/scraper.go:69-89 | at the start every target is queued exactly as often as given |
| Pool.StepInventory | pkg/scraper/scraper.go:91-116 | no step of a worker loses or duplicates a target, from the channel to its status record |
| Pool.TargetsAreConserved | pkg/scraper/scraper.go:66-122 | at every moment of every schedule queued, held and finished targets are together the input multiset, and the stored results are those in hand or recorded |
| Pool.ConcurrencyIsBounded | pkg/scraper/scraper.go:74-93 | at most min(workers, targets) scrapes are in flight at once, eight being the default |
| Pool.ConcurrencyIsReached | pkg/scraper/scraper.go:74-91 | and some schedule has exactly that many in flight |
| Pool.TakenInOrder | pkg/scraper/scraper.go:82-95 | targets leave the channel in the order given |
| Pool.StepResults | pkg/scraper/scraper.go:102-113 | the results map shows, for each id, the latest result stored for it |
| Pool.StepKeepsOutcome | pkg/scraper/scraper.go:96-113 | a step that ends a scrape, or that refuses a target after a cancellation, gives just that outcome to be stored |
| Pool.CancelledIff | pkg/scraper/scraper.go:96 | the context is cancelled exactly if a cancellation happened |
| Pool.ResultsAreOutcomes | pkg/scraper/scraper.go:54-116 | for every schedule what is stored in the end is exactly what the scrapes answered and what a cancellation refused; each result returned comes of one step: a scrape of its target by the worker that held it, with that payload, error and duration, or a refusal with an empty payload, no duration and the context's error |
| Pool.StepDecreases | pkg/scraper/scraper.go:93-117 | every step, a cancellation included, lowers a measure |
| Pool.PoolEnds | pkg/scraper/scraper.go:91-121 | so no schedule is longer than the measure of its start |
| Pool.NeverStuck | pkg/scraper/scraper.go:93-117 | a worker that has not left always has a step it can take |
| Pool.QuittersLeaveNothing | pkg/scraper/scraper.go:95 | a worker leaves only when the channel is drained |
| Pool.StepAccounts | pkg/scraper/scraper.go:101-115 | no step loses or duplicates a result between the results map's lock and the status lock |
| Pool.FinishedCounts | pkg/scraper/scraper.go:120-121 | once all have left every target is recorded as often as given, and exactly the results stored are recorded |
| Pool.FinishedPool | pkg/scraper/scraper.go:120-121 | and the result keys are the ids given, each result for an input target with that id |
| Pool.ScrapeAllCompletes | pkg/scraper/scraper.go:66-122 | for every schedule and cancellation moment: a bound on the steps, result keys exactly the ids given, each result for an input target with that id |
| Pool.StatusAfterScrapeAll | pkg/scraper/scraper.go:67-122 | with no overlapping call the status keys afterwards are exactly the ids given |
| Pool.RowsShowResults | pkg/scraper/scraper.go:101-115 | and with distinct ids every row shows the result returned for its id, although the two maps are written under two locks |
| Scraper.Scraper.constructor | pkg/scraper/scraper.go:32-46 | eight workers unless a positive number is given, and an empty status map |
| Scraper.Scraper.RecordStatus | pkg/scraper/scraper.go:124-153 | the map stays the one that the event history defines, one record later |
| Scraper.Scraper.PruneTargets | pkg/scraper/scraper.go:156-170 | the map stays the one that the event history defines, one prune later |
| Scraper.Pruned | pkg/scraper/scraper.go:160-169 | the deletion loop, in any order, leaves exactly the rows of the given ids |
| Scraper.Scraper.GetStatus | pkg/scraper/scraper.go:173-203 | the report is what Report promises of the current map |
| Scraper.Report | pkg/scraper/scraper.go:177-202 | rows strictly sorted by id, exactly those of the map, the totals counted, degraded if and only if there are targets and none is healthy |
| Scraper.ResultsAreAnswers | pkg/scraper/scraper.go:96-113 | each result is the answer that an exporter gave for its target, or a refusal after a cancellation |
| Scraper.Scraper.ScrapeTarget | pkg/scraper/scraper.go:49-63 | payload, error and duration of the result are those of the answer |
| Scraper.Scraper.ScrapeAll | pkg/scraper/scraper.go:66-122 | whatever the schedule: result and status keys are the ids given, each result is what its target's exporter answered in this call or a refusal after a cancellation, the history grows by one prune and then one record per target given, and with distinct ids each row shows the result returned |
| Scraper.Scraper.Drain | pkg/scraper/scraper.go:82-120 | from the full channel the workers all finish, whatever the schedule: a run of the pool in which every scrape is one question to the exporters and every record is in the status history |
| Scraper.Scraper.Turn | pkg/scraper/scraper.go:93-117 | one step of any worker, or a cancellation, is a step of the pool, with what the exporter answered; it keeps the invariant and the status history |
| Freshness.InitInv | pkg/server/server.go:34-65 | a server starts with the cache invariant |
| Freshness.StepInv | pkg/server/server.go:112-161 | every step of every request and every target update keeps it: the clock read before the scrape is never later than the read of the targets |
| Freshness.ServedBodiesAreFresh | pkg/server/server.go:112-161 | for every interleaving, a body served to a request that read the clock at T was built from a list the coordinator held at an instant later than T minus the TTL |
| Freshness.FinishedMissIsServed | pkg/server/server.go:114-157 | a body just built is served to later requests, whatever the targets are by then, until its clock read is TTL old, and not from then on; an empty one never |
| Freshness.FailedMissLeavesTheCache | pkg/server/server.go:148-152 | a failed encoding changes nothing for later requests |
| Freshness.LastScrapeCanGoBack | pkg/server/server.go:154-157 | two overlapping misses can move lastScrape backwards, so its monotony is not what keeps bodies fresh |
| Server.MergeResults | pkg/server/server.go:131-142 | what the merged map says is the merge, in the order met, of what each result contributes; only families made by this call are in it |
| Server.MergeResult | pkg/server/server.go:132-142 | a failed scrape, an empty payload and a refused one add nothing; any other adds its enriched samples |
| Server.BuildCollectorMetrics | pkg/server/server.go:163-237 | the four collector families say one success and one duration sample per result, the number of results and the number without error |
| Server.CountResults | pkg/server/server.go:179-205 | the counting loop, in any order of the results, although a target's two samples share their label pairs |
| Server.AllFamilies | pkg/server/server.go:131-146 | together they say the merged samples joined with the collector's |
| Server.Server.constructor | pkg/server/server.go:34-65 | a TTL of zero means five seconds |
| Server.Server.LiveBody | pkg/server/server.go:128-152 | what a miss serves encodes the body of all results, for some order of each of its two loops; ServedComesFrom to CollectorAgrees say what is in that body |
| Server.Server.HandleMetrics | pkg/server/server.go:112-161 | a hit serves the cache and changes nothing; a miss encodes the merged samples and the collector's, and becomes the cache dated at its clock read; a failed encoding leaves the cache |
| Exposition.SamplesAreConserved | pkg/server/server.go:131-142 | under each name the merged samples are, as a multiset, those that the results contribute |
| Exposition.CollectorIsConserved | pkg/server/server.go:179-229 | under each name the collector's samples are one per result where they are about results, and the two totals |
| Exposition.ServedSamplesAreConserved | pkg/server/server.go:131-146 | under each name what is encoded is the enriched samples of every good scrape and the collector's own, nothing else and nothing twice, even if a guest uses a name of the collector's |
| Served.ContributionSpelledOut | pkg/processor/enricher.go:27-90 | a failed, empty or refused result contributes nothing; any other contributes under each parsed name as many samples as parsed, at the same places with the same values, labels in strict order, host, vm_id, vm_name and project_id as the agent knows them and every other label as the guest has it |
| Served.ContributionsStayApart | pkg/processor/enricher.go:80 | no two targets with different non-empty ids ever contribute samples with equal label maps |
| Served.ServedComesFrom | pkg/server/server.go:131-146 | whatever is served under a name is one of the collector's samples or such an enriched sample of a good scrape |
| Served.ServedHas | pkg/server/server.go:132-141 | every sample of every good scrape is served, so enriched |
| Served.ServedAreAsMany | pkg/server/server.go:131-146 | and as many are served under each name as the good payloads and the collector have |
| Served.CollectorSpelledOut | pkg/server/server.go:163-237 | for each result met one success of 1 without error and 0 with one, and one duration that is its latency, at its place in the order, with the target's labels; the total counts the results, the healthy total those without error |
| Served.CollectorAgrees | pkg/server/server.go:179-229 | the successes add up to the healthy total, and there are as many of them as the target total says |
| Exposition.OrderDoesNotMatter | pkg/server/server.go:132 | the merged samples under a name are the same multiset for every iteration order of the results |
| Exposition.FaultsAreIsolated | pkg/server/server.go:132-142 | changing the outcome of one target changes only its own share of the merged samples |
| Exposition.CollectorIsIsolated | pkg/server/server.go:180-229 | of the collector's samples it changes, for any two iteration orders, only its own success and duration and the healthy total |
| Exposition.ServedFaultsAreIsolated | pkg/server/server.go:131-146 | two outcomes that differ in one target, each met in any orders by the two loops, are served with the same samples but for that target's own and the healthy total |
| Exposition.HealthyTotalIsIsolated | pkg/server/server.go:179-229 | and the healthy count by the difference of its own outcomes |
| Exposition.CollectorLabelsLikeTheGuests | pkg/server/server.go:187-194 | the collector's samples carry the same identity labels as the guest's enriched ones if and only if host, id and name are not empty |
| Processor.MetricEnricher.SetOrAddLabel | pkg/processor/enricher.go:62-77 | the write through the shared pointer, or the appended pair, has the effect of setting one label of a list; an empty value has none |
| Processor.MetricEnricher.EnrichMetric | pkg/processor/enricher.go:52-90 | the in-place rewrite yields Enrich of what the sample said, whose properties are the rows EnrichIsOverride to TargetsStayApart |
| Processor.MetricEnricher.EnrichFamily | pkg/processor/enricher.go:39-41 | the inner loop enriches every sample of a family, in the sense spelled out for ContributionSpelledOut, exactly once and nothing else |
| Processor.MetricEnricher.EnrichFamilies | pkg/processor/enricher.go:38-42 | the outer loop does so for every family, in any order, without disturbing a family already done |
| Processor.MetricEnricher.EnrichTargetMetrics | pkg/processor/enricher.go:27-45 | nil for an empty payload, an error if and only if the parser refuses, else fresh families that say the parsed ones enriched; no older object is touched |
| Processor.MergeFamily | pkg/processor/enricher.go:94-101 | a name new to the destination aliases the source family, else its samples are appended in order |
| Processor.MergeFamilies | pkg/processor/enricher.go:93-103 | in any order of the names every list is the destination's followed by the source's; no source family is changed |
| Processor.MergeInto | pkg/processor/enricher.go:93-103 | what the merged map says is what the two maps said, joined: despite the aliasing no sample already merged is altered |
| Metrics.NewFamilies | pkg/processor/enricher.go:32-36 | a parse leaves fresh families that share no sample and no label pair |
| Labels.SetLabelOverrides | pkg/processor/enricher.go:62-77 | setting one label overrides one entry of the label map, unless the value is empty |
| Labels.EnrichIsOverride | pkg/processor/enricher.go:52-90 | for distinct label names: the list ends strictly sorted by name and its map is the guest's map overridden by the authoritative values |
| Labels.OverrideUnrolled | pkg/processor/enricher.go:79-82 | that override spelled out: host, vm_id, vm_name and project_id win where not empty, every other label keeps its value |
| Labels.EnrichIsIdempotent | pkg/processor/enricher.go:52-90 | enriching twice is enriching once |
| Labels.TargetsStayApart | pkg/processor/enricher.go:80 | samples of two targets with different non-empty ids never end with equal label maps |
| Processor.SortSaid | pkg/processor/enricher.go:87-89 | sorting the pointers by name sorts what they say |
| Order.SortSorts | pkg/processor/enricher.go:87-89 | sorting distinct names yields a strictly sorted permutation |
| Order.LessIsLexicographic | pkg/processor/enricher.go:87-89 | the order is that of the first difference, a proper prefix coming first |
| Order.SortedIsUnique | pkg/processor/enricher.go:86-89 | two strictly sorted lists of the same elements are equal, so the output is deterministic |
| HostPorts.EnsurePortFinds | pkg/openstack/gophercloud.go:250-283 | a port is created only when none of that name exists, also if the reply is lost, and the port returned is the one found by name |
| HostPorts.EnsurePortKeeps | pkg/openstack/gophercloud.go:250-283 | find-or-create keeps one port per host and network, and returns one on that network and host |
| HostPorts.EnsureHostPortsBacked | pkg/openstack/gophercloud.go:231-302 | a call that succeeds yields one endpoint per non-empty id, in order, each with the names of its id and the port id, MAC and formatted address of the port in the store |
| HostPorts.StopsAtTheFirstFailure | pkg/openstack/gophercloud.go:250-280 | a call fails exactly if one of the API calls it makes fails or loses its reply, and makes none after that |
| HostPorts.EnsureHostPortsKeeps | pkg/openstack/gophercloud.go:231-302 | a whole call, succeeding or failing part-way, keeps one port per host and network |
| HostPorts.OnePortPerHostAndNetwork | pkg/openstack/gophercloud.go:230-302 | over any run of calls, with API calls that fail or whose create reply is lost, there is never more than one port per host and network |
| HostPorts.PortIDsArePersistent | pkg/openstack/gophercloud.go:230-302 | two successful calls of a run, whatever came between, return the same port id for a host and network, and that port lies on that network |
| HostPorts.PortsOnOwnNetworksIff | pkg/openstack/gophercloud.go:241-261 | for any store: a successful call leaves every network of its list with a port on it under its name if and only if no two ids of the list share their first eight bytes and no port already there under one of the names lies on another network |
| HostPorts.LaterCallSharesThePort | pkg/openstack/gophercloud.go:250-260 | a later call for an id that shares the first eight bytes succeeds, creates nothing and hands out the port id of the earlier network |
| HostPorts.SharedPrefixInTwoCalls | pkg/openstack/gophercloud.go:250-260 | a concrete pair of ids in two calls of one id each: both succeed and the second network has no port |
| HostPorts.SharedPrefixSharesThePort | pkg/openstack/gophercloud.go:241-261 | the same pair in one list: the call succeeds and the second network has no port |
| Discovery.FirstAddressIsFirst | pkg/openstack/gophercloud.go:122-139 | the address chosen is the first IPv4 one in port-then-address order, and none is chosen if and only if there is none |
| Discovery.TargetIsFaithful | pkg/openstack/gophercloud.go:96-164 | a server becomes a target if and only if its lookups succeed, it matches and it owns an IPv4 address; its fields are that server's, its network ids exactly the non-empty ones of the ports; a non-empty network id is that port's, is listed, and names the namespace |
| Discovery.OneServerChangesNoOther | pkg/openstack/gophercloud.go:96-165 | whatever happens to one server, the targets of the others are the same, in the same order |
| Discovery.NetworkIDsHold | pkg/openstack/gophercloud.go:124-128 | the network ids are exactly the non-empty ones of the ports |
| Discovery.NetworkIDsInOrder | pkg/openstack/gophercloud.go:124-128 | in the order of the ports |
| Discovery.DiscoverComputeVMs | pkg/openstack/gophercloud.go:94-168 | the loop refines the filter-map that the three rows above are about |
| Discovery.ReadPorts | pkg/openstack/gophercloud.go:122-139 | the nested loops refine first-address and network-id collection |
| Controller.GophercloudClient.FindPortByNameAndHost | pkg/openstack/gophercloud.go:304-320 | the first port of that name in the store's answer, whatever its host |
| Controller.GophercloudClient.EnsureHostPort | pkg/openstack/gophercloud.go:250-283 | find-or-create on the client's store refines EnsurePort |
| Controller.GophercloudClient.EnsureHostPorts | pkg/openstack/gophercloud.go:231-302 | the loop refines the specification of the rows above, and an error returns no endpoints |
| Controller.NetworkSetHolds | pkg/controller/handler.go:61-71 | the set holds exactly the non-empty network ids that some target names |
| Controller.CollectNetworks | pkg/controller/handler.go:61-71 | the nested loops compute that set |
| Controller.SortedList | pkg/controller/handler.go:74-78 | the list is strictly sorted and holds exactly the set, whatever the order of the map |
| Controller.FilledTargetsAre | pkg/controller/handler.go:91-99 | the filled list has the same targets in the same order, every field but the namespace as it was; the namespace as it was where given, else named after the network, else none |
| Controller.FillNetNS | pkg/controller/handler.go:91-99 | the in-place loop does exactly that |
| Controller.HandleSync | pkg/controller/handler.go:59-105 | the reply carries the endpoints of the sorted distinct networks and the targets so filled, or is an error if and only if a port could not be ensured |
| Coordinator.Coordinator.SyncOnce | pkg/coordinator/coordinator.go:105-198 | a decoded reply replaces the targets, dates the sync and clears the error even if the reconcile failed, and its reconcile is a sync of the run model; a failure changes the last error alone; without a controller the static targets stay |
| Coordinator.Coordinator.RecordSyncError | pkg/coordinator/coordinator.go:200-204 | a failed sync keeps the targets and the date of the last good one |
| Coordinator.LatestIsHeld | pkg/coordinator/coordinator.go:190-194 | after any attempts the list held is that of the latest decoded reply, or the static one if there was none; attempts that failed since do not matter |
| Coordinator.Coordinator.GetTargets | pkg/coordinator/coordinator.go:230-236 | so a scrape is given the targets of the latest decoded reply, every field but a missing namespace as sent, or the static list |
| Coordinator.EndpointsAreListed | pkg/openstack/gophercloud.go:289-297 | the endpoints sent to a host carry the names that the reconciler's conditions ask for |
| Coordinator.HostSyncEndToEnd | pkg/coordinator/coordinator.go:167-194 | discovery's targets, network set, ports and a reconcile that returned nil leave every held target with a network id in a namespace that exists and holds a host interface that is up |
| Coordinator.DiscoveryNames | pkg/openstack/gophercloud.go:146-153 | every target that discovery hands over has the namespace of its network or none |
| Coordinator.DiscoveredAreFilled | pkg/coordinator/coordinator.go:167-175 | neither side changes a discovered target: the agent holds what was found, field by field and in order |
| Coordinator.HostSyncOfDiscovery | pkg/openstack/gophercloud.go:94-168 | the end-to-end statement for the servers that discovery looked at, on a host that started clean, after any run under any faults: the targets held are those found, and each with a network can be scraped; the only condition on names is the exact one on short network ids |
| Transport.RunInv | pkg/transport/transport.go:53-84 | every interleaving of calls keeps the cache invariant |
| Transport.OneClientPerNamespace | pkg/transport/transport.go:53-84 | all calls ever for one namespace hold the same client, calls for two namespaces hold different ones, and each client dials in its own key |
| Transport.WithoutRecheckTwoClients | pkg/transport/transport.go:61-65 | one schedule of two callers on the machine without the second look ends with two clients for one namespace; on the real one it ends with one |
| Transport.HTTPTransport.GetClient | pkg/transport/transport.go:53-84 | whatever other callers insert between the two locks, the client returned is the cached one and dials in the namespace asked for, and no cached client is ever replaced |

## Left out

- HTTP and TLS, certificates, JSON coding, process execution, the setns dialer, signals and logging are foreign calls:
  command results, scrape outcomes and sync replies are arbitrary inputs.
- The Prometheus parser and encoder are parameters. That encoding succeeds is not claimed; family help texts and types
  are not modelled.
- Configuration loading, the logger, both main programs, health endpoints and the mock client would only add easy members.
- Address and CIDR parsing, the flavor and subnet caches and the extra-spec match are a predicate, a formatting function
  and a lookup result.
- Timeouts in real time; a cancelled context has one error text.
- Of a port that is created, the device owner and the administrative state.
- Overlapping `EnsureHostPorts` calls for one host: find and create are two steps, and the one-port claim is false there.
- An interface that changes its namespace between two lists: outside the naming rule.
- Namespace names with white space in the listing.
- Namespaces that processes keep open after `netns del`, and physical links, which the kernel would move back to root.
- Two calls of the reconciler at once: it holds its own mutex throughout.
- Samples with a repeated label name, for which the rewrite changes the last pair only.
- Equal ids in one `ScrapeAll`: which of two targets wins is left open, as in the source, and the two maps may disagree.
- `TargetVM` fields that no modelled code reads, such as the GPU ids.
- Coordinator.HostSyncEndToEnd: speaks of the world when the sync returned, not of later changes by others to it.
- Scraper.Scraper.ScrapeAll: runs the pool's steps one after the other in an arbitrary schedule; status calls of others between them are covered by StatusRefinesHistory, not by this method.
- Server.Server.HandleMetrics: one request at a time on the heap; overlapping requests are in Freshness.
