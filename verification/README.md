# Verification model of the inference cluster's control plane

The control plane starts, numbers and supervises the prefill and decode instances of an inference
cluster, decides which of them may be used, tells the coordinator, elects one controller among several,
saves its state in etcd, accounts for the load of every request and merges the engines' metrics. This
project models those parts in Dafny 4.11 and proves what they are relied on for. Run
`dafny verify dfyconfig.toml` to check the whole project.

Protocols are state machines over atomic steps, with theorems over every run. Objects that the source
updates in place are classes whose methods are proved against functions on values; the theorems are then
about those functions. Time is a parameter, remote calls have an outcome chosen by the environment, and
floating-point numbers are `real`.

| part | modules |
|---|---|
| instance lifecycle and announcements | Lifecycle, LifecycleOutcomes, ControllerManager, HandlerRaces, EventPusher, OutageDetector |
| replication to the coordinator | Replication, CoordinatorPools |
| faults and forced separation | Faults, FaultOutcomes, FaultManager |
| leader election | LeaderElection, StandbyManager |
| persistence | KeyRange, Persistence |
| load accounting | WorkloadRuns, WorkloadBalance, WorkloadRecords, WorkloadReturns, PoolLoads, RequestManager, RequestIds |
| metrics | Metrics, MetricsCollector, MetricsText, MetricsGrammar |
| configuration updates | ConfigWhitelist, Texts |
| limits, numbers and files | TokenBucket, RestartLimiter, Numbering, Tiling, LogRetention, EndpointCache |

Where the code does less than its comments or structure promise, the model follows the code, shows a run
that fails, and states exactly when the promise holds:

- an ACTIVE instance can be withdrawn when a second instance has registered under its job name
  (`Lifecycle.SharedJobNameWithdrawsActive`, `Lifecycle.AnnouncedEqualsActive`);
- a heartbeat that passed the check makes an instance ACTIVE after it has been forcibly separated
  (`HandlerRaces.HeartbeatOverruns`, `HandlerRaces.SeparatedStayOutIff`);
- events are queued outside the pusher's lock and can overtake each other
  (`Replication.SwappedPutsDiverge`, `Replication.ConsistentIffOrderly`);
- the recorded fault code can be stale (`Faults.CodeCanBeStale`, `Faults.CodesRightIff`);
- two nodes can be master by role once a lease has ended (`LeaderElection.TwoMastersReachable`,
  `LeaderElection.OneMasterIff`);
- a lock key that does not start with "/" is released under a different name after a failed renewal, and
  the node never becomes master again (`LeaderElection.LoopHead`, `LeaderElection.StuckForever`);
- a save ignores a failed deletion, and the deleted range of "/a" includes "/ab"
  (`Persistence.RefusedWipe`, `Persistence.ReadsKeptIff`);
- an allocation hands out the recorded object itself, and a preparation whose record is refused has already
  applied its load (`WorkloadRecords.EarlyReleaseSlips`, `WorkloadRecords.RefusedPreparationSlips`,
  `WorkloadBalance.LoadsAreConserved`);
- when both kinds of release have returned, another release can still have the amount in hand
  (`WorkloadReturns.ThreeReleasesLag`, `WorkloadReturns.BothReleasesClear`);
- changes applied while an instance is away are lost, and one that is added again starts at zero
  (`PoolLoads.ReaddedDrifts`, `PoolLoads.EndpointLoadsAreRecords`);
- a dropped request can leave its load behind (`WorkloadRecords.DropsLeakIff`);
- a clock that steps back repeats request numbers (`RequestIds.RequestsDifferIff`);
- the export is empty while only history is left (`MetricsCollector.FoldKeepsTotalsIff`);
- a label that starts with "#" is printed but not read back (`MetricsText.PrintThenParse`);
- an empty first key does not show in reported paths (`ConfigWhitelist.EmptyKeyPasses`,
  `ConfigWhitelist.AcceptedClashesAreAllowedIff`);
- a single-endpoint pod with too few devices leaves ranks out (`Numbering.NumbersAreUsedOnce`);
- the port offset of prefill instances uses the decode size (`Tiling.PortsDisjointIff`).

## Model

| member | source | states |
|---|---|---|
| Lifecycle.AnnouncedEqualsActive | motor/controller/core/instance_manager.py:374-728 | Main. Over every run from a consistent state: in every reachable state the pusher's map holds exactly the ACTIVE instances, if and only if no step notifies about one instance while another ACTIVE one carries the same job name |
| Lifecycle.ExactStep | motor/controller/core/instance_manager.py:667-728 | One handler call keeps announced = active if and only if it does not clash |
| Lifecycle.FreshJobsNeverClash | motor/controller/core/instance_manager.py:313-341 | Job names that are unique among managed instances rule out every clash, over all runs |
| Lifecycle.SharedJobNameWithdrawsActive | motor/controller/core/instance_assembler.py:373-383 | The assembler's own rule (refuse a job name only while an ACTIVE instance has it) does not: a run withdraws an ACTIVE instance |
| Lifecycle.NextKeepsSane | motor/controller/core/instance_manager.py:374-441 | Every handler keeps: no managed instance is DELETED, and a forcibly separated one is managed and never ACTIVE |
| Lifecycle.NoticeMatchesStatus | motor/controller/core/instance_manager.py:517-584 | A READY notice means the instance just became ACTIVE, a SEPARATED one that it is not ACTIVE any more |
| Lifecycle.Untouched | motor/controller/core/instance_manager.py:652-728 | A step that does not notify about an instance leaves it in or out of ACTIVE; so nothing reaches DELETED from ACTIVE unannounced |
| Lifecycle.NoticeIsAboutManaged | motor/controller/core/instance_manager.py:181-184 | Notices carry the job name and role of a managed instance |
| Lifecycle.StepKeepsJobs | motor/controller/core/instance_manager.py:313-341 | No handler changes a job name or brings in an instance other than the added one |
| LifecycleOutcomes.OverdueTick | motor/controller/core/instance_manager.py:496-584 | Main. For every state: an ACTIVE instance with an endpoint not heard for more than five seconds becomes INACTIVE, leaves the map and issues a DEL if its node managers confirm it, and otherwise has every heartbeat renewed; any other with one not heard for more than five minutes leaves the registry; nothing else changes |
| LifecycleOutcomes.TimelyTick | motor/common/resources/instance.py:255-290 | As long as no endpoint is overdue the management loop changes nothing |
| LifecycleOutcomes.HeartbeatDecides | motor/controller/core/instance_manager.py:459-584 | Main. After a complete heartbeat: all endpoints NORMAL means ACTIVE and announced, unless forcibly separated; one ABNORMAL means INACTIVE and withdrawn; otherwise INITIAL, or still ACTIVE |
| LifecycleOutcomes.HeartbeatSetsEndpoints | motor/common/resources/instance.py:324-339 | A complete heartbeat gives each endpoint of its pod the reported state and time, and changes no other |
| LifecycleOutcomes.ShortHeartbeat | motor/common/resources/instance.py:324-339 | One that lacks a state is applied up to the missing one and decides nothing |
| LifecycleOutcomes.StrangeHeartbeat | motor/common/resources/instance.py:324-339 | One for an unknown instance or pod, or with another number of states, changes nothing |
| LifecycleOutcomes.AdmissionOutcome | motor/controller/core/instance_manager.py:313-341 | A new instance is INITIAL with every endpoint INITIAL and heard now; a known one is left alone |
| LifecycleOutcomes.SeparationOutcome | motor/controller/core/instance_manager.py:374-408 | A managed instance is marked; an ACTIVE one becomes INACTIVE and is withdrawn |
| LifecycleOutcomes.RecoveryOutcome | motor/controller/core/instance_manager.py:422-441 | Only the mark goes |
| Lifecycle.HeartbeatAnswersIff | motor/controller/core/instance_manager.py:459-491 | A heartbeat is answered if and only if instance and pod are known, every endpoint of the pod is reported and no more states than that, and it does not leave an ACTIVE instance neither all ready nor abnormal anywhere |
| HandlerRaces.SeparatedStayOutIff | motor/controller/core/instance_manager.py:374-441 | Main. Over every interleaving of reactions, separations and recoveries cut where other threads come in: in every state a forcibly separated instance is managed and not ACTIVE once its separation has finished, if and only if no reaction that passed the check before makes it ACTIVE after, and no separation marks an instance removed since it was found |
| HandlerRaces.KeptStep | motor/controller/core/instance_manager.py:374-441 | One step keeps this if and only if it is neither of the two |
| HandlerRaces.HeartbeatOverruns | motor/controller/core/instance_manager.py:667-728 | From any state: a heartbeat that passed the check before a whole separation makes the instance ACTIVE afterwards |
| HandlerRaces.UninterruptedReaction | motor/controller/core/instance_manager.py:667-728 | The cut reaction that nothing interrupts is the one taken as a whole |
| HandlerRaces.UninterruptedSeparation | motor/controller/core/instance_manager.py:374-408 | So is the cut separation |
| ControllerManager.Instance.UpdateHeartbeat | motor/common/resources/instance.py:324-339 | The loop over a pod's endpoints: each gets the reported state and time; which pods and states are unknown |
| ControllerManager.Instance.AdmitPods | motor/controller/core/instance_manager.py:313-341 | A new instance's endpoints are all INITIAL with the admission time |
| ControllerManager.InstanceManager.AddInstance | motor/controller/core/instance_manager.py:313-341 | Registry, pusher map and queue after the call are those of the specified step |
| ControllerManager.InstanceManager.DelInstance | motor/controller/core/instance_manager.py:343-354 | Removes the instance and its forced separation, nothing else |
| ControllerManager.InstanceManager.Notify | motor/controller/core/instance_manager.py:181-184 | Exactly the pusher's reaction to the notice |
| ControllerManager.InstanceManager.SeparateInstance | motor/controller/core/instance_manager.py:374-408 | The specified step; an ACTIVE instance becomes INACTIVE and is withdrawn |
| ControllerManager.InstanceManager.RecoverInstance | motor/controller/core/instance_manager.py:422-441 | The specified step: only the forced mark is removed |
| ControllerManager.InstanceManager.HandleStateTransition | motor/controller/core/instance_manager.py:667-728 | The whole table-driven reaction: transition, forced-separation guard, handler, notice and Boolean |
| ControllerManager.InstanceManager.HandleInitial | motor/controller/core/instance_manager.py:517-531 | Status, notice and everything unchanged |
| ControllerManager.InstanceManager.HandleActive | motor/controller/core/instance_manager.py:532-546 | Becoming ACTIVE announces the instance |
| ControllerManager.InstanceManager.HandleInactive | motor/controller/core/instance_manager.py:547-584 | Abnormal or probed abnormal: withdrawn; otherwise only the heartbeats are stamped |
| ControllerManager.InstanceManager.HandleDeleted | motor/controller/core/instance_manager.py:652-665 | Removed from the registry and the forced set |
| ControllerManager.InstanceManager.HandleHeartbeat | motor/controller/core/instance_manager.py:459-491 | The specified heartbeat step on registry, map and queue; returns without an error exactly when the heartbeat is answered |
| ControllerManager.InstanceManager.ManagementTick | motor/controller/core/instance_manager.py:496-515 | The specified timeout step |
| EventPusher.EventPusher.Update | motor/controller/core/event_pusher.py:115-138 | Map and queue after a notice: an ADD for a new announcement, a DEL for a withdrawn one |
| EventPusher.EventPusher.Consume | motor/controller/core/event_pusher.py:145-182 | Takes one event; a SET carries the map at consumption and is sent only if it has a prefill instance |
| EventPusher.EventPusher.HeartbeatTick | motor/controller/core/event_pusher.py:184-245 | Counts failures, raises the alarm flag, and queues SET at the point the source does |
| EventPusher.OutageQueuesSet | motor/controller/core/event_pusher.py:184-245 | After two or more unanswered queries in a row, the next answer of any kind queues a SET |
| OutageDetector.QueuesSetIff | motor/controller/core/event_pusher.py:184-245 | Main. Over every list of answers: a query queues a SET if and only if it is answered, and either the coordinator is not ready or two losses counted after a first answer have come since the last SET |
| Replication.Converges | motor/controller/core/event_pusher.py:115-182 | Main. For every interleaving of controller steps, queue insertions in order per id, SET requests, deliveries, losses and coordinator resets: once nothing is outstanding and every loss or reset was followed by a delivered SET, the coordinator's known ids are the pusher's map and the ACTIVE instances |
| Replication.ConsistentIffOrderly | motor/controller/core/event_pusher.py:115-138 | Main. Over every run: in every state the map is the ACTIVE instances and the last outstanding event of every instance says what the map says, if and only if no step clashes and no put passes an earlier pending event of the same instance and the opposite kind |
| Replication.DrainAgreesIff | motor/controller/core/event_pusher.py:145-182 | With no SET outstanding, putting and delivering all that is outstanding brings the coordinator to the ACTIVE instances if and only if the last words and the instances at rest agree with the map |
| Replication.PutKeeps | motor/controller/core/event_pusher.py:138-138 | A put keeps the last word about every instance if and only if it does not overtake |
| Replication.SetRepairsOvertaking | motor/controller/core/event_pusher.py:145-182 | One delivered SET also repairs events that overtook each other, once they are consumed |
| Replication.OneSetRepairs | motor/controller/core/event_pusher.py:145-182 | Main. After any losses and coordinator resets, one delivered SET re-establishes agreement with everything still queued, and so convergence |
| Replication.MoveKeeps | motor/controller/core/event_pusher.py:115-182 | One move keeps this consistency if and only if it neither clashes nor overtakes |
| Replication.SwappedPutsDiverge | motor/controller/core/event_pusher.py:115-138 | The event is queued outside the pusher's lock: two puts in the other order leave the two sides different for good |
| Replication.ReversedQueueDiverges | motor/controller/core/event_pusher.py:115-138 | An ADD queued behind the DEL of the same instance leaves the coordinator with an id that is not ACTIVE |
| Replication.DeliveryOutcome | motor/controller/core/event_pusher.py:145-182 | What a consumed event does to the known ids; a SET makes them the announced ones exactly when a prefill instance is among these |
| CoordinatorPools.RefreshIsSetAlgebra | motor/coordinator/domain/instance_manager.py:275-300 | On known ids ADD is union, DEL difference, SET assignment; survivors keep their entry and loads, newcomers start at zero |
| CoordinatorPools.InstanceManager.RefreshInstances | motor/coordinator/domain/instance_manager.py:275-300 | Both pools after the message; true exactly if the known ids changed; pools disjoint, role pools and cache in step |
| CoordinatorPools.InstanceManager.AddInstances | motor/coordinator/domain/instance_manager.py:319-352 | Newcomers join with zero loads; true exactly if the ids changed |
| CoordinatorPools.InstanceManager.DeleteInstances | motor/coordinator/domain/instance_manager.py:355-377 | Gone from both pools; true exactly if the known ids changed |
| CoordinatorPools.InstanceManager.ApplySetDiff | motor/coordinator/domain/instance_manager.py:379-405 | Removals, then additions of the computed difference |
| CoordinatorPools.SetDiffIsAssignment | motor/coordinator/domain/instance_manager.py:379-405 | Applying the difference makes the known ids those of the message and keeps survivors' entries |
| CoordinatorPools.JoinAllIsUnion | motor/coordinator/domain/instance_manager.py:319-352 | Adding a list is union on ids and changes no existing entry |
| CoordinatorPools.InstanceManager.AddOne | motor/coordinator/domain/instance_manager.py:319-352 | One newcomer, or nothing for a known id |
| CoordinatorPools.InstanceManager.DeleteOne | motor/coordinator/domain/instance_manager.py:355-377 | One id leaves whichever pool holds it |
| CoordinatorPools.InstanceManager.AddToAvailablePool | motor/coordinator/domain/instance_manager.py:407-435 | Available, role pool and cache gain the instance |
| CoordinatorPools.InstanceManager.DeleteFromAvailablePool | motor/coordinator/domain/instance_manager.py:436-449 | Available, role pools and cache lose it |
| CoordinatorPools.InstanceManager.UpdateInstanceState | motor/coordinator/domain/instance_manager.py:241-273 | Both pools after the change of side; known ids stay |
| CoordinatorPools.SwitchKeepsKnown | motor/coordinator/domain/instance_manager.py:241-273 | Changing sides keeps every known id with its entry and moves no other instance |
| CoordinatorPools.InstanceManager.DeleteUnavailableInstance | motor/coordinator/domain/instance_manager.py:232-239 | Only the unavailable pool loses the id |
| CoordinatorPools.InstanceManager.UpdateInstanceWorkload | motor/coordinator/domain/instance_manager.py:156-187 | The cached endpoint and the gathered load change by the same amount, so the gathered load stays the sum; unknown ids change nothing |
| CoordinatorPools.TotalAfterCharge | motor/coordinator/domain/instance_manager.py:156-187 | Charging one endpoint changes the sum over all endpoints by the same amount |
| CoordinatorPools.IndexScans | motor/coordinator/domain/instance_manager.py:425-430 | The id cache finds exactly what a scan for the id finds |
| CoordinatorPools.ResetIsZero | motor/coordinator/domain/instance_manager.py:337-341 | A reset keeps the endpoints and zeroes every load and the sum |
| CoordinatorPools.NewcomersJoinEmpty | motor/coordinator/domain/instance_manager.py:319-405 | Every instance an ADD or SET brings in has the id, role and endpoints of its first entry in the message, in order, and no load |
| Faults.FaultControl | motor/controller/fault_tolerance/fault_manager.py:554-731 | Main. Over every run of registrations, heartbeats, timeouts, reports and readiness changes: the level of every instance refreshed since its nodes changed hands is the maximum over all faults of its nodes, an id is forcibly separated exactly when its level exceeds L2, and then it is not ACTIVE |
| Faults.FreshAfterReport | motor/controller/fault_tolerance/fault_manager.py:630-675 | Right after a report the level is that of the nodes as they are now |
| FaultOutcomes.ReadinessOutcome | motor/controller/fault_tolerance/fault_manager.py:590-628 | A readiness change keeps what the node records for every other code, and brings or removes the node-reboot fault, code 1 of level 6 |
| FaultOutcomes.ReportOutcome | motor/controller/fault_tolerance/fault_manager.py:554-588 | A report replaces all faults of its node, its last entry for a code winning, but keeps a node-reboot fault that is there |
| FaultOutcomes.DeviceFaultsNeedReports | motor/controller/fault_tolerance/fault_manager.py:340-628 | Main. From every reachable state, over every run: a device fault comes to a node and leaves it only by a report about that node |
| FaultOutcomes.NodeLeaves | motor/controller/fault_tolerance/fault_manager.py:340-369 | Or with the node, which goes only when its instance ends |
| FaultOutcomes.RefreshNames | motor/controller/fault_tolerance/fault_manager.py:630-731 | On a change of level the recorded code is that of the first worst fault of the first worst node, 0 for a healthy instance |
| FaultOutcomes.RegistrationOutcome | motor/controller/fault_tolerance/fault_manager.py:482-500 | A new instance owns all its nodes, whoever had them before, and is healthy |
| FaultOutcomes.StaleOnlyByRegistration | motor/controller/fault_tolerance/fault_manager.py:340-500 | A level waits for a refresh only since a registration moved nodes of the instance, until a report or readiness change of one of its nodes |
| Faults.RebootStep | motor/controller/fault_tolerance/fault_manager.py:590-628 | One step keeps "the node-reboot fault is there exactly while the node is not ready" if and only if it is not a report that brings that fault to a ready node |
| Faults.RebootFaultTracksReadiness | motor/controller/fault_tolerance/fault_manager.py:554-628 | Over runs: a node carries the reboot fault in every state exactly while it is not ready, if and only if no report brings that fault to a ready node |
| Faults.RefreshedIsMaximum | motor/controller/fault_tolerance/fault_manager.py:630-702 | A refresh yields a level that is an upper bound of all faults and is reached |
| Faults.WorstIsMaximum | motor/controller/fault_tolerance/fault_manager.py:677-702 | The worst fault over the instance's nodes is one of theirs and of maximal level |
| Faults.HighestIsMaximum | motor/controller/fault_tolerance/fault_manager.py:704-731 | The worst fault of one node is one of its faults and of maximal level |
| Faults.CodeCanBeStale | motor/controller/fault_tolerance/fault_manager.py:630-675 | A refresh keeps a code that names no fault of the instance any more: one fault has replaced another of the same level |
| Faults.CodeIsRightIff | motor/controller/fault_tolerance/fault_manager.py:630-675 | After a refresh the recorded code names a fault of the instance if and only if the level changed or it named one already |
| Faults.CodesRightIff | motor/controller/fault_tolerance/fault_manager.py:554-675 | Over every run, the codes of all refreshed instances name one of their faults in every state if and only if no report or readiness change takes the named fault away while another of the same level is the worst |
| FaultManager.FaultManager.EvalNodeStatus | motor/controller/fault_tolerance/fault_manager.py:704-731 | The loop finds the worst fault of a list |
| FaultManager.FaultManager.UpdateHighestFaultLevel | motor/controller/fault_tolerance/fault_manager.py:677-702 | Level and code of the instance after the loop over its nodes are the specified ones |
| FaultManager.FaultManager.RefreshInstanceFaultLevel | motor/controller/fault_tolerance/fault_manager.py:630-675 | Level, code and separation or recovery exactly as specified |
| FaultManager.FaultManager.HandleFaultInfoUpdate | motor/controller/fault_tolerance/fault_manager.py:554-588 | The whole reaction to a ConfigMap update |
| FaultManager.FaultManager.HandleNodeStatusUpdate | motor/controller/fault_tolerance/fault_manager.py:590-628 | The whole reaction to a readiness change |
| KeyRange.RangeIsExact | motor/common/etcd/etcd_client.py:91-100 | Main. For a non-empty prefix the range contains exactly the keys with the prefix if and only if the last byte is below 0xff, as in all UTF-8 text (section 1 of RFC 3629) |
| KeyRange.PrefixRangeEnd | motor/common/etcd/etcd_client.py:91-100 | The array loop computes the specified range end |
| KeyRange.RangeEndGrows | motor/common/etcd/etcd_client.py:91-100 | The end has the same length and is not below the prefix |
| KeyRange.PrefixesDisjoint | motor/common/etcd/etcd_client.py:91-100 | Two prefixes share no key if and only if neither is a prefix of the other |
| KeyRange.NamespacingIdempotent | motor/common/etcd/etcd_client.py:84-89 | Namespacing twice is namespacing once if and only if the key starts with "/" or carries the namespace |
| KeyRange.NamespacedChild | motor/common/etcd/etcd_client.py:84-89 | When the key of a child is the child of the namespaced prefix, exactly |
| Persistence.PersistThenRestore | motor/common/etcd/etcd_client.py:288-366 | Main. A reported success whose deletion took effect is undone by a restore: the same dictionary comes back, an empty one as nothing, in any row order |
| Persistence.RestoreReturnsWritten | motor/common/etcd/etcd_client.py:288-366 | For any outcome of the puts, exactly the entries whose puts took effect come back |
| Persistence.OutsideUntouched | motor/common/etcd/etcd_client.py:288-306 | Whatever fails, no key outside the prefix changes |
| Persistence.RefusedWipe | motor/common/etcd/etcd_client.py:288-306 | If the deletion is refused, which the save ignores, every row order restores the saved dictionary if and only if every old key with the prefix is read back under a saved name and is that name's own key or holds the saved value |
| Persistence.ReadsKeptIff | motor/common/etcd/etcd_client.py:194-210 | A save under one prefix leaves what is read under another as it was, for every store, data and outcome, if and only if neither namespaced prefix is a prefix of the other |
| Persistence.SlicingIsByCharacters | motor/common/etcd/etcd_client.py:327-366 | On encoded text, slicing is by characters of any width (section 3 of RFC 3629) |
| Persistence.NothingHappens | motor/common/etcd/etcd_client.py:288-325 | Without the lock nothing is deleted or written; a failed read or no rows restore nothing |
| Persistence.EtcdClient.PersistData | motor/common/etcd/etcd_client.py:288-306 | Result and store for every outcome of lock, deletion and puts |
| Persistence.EtcdClient.DeletePrefix | motor/common/etcd/etcd_client.py:194-210 | Store and result for every outcome |
| Persistence.EtcdClient.PutJson | motor/common/etcd/etcd_client.py:172-192 | Store and result for every outcome |
| Persistence.EtcdClient.GetPrefixData | motor/common/etcd/etcd_client.py:327-366 | The names sliced from the text of the keys, by characters, with the values of the rows, a later row winning |
| Persistence.EtcdClient.RestoreData | motor/common/etcd/etcd_client.py:308-325 | Nothing for a failed read and for no rows |
| LeaderElection.AtMostOneLeader | motor/common/standby/standby_manager.py:157-244 | Main. Over every run with any number of nodes, expiry, lost calls, late requests and crashes: at most one master has a living lease, and that lease holds the lock |
| LeaderElection.LoopHead | motor/common/etcd/etcd_client.py:124-170 | Main. At every loop head of every run a node is master exactly when it records a lease, if and only if the configured key starts with "/" or carries the namespace |
| LeaderElection.StuckForever | motor/common/etcd/etcd_client.py:102-170 | Otherwise a failed renewal leaves a standby that never becomes master again until its process restarts |
| LeaderElection.StaleMasterStepsDown | motor/common/standby/standby_manager.py:157-199 | A master whose lease has ended never leads again before stepping down, and makes at most six more moves as master |
| LeaderElection.AttemptWinsIff | motor/common/etcd/locks.py:38-101 | An undisturbed attempt wins if and only if the lock is free; a lost one leaves leases and lock as they were |
| LeaderElection.TwoMastersReachable | motor/common/standby/standby_manager.py:157-188 | Roles alone do not exclude each other: two masters coexist once the first lease has expired |
| LeaderElection.OneMasterIff | motor/common/standby/standby_manager.py:157-244 | Main. Over every run with any number of nodes: at most one node has the role of master in every state, if and only if no node that has recorded its lease takes the role while another has it |
| LeaderElection.OneMasterStep | motor/common/standby/standby_manager.py:209-244 | One step leaves at most one master if and only if it is not such a one |
| LeaderElection.OneOfTwoIsStale | motor/common/standby/standby_manager.py:157-244 | Of any two masters in any run at least one has a lease that has ended |
| LeaderElection.StoppingGivesBack | motor/common/standby/standby_manager.py:184-207 | Main. A master stopped at a loop head with its calls served: its lease has ended and the lock is free if it held it |
| LeaderElection.SuccessorWins | motor/common/standby/standby_manager.py:184-207 | So the next undisturbed attempt of another node wins |
| LeaderElection.StoppingForgets | motor/common/etcd/etcd_client.py:154-170 | When the revocation is lost the node still records no lease and is standby |
| LeaderElection.FailedRenewalGivesBack | motor/common/etcd/etcd_client.py:124-170 | With a stable key, a renewal without an answer also ends in a revoked lease and a standby |
| LeaderElection.LostTransactionIsUndone | motor/common/etcd/locks.py:38-101 | An attempt whose transaction got no answer gives its lease back, whether or not it was served |
| LeaderElection.LostGrantEndsAttempt | motor/common/etcd/locks.py:38-101 | An attempt whose grant got no answer is over; a lease granted all the same stays until it expires |
| LeaderElection.StoppedStandbyRests | motor/common/standby/standby_manager.py:157-188 | A stopped standby makes no move any more |
| LeaderElection.StepKeepsInv | motor/common/etcd/locks.py:38-101 | The invariant behind these, kept by every step of node, server and environment |
| StandbyManager.Lock.Acquire | motor/common/etcd/locks.py:38-101 | The calls sent, in order, with the revocation on every failure |
| StandbyManager.EtcdClient.AcquireLock | motor/common/etcd/etcd_client.py:102-122 | When a lease is recorded, and what stays |
| StandbyManager.EtcdClient.RenewLease | motor/common/etcd/etcd_client.py:124-152 | A failed renewal releases under the key namespaced twice |
| StandbyManager.EtcdClient.ReleaseLock | motor/common/etcd/etcd_client.py:154-170 | The lease is forgotten also when the revocation fails |
| StandbyManager.Manager.TryBecomeMaster | motor/common/standby/standby_manager.py:209-244 | Role and leases for every answer |
| StandbyManager.Manager.RenewMasterLock | motor/common/standby/standby_manager.py:190-199 | Result and leases for every answer |
| StandbyManager.Manager.LoopBody | motor/common/standby/standby_manager.py:157-188 | One pass, role and leases, for every answer |
| StandbyManager.PassIsRun | motor/common/standby/standby_manager.py:157-188 | From every state of server and other nodes, a pass with any answers the server can give ends where a run of the election protocol takes the node |
| StandbyManager.Manager.Leave | motor/common/standby/standby_manager.py:184-207 | A stopping master forgets exactly the lease of the lock and becomes standby; a standby keeps what it has |
| StandbyManager.Manager.MasterStandbyLoop | motor/common/standby/standby_manager.py:157-207 | Any number of passes, then the release: no lease is recorded after the last pass of a master, and none at all with a stable key |
| StandbyManager.PassKeepsRule | motor/common/standby/standby_manager.py:157-244 | A pass keeps "master exactly when a lease is recorded" if and only if the key is stable or no renewal failed |
| StandbyManager.PassesKeepRule | motor/common/standby/standby_manager.py:157-244 | The same over any number of passes |
| PoolLoads.EndpointLoadsAreRecords | motor/coordinator/domain/instance_manager.py:156-300 | Main. From the start of the coordinator, while instances are added, removed, replaced and switched between pools: an endpoint whose instance has stayed available since some moment carries, with the changes on their way, the surviving records of its requests, if and only if at that moment it carried what had been applied to it; gathered loads are the sums over endpoints |
| PoolLoads.StayingIsAccountedIff | motor/coordinator/domain/instance_manager.py:156-187 | The same from any pools and any earlier steps |
| PoolLoads.NewcomerIsAccountedIff | motor/coordinator/domain/instance_manager.py:319-352 | An instance that a message brings in at any moment is accounted for if and only if nothing was applied to the endpoint before; so it is if no task has named it |
| PoolLoads.ReturnIsAccountedIff | motor/coordinator/domain/instance_manager.py:241-273 | An instance switched off and on again is accounted for after its return if and only if the changes applied meanwhile cancel out |
| PoolLoads.ReaddedDrifts | motor/coordinator/domain/instance_manager.py:275-405 | A run: an instance dropped by a SET and added again carries nothing while a request still has its record |
| PoolLoads.AccountedAtRest | motor/coordinator/domain/instance_manager.py:156-187 | With no task running the load alone is the records |
| PoolLoads.StayingKeepsEntry | motor/coordinator/domain/instance_manager.py:241-300 | No change of the pools touches the entry of an instance that stays available |
| PoolLoads.WorkShows | motor/coordinator/domain/instance_manager.py:156-187 | Applying changes through the pool shows the loads of the interleaved runs |
| PoolLoads.ChargeHits | motor/coordinator/domain/instance_manager.py:156-187 | A change reaches the endpoint it names, no other, and keeps all endpoints |
| WorkloadReturns.BothReleasesClear | motor/coordinator/router/workload.py:99-125 | Main. With one allocation per request and role, and releases at any time and any endpoint: as soon as one of each kind has returned, the record is gone, its workload is zero, and the changes returned for it add up to zero if and only if no other release has an amount in hand; they are off by exactly what is in hand |
| WorkloadReturns.ReturnsLedger | motor/coordinator/router/workload.py:59-131 | Main. In every run, whatever the callers do: all changes returned for a request and role add up to what its workload objects hold, less what its releases have taken out and not returned yet |
| WorkloadReturns.ReturnsAreTheRecord | motor/coordinator/router/workload.py:59-131 | Main. With one allocation per key and no drop: returned changes and amounts in hand add up to the surviving record, zero if there is none; the returned changes alone do if and only if no release has an amount in hand |
| WorkloadReturns.ReturnsAreTheRecordIff | motor/coordinator/domain/request_manager.py:86-100 | With drops they add up to it if and only if no dropped object of the key still holds anything |
| WorkloadReturns.ThreeReleasesLag | motor/coordinator/router/workload.py:99-125 | A run of three releases: one of each kind has returned and the record is gone, while the other holds the whole amount |
| WorkloadRuns.StepKeepsUnique | motor/coordinator/router/workload.py:59-131 | The invariant behind it, kept by every step |
| WorkloadRuns.StepKeepsWellFormed | motor/coordinator/router/workload.py:59-131 | What every step keeps whatever the callers do |
| WorkloadRuns.StoreIsIdle | motor/coordinator/domain/request_manager.py:123-135 | Storing a record back never revives a deleted one nor replaces another |
| WorkloadBalance.LoadsAreConserved | motor/coordinator/router/workload.py:59-131 | Main. In every interleaving at the await points, dropped requests included: applied loads plus changes on their way equal the workload objects of each endpoint in every state, if and only if every step is harmless |
| WorkloadBalance.BalanceStep | motor/coordinator/router/workload.py:99-125 | One step keeps this if and only if it empties nothing, or an object of its own endpoint that no allocation still hands out, and is no refused record of an applied load |
| WorkloadBalance.Ledger | motor/coordinator/router/workload.py:59-131 | In every run, with no discipline at all, the difference is exactly the sum of the slips of its steps |
| WorkloadRecords.LoadIsTheRecords | motor/coordinator/router/workload.py:59-131 | Main. With one allocation per key, no slip and no drop, load plus changes on their way is the sum of the surviving records in every state, and the load alone once no task runs |
| WorkloadRecords.DropsLeakIff | motor/coordinator/domain/request_manager.py:86-100 | Main. Over runs with dropped requests: at the end all loads are the surviving records if and only if every field of every dropped record was empty or held by a release about to empty it |
| WorkloadRecords.AccountsIffNoOrphans | motor/coordinator/domain/request_manager.py:86-100 | In a balanced state the loads are the records at every endpoint if and only if every object without a record is empty |
| WorkloadRecords.DisciplineSuffices | motor/coordinator/router/strategies/base.py:226-286 | Allocating once, and releasing only what has been applied and at its endpoint, never slips |
| WorkloadRecords.FinalLoad | motor/coordinator/router/workload.py:59-131 | Once no task runs, a load is off by exactly the slips of the run |
| WorkloadRecords.EarlyReleaseSlips | motor/coordinator/router/workload.py:89-97 | An allocation hands out the recorded object itself: a release before it is applied takes the amount off twice |
| WorkloadRecords.EarlyReleaseDrifts | motor/coordinator/router/workload.py:89-97 | A run that so ends with a negative load and no record |
| WorkloadRecords.RefusedPreparationSlips | motor/coordinator/router/strategies/base.py:235-255 | A preparation applies its load before it is recorded: a refused record leaves the load behind |
| WorkloadRuns.DemandIsSound | motor/coordinator/domain/workload_calculator.py:23-61 | No demand is negative; it is zero only for an empty decode request |
| WorkloadRuns.DemandValues | motor/coordinator/domain/workload_calculator.py:23-61 | Base and slope of the prefill demand, the decode demand, and the hybrid one as their mean |
| RequestManager.AloneIsHandled | motor/coordinator/router/workload.py:59-131 | The interleaved system run one task at a time is the handler's own specification |
| RequestManager.WorkloadActionHandler.ComputeAndUpdate | motor/coordinator/router/workload.py:59-131 | Change and records on the mutable objects, as specified |
| RequestManager.WorkloadActionHandler.Allocate | motor/coordinator/router/workload.py:89-97 | Records and returns one new object, or nothing for a known key |
| RequestManager.WorkloadActionHandler.Release | motor/coordinator/router/workload.py:99-125 | Empties one field of the shared object, returns its negative, deletes the record when the other is empty |
| RequestManager.RequestManager.AddReqInfo | motor/coordinator/domain/request_manager.py:73-84 | A request is added once |
| RequestManager.RequestManager.DelReqInfo | motor/coordinator/domain/request_manager.py:86-100 | The request and all its records go; an unknown one changes nothing |
| RequestManager.RequestManager.AddReqWorkload | motor/coordinator/domain/request_manager.py:104-117 | Refused for a known key |
| RequestManager.RequestManager.UpdateReqWorkload | motor/coordinator/domain/request_manager.py:123-135 | Only for a known key |
| RequestManager.RequestManager.DelReqWorkload | motor/coordinator/domain/request_manager.py:137-149 | Only that key |
| RequestManager.RequestManager.GenerateRequestId | motor/coordinator/domain/request_manager.py:46-66 | Counter, timestamp and id |
| RequestIds.IdsAreUnique | motor/coordinator/domain/request_manager.py:46-66 | While the clock does not go back and its readings have equally many digits, no two ids are equal, whatever the random parts |
| RequestIds.NumbersDifferIff | motor/coordinator/domain/request_manager.py:46-66 | The pairs of timestamp and counter all differ, the initial one included, if and only if equal readings stand together, the initial zero included |
| RequestIds.RequestsDifferIff | motor/coordinator/domain/request_manager.py:46-66 | For a clock that does not start at zero: all requests get different pairs if and only if equal readings stand together |
| RequestIds.PartsAreUnique | motor/coordinator/domain/request_manager.py:46-66 | Ids are equal exactly if timestamp, counter and suffix are, for counters of any width |
| RequestIds.PaddedWidth | motor/coordinator/domain/request_manager.py:46-66 | The counter has four digits, more only from ten thousand on |
| Metrics.AggregateConserves | motor/coordinator/metrics/metrics_collector.py:440-523 | Main. Every metric not averaged keeps the flat sum of every label, and no label appears or disappears |
| Metrics.AggregateAverages | motor/coordinator/metrics/metrics_collector.py:455-523 | Main. For the cache usage, each label of the result times the number of metrics aggregated is its flat sum over all lists, and no label appears or disappears |
| Metrics.AggregateHeads | motor/coordinator/metrics/metrics_collector.py:467-490 | Help and type of an aggregated metric are those of the first with its name |
| Metrics.AggregateKeepsOrder | motor/coordinator/metrics/metrics_collector.py:492-523 | The result has the names of the longest list in its order |
| Metrics.SumsKeepOrder | motor/coordinator/metrics/metrics_collector.py:440-453 | Labels stand in the order they are first seen |
| Metrics.AggregateSucceeds | motor/coordinator/metrics/metrics_collector.py:492-523 | The lookup succeeds if and only if the first longest list has every name |
| Metrics.AggregateNeedsCover | motor/coordinator/metrics/metrics_collector.py:492-523 | For lists with each name once: if and only if some list has every name |
| Metrics.AggregateNames | motor/coordinator/metrics/metrics_collector.py:492-523 | The result has each name of the longest list once |
| Metrics.SumsAreTotals | motor/coordinator/metrics/metrics_collector.py:440-453 | The dictionary holds the sum of each label's values |
| Metrics.SumsAreDistinct | motor/coordinator/metrics/metrics_collector.py:440-453 | Each label once |
| Metrics.AggregateLabelsBySum | motor/coordinator/metrics/metrics_collector.py:440-453 | The nested loops compute that dictionary |
| Metrics.AggregateLabelsByMean | motor/coordinator/metrics/metrics_collector.py:455-465 | Each sum divided by the number of metrics |
| Metrics.AggregateOneAverages | motor/coordinator/metrics/metrics_collector.py:467-490 | For a metric of that name, each label times the number of metrics is the sum of its values |
| Metrics.AggregateMetricCommon | motor/coordinator/metrics/metrics_collector.py:467-490 | Name, help and type of the first, summed or averaged by name |
| Metrics.AggregateMetricsCommon | motor/coordinator/metrics/metrics_collector.py:492-523 | Longest list, grouping with failing lookup, aggregation per name |
| Metrics.FindLongest | motor/coordinator/metrics/metrics_collector.py:492-523 | The first list of maximal length |
| MetricsCollector.FoldKeepsExport | motor/coordinator/metrics/metrics_collector.py:571-658 | Main. If export and folding succeed, the export after the folding succeeds with the same totals, gauges included, as long as an instance stays cached |
| MetricsCollector.FoldKeepsTotalsIff | motor/coordinator/metrics/metrics_collector.py:571-658 | The totals are kept if and only if an instance stays cached or the earlier export had none |
| MetricsCollector.TwoLevelsAreFlat | motor/coordinator/metrics/metrics_collector.py:525-601 | Main. Per endpoint, per instance, then over all gives the flat sums, plus instances not read again and the history |
| MetricsCollector.ExportNeedsTop | motor/coordinator/metrics/metrics_collector.py:571-601 | The export succeeds if and only if the history or a cached instance has every name |
| MetricsCollector.NewHistoryNames | motor/coordinator/metrics/metrics_collector.py:626-658 | The new history has the names of the old one and of every folded instance, each once |
| MetricsCollector.MaskGauge | motor/coordinator/metrics/metrics_collector.py:585-590 | An inactive instance's gauge keeps its labels and totals zero |
| MetricsCollector.MaskOther | motor/coordinator/metrics/metrics_collector.py:585-590 | Everything else counts in full |
| MetricsCollector.MetricsCollector.AggregateMetricsByInstance | motor/coordinator/metrics/metrics_collector.py:525-569 | The cache after the loop; failure exactly on a failed lookup |
| MetricsCollector.MetricsCollector.AggregateMetricsAllInstance | motor/coordinator/metrics/metrics_collector.py:571-601 | The export over masked instances and history |
| MetricsCollector.MetricsCollector.ClearInactiveMetrics | motor/coordinator/metrics/metrics_collector.py:626-658 | History and cache after folding; a failed lookup changes nothing |
| MetricsText.PrintThenParse | motor/coordinator/metrics/metrics_collector.py:258-375 | Main. Printing and parsing a well-formed list gives it back with engine sub-labels removed if no label starts with "#", and is rejected otherwise; so it is unchanged if and only if no label starts with "#" or has the sub-label |
| MetricsText.ParseMetricText | motor/coordinator/metrics/metrics_collector.py:335-375 | The index-driven loops compute the specified parse, with both ways to fail |
| MetricsText.ParseMetricBody | motor/coordinator/metrics/metrics_collector.py:368-374 | The inner loop up to the next comment |
| MetricsText.SerializeMetrics | motor/coordinator/metrics/metrics_collector.py:603-612 | The printed text |
| MetricsText.HelpReadsBack | motor/coordinator/metrics/metrics_collector.py:258-278 | A help line reads back as name and help |
| MetricsText.TypeReadsBack | motor/coordinator/metrics/metrics_collector.py:280-302 | A type line reads back as its type |
| MetricsText.SampleReadsBack | motor/coordinator/metrics/metrics_collector.py:304-333 | A sample line reads back, its label without the engine sub-label |
| MetricsText.HashedMetricIsRejected | motor/coordinator/metrics/metrics_collector.py:335-375 | The body ends at the first label that starts like a comment line, and the text is rejected there |
| MetricsText.WithoutEngineShrinks | motor/coordinator/metrics/metrics_collector.py:321-323 | Removal changes a label if and only if it has the sub-label |
| MetricsGrammar.ReadIff | motor/coordinator/metrics/metrics_collector.py:258-375 | Main. A text is read as given metrics if and only if, without outer white space, its lines are a help line, a type line and samples with non-negative values for each of them in order |
| MetricsGrammar.OuterSpaceIsIgnored | motor/coordinator/metrics/metrics_collector.py:335-375 | White space around a text changes nothing |
| MetricsGrammar.BodyRaisesIff | motor/coordinator/metrics/metrics_collector.py:368-374 | An index error comes exactly from an empty line where a sample is expected |
| MetricsGrammar.FirstEngineGoes | motor/coordinator/metrics/metrics_collector.py:321-323 | The first sub-label is cut out, what stands before it stays, and the rest is treated the same way |
| MetricsGrammar.EngineIs | motor/coordinator/metrics/metrics_collector.py:321-323 | Wherever engine="<digits>", stands it is found, in full length |
| MetricsGrammar.EngineIsOnly | motor/coordinator/metrics/metrics_collector.py:321-323 | And nothing else is |
| MetricsGrammar.KindIff | motor/coordinator/metrics/metrics_collector.py:280-302 | Types are known by their names in any case |
| ConfigWhitelist.ReportIsExact | examples/deployer/lib/update_config_whitelist.py:91-145 | Main. The report is exactly the rendered paths of the topmost clashes of the two trees |
| ConfigWhitelist.DifferenceIsCovered | examples/deployer/lib/update_config_whitelist.py:91-145 | Every path with different scalars (missing as null) lies at or below a reported one |
| ConfigWhitelist.ReportIsSymmetric | examples/deployer/lib/update_config_whitelist.py:91-145 | The report does not depend on which tree is which |
| ConfigWhitelist.AcceptanceIsExact | examples/deployer/lib/update_config_whitelist.py:148-157 | Main. For keys free of "." and "[": accepted if and only if every topmost clash, seen without lost keys, is at a whitelisted leaf |
| ConfigWhitelist.AcceptedClashesAreAllowedIff | examples/deployer/lib/update_config_whitelist.py:148-157 | Then all topmost clashes of accepted trees are at whitelisted leaves if and only if none lies below an empty first key directly followed by a key |
| ConfigWhitelist.AcceptedDifferencesAreAllowed | examples/deployer/lib/update_config_whitelist.py:148-157 | Every scalar difference of accepted trees lies at or below a clash that is seen, and if nothing is lost is, at a whitelisted leaf |
| ConfigWhitelist.SplitUndoesRender | examples/deployer/lib/update_config_whitelist.py:67-88 | Splitting a rendered path that loses nothing at dots and cutting at brackets gives its keys back |
| ConfigWhitelist.KeysComeBackIff | examples/deployer/lib/update_config_whitelist.py:67-98 | A rendered path gives its keys back if and only if it does not start with an empty key directly followed by a key |
| ConfigWhitelist.EmptyKeyPasses | examples/deployer/lib/update_config_whitelist.py:148-157 | A tree with such a key is accepted for every value, although its only clash is not at a whitelisted leaf |
| ConfigWhitelist.PathIsWhitelisted | examples/deployer/lib/update_config_whitelist.py:75-88 | The loop accepts exactly the key paths that end at a leaf of the tree |
| ConfigWhitelist.ValidateUpdateConfigWhitelist | examples/deployer/lib/update_config_whitelist.py:148-157 | The illegal paths, none exactly if accepted |
| ConfigWhitelist.UpdatableIff | examples/deployer/lib/update_config_whitelist.py:14-64 | The settings that may be updated, by their keys, and no others |
| ConfigWhitelist.SameMeans | examples/deployer/lib/update_config_whitelist.py:91-145 | When two scalars count as equal |
| TokenBucket.GrantBound | motor/coordinator/middleware/rate_limiter.py:35-78 | Main. In every run the tokens granted between two moments are at most capacity plus rate times their distance |
| TokenBucket.WindowBound | motor/coordinator/middleware/rate_limiter.py:95-104 | A window of the configured length grants at most twice the configured requests |
| TokenBucket.BoundIsTight | motor/coordinator/middleware/rate_limiter.py:95-104 | And that many can be granted |
| TokenBucket.RefusedCostsNothing | motor/coordinator/middleware/rate_limiter.py:49-68 | A refused call costs nothing: at every later moment the level is as if it had not been made |
| TokenBucket.GrantedCostsItsAmount | motor/coordinator/middleware/rate_limiter.py:49-68 | A call is granted exactly if the level covers it, and then costs its amount |
| TokenBucket.LevelStaysInRange | motor/coordinator/middleware/rate_limiter.py:35-64 | The level stays between zero and the capacity |
| TokenBucket.GrantedIffAvailable | motor/coordinator/middleware/rate_limiter.py:48-78 | A whole number is granted exactly if it is at most what is reported as available |
| TokenBucket.TruncatesTowardsZero | motor/coordinator/middleware/rate_limiter.py:71-78 | The reported number is the level cut towards zero |
| TokenBucket.TokenBucket.TryConsume | motor/coordinator/middleware/rate_limiter.py:49-68 | Result and state |
| TokenBucket.TokenBucket.GetAvailableTokens | motor/coordinator/middleware/rate_limiter.py:71-78 | The truncated level, without changing it |
| RestartLimiter.AtMostFivePerWindow | motor/coordinator/daemon/subprocess_supervisor.py:33-110 | Main. Over the life of a process no closed sixty-second window has more than five recorded restarts |
| RestartLimiter.RestartsIff | motor/coordinator/daemon/subprocess_supervisor.py:33-110 | Main. In every life of a process, a round restarts it if and only if the start succeeds and fewer than five restarts were recorded in the sixty seconds up to the check |
| RestartLimiter.RoundKeeps | motor/coordinator/daemon/subprocess_supervisor.py:67-110 | What is forgotten is out of the window, and any six records in a row span more than it |
| RestartLimiter.CheckAndRestart | motor/coordinator/daemon/subprocess_supervisor.py:83-97 | One round of the supervisor on the limiter |
| RestartLimiter.RestartLimiter.CanRestart | motor/coordinator/daemon/subprocess_supervisor.py:43-46 | Prunes, then compares |
| RestartLimiter.RestartLimiter.PruneOld | motor/coordinator/daemon/subprocess_supervisor.py:48-51 | The loop drops exactly the leading old records |
| Numbering.NumbersAreUsedOnce | motor/controller/core/instance_assembler.py:268-474 | Main. After any registrations, repeated ones included: endpoint ids are 0..n-1, each once, and global ranks 0..n*tp*pp-1, each once, if and only if every pod that gets numbered has a full unit of devices for each endpoint |
| Numbering.SlicesOfThePod | motor/controller/core/instance_assembler.py:419-474 | Within a pod the devices are disjoint slices below its device count |
| Numbering.PortsComeFromFirst | motor/controller/core/instance_assembler.py:298-456 | After any registrations each pod has the business and management ports of the first message about it, in order |
| Numbering.CountIsLargest | motor/controller/core/instance_assembler.py:419-445 | A pod gets as many endpoints as its devices allow |
| Numbering.ShortPodLeavesGap | motor/controller/core/instance_assembler.py:403-417 | A numbered single-endpoint pod with too few devices leaves ranks missing for good |
| Numbering.BuildMultiEndpoints | motor/controller/core/instance_assembler.py:419-456 | One endpoint per port as far as the devices go |
| Numbering.BuildEndpoints | motor/controller/core/instance_assembler.py:385-417 | Either mode |
| Numbering.BuildDeviceInfos | motor/controller/core/instance_assembler.py:458-474 | Local and global numbers, cut at the device count |
| Numbering.Instance.Register | motor/controller/core/instance_assembler.py:298-311 | A known pod changes nothing; a new one is numbered after all endpoints so far |
| Numbering.Instance.GetEndpointsNum | motor/common/resources/instance.py:341-345 | The number over all pods |
| Tiling.PortsDisjointIff | motor/config/node_manager.py:139-156 | Main. Endpoint port windows never overlap if and only if there is at most one prefill instance, or equal data-parallel sizes, or no decode instance and the decode size is not smaller |
| Tiling.DevicesTile | motor/config/node_manager.py:139-156 | Every device of the initial interval is used by exactly one instance, none beyond |
| Tiling.NeighboursTouch | motor/config/node_manager.py:139-156 | Devices of neighbouring instances follow each other, decode instances after the prefill ones |
| Tiling.PortsCountUp | motor/config/node_manager.py:139-156 | Node-manager and RPC offsets go up by one; where those of decode instances start |
| Tiling.ManagerPortsDiffer | motor/config/node_manager.py:139-156 | Node-manager and RPC port offsets are pairwise distinct |
| Tiling.GenerateEndpointPorts | motor/config/node_manager.py:384-415 | Port pairs from the base on, as many as fit; refused otherwise |
| Tiling.EndpointNumIsLargest | motor/config/node_manager.py:384-415 | One endpoint, or as many as the devices allow up to the data-parallel size |
| Tiling.RefusedIff | motor/config/node_manager.py:384-415 | Exactly which configurations are refused |
| Tiling.PortsInWindow | motor/config/node_manager.py:384-415 | All ports lie in the instance's window |
| LogRetention.CleanupPartitions | motor/common/logger/logger_handler.py:253-293 | Main. Kept and queued files partition the directory, protected files are never queued, kept size and count are within the limits or those of the protected files |
| LogRetention.SecondPassQueuesNothing | motor/common/logger/logger_handler.py:253-293 | Main. A second pass over the survivors in any order queues nothing |
| LogRetention.ProtectedAreNewest | motor/common/logger/logger_handler.py:270-277 | The protected files are the newest uncompressed ones |
| LogRetention.KeptWithinLimits | motor/common/logger/logger_handler.py:253-293 | Beyond the protected files only within both limits |
| LogRetention.QueuedOnlyWithoutRoom | motor/common/logger/logger_handler.py:253-293 | Main. A queued file exceeded the size or the count beside the protected files and the kept ones at least as new |
| LogRetention.QuietIsKept | motor/common/logger/logger_handler.py:253-268 | A directory within both limits is left alone |
| LogRetention.SortIsStable | motor/common/logger/logger_handler.py:253-277 | Files of the same time keep their order |
| LogRetention.Cleaner.PerformCleanup | motor/common/logger/logger_handler.py:253-293 | The queue grows by exactly the planned paths |
| EndpointCache.Instance.GetAllEndpoints | motor/common/resources/instance.py:352-384 | The cached list is what a fresh rebuild gives |
| EndpointCache.Instance.AddEndpoints | motor/common/resources/instance.py:177-196 | The pod's endpoints are set and the version grows |
| EndpointCache.Instance.DelEndpoints | motor/common/resources/instance.py:198-210 | The pod goes and the version grows, or nothing |
| EndpointCache.SetPodFinds | motor/common/resources/instance.py:177-196 | Under the added address its endpoints are found, under every other the same as before, in the same order of pods |
| EndpointCache.DropPodFinds | motor/common/resources/instance.py:198-210 | Under the deleted address nothing is found, under every other the same as before |
| EndpointCache.AllIsEverySelected | motor/common/resources/instance.py:352-384 | The list holds exactly the endpoints the mode selects |
| EndpointCache.AllInOrder | motor/common/resources/instance.py:352-384 | In the order of the pods |

## Left out

- gRPC, HTTP, ZeroMQ, TLS, Kubernetes, shared memory and process handling: each remote call is an outcome given as a parameter or chosen by the environment.
- Scheduling policies, router and recovery strategies: they only call what is modelled; of `prepare_resource` the order of its two effects is modelled, its retries being further tasks, and policies that account no load are left out.
- Threads and locks: code between two awaits is one step, and so is a whole handler of the controller, although it holds the lock only around single lookups and set operations; `HandlerRaces` cuts reactions and separations where other threads come in, for the forced set and the statuses but not for the notices. The pusher's put, outside its lock, is a step of its own.
- Cancellation of a task between two awaits of a release: such a task would never apply its change.
- CoordinatorPools.InstanceManager.RefreshInstances: pools hold instances as values, role pools the ids they share with the available pool, and the endpoint cache positions, so that sharing one object between pools is not captured; an id is assumed to keep its role; the rebuild of a missing cache entry cannot happen in the modelled states.
- Replication.Converges: messages carry sets of instances rather than lists, and an id keeps its role.
- Lifecycle.AnnouncedEqualsActive: restoring the controller from etcd is not a step of the run; the pusher's map and the forced set are not part of the restored data in the source.
- Faults.FaultControl: strategy completion, which declares an instance healthy without recovering it, is not a step of the run; deletion of nodes and alarms are left out.
- LeaderElection.AtMostOneLeader: the lock of a save operation and the `should_report_event` flag use the same client but other keys, and are not part of the election model.
- StandbyManager.Manager.TryBecomeMaster: the retry loop is left out, because the client turns every failure into a refusal and the loop always ends in its first round.
- Persistence.PersistThenRestore: saving and restoring are not interleaved with other writers; JSON encoding is taken to be invertible, and keys are their UTF-8 bytes, so that a stored key that cannot be decoded, which fails the whole read, does not occur.
- Metrics.AggregateConserves: the averaged metric is excluded here and in the collector's totals, because the mean of means is not the mean; what one aggregation does to it is `Metrics.AggregateAverages`; lists of labels and values are one list of samples.
- MetricsText.PrintThenParse: printing and reading a number are parameters that undo each other; white space is that of ASCII and Latin-1, and upper case that of ASCII.
- MetricsCollector.MetricsCollector.AggregateMetricsAllInstance: the coordinator's own four gauges, appended after aggregation, are left out.
- ConfigWhitelist.ReportIsExact: the report is a set; the source's order and repetitions do not reach the validator's verdict.
- TokenBucket.GrantBound: congestion alarms are left out, and so is rounding of floating-point numbers.
- RestartLimiter.AtMostFivePerWindow: one process at a time; the supervisor keeps one limiter for each and they do not interact.
- Numbering.NumbersAreUsedOnce: rank tables, re-registration and the removal of unreachable pods, after which later numbers can repeat.
- LogRetention.CleanupPartitions: listing the directory and deleting the queued files are left out; files are assumed distinct, as their paths are.
- EndpointCache.Instance.GetAllEndpoints: the heartbeat loop is one write to one endpoint here; the whole loop is `ControllerManager.Instance.UpdateHeartbeat`.
- Alarm records, configuration loading, YAML generation and log texts: plumbing without state that spans operations.
