# Primus-SaFE kernels in Dafny

Models of the concurrent and arithmetic kernels of Primus-SaFE and proofs about them. Where the source updates state
in place, the model is a class or an array method proved against a specification function; where threads or ranks
interleave, it is a step system in which one lock-protected body, one queue call, one file system call or one
statement is a step, and the results hold for every schedule. Run `dafny verify dfyconfig.toml`.

* **Keyed controller** (`WorkQueue`, `KeyedController`, `KeyedSystem`, `KeyedOrder`, `KeyedPayloads`, `KeyedDrain`). A
  work queue hands out keys; a side map holds the merged payload of each key. Adders, workers and timers interleave.
  `Config` takes any merge function. A history per key records the messages staged, acknowledged and in flight, so
  that "nothing is lost, duplicated or reordered" is a statement about payloads, and it turns out to hold exactly for
  merge functions under which merging two merged segments of a key merges both, and which keep a first message as it
  is.
* **Faulty-node diagnosis** (`Diagnosis`, `DiagnosisSteps`, `DiagnosisRuns`). The tree of recursive calls, the shared
  queue of healthy nodes and the failure counter. The bandwidth test is an oracle: a group passes if and only if it
  has at least two nodes and none is faulty. Timeouts and exceptions inside a tester are steps too.
* **Workload aggregate** (`Decimal`, `Quantity`, `NodeUsage`, `Readers`, `ResourceUsage`, `Workload`). The per-node
  index that may replace the pod list in a status, and every reader through both of its paths. A quantity is a number
  of milli-units.
* **Gang placement** (`Allocation`, `AllocationShape`, `RackFilter`, `Permit`). Node counts per rack (variance over
  reals), the choice of nodes, the rank order of a pod group, the Permit gate, and runs of Permit and bind.
* **Replica supervision** (`ReplicaActor`, `ReplicaSystem`, `ReplicaRuns`, `ReplicaThreads`). The event loop with one
  supervision thread, and with any number of overlapping supervision calls, one statement a step.
* **Key exchange** (`KeyExchange`, `KeyExchangeRuns`). N ranks publish keys and node infos in a shared directory, wait
  at a barrier and assemble authorized_keys and SSH config.
* **Workspace nodes** (`NodesAction`, `ScaleDown`). Node actions iterated in map order, and the choice of nodes to
  give up.
* **Benchmark fitting** (`AdaptNodes`, `Multiples`). Node count and global batch size for given parallel degrees.

Some promises turn out to be conditional. Each condition is proved necessary and sufficient, or the failing family is
exhibited by a run:

* Payloads are exact in every schedule iff the merge function keeps a first message and merging two merged segments of
  a key merges both (`KeyedPayloads.FaithfulIffSegments`); for a function that stays within a key this is
  associativity (`KeyedPayloads.FaithfulIffAssociative`). The comment on MergeFunc asks for neither.
* Diagnosis returns exactly the faulty nodes iff the halving meets a group that passes, or nothing is healthy
  (`DiagnosisRuns.ExactIffCleanGroup`).
* The comments in node_usage.go promise the same answers as the pod scan. IsPodRunning
  (SaFE/apis/pkg/apis/amd/v1/workload_types.go:398-403) accepts a Stopped pod and IsPodTerminated, which the aggregate
  uses, drops it; and the scan keeps the list of a single pod as it is where the aggregate keeps concerned keys only.
  So per-node resources are equal iff no Stopped pod still names a wanted node and no wanted node has a single counted
  pod whose list holds an unconcerned key (`Workload.PerNodeAgreeIff`). One workload's busy nodes agree iff each node
  of a Stopped pod also hosts an active one (`Workload.ClearedUsedNodesAgreeIffCovered`); the nodes in use, which the
  idle-node reader collects over all workloads, agree iff each node of a live workload's Stopped pod is still shown by
  some live workload (`ScaleDown.OffloadKeepsIdleIff`). The comment on IsPodRunning says "Running phase"; the code
  accepts every phase but two.
* The guard in `filter` measures rack i where it slices rack j. The model keeps the code: it slices past the end of a
  rack iff a visited rack is shorter than the fitting size (`RackFilter.Filter`,
  `RackFilter.FitMeetsShortRackWhenSorted`); in all other cases which nodes are taken from which rack is stated for
  each of the four strategies (`RackFilter.IsPlan` in the contract of `RackFilter.Filter`).
* Pods are scheduled in rank order in every run iff no two pods tie below a third (`Permit.ScheduledInRankOrderIff`).
  The runs are of gate openings; for a MinMember of at most 1 an open gate is a success (`Permit.PermitPod`).
* With the event loop and one supervision thread, attempts and generations stay in step in every run, failed
  allocations included (`ReplicaThreads.TwoThreadsKeepStep`). Should supervision calls overlap, they do so iff no
  fetch of a new allocation raises (`ReplicaThreads.AttemptsFollowIff`): a call that has passed its guards in an old
  generation can then count an attempt after an aborted restart. The source says that the calls come from a Rust
  thread, and nothing in it shows that they overlap.
* Every authorized_keys lists every rank iff key files appear with their contents or there is one rank
  (`KeyExchangeRuns.ListsEveryoneIff`); write_text creates the file first and fills it afterwards. The barrier counts
  key files, which a rank writes before its node info: so every SSH config lists every rank iff there is one rank,
  atomic writes or not (`KeyExchangeRuns.ConfiguresEveryoneIff`).
* A broadcast that raises counts an attempt iff its generation is current and no restart is under way
  (`ReplicaRuns.FailedBroadcastCountsIff`). In a restart the flag is still set, so the failure is dropped and the
  generation stays marked as active (`ReplicaRuns.RestartLosesBroadcast`).
* A node action goes through and conserves replicas in every iteration order iff its nodes are known and in the
  cluster, removes do not exceed the replica, and flavors agree (`NodesAction.ConservedIff`); a request that repeats
  the actions in progress in other words counts them once more (`NodesAction.ResubmittedActionsCountAgain`), which
  leaves the replica alone in every order iff adds and removes balance within it or an empty workspace is asked for
  removes only (`NodesAction.UnchangedIffBalanced`).

## Model

| member | source | states |
|---|---|---|
| WorkQueue.OperationsKeepCoherent | SaFE/common/pkg/controller/keyed_controller.go:118-166 | the queue contract the controller relies on: the waiting list holds exactly the dirty keys nobody processes, and Get never hands out a key in process |
| WorkQueue.WaitingIsFirstInFirstOut | SaFE/common/pkg/controller/keyed_controller.go:118-136 | Get hands out the first waiting key, and every other operation leaves the waiting list alone or puts its key last |
| KeyedController.Controller.Stage | SaFE/common/pkg/controller/keyed_controller.go:75-90 | the new side map is the specified one, for nil and non-nil merge function, and the queue is untouched |
| KeyedController.Controller.Restage | SaFE/common/pkg/controller/keyed_controller.go:92-105 | a retried message goes back as the older part of the pending payload |
| KeyedController.Controller.Take | SaFE/common/pkg/controller/keyed_controller.go:107-116 | returns the payload and removes just that key |
| KeyedController.Controller.Add | SaFE/common/pkg/controller/keyed_controller.go:118-121 | stages, then enqueues the key, which joins the waiting keys at the end (WaitingIsFirstInFirstOut) |
| KeyedController.Controller.AddAfter | SaFE/common/pkg/controller/keyed_controller.go:123-126 | stages, then enqueues the key with a delay |
| KeyedController.Controller.ProcessNext | SaFE/common/pkg/controller/keyed_controller.go:132-166 | queue and side map after one undisturbed turn, for every handler outcome |
| KeyedController.TurnLeaves | SaFE/common/pkg/controller/keyed_controller.go:132-166 | on success the payload is gone; otherwise it is back unchanged and its key is due once more, twice for a delay with a requeue; other keys are untouched |
| KeyedDrain.TurnRefinesSteps | SaFE/common/pkg/controller/keyed_controller.go:132-166 | that turn is one schedule of the atomic steps, so the class and the step system agree |
| KeyedSystem.RunKeepsStructure | SaFE/common/pkg/controller/keyed_controller.go:75-166 | every schedule keeps: one worker per key, acknowledged ++ in flight ++ pending is the arrival order, no payload is stranded |
| KeyedSystem.ReachableStructure | SaFE/common/pkg/controller/keyed_controller.go:64-73 | the same for every state reachable from an empty controller with any number of workers |
| KeyedOrder.HandedOutInOrder | SaFE/common/pkg/controller/keyed_controller.go:118-166 | in every interleaving keys are handed to workers exactly in the order in which they became waiting |
| KeyedOrder.WaitsItsTurn | SaFE/common/pkg/controller/keyed_controller.go:118-166 | the key at position i is handed out by the (i+1)-th Get from now on, whatever is added meanwhile: no waiting key is starved or overtaken |
| KeyedDrain.DoIsSerializedPerKey | SaFE/common/pkg/controller/keyed_controller.go:132-166 | no two workers are between Get and Done on one key |
| KeyedPayloads.FoldConcat | SaFE/common/pkg/controller/keyed_controller.go:92-105 | merging two merged segments merges their concatenation, under the merge laws |
| KeyedPayloads.RunKeepsFaithful | SaFE/common/pkg/controller/keyed_controller.go:75-166 | under the two laws, pending and in-flight payloads are the merges of exactly their segments after any schedule |
| KeyedPayloads.FaithfulIffSegments | SaFE/common/pkg/controller/keyed_controller.go:75-105 | for every merge function, payloads are exact in all schedules iff it keeps a first message and merging two merged segments of a key merges both |
| KeyedPayloads.SegmentLawIffAssociative | SaFE/common/pkg/controller/keyed_controller.go:75-105 | that law implies associativity per key, and follows from it when merging stays within a key, or from associativity on all messages |
| KeyedPayloads.FaithfulIffAssociative | SaFE/common/pkg/controller/keyed_controller.go:75-105 | a merge function that stays within a key is exact in all schedules iff it is associative per key and keeps a first message |
| KeyedPayloads.HandlerSeesTheLog | SaFE/common/pkg/controller/keyed_controller.go:132-166 | the calls of Do cover the log in order: each starts where the last one started (retry) or ended (success) and gets the merge of its stretch |
| KeyedPayloads.LatestWinsNeverGoesBack | SaFE/common/pkg/controller/keyed_controller.go:75-105 | with nil merge function Do never sees an older message after a newer one |
| KeyedDrain.QuiescentIsEmpty | SaFE/common/pkg/controller/keyed_controller.go:118-166 | at rest the side map is empty and every staged message is acknowledged |
| KeyedDrain.DrainStepExists | SaFE/common/pkg/controller/keyed_controller.go:132-166 | unless at rest, some step is enabled: the pool never deadlocks |
| KeyedDrain.DrainTerminates | SaFE/common/pkg/controller/keyed_controller.go:132-166 | once staging stops, every schedule is bounded by the work at hand plus 57 steps for each failing call of Do, and where no drain step is left everything is acknowledged |
| DiagnosisSteps.StepConserves | Bench/preflight/network/binary_diagnose.py:510-601 | no step loses or invents a node, counting borrowed ones, and a node there once stays there once; copies from a repeated line may fall together in a set |
| DiagnosisSteps.StepAccounts | Bench/preflight/network/binary_diagnose.py:545-576 | passed, counted and open groups add up; tests run plus tests to come never grow |
| DiagnosisRuns.RunKeepsInvariant | Bench/preflight/network/binary_diagnose.py:510-601 | the invariant holds in every interleaving, timeouts and exceptions included, and bounds the run |
| DiagnosisRuns.PoolIsHealthy | Bench/preflight/network/binary_diagnose.py:555-560 | no faulty node ever enters the queue; fewer than 3n tests on n nodes |
| DiagnosisRuns.FewTests | Bench/preflight/network/binary_diagnose.py:487-576 | the tests of a run, counted on its schedule, are fewer than 3n |
| DiagnosisRuns.LentInOrder | Bench/preflight/network/binary_diagnose.py:510-535 | in every interleaving healthy nodes are lent in the order in which they were queued |
| DiagnosisRuns.GroupIsHalved | Bench/preflight/network/binary_diagnose.py:545-600 | a group that passes is published whole, a failed group of more than two is cut into halves differing by at most one, a smaller one is counted |
| DiagnosisRuns.SmallGroupIsChecked | Bench/preflight/network/binary_diagnose.py:559-566 | wherever it is in the tree of calls, a small failed group is accused at once iff the counter reaches the total with it, and the queue is always empty then; otherwise each node gets a tester |
| DiagnosisRuns.GiveUpIsSound | Bench/preflight/network/binary_diagnose.py:530-534 | once the counter reaches the total, no healthy node is queued, borrowed or about to be queued |
| DiagnosisRuns.AnswerCoversInput | Bench/preflight/network/binary_diagnose.py:545-601 | at the end the answer and the queue hold exactly the input's nodes, and all faulty ones are in the answer, repeated lines or not |
| DiagnosisRuns.AnswerPartitionsInput | Bench/preflight/network/binary_diagnose.py:545-601 | at the end each of distinct input nodes is once in the answer or once in the queue |
| DiagnosisRuns.AnswerIsDetermined | Bench/preflight/network/binary_diagnose.py:545-601 | the answer of an undisturbed run does not depend on the schedule |
| DiagnosisRuns.ExactIffCleanGroup | Bench/preflight/network/binary_diagnose.py:545-601 | it is exactly the faulty set iff the halving meets a clean group or nothing is healthy |
| DiagnosisRuns.NeverStuck | Bench/preflight/network/binary_diagnose.py:517-543 | every unfinished state has a move that is no timeout: polling testers never deadlock |
| DiagnosisRuns.RunsAreShort | Bench/preflight/network/binary_diagnose.py:545-601 | every run has at most 12n steps that are not fruitless polls |
| Decimal.RidRoundTrip | SaFE/common/pkg/workload/node_usage.go:19-30 | parseRid undoes ridKey |
| Decimal.KeyIsDecimal | SaFE/common/pkg/workload/node_usage.go:19-21 | the key is the plain decimal numeral, with a minus sign for a negative id |
| Quantity.AddResource | SaFE/common/pkg/quantity/quantity.go:21-36 | the sum over the concerned keys, whatever order the maps are ranged over |
| Quantity.PlusAllAt | SaFE/common/pkg/quantity/quantity.go:21-36 | that sum names exactly the concerned resources some list names, listed here by name, each with what all lists ask for |
| Quantity.MultiResource | SaFE/common/pkg/quantity/quantity.go:189-199 | for any multiplier, fractional, zero or negative: a multiplier of 1 copies, otherwise quantities are whole units times the multiplier, rounded |
| Quantity.ScaledBy | SaFE/common/pkg/quantity/quantity.go:189-199 | within one billionth of 1 the multiplier copies; any other multiplies whole units and rounds, key by key |
| Quantity.ScaledByReplica | SaFE/common/pkg/quantity/quantity.go:189-199 | for a whole number of replicas only the rounding to whole units remains |
| Quantity.ScaledByZero | SaFE/common/pkg/quantity/quantity.go:189-199 | a multiplier of 0 keeps the keys and zeroes every quantity |
| Quantity.RoundIsNearest | SaFE/common/pkg/quantity/quantity.go:189-199 | the scaled value is rounded to the nearest whole number, halves away from zero |
| Quantity.ValueCovers | SaFE/common/pkg/quantity/quantity.go:189-199 | the whole units a quantity is scaled in are the fewest that cover it, away from zero |
| Quantity.AddResourceNTimes | SaFE/common/pkg/workload/node_usage.go:106-112 | n-fold addition; negative n adds nothing |
| NodeUsage.BuildNodeUsage | SaFE/common/pkg/workload/node_usage.go:39-70 | one entry per node with an active pod, with exact active and running counts per resource id |
| NodeUsage.UsageIsByPhase | SaFE/common/pkg/workload/node_usage.go:39-70 | a node has an entry iff one of its pods is pending, running or of unknown phase |
| Readers.ResourcesPerNodeFromUsage | SaFE/common/pkg/workload/node_usage.go:81-104 | a list for exactly the wanted nodes with counted pods: exactly the sum over the active pods the aggregate was built from |
| Readers.ResourcesPerNodeFromPods | SaFE/common/pkg/workload/workload.go:109-140 | the same over the pods IsPodRunning accepts, except that a single pod's list is returned as it is |
| ResourceUsage.ResourceUsageFromUsage | SaFE/common/pkg/workload/node_usage.go:116-139 | total, available and node list are those of the active pods, for any filter |
| ResourceUsage.ResourceUsageFromPods | SaFE/common/pkg/workload/workload.go:160-227 | the scan computes the same total and available resources |
| ResourceUsage.InUseNodesFromPods | SaFE/common/pkg/workload/workload.go:46-60 | counts the distinct nodes of active pods |
| Workload.Workload.Offload | SaFE/job-manager/pkg/syncer/syncer_status.go:50-62 | storing the aggregate over whatever aggregate was there and clearing the arrays leaves a status that stands for the given pods |
| Workload.Workload.StripOffloadedStatus | SaFE/common/pkg/workload/node_usage.go:145-152 | whatever pods the status stood for, it still stands for them; nothing is cleared without an aggregate |
| Workload.Workload.GetInUseNodeCount | SaFE/common/pkg/workload/workload.go:46-60 | the same number from the pods, the aggregate, or both |
| Workload.Workload.GetWorkloadResourceUsage | SaFE/common/pkg/workload/workload.go:160-227 | total and available do not depend on the path read; no node the filter is true of is listed, and without a filter all is available |
| Workload.Workload.GetResourcesPerNode | SaFE/common/pkg/workload/workload.go:109-140 | which pods each path answers for; no node but the one asked for is listed, and every node asked for with an active pod of a known kind is |
| Workload.NoReplicasIff | SaFE/common/pkg/workload/workload.go:160-165 | the total of replicas is 0 iff no kind asks for a pod |
| Workload.AvailableNodesAgreeInRange | SaFE/common/pkg/workload/workload.go:196-225 | with the ids of all active pods in range, both paths list the same available nodes for every filter |
| Workload.AvailableNodesAgree | SaFE/common/pkg/workload/workload.go:196-225 | both paths list the same available nodes iff every such node hosts a pod whose id has a resource list |
| Workload.PerNodeAgreeIff | SaFE/common/pkg/workload/workload.go:109-140 | both paths return the same map iff no stopped pod names a wanted node and no wanted node has a single counted pod with an unconcerned key |
| Workload.PerNodeAgreeIffNoneStopped | SaFE/common/pkg/workload/workload.go:109-140 | with concerned keys only, both paths return the same map iff no stopped pod names a wanted node |
| Workload.UsedNodesAgreeIffCovered | SaFE/common/pkg/nodes/nodes.go:190-212 | publishing the aggregate keeps the busy nodes iff it is empty or stopped pods sit only beside active ones |
| Workload.ClearedUsedNodesAgreeIffCovered | SaFE/common/pkg/nodes/nodes.go:190-212 | the same once the pod list is cleared, without the exception |
| Workload.GetTotalResourceList | SaFE/common/pkg/workload/workload.go:230-242 | the sum of every kind's multiplied list |
| Workload.QuotaBound | SaFE/common/pkg/quantity/quantity.go:189-200 | with no more active pods than replicas of each kind, usage is at most the total on every key, rounding included |
| Workload.QuotaExact | SaFE/common/pkg/quantity/quantity.go:189-200 | equality for whole quantities and full replicas |
| Allocation.CalculateVariance | Scheduler-Plugins/pkg/topologyipsort/topologyipsort.go:624-639 | the variance over the racks in use |
| Allocation.VarianceIsMeanSquaredDeviation | Scheduler-Plugins/pkg/topologyipsort/topologyipsort.go:469-482 | the one-pass formula is the mean squared distance from the mean |
| Allocation.FindMinVarianceAllocation | Scheduler-Plugins/pkg/topologyipsort/topologyipsort.go:528-621 | the in-place algorithm computes Allocate, which AllocateIff characterises |
| AllocationShape.AllocateIff | Scheduler-Plugins/pkg/topologyipsort/topologyipsort.go:528-621 | it is the only allocation of min(demand, capacity) nodes that starts from the shares of the demand, even up to one and larger first, over the least number of front racks that reach it, cut to rack sizes, and grows by least-variance steps |
| AllocationShape.FirstRackSuffices | Scheduler-Plugins/pkg/topologyipsort/topologyipsort.go:547-575 | a first rack that holds the demand gets all of it |
| Allocation.AllocationIsExact | Scheduler-Plugins/pkg/topologyipsort/topologyipsort.go:528-621 | no rack over its size, and the sum is min(demand, capacity) |
| Allocation.GreedyIsBestSteps | Scheduler-Plugins/pkg/topologyipsort/topologyipsort.go:582-618 | after the even split each node goes where the variance over used racks is least |
| Allocation.SpreadFollowsSize | Scheduler-Plugins/pkg/topologyipsort/topologyipsort.go:594-603 | between used racks, one more node spreads less iff fewer were taken |
| Allocation.BestUsedRackHoldsFewest | Scheduler-Plugins/pkg/topologyipsort/topologyipsort.go:594-612 | a step into a used rack picks one with room that holds the fewest |
| RackFilter.MinimizeVariance | Scheduler-Plugins/pkg/topologyipsort/topologyipsort.go:484-525 | exactly count nodes if the racks hold that many, none otherwise; from each rack its first nodes, as many as the allocation described above says |
| RackFilter.Filter | Scheduler-Plugins/pkg/topologyipsort/topologyipsort.go:190-231 | min(count, all) nodes by ascending ip, exactly those of the plan: with a fit, its number of first nodes from each of the last racks; else racks filled from the front in whole units, the last one cut; else the least-variance allocation; else all. Fails iff a short rack is sliced or the unit is 0 |
| RackFilter.FitMeetsShortRackWhenSorted | Scheduler-Plugins/pkg/topologyipsort/topologyipsort.go:190-204 | with racks by descending size that failure is exactly: the last rack is shorter than the fitting size |
| RackFilter.ShortRackExample | Scheduler-Plugins/pkg/topologyipsort/topologyipsort.go:195-199 | racks of 4, 4 and 2 nodes and four pods meet it |
| RackFilter.ChosenAreDistinct | Scheduler-Plugins/pkg/topologyipsort/topologyipsort.go:190-231 | nodes chosen from racks without repetition are distinct |
| RackFilter.AssignRanks | Scheduler-Plugins/pkg/topologyipsort/topologyipsort.go:142-154 | the k-th pod in rank order gets the k-th node by ip of that plan; pods[k] is always in range |
| Permit.LessSortsIffNoClash | Scheduler-Plugins/pkg/topologyipsort/topologyipsort.go:405-429 | less is a strict weak order on a group iff no two ranks of one non-master type meet another non-master type |
| Permit.RankOrderIff | Scheduler-Plugins/pkg/topologyipsort/topologyipsort.go:405-429 | the rank orders are exactly the listings by descending priority, within one priority no other type before the master, within one type by ascending index |
| Permit.PermitPod | Scheduler-Plugins/pkg/topologyipsort/topologyipsort.go:263-354 | pending iff nobody is being deleted and the predecessor names no node and no node of the snapshot hosts its uid; success iff neither holds and MinMember distinct nodes count (one always does); which nodes count is described exactly, and each is chosen, hosts the group, or is claimed by its own pod |
| Permit.CountIsUnique | Scheduler-Plugins/pkg/topologyipsort/topologyipsort.go:315-340 | the counted nodes are determined: each other pod in turn takes the first node that suits it and is not counted yet, with the hosts of the group met on the way |
| Permit.RunKeepsOrder | Scheduler-Plugins/pkg/topologyipsort/topologyipsort.go:287-312 | without a tie below a third pod, every run of Permit and bind schedules downward closed sets |
| Permit.ScheduledInRankOrderIff | Scheduler-Plugins/pkg/topologyipsort/topologyipsort.go:300-312 | all runs schedule in rank order iff no two pods tie below a third |
| ReplicaActor.Replica.HandleFailure | SaFE/docker/monarch/client.py:497-532 | a stale or duplicate failure changes nothing; otherwise one attempt is counted and a restart asked for, or given up at MAX_ATTEMPT |
| ReplicaActor.Replica.Supervise | SaFE/docker/monarch/client.py:571-596 | ignores events when done, restarting or inactive |
| ReplicaActor.Replica.TrainingCompleted | SaFE/docker/monarch/client.py:450-462 | a stale completion changes nothing; the current generation's takes training down and resolves the future, and touches nothing else |
| ReplicaRuns.UninterruptedComplete | SaFE/docker/monarch/client.py:450-462 | the statements of a completion on an idle loop do what the class does; a stale one changes nothing, another resolves the future once |
| ReplicaRuns.UninterruptedSupervise | SaFE/docker/monarch/client.py:497-596 | the statements of the step system, uninterrupted, do what the class does |
| ReplicaRuns.FailedBroadcastCountsIff | SaFE/docker/monarch/client.py:441-449 | a broadcast that raises does what HandleFailure does, and counts iff the generation is current and no restart is under way |
| ReplicaRuns.RestartLosesBroadcast | SaFE/docker/monarch/client.py:441-449 | in every reachable state, the broadcast of a restart that raises changes no shared field |
| ReplicaRuns.RunKeepsInv | SaFE/docker/monarch/client.py:391-596 | the invariant of the threads holds in every interleaving |
| ReplicaRuns.BudgetHolds | SaFE/docker/monarch/client.py:318-322 | with any number of overlapping calls: attempts and generations stay within MAX_ATTEMPT, drift by at most one plus the aborted starts, and at most one start in 64 attempts aborts |
| ReplicaRuns.OneRestartAtATime | SaFE/docker/monarch/client.py:508-511 | at most one restart is outstanding, and nobody handles a failure meanwhile |
| ReplicaRuns.DoneAtMostOnce | SaFE/docker/monarch/client.py:517-530 | the done future is resolved at most once, and giving up leads to its resolution |
| ReplicaRuns.FailureIsReported | SaFE/docker/monarch/client.py:548-557 | a restart whose start fails has resolved the future by the time it ends, in every interleaving |
| ReplicaRuns.DoneIsFinal | SaFE/docker/monarch/client.py:577-588 | once the future is resolved and nothing is under way, supervision events count nothing and start nothing |
| ReplicaRuns.GivingUpIsFinal | SaFE/docker/monarch/client.py:517-530 | after giving up no later step counts an attempt or spawns a generation |
| ReplicaThreads.RunKeepsOneThread | SaFE/docker/monarch/client.py:391-596 | with one supervision thread: one live call, the flag down during a restart, no call reaching into the second restart or later, and rest after an aborted start |
| ReplicaThreads.TwoThreadsKeepStep | SaFE/docker/monarch/client.py:391-596 | in every run of the loop and one supervision thread, attempt <= generation <= attempt + 1, and at most one start is aborted |
| ReplicaThreads.AttemptsFollowIff | SaFE/docker/monarch/client.py:391-404 | attempt <= generation <= attempt + 1 in all runs with at most k failed allocations iff calls do not overlap or k = 0 |
| KeyExchange.RunKeepsInv | Bench/preflight/ssh/ssh_sync_nfs.py:84-228 | what ranks and files keep in every interleaving, with atomic or torn writes |
| KeyExchangeRuns.RankZeroFinishesLast | Bench/preflight/ssh/ssh_sync_nfs.py:185-208 | when rank 0 finishes, every rank has written its own authorized_keys and SSH config, and rank 0's key is in the former if writes are atomic |
| KeyExchangeRuns.LinesComeFromRanks | Bench/preflight/ssh/ssh_sync_nfs.py:141-174 | every line is the start of some rank's key, and a rank's own key is always there |
| KeyExchangeRuns.ListsEveryoneIff | Bench/preflight/ssh/ssh_sync_nfs.py:84-174 | every authorized_keys lists all N keys in all runs iff writes are atomic or N is at most 1 |
| KeyExchangeRuns.ConfiguresEveryoneIff | Bench/preflight/ssh/ssh_sync_nfs.py:84-174 | every SSH config lists all N ranks in all runs iff N is at most 1 |
| KeyExchangeRuns.NotedInTimeIsConfigured | Bench/preflight/ssh/ssh_sync_nfs.py:141-174 | a node info that is there before a rank looks is in the SSH config it writes, in every run |
| KeyExchangeRuns.SomeoneGoesOn | Bench/preflight/ssh/ssh_sync_nfs.py:106-228 | unless a rank has failed, some unfinished rank can go on: neither barrier deadlocks |
| KeyExchangeRuns.ExchangeCompletes | Bench/preflight/ssh/ssh_sync_nfs.py:84-228 | every run has at most N(N+10) steps forward, and one without failures ends with every authorized_keys and SSH config written |
| NodesAction.Workspace.MutateNodesAction | SaFE/webhooks/pkg/workspace_webhook.go:177-252 | result for the order the map was ranged in; on success the annotation holds the effective actions, and never changes while others are in progress; without any, annotation and forced flag are cleared, and forced stays in all other cases |
| NodesAction.Workspace.Settle | SaFE/webhooks/pkg/workspace_webhook.go:233-250 | busy iff the actions kept differ from others in progress; otherwise the annotation holds the kept ones, or those in progress, or is cleared with the forced flag when there are neither |
| NodesAction.KeptAreEffective | SaFE/webhooks/pkg/workspace_webhook.go:194-231 | the actions kept are exactly the effective ones, in any order |
| NodesAction.RefusalIsJustified | SaFE/webhooks/pkg/workspace_webhook.go:194-231 | a refusal names a key without a node, or there is a node of another cluster, or an effective action's flavor differs from the workspace's or an added node's |
| NodesAction.FlavorFollows | SaFE/webhooks/pkg/workspace_webhook.go:212-229 | the flavor stays while replicas exceed removes, and an empty workspace that grows takes an added node's flavor |
| NodesAction.ReplicaWithin | SaFE/webhooks/pkg/workspace_webhook.go:212-229 | the replica stays non-negative, between old + adds - removes and max(0, old - removes) + adds |
| NodesAction.ConservedIff | SaFE/webhooks/pkg/workspace_webhook.go:194-231 | every order goes through with old + adds - removes iff all nodes are known and in the cluster, removes are at most old and the flavors agree |
| NodesAction.ResubmittedActionsCountAgain | SaFE/webhooks/pkg/workspace_webhook.go:233-250 | a request whose effective part is in progress already goes through and keeps the annotation; within the replica it leaves the replica alone iff adds and removes balance |
| NodesAction.UnchangedIffBalanced | SaFE/webhooks/pkg/workspace_webhook.go:194-250 | every order goes through and leaves the replica alone iff the nodes are known and either adds and removes balance within the replica and the flavors agree, or the replica is 0 and nothing is added |
| ScaleDown.GetIdleNodes | SaFE/common/pkg/nodes/nodes.go:182-219 | exactly the nodes of the list that carry the workspace, are not deleting and are not used by a live workload |
| ScaleDown.SortedByLessIff | SaFE/common/pkg/nodes/nodes.go:272-281 | nobody is behind a node that goes later iff every two neighbours satisfy Less, although Less holds both ways on ties |
| ScaleDown.SortExists | SaFE/common/pkg/nodes/nodes.go:272-281 | the order is one that a sort can establish on every list of nodes, so the contract of sort.Sort can be met |
| ScaleDown.GetNodesForScalingDown | SaFE/common/pkg/nodes/nodes.go:166-179 | min(count, idle) distinct idle nodes, none behind one left out |
| ScaleDown.MutateScaleDown | SaFE/webhooks/pkg/workspace_webhook.go:302-327 | marks current - new idle nodes; an unmarked idle node is available wherever a marked one is, and of two equally available ones the marked one is not older; fails iff too few are idle |
| ScaleDown.ActiveNodesStay | SaFE/common/pkg/nodes/nodes.go:190-219 | a node with an unfinished pod of a live workload is never idle, offloaded or not |
| ScaleDown.OffloadKeepsIdleIff | SaFE/common/pkg/nodes/nodes.go:182-219 | with any of the workloads offloaded, the nodes in use are those of the original pods iff the node of every stopped pod of a live workload hosts an active pod of some live workload, or a stopped one of a live workload whose pods are still stored |
| ScaleDown.AllOffloadedKeepsIdleIff | SaFE/common/pkg/nodes/nodes.go:182-219 | with all of them offloaded: iff every such node hosts an active pod of some live workload |
| ScaleDown.OffloadKeepsIdle | SaFE/common/pkg/nodes/nodes.go:190-219 | a condition checked one workload at a time suffices: stopped pods of a live workload sit only beside its own active ones |
| AdaptNodes.FitsIff | Bench/benchmarks/model_benchmark/adapt_nodes.py:47-67 | n nodes fit iff n is a multiple of unit / gcd(unit, GPUs per node) |
| AdaptNodes.ComputeUsableNodes | Bench/benchmarks/model_benchmark/adapt_nodes.py:47-67 | the greatest fitting count not above the healthy nodes, with less than one step idle |
| AdaptNodes.FloorDivIsFloor | Bench/benchmarks/model_benchmark/adapt_nodes.py:84-91 | the division rounds towards minus infinity for every sign |
| AdaptNodes.GbsFits | Bench/benchmarks/model_benchmark/adapt_nodes.py:70-99 | fails iff the unit is 0; without a step the original stays; otherwise a multiple of micro batch times data parallelism, the last one not above the original or one step; stable; when positive |
| AdaptNodes.UsableNodesHaveAStep | Bench/benchmarks/model_benchmark/adapt_nodes.py:84-91 | on a usable node count the GPUs divide evenly and the step is positive |

## Left out

- Kubernetes clients, logging, metrics, HTTP, SSH, MPI and the collective-communication subprocesses: parameters, oracles or left out.
- Time: timeouts, grace periods and delays are nondeterministic steps.
- Keyed controller: shutdown of the queue, Forget and the growth of the rate limit, which only change delays. The real queue keeps one timer per key; `WorkQueue.Fire` lets any number of delayed adds of a key collapse.
- DiagnosisRuns.ExactIffCleanGroup: assumes an undisturbed run, because a timeout or an exception accuses a node without a test; the other results include them.
- DiagnosisRuns.AnswerPartitionsInput: assumes distinct nodes, which get_hosts (binary_diagnose.py:193-197) does not ensure; the other results also hold for a hosts file that repeats a line.
- Diagnosis: the thread limit, host lookup and connectivity check; the alltoall test type for more than eight nodes; the `except` around a future's result, which a tester that catches its own exceptions never reaches.
- Diagnosis, KeyExchange and the replica's threads are step systems over values: what they leave out is aliasing and update in place, not interleaving.
- Decimal: the range error of strconv.Atoi.
- Workload: StandsFor requires resource ids from 0 to 127 and fewer than 128 resource entries, because the ids are an int8 and a negative one indexes out of range. The parsing in CvtToResourceList is not part of this model.
- Workload: Go stores pointers in the index map and updates entries through them; the model stores the updated value.
- ResourceUsage.ResourceUsageFromPods: the concurrent phase only fills one output slot per pod and is modelled as a loop.
- Quantity: int64 overflow, and rounding of floating point before math.Round; the multiplier is a real.
- Workload.PerNodeAgreeIff: requires lists without negative quantities that each request something, which CvtToResourceList gives for a pod with cpu or memory.
- Allocation: rounding of floating point; variance is over the reals, and global optimality of the greedy allocation is not claimed because the code does not give it.
- RackFilter: what Go returns when a slice runs past a rack's length but not past its spare capacity; both that and a panic are `BadSlice`. Insertion of nodes into racks and the sort of the racks are not modelled.
- Permit: sort.Slice is the contract of a sort; a group on which less is no strict weak order has no rank order. Errors of the API server, Score caching, PostFilter and the order between groups are not modelled. A bind that fails after Permit is not a step.
- ReplicaSystem: cancellation, mesh teardown errors (caught and logged by the source) and the timestamps used for failure injection.
- KeyExchange: stale files of an earlier run, and what a node info says; a rank that times out or cannot parse a file just fails.
- NodesAction: JSON parsing of the annotation, and the other mutators of an update. A key is visited once, in any order.
- ScaleDown: sort.Sort is a parameter that returns a permutation in order, a contract that `ScaleDown.SortNodes` meets. Less answers true both ways on a tie, which the contract leaves in either order.
