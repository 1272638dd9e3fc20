# ServePilot, verified

This project models the decision and supervision logic of ServePilot, a planner, tuner and runtime
for serving language models on GPUs, and proves what its documentation, tests and comments rely on.

* **GPU groups** (`Hardware`, `GpuScores`, `GpuSearch`, `GpuOptimality`, `GpuGreedy`, `GpuPlan`,
  `GpuPlanTheorems`, `GpuWiring`, `GpuClusters`, `GpuBait`, `GpuExactness`, `GpuTies`, `GpuOrder`, `GpuLimits`,
  `GpuPlanner`, `Candidates`). The planner cuts GPUs into tensor-parallel groups. The recursive search
  is proved to visit every partition once, in lexicographic order, and so to return the least of the
  best ones; the greedy form is proved optimal on island topologies; the per-machine decomposition is
  proved optimal at the maximum replica count; below it, `GpuOrder` says which machines a plan takes its
  groups from. `GpuExactness.OptimalExactly` says for which requests the plan is
  optimal whatever the topology, and for no others: every other request has a topology that defeats it.
  The class `GPUGroupPlanner` carries the loops, the recursion with its mutable best and the score
  cache, and is proved equal to those specifications.
* **Routing** (`Accounts`, `Semaphores`, `Policies`, `Router`, `RouterRuns`, `Proxy`). The router is a
  class over shared replica and lease objects; replica objects outlive their table entry. The code
  between two awaits is one atomic step. Every interleaving keeps in-flight counts equal to leases
  held, conserves requests, failures and permits, and bounds leases and waiters. A proxied request is
  followed from its permit to the release of its lease.
* **Supervision** (`Ports`, `Processes`, `Replicas`, `Restarts`, `HealthChecks`, `Supervisor`). Port
  reservations, launches, the health checker's scan, probes and restart tasks, and the deployment
  that ties them to the router. The invariant spans all these objects and holds after every step of
  every run; a failed start and a shutdown leak neither processes nor ports.
* **Selection** (`Sorting`, `Scoring`, `Scores`, `Sweeps`, `Pareto`). The plateau walk with its bounded
  regret, the three scores, selection and the Pareto front.
* **Memory** (`KvCache`, `Memory`, `MemoryEstimates`). The budget arithmetic with its truncations, the
  verdict and its exact meaning, and monotonicity in the tensor-parallel size.
* **Tuning** (`Tuning`). The stages A to D with every way launching, benchmarking,
  recording and closing can fail, as a protocol over sessions: what each stage measures, and how the winner comes about.
* **Logs** (`LogBuffer`). The ring buffer of captured lines.

`Wrappers`, `Sequences` and `Numbers` hold what the others share.

## How the world is modelled

* Outcomes of I/O are parameters or nondeterministic choices: whether a port is busy, a launch
  succeeds, an engine becomes ready or dies, a probe succeeds, a send fails, closing raises. Clocks
  are readings passed in; the health checker's clock only moves forward.
* The counting semaphore follows CPython's asyncio: a permit handed to a waiter is taken at once and
  held by that waiter until its task runs; `locked()` is true while anybody who has not given up is
  queued.
* A replica's router id is its slot number; in-flight, total and failure counts of a replica form one
  record, `books`. Ghost state (`ledger`, `leases`, `reroutes`, `launched`, `down`, `granted`,
  `history`) records what the source does not keep: every replica object, lease, process, grant and
  line there ever was.
* One launch is one atomic step, and so is terminating a process, after which it is gone. A start is
  not cancelled half-way. Launches that run concurrently are modelled one after the other.
* In `Proxy`, `OtherTasksRun` stands for an await: any sequence of router steps of other requests, the
  health checker and the operator runs, drawn from the steps of `RouterRuns`, none of them by the
  holder of this request's lease.
* Numbers are exact: floats are reals, memory fractions are hundredths. The square root of the
  balanced score is any strictly increasing function that fixes 0 and 1.
* A measurement carries the topology and memory fraction of the session it was taken on, so that
  recording it elsewhere would be visible.

## Where code and documentation part

* "Ties are broken by lowest GPU indices" holds of machines that are searched, and of the full plan
  over several of them (`GpuTies.PlanLeastWhenFull`). It does not hold of the greedy form, which breaks
  ties step by step only (`GpuLimits.GreedyTieGoesHigh`); `GpuExactness.LeastExactly` says for which
  sizes the plan of one machine is the least of the best families under every topology.
* The module comment of the group planner promises maximal connectivity. On a machine of more than
  eight GPUs (unless a group takes one GPU, or all of them or more), or below the maximum replica count on
  several machines, some topology always defeats it; everywhere else it is delivered.
  `GpuExactness.OptimalExactly` is that equivalence; `GpuLimits` shows both failures on small inputs,
  and island topologies are a case in which large machines are planned optimally all the same.
* A failing response whose connection cannot be closed escapes the retry loop uncharged, although the
  comment says each failed attempt is charged exactly once (`Proxy.FailureCanGoUncharged`); exactly
  when it is, is `Proxy.ChargedExactly`.
* A replica whose estimate does not fit can pass `check_memory`, because unknown weights report no
  shortfall (`SmallGpuPasses`); exactly when is `HiddenShortfall`.
* A wider group can fail to fit where a single GPU fits, because of the communication buffer
  (`FirstSplitCanFail`); exactly when is `FirstSplitExactly`.
* A restart whose launch raises something other than a launch error removes the entry for good; the
  replica is then never looked at again, although `restart_replica` promises another look after any
  failure. `RetriedExactly` is the exact condition, `Deployment.Continue` the rest of every run.
* A launch that is not ready at start leaves a stopped entry in the router, and nothing else does.
* Invalid results are said never to be selected while a valid one exists. Stage D does not check its
  sample (`FinalCanBeInvalid`); the promise holds exactly when that sample is missing or valid.

## Model

| member | source | states |
|---|---|---|
| GpuOptimality.ExhaustiveIsOptimal | src/servepilot/planner/gpu_groups.py:95-122 | whatever family of `n` disjoint `tp`-subsets exists, its score is at most the one returned: anchoring on the smallest id, skipping it and cutting short lists lose nothing; the result is itself such a family, with ascending groups ordered by minimum |
| GpuOptimality.ExhaustiveBreaksTiesLow | src/servepilot/planner/gpu_groups.py:7-8 | among the best families, written with sorted groups ordered by minimum, the one returned is lexicographically least |
| GpuOptimality.ExhaustiveFails | src/servepilot/planner/gpu_groups.py:120-122 | the search returns nothing only when every family scores below zero |
| GpuOptimality.CompletionsComplete | src/servepilot/planner/gpu_groups.py:99-117 | every canonical family is visited, so it is visited at some position; and one exists only if there are enough GPUs |
| GpuSearch.CompletionsSound | src/servepilot/planner/gpu_groups.py:99-117 | everything visited is a canonical family of groups drawn from the remaining ids |
| GpuOptimality.CompletionsOrdered | src/servepilot/planner/gpu_groups.py:99-117 | families are visited in strictly increasing lexicographic order, so each once |
| GpuOptimality.FoldFirstMax | src/servepilot/planner/gpu_groups.py:101-106 | keeping a candidate only on a strictly higher score selects the first maximum |
| GpuSearch.CombinationsComplete | src/servepilot/planner/gpu_groups.py:112-113 | `combinations` yields every ascending selection of the given size |
| GpuSearch.CombinationsSound | src/servepilot/planner/gpu_groups.py:112-113 | `combinations` yields ascending selections of the given size only |
| GpuSearch.CombinationsOrdered | src/servepilot/planner/gpu_groups.py:112-113 | `combinations` yields selections in lexicographic order |
| GpuOptimality.PartitionExists | src/servepilot/planner/gpu_groups.py:61-64 | with at least `tp * n` ids some family exists |
| GpuOptimality.FamilySize | src/servepilot/planner/gpu_groups.py:61-64 | no family of `n` groups of `tp` fits into fewer than `tp * n` ids |
| GpuScores.CanonicalFormScore | src/servepilot/planner/gpu_groups.py:75 | sorting the groups and their members leaves the partition score unchanged |
| GpuScores.CanonicalFormFamily | src/servepilot/planner/gpu_groups.py:75 | sorting the groups and their members yields a canonical family over the same ids |
| Hardware.PairScoreSymmetric | src/servepilot/planner/gpu_groups.py:29-41 | a pair scores the same both ways, which is what lets the cache use ordered keys |
| Hardware.PairScoreNonNegative | src/servepilot/schemas/hardware.py:91-124 | no pair scores below zero as long as no NVLink count is negative |
| Hardware.MoreLinksScoreHigher | src/servepilot/schemas/hardware.py:91-102 | of two NVLink pairs the one with more links scores strictly higher |
| Hardware.LinksDecide | src/servepilot/schemas/hardware.py:91-102 | between NVLink connections the number of links alone decides, whatever else is reported of them |
| Hardware.Closest | src/servepilot/schemas/hardware.py:28-38 | an NVLink connection never scores below another one, and strictly higher with a link counted; otherwise the closer relationship scores higher, an unknown one above the network |
| Hardware.CloserScoresHigher | src/servepilot/planner/gpu_groups.py:29-41 | without a topology nearby indices score higher up to a distance of seven, and any pair of one machine beats any across machines |
| GpuGreedy.GreedyFamily | src/servepilot/planner/gpu_groups.py:124-140 | greedy groups are disjoint, of the right size and number, drawn from the ids, each ascending |
| GpuGreedy.NextStaysInIsland | src/servepilot/planner/gpu_groups.py:135-138 | while the seed's island has a GPU left, the next member comes from that island |
| GpuGreedy.GreedyKeepsIslands | src/servepilot/planner/gpu_groups.py:124-140 | on island topologies whose islands are multiples of `tp`, no greedy group crosses an island |
| GpuGreedy.GreedyOptimalOnIslands | src/servepilot/planner/gpu_groups.py:124-140 | on those topologies the greedy total is the maximum over all families |
| GpuLimits.GreedyCanLose | src/servepilot/planner/gpu_groups.py:71-75 | above eight GPUs the plan can be below the optimum without any topology information: ten GPUs of one machine in pairs, where it takes the middle two and strands an odd number beside them |
| GpuPlanTheorems.PoolSound | src/servepilot/planner/gpu_groups.py:59-75 | one pool succeeds exactly when `tp * n` GPUs are given, and returns a canonical family |
| GpuPlanTheorems.PoolOptimal | src/servepilot/planner/gpu_groups.py:71-75 | a pool of at most eight GPUs is planned optimally |
| GpuPlanTheorems.PoolTieBreak | src/servepilot/planner/gpu_groups.py:71-75 | the plan of a small pool is the lexicographically least optimal one |
| GpuPlanTheorems.SearchedPoolLeast | src/servepilot/planner/gpu_groups.py:7-8 | the plan of a pool that is searched, or leaves no choice, is the lexicographically least best family, groups of one included |
| GpuExactness.LeastExactly | src/servepilot/planner/gpu_groups.py:7-8 | on one machine the plan is, under every topology, the least of the best families exactly when no group is asked for, groups are single GPUs, or the machine has at most eight GPUs or no more than one group takes |
| GpuLimits.GreedyTieGoesHigh | src/servepilot/planner/gpu_groups.py:7-8 | above eight GPUs the plan can be a best family and not the least: twelve GPUs on two islands, where the one group comes from the island with the higher indices |
| GpuTies.PlanLeastWhenFull | src/servepilot/planner/gpu_groups.py:7-8 | at the maximum count on machines that are searched the plan, put in order, is the least of the best families that respect machines |
| GpuTies.MergedLess | src/servepilot/planner/gpu_groups.py:75 | families that are lexicographically no greater on every machine are no greater when merged by their groups' heads |
| GpuTies.BestEverywhere | src/servepilot/planner/gpu_groups.py:82-87 | a family as good as the full plan is as good on every machine |
| GpuPlanTheorems.LargePoolOptimalOnIslands | src/servepilot/planner/gpu_groups.py:73-75 | a pool of more than eight GPUs is planned optimally on island topologies, without crossing an island |
| GpuPlanTheorems.PlanSucceeds | src/servepilot/planner/gpu_groups.py:50-93 | `plan` succeeds exactly up to the sum of `n // tp` over machines, and then returns exactly that many disjoint groups of `tp` GPUs, none spanning machines |
| GpuOrder.StringLessExactly | src/servepilot/planner/gpu_groups.py:82 | names compare by the first position at which they differ, a proper prefix first |
| GpuOrder.NodeOrder | src/servepilot/planner/gpu_groups.py:82 | the machines are strictly and totally ordered by name, those without a name last |
| GpuOrder.SortNodesInOrder | src/servepilot/planner/gpu_groups.py:82 | the machines are filled in that order |
| GpuOrder.EarlierMachinesFirst | src/servepilot/planner/gpu_groups.py:77-93 | a plan over several machines, truncated or not, holds all groups planned for the machines that come first by name, then the first groups of one machine, each machine planned as if alone, and nothing of later ones |
| GpuPlanTheorems.PlanOptimalWhenFull | src/servepilot/planner/gpu_groups.py:77-93 | at the maximum count no family that respects machines scores more, if every machine has at most eight GPUs, no more GPUs than one group takes, or islands of whole groups |
| GpuPlanTheorems.PlacedBound | src/servepilot/planner/gpu_groups.py:82-92 | no family that respects machines has more groups than the machines' shares add up to |
| GpuPlanTheorems.FillOptimal | src/servepilot/planner/gpu_groups.py:82-87 | filling every machine completely is optimal among families that fill them, if each machine is planned optimally |
| GpuPlanTheorems.GoodPoolBest | src/servepilot/planner/gpu_groups.py:71-75 | one pool is planned optimally if it has at most eight GPUs, no more GPUs than one group takes, or islands of whole groups |
| GpuPlanTheorems.WholePoolBest | src/servepilot/planner/gpu_groups.py:71-75 | a pool that is one group has only one family |
| GpuPlanTheorems.MaxReplicasExact | src/servepilot/planner/candidates.py:212 | on one machine the maximum is `n // tp`: a count fits exactly when its GPUs do |
| GpuPlanTheorems.MaxReplicasOrderFree | src/servepilot/planner/candidates.py:212 | the maximum does not depend on the order of the ids |
| GpuLimits.TruncationLosesOptimality | src/servepilot/planner/gpu_groups.py:88-93 | below the maximum count the truncated plan need not be optimal: two machines, one group |
| GpuExactness.OptimalExactly | src/servepilot/planner/gpu_groups.py:50-93 | for given GPUs the plan is optimal under every topology exactly when groups are single GPUs, none is asked for, or every machine has at most eight GPUs or no more GPUs than one group takes and, on several machines, all groups that fit are asked for |
| GpuExactness.ExactIsBest | src/servepilot/planner/gpu_groups.py:50-93 | under that condition no family that respects machines scores more, whatever the topology |
| GpuExactness.TruncationBeaten | src/servepilot/planner/gpu_groups.py:88-93 | on several machines any count between none and the maximum has a topology under which the best group is the one cut off |
| GpuExactness.LargeNodeBeaten | src/servepilot/planner/gpu_groups.py:71-87 | with a machine that has more GPUs than eight and than one group takes, some topology defeats the full plan |
| GpuExactness.PoolEndsInCluster | src/servepilot/planner/gpu_groups.py:71-75 | one well-connected group's worth of GPUs at the end of a machine is kept together, by the search and by the greedy pass, and comes last |
| GpuExactness.FillAround | src/servepilot/planner/gpu_groups.py:81-87 | each machine contributes its own groups, between those of the machines before and after it |
| GpuBait.LargePoolBeaten | src/servepilot/planner/gpu_groups.py:124-140 | for every group size and count on a machine of more than eight GPUs, except groups of one and the whole machine, some topology makes the greedy plan score less than another family |
| GpuBait.BaitBites | src/servepilot/planner/gpu_groups.py:129-138 | a pair that is better connected than a clique lures the greedy pass into splitting the clique |
| GpuBait.BiteLoses | src/servepilot/planner/gpu_groups.py:129-138 | which costs more than the pair is worth |
| GpuBait.HubWastes | src/servepilot/planner/gpu_groups.py:129-138 | in pairs, a GPU connected to everybody takes its favourite away from a better partner |
| GpuClusters.SplitLoses | src/servepilot/planner/gpu_groups.py:43-47 | a cluster no group holds whole loses at least half a pair for each of its GPUs |
| GpuClusters.ClusterScore | src/servepilot/planner/gpu_groups.py:43-47 | the score of a family when one cluster is wired better than the rest |
| GpuWiring.WiredScore | src/servepilot/schemas/hardware.py:110-124 | any assignment of relationships to pairs is some topology, and scores as assigned |
| GpuPlanner.GPUGroupPlanner.CachedPairScore | src/servepilot/planner/gpu_groups.py:29-41 | the cached score is the pair's score, whatever was cached before |
| GpuPlanner.GPUGroupPlanner.SumScores | src/servepilot/planner/gpu_groups.py:129-136 | the sum of one GPU's scores with a group |
| GpuPlanner.GPUGroupPlanner.ScoreGroup | src/servepilot/planner/gpu_groups.py:43-44 | the nested sum equals the group's score |
| GpuPlanner.GPUGroupPlanner.ScorePartition | src/servepilot/planner/gpu_groups.py:46-47 | the sum over groups equals the partition's score |
| GpuPlanner.GPUGroupPlanner.Recurse | src/servepilot/planner/gpu_groups.py:99-117 | the recursion with its mutable best ends with the best of everything visited, in visiting order |
| GpuPlanner.GPUGroupPlanner.TryAnchor | src/servepilot/planner/gpu_groups.py:112-115 | the loop over combinations folds in every anchored family |
| GpuPlanner.GPUGroupPlanner.SearchExhaustively | src/servepilot/planner/gpu_groups.py:95-122 | the search equals the specification whose optimality is proved |
| GpuPlanner.GPUGroupPlanner.PickSeed | src/servepilot/planner/gpu_groups.py:129-132 | the seed is the best-connected remaining GPU, ties to the lowest index |
| GpuPlanner.GPUGroupPlanner.PickNext | src/servepilot/planner/gpu_groups.py:136 | the next member is the one best connected to the group, ties to the lowest index |
| GpuPlanner.GPUGroupPlanner.GrowGroup | src/servepilot/planner/gpu_groups.py:133-138 | one group of the greedy loop equals the specification |
| GpuPlanner.GPUGroupPlanner.GrowGreedily | src/servepilot/planner/gpu_groups.py:124-140 | the greedy loops equal the specification |
| GpuPlanner.GPUGroupPlanner.PlanTogether | src/servepilot/planner/gpu_groups.py:59-75 | planning one pool equals the specification |
| GpuPlanner.GPUGroupPlanner.GroupByNode | src/servepilot/planner/gpu_groups.py:78-80 | the dictionary maps every machine to its ids, in insertion order |
| GpuPlanner.GPUGroupPlanner.FillByNode | src/servepilot/planner/gpu_groups.py:81-87 | the loop over machines equals the specification |
| GpuPlanner.GPUGroupPlanner.PlanByNode | src/servepilot/planner/gpu_groups.py:77-93 | the per-machine plan equals the specification |
| GpuPlanner.GPUGroupPlanner.PlanGroups | src/servepilot/planner/gpu_groups.py:50-75 | `plan` equals the specification in every branch |
| Candidates.TpValues | src/servepilot/planner/candidates.py:191-202 | exactly the divisors of the smallest machine, ascending, or the forced size; a forced size that is none of them leaves nothing to try if only a cluster can hold it and is a configuration error otherwise |
| Candidates.SumShares | src/servepilot/planner/candidates.py:212 | the loop computes the maximum replica count |
| Candidates.PlanLayout | src/servepilot/planner/candidates.py:212-221 | the planner is asked only for counts it can serve: the only error is a replica count above the maximum |
| Candidates.GenerateLayouts | src/servepilot/planner/candidates.py:178-221 | one layout for every admitted size, in order: the planner's groups, as many as fit or as asked for, disjoint and machine-local; it errs exactly when the forced size is no size or more replicas are asked for than fit at some size, and the planner's own error never surfaces |
| Candidates.AdmittedAscends | src/servepilot/planner/candidates.py:200-212 | the sizes are tried from the smallest up |
| Candidates.DefaultLayoutExact | src/servepilot/planner/candidates.py:212-221 | unless a replica count is forced, a layout is optimal under every topology exactly when groups are single GPUs, there is none, or every machine is searched |
| Accounts.PlaceKeepsBalance | src/servepilot/runtime/router.py:129-132 | placing a lease keeps the books: in-flight counts equal leases held, requests and failures add up |
| Accounts.MoveKeepsBalance | src/servepilot/runtime/router.py:141-151 | moving a lease keeps the books |
| Accounts.SettleKeepsBalance | src/servepilot/runtime/router.py:153-159 | ending a lease, charged or not, keeps the books |
| Accounts.OpenKeepsBalance | src/servepilot/runtime/router.py:62-64 | a new replica object, also under a taken id, keeps the books |
| Accounts.HeldIsPositive | src/servepilot/runtime/router.py:143-154 | a replica with an outstanding lease, removed or not, has at least one request in flight |
| Router.ReplicaRouter.ChargeMatches | src/servepilot/runtime/router.py:143-154 | so `max(0, ...)` never changes a count |
| Semaphores.ReleaseConserves | src/servepilot/runtime/router.py:160-161 | a release returns exactly one permit, to the pool or to a waiter, and strands nobody |
| Semaphores.EnqueueConserves | src/servepilot/runtime/router.py:118-120 | queueing behind a locked semaphore takes no permit |
| Semaphores.ResumeGrantedConserves | src/servepilot/runtime/router.py:120-122 | a resumed waiter takes exactly the permit it was granted |
| Semaphores.ResumeCancelledConserves | src/servepilot/runtime/router.py:119-122 | a cancelled waiter takes no permit with it, even if one had been granted |
| Semaphores.CancelPendingConserves | src/servepilot/runtime/router.py:119-122 | cancelling a pending waiter changes no permit |
| Semaphores.NoOvertaking | src/servepilot/runtime/router.py:115-120 | a newcomer is served at once exactly when a permit is free and everybody queued has given up |
| Semaphores.FirstInLine | src/servepilot/runtime/router.py:160-161 | a freed permit goes to the first pending waiter |
| Policies.TiesTakeTurns | src/servepilot/runtime/policies.py:35-39 | every replica tied for fewest requests is picked within as many counter values as there are ties |
| Policies.NoSecondTurn | src/servepilot/runtime/policies.py:35-39 | ... and none twice in that many |
| Policies.EveryTieOnce | src/servepilot/runtime/policies.py:25-39 | round-robin among ties: while the loads stand, as many selections in a row as there are least-loaded replicas, each made with the counter the one before left, pick each of them exactly once |
| Policies.CounterMoves | src/servepilot/runtime/policies.py:35-39 | a single least-loaded replica leaves the counter alone, ties move it on by one |
| Router.SelectInTurn | src/servepilot/runtime/policies.py:31-39 | consecutive calls of `select` on standing loads choose every least-loaded replica once, and nobody else |
| Router.LeastInflightRoutingPolicy.Select | src/servepilot/runtime/policies.py:30-39 | the choice and the counter follow the specification; the counter moves only on ties |
| Router.ReplicaRouter.constructor | src/servepilot/runtime/router.py:34-51 | a new router keeps its books and has all permits free; 0 or no limit means no semaphore |
| Router.ReplicaRouter.AddReplica | src/servepilot/runtime/router.py:54-64 | a new object with clean counters replaces the entry; earlier objects keep their account |
| Router.ReplicaRouter.RemoveReplica | src/servepilot/runtime/router.py:66-67 | the entry goes, the object and its leases stay accounted for |
| Router.ReplicaRouter.SetStatus | src/servepilot/runtime/router.py:69-75 | only this entry's status changes; an unknown id changes nothing |
| Router.ReplicaRouter.CandidatesAreHealthy | src/servepilot/runtime/router.py:84-107 | only healthy entries can be selected |
| Router.ReplicaRouter.CandidatesInOrder | src/servepilot/runtime/router.py:84-107 | candidates come in the order of the table |
| Router.WithoutIdExactly | src/servepilot/runtime/router.py:66-67 | removing an entry leaves the others in their places |
| Router.ReplicaRouter.SelectReplica | src/servepilot/runtime/router.py:104-110 | fails exactly when no healthy entry is outside the excluded ids, and otherwise picks a least-loaded one |
| Router.ReplicaRouter.Enter | src/servepilot/runtime/router.py:129-132 | a new lease enters the books: one request more in flight on its replica and in total, and nothing else |
| Router.ReplicaRouter.PlaceLease | src/servepilot/runtime/router.py:129-132 | the new lease is charged to its replica and to nobody else |
| Router.ReplicaRouter.MoveLease | src/servepilot/runtime/router.py:142-151 | the lease leaves one replica, charged a failure, for another; both accounts change and no other |
| Router.ReplicaRouter.SettleLease | src/servepilot/runtime/router.py:154-157 | the lease ends and its replica is charged as told |
| Router.ReplicaRouter.Admit | src/servepilot/runtime/router.py:123-132 | a permit in hand becomes a lease, or is returned when no replica is healthy |
| Router.ReplicaRouter.Acquire | src/servepilot/runtime/router.py:112-132 | overloaded, queued, refused or served, each exactly when the source says; permits stay conserved in all four cases |
| Router.ReplicaRouter.Resume | src/servepilot/runtime/router.py:120-132 | a waiter that runs again holds its permit until it has a lease or gives it back |
| Router.ReplicaRouter.CancelWaiter | src/servepilot/runtime/router.py:119-122 | a waiter cancelled in the queue leaves permits conserved |
| Router.ReplicaRouter.ResumeCancelled | src/servepilot/runtime/router.py:119-122 | a waiter cancelled after its grant gives the permit back |
| Router.ReplicaRouter.Reroute | src/servepilot/runtime/router.py:134-151 | moves to a healthy replica the lease never visited, or changes nothing at all |
| Router.ReplicaRouter.Release | src/servepilot/runtime/router.py:153-161 | ends the lease, charges it, and returns the permit |
| Router.ReplicaRouter.SetMaxConcurrency | src/servepilot/runtime/router.py:91-93 | the invariant survives exactly when nobody waits and either the new limit is none or no lease is outstanding |
| RouterRuns.RequestStep | src/servepilot/runtime/router.py:112-161 | a step of a request never touches the table and places or moves leases onto healthy entries only |
| RouterRuns.OthersRun | src/servepilot/runtime/router.py:54-161 | whatever other tasks do, a lease that is not theirs stays with its replica |
| RouterRuns.EveryRun | src/servepilot/runtime/router.py:54-161 | after any interleaving of steps: every object's in-flight count equals its outstanding leases, requests and failures equal the router's counters plus reroutes, leases never exceed the limit nor waiters the queue |
| Proxy.Attempt | src/servepilot/api/proxy.py:113-122 | one send: accepted exactly below 500, with the three ways it can fail or be interrupted, while other tasks run |
| Proxy.Retry | src/servepilot/api/proxy.py:125-129 | the lease moves, and the replica it leaves is charged one failure, exactly when a healthy replica it never visited exists; otherwise nothing changes |
| Proxy.SendWithRetry | src/servepilot/api/proxy.py:95-129 | one or two sends, to different replicas; the second only after a failed first, and missing only if no other replica was healthy; the last answer alone decides the result; the replica of every failure but the last is charged here |
| Proxy.SendOnce | src/servepilot/api/proxy.py:107-129 | one turn of the retry loop |
| Proxy.Cleanup | src/servepilot/api/proxy.py:144-153 | the lease is released once, its replica charged exactly when an error is set |
| Proxy.Finish | src/servepilot/api/proxy.py:171-218 | the reply follows the outcome; a drop while streaming is charged once and never retried |
| Proxy.Serve | src/servepilot/api/proxy.py:155-218 | a request that got a lease gives it back exactly once; its failed sends are those the network failed, its reply is what the last answer calls for, and the replicas charged are those of its failed sends and of a drop, except where closing a failing response raises |
| Proxy.ChargedExactly | src/servepilot/api/proxy.py:98-102 | each failure is charged once, as promised, exactly when no closing of a failing response raises |
| Proxy.FailureCanGoUncharged | src/servepilot/api/proxy.py:119-122 | a server error whose connection cannot be closed is a failed send nobody is charged for |
| Proxy.OtherTasksRun | src/servepilot/api/proxy.py:113-189 | at every await the other requests, the health checker and the operator take any steps they like; this request's lease is not affected |
| Proxy.HandleRequest | src/servepilot/api/proxy.py:132-218 | the whole request when it need not wait: refused without a trace, or served as above |
| Proxy.ContinueRequest | src/servepilot/api/proxy.py:155-218 | the whole request once its permit was granted |
| Ports.PortAllocator.Allocate | src/servepilot/runtime/ports.py:47-61 | fails exactly when every port of the range is reserved or busy, otherwise reserves the first free one in circular order, after which the next scan begins |
| Ports.PortAllocator.Release | src/servepilot/runtime/ports.py:67-69 | exactly this port is free again |
| Processes.LocalLauncher.Launch | src/servepilot/engines/process.py:296-300 | a started process is new, runs and is tracked |
| Processes.LocalLauncher.ShutdownAll | src/servepilot/engines/process.py:302-304 | nothing ever launched is left running |
| Processes.TerminateAll | src/servepilot/engines/process.py:302-304 | exactly the given processes stop |
| Replicas.ReplicaSet.LaunchOne | src/servepilot/runtime/replicas.py:126-154 | a failed launch leaves no process running and at most a stopped entry; a successful one adds one process, one healthy entry and one port of its own |
| Replicas.ReplicaSet.AwaitReady | src/servepilot/runtime/replicas.py:134-152 | an engine that is not ready is terminated and its entry left stopped |
| Replicas.ReplicaSet.LaunchInto | src/servepilot/runtime/replicas.py:158-172 | launches so far stay accounted for: their engines are exactly the new ones running, ports distinct, other new entries stopped |
| Replicas.ReplicaSet.LaunchAll | src/servepilot/runtime/replicas.py:158-172 | it succeeds exactly when every slot finds a free port and a ready engine, and then fills the slots in order; unless slot 0 comes up nothing else is tried; table and ports are exactly what the launches tried make of them |
| Replicas.ReplicaSet.Start | src/servepilot/runtime/replicas.py:156-174 | it succeeds exactly when every launch finds a port and a ready engine, every slot then running on a port of its own; after a failure exactly what ran before runs, the set's ports are released, and what remains in the router is exactly a stopped entry for every engine that was started and not ready |
| Replicas.ReplicaSet.RemainsAre | src/servepilot/runtime/replicas.py:176-184 | taking out the replicas that came up leaves exactly those entries |
| Replicas.ReplicaSet.Stop | src/servepilot/runtime/replicas.py:176-191 | the replicas' processes stop, their entries go, all the set's ports are released |
| Replicas.ReplicaSet.Deregister | src/servepilot/runtime/replicas.py:181-184 | exactly the replicas' entries leave the table |
| Replicas.ReplicaSet.ReleasePorts | src/servepilot/runtime/replicas.py:185-187 | exactly the set's own reservations end |
| Replicas.ReplicaSet.Unseat | src/servepilot/runtime/replicas.py:201-208 | the dead engine is gone, its entry removed, its restart count carried on |
| Replicas.ReplicaSet.Respawn | src/servepilot/runtime/replicas.py:209-229 | a restarted engine gets a fresh entry on the same port; a failed launch leaves an unhealthy one, any other error none |
| Replicas.ReplicaSet.Reseat | src/servepilot/runtime/replicas.py:230-246 | a ready engine takes the slot and its port; any other is terminated and the old replica stays |
| Replicas.WhatIsUpStops | src/servepilot/runtime/replicas.py:172-174 | stopping exactly what came up restores what ran before and leaves only stopped entries |
| Restarts.AtMostMaxPerWindow | src/servepilot/runtime/health.py:146-164 | every closed interval as long as the window contains at most `max_restarts` grants, wherever it lies |
| Restarts.GrantRemembers | src/servepilot/runtime/health.py:158-159 | granting while fewer than the maximum are remembered keeps grants spaced |
| Restarts.PruneRemembers | src/servepilot/runtime/health.py:148-149 | pruning forgets exactly what is out of the window and nothing that matters later |
| Restarts.RememberedIsWindow | src/servepilot/runtime/health.py:147-150 | after pruning, the number remembered is the number granted within the window ending now |
| HealthChecks.HealthChecker.Forget | src/servepilot/runtime/health.py:146-149 | the pruning loop equals the specification |
| HealthChecks.HealthChecker.HandleDead | src/servepilot/runtime/health.py:139-161 | a dead replica is restarted exactly when restarts are enabled and fewer than the maximum were granted within the window, with the next attempt number; otherwise it is stopped for good |
| HealthChecks.HealthChecker.RestartOrGiveUp | src/servepilot/runtime/health.py:146-161 | grant or refusal, with everything that changes |
| HealthChecks.HealthChecker.Examine | src/servepilot/runtime/health.py:93-104 | one turn of the scan touches this replica only |
| HealthChecks.HealthChecker.Scan | src/servepilot/runtime/health.py:90-104 | exactly the considered replicas that run are probed; every considered dead one ends up restarting or stopped |
| HealthChecks.HealthChecker.CountProbe | src/servepilot/runtime/health.py:111-127 | the entry's counters after one probe, as the specification whose behaviour over any series of probes is proved |
| HealthChecks.HealthChecker.RecordProbe | src/servepilot/runtime/health.py:107-127 | a probe result keeps the invariant and never revives a stopped replica |
| HealthChecks.HealthChecker.ApplyProbes | src/servepilot/runtime/health.py:105-127 | every probed replica gets its own result once, nothing else changes |
| HealthChecks.ProbeKeeps | src/servepilot/runtime/health.py:111-127 | after any probe a healthy replica has failed fewer than `unhealthy_after` in a row |
| HealthChecks.ProbesDecide | src/servepilot/runtime/health.py:111-127 | after any series of probes, of which one succeeded, a replica is healthy exactly while fewer than `unhealthy_after` have failed in a row since, and its counter is that number; before the first success a healthy one is marked when the count reaches the limit and no other changes; the restart count is untouched |
| HealthChecks.MarkedAtLimit | src/servepilot/runtime/health.py:117-123 | a healthy replica is marked down exactly by the failure that makes `unhealthy_after` in a row, and one success makes any replica healthy with a counter of 0 |
| HealthChecks.GrantKeeps | src/servepilot/runtime/health.py:158-161 | a granted restart is the only one pending for its replica |
| HealthChecks.AdvanceKeeps | src/servepilot/runtime/replicas.py:201-229 | a restart's phases keep the invariant: the replica takes no requests |
| HealthChecks.EndKeeps | src/servepilot/runtime/replicas.py:230-246 | when a restart ends the replica is ready with clean counters, or stays down without taking requests |
| HealthChecks.HealthChecker.RestartBegins | src/servepilot/runtime/health.py:163-172 | after the backoff the entry leaves the table |
| HealthChecks.HealthChecker.RestartStarted | src/servepilot/runtime/replicas.py:213-229 | the launched engine is waited for under a starting entry |
| HealthChecks.HealthChecker.RestartRaised | src/servepilot/runtime/replicas.py:213-243 | a launch that raises ends the restart; the replica stays down, and is looked at again exactly if a launch error was caught |
| HealthChecks.RetriedExactly | src/servepilot/runtime/replicas.py:193-200 | the promise that a failed restart may be retried holds exactly unless the launch raised something other than a launch error |
| HealthChecks.HealthChecker.DownIsDead | src/servepilot/runtime/health.py:97-101 | a replica that is down has no running engine, so the next scan that considers it finds it dead |
| HealthChecks.TurnReturnsNobody | src/servepilot/runtime/health.py:90-104 | the scan brings nobody back who has left the table with no restart pending |
| HealthChecks.HealthChecker.RestartReady | src/servepilot/runtime/replicas.py:230-246 | a ready engine brings the replica back |
| HealthChecks.HealthChecker.RestartNotReady | src/servepilot/runtime/replicas.py:236-243 | an engine that is not ready is terminated; the replica stays down and will be looked at again |
| HealthChecks.HealthChecker.Stop | src/servepilot/runtime/health.py:69-82 | probing and all pending restarts are abandoned, none can launch afterwards |
| HealthChecks.HealthChecker.Begins | src/servepilot/runtime/supervisor.py:167-189 | after a successful start the health invariant holds |
| Supervisor.Deployment.Start | src/servepilot/runtime/supervisor.py:167-189 | it succeeds exactly when every launch finds a port and a ready engine, and then serves; a failed start leaves nothing running, no port, and in the router exactly the stopped entries of engines that were started and not ready |
| Supervisor.Deployment.RequestStep | src/servepilot/runtime/router.py:104-110 | no lease is placed on a replica seen dead and not ready again since |
| Supervisor.Deployment.Step | src/servepilot/runtime/health.py:90-176 | every step of requests, checks, restarts and dying engines keeps the invariant, leaves stopped replicas stopped, places nothing on replicas that are down and never returns to one that left the table with no restart pending |
| Supervisor.Deployment.Continue | src/servepilot/runtime/health.py:84-88 | the same for runs of any length; STOPPED is absorbing, and so is having left the table with no restart pending |
| Supervisor.Deployment.Shutdown | src/servepilot/runtime/supervisor.py:191-202 | no process is left alive, every port the set took is released, no restart is pending |
| Supervisor.EveryRun | src/servepilot/runtime/supervisor.py:167-189 | a deployment comes up exactly when every launch does; in every state it can then reach: at most one restart per replica, none that is down takes requests, healthy means fewer than `unhealthy_after` failures, restarts stay within the budget of every window |
| Supervisor.WhatServingMeans | src/servepilot/runtime/health.py:146-164 | the deployment invariant implies those facts |
| Sorting.StableSortSorted | src/servepilot/planner/scoring.py:249 | `sorted` orders by its key |
| Sorting.Stable | src/servepilot/planner/scoring.py:249 | `sorted` keeps the order of equals |
| Sorting.FirstIsLeast | src/servepilot/planner/scoring.py:256-259 | `min` and `max` return an extreme element |
| Scoring.Walk | src/servepilot/planner/scoring.py:266-280 | the walk moves from the first point by steps that are each worth it: to the first later point that is faster and gains at least `plateau_min_gain` or raises latency by at most `plateau_latency_rise`; where it ends no later point is, and no point beats it by more than the gain, although skipped points were compared with earlier choices |
| Scoring.ImprovesExactly | src/servepilot/planner/scoring.py:267-279 | the rule on relative gains is the rule on products: gain times current throughput, rise times current latency |
| Scoring.ChooseConcurrency | src/servepilot/planner/scoring.py:230-281 | the choice is valid and eligible if anything is; for throughput no busier point is faster and gains enough or keeps latency, and the regret is bounded; for latency the busiest eligible point under an SLO, else the fastest |
| Scoring.PoolIsConsidered | src/servepilot/planner/scoring.py:249-253 | the pool is the eligible points, or all valid ones when none is eligible, by concurrency |
| Scoring.UnmeasuredViolates | src/servepilot/planner/scoring.py:51-71 | a limit on a metric that was not measured is violated; without limits nothing is |
| Scoring.EveryLimit | src/servepilot/planner/scoring.py:51-71 | the SLO is met exactly when each of its limits is |
| Sweeps.SweepPoints | src/servepilot/benchmark/tuner.py:375-384 | ascending points from the start to the limit, which is always tried |
| Sweeps.GoodSoFar | src/servepilot/planner/scoring.py:192-198 | a sweep goes on only after valid points within the SLO |
| Sweeps.GoesOnExactly | src/servepilot/planner/scoring.py:180-224 | a sweep goes on exactly after an eligible point that holds up against the fastest so far and gained enough, or kept latency and is not the second in a row that gained too little |
| Scores.ScoreResults | src/servepilot/planner/scoring.py:92-143 | every result is scored against the bests of the valid ones, in order |
| Scores.SelectBestSound | src/servepilot/planner/scoring.py:152-169 | the winner is valid, meets the SLO if any valid result does, and scores highest of its kind; there is none only if nothing is valid |
| Scores.SelectBestFirst | src/servepilot/planner/scoring.py:152-165 | of several that score the same the first is selected |
| Scores.BalancedScoreOrder | src/servepilot/planner/scoring.py:136-138 | a result better in throughput or latency, no worse in the other and in errors, has the strictly higher balanced score |
| Scores.LatencyScoreOrder | src/servepilot/planner/scoring.py:120-132 | a result no slower in any latency metric, faster in one and with no more errors has the strictly higher latency score |
| Scores.MetricWorth | src/servepilot/planner/scoring.py:8-10 | a gain in a ratio is worth its weight in what is known: half for p95 latency and a quarter for TTFT and TPOT if all are, two thirds and a third with one missing, and so on |
| Scores.EqualRatios | src/servepilot/planner/scoring.py:120-132 | equal ratios have that mean, none known a mean of 0 |
| Scores.ErrorsCost | src/servepilot/planner/scoring.py:13-14 | whatever the objective, errors cost their weighted share of the score the result would have without any, up to all of it |
| Scores.BalancedWinnerUndominated | src/servepilot/planner/scoring.py:136-169 | unless errors cost the balanced winner its whole score, no eligible result with at most its error rate dominates it |
| Scores.FactorPositive | src/servepilot/planner/scoring.py:74-75 | a penalty weight times error limit below one means that no valid result loses its whole score |
| Scores.NormalisedScores | src/servepilot/planner/scoring.py:5-16 | latency and balanced scores of valid results lie between 0 and 1 |
| Pareto.ParetoFront | src/servepilot/planner/scoring.py:287-316 | the nested loops mark exactly the undominated points; the result is their stable sort |
| Pareto.FrontSound | src/servepilot/planner/scoring.py:299-315 | front points do not dominate each other, and every other point is dominated by one on the front |
| Pareto.DominatedFromFront | src/servepilot/planner/scoring.py:299-315 | a dominated point is dominated by an undominated one |
| Pareto.FrontRises | src/servepilot/planner/scoring.py:316 | along the returned order the front's throughput strictly rises with latency |
| Pareto.BalancedWinnerOnFront | src/servepilot/planner/scoring.py:136-169 | for error-free results the balanced winner lies on the front |
| Pareto.ThroughputWinnerDominatedByTies | src/servepilot/planner/scoring.py:120-121 | a throughput winner off the front is dominated by exact ties only |
| Memory.BudgetSafe | src/servepilot/planner/memory.py:57-71 | budget and reserve together fit in free memory exactly when free memory covers the reserve; the fraction is never above its cap, and below it the budget is within a hundredth of the device plus a byte of all that is spare |
| Memory.ReserveIsLarger | src/servepilot/planner/memory.py:57-60 | the reserve is the headroom share of the device or the fixed minimum, whichever is more |
| Memory.Hundredths | src/servepilot/planner/memory.py:70 | the fraction is the largest number of hundredths that fits |
| MemoryEstimates.EstimateMemory | src/servepilot/planner/memory.py:80-201 | the estimate, with its reassigned verdict and shortfall, states what the request's own numbers imply; an empty group is an error |
| MemoryEstimates.FitsExactly | src/servepilot/planner/memory.py:129-172 | with known weights and cache size a replica fits exactly when fixed parts and required cache are within the budget, the GPU is not too occupied and nothing is claimed that is not free |
| MemoryEstimates.FixedParts | src/servepilot/planner/memory.py:107-127 | besides the cache a GPU holds its weight shard, an activation share of the whole device, graphs, engine, and the communication buffer exactly when the group has more than one GPU |
| MemoryEstimates.ShardsHoldWeights | src/servepilot/planner/memory.py:74-77 | the shards together hold the weights and the sharding overhead, each rounded down to a byte |
| MemoryEstimates.StagesShare | src/servepilot/planner/memory.py:95-128 | pipeline stages share the cache, each at least a byte a token |
| MemoryEstimates.SequencesFit | src/servepilot/planner/memory.py:129-172 | the concurrency reported is the number of whole sequences that fit |
| MemoryEstimates.FitsLeavesReserve | src/servepilot/planner/memory.py:57-71 | what fits without a forced fraction leaves the safety reserve in free memory untouched |
| MemoryEstimates.HiddenShortfall | src/servepilot/planner/memory.py:127-172 | exactly when a verdict against a replica comes with shortfall 0 |
| MemoryEstimates.PassesExactly | src/servepilot/planner/pruning.py:44-49 | `check_memory` without tolerance lets through exactly what fits or misses without a shortfall |
| MemoryEstimates.UnknownWeightsPass | src/servepilot/planner/pruning.py:44-49 | with unknown weights a replica that does not fit still passes |
| MemoryEstimates.WeightsShrink | src/servepilot/planner/memory.py:74-77 | from two shards on, more shards mean no more weight bytes each |
| MemoryEstimates.WiderFits | src/servepilot/planner/memory.py:80-172 | what fits on a group of two or more fits on every wider one with no larger cache per GPU |
| MemoryEstimates.StandardWiderFits | src/servepilot/models/kv_cache.py:33-56 | which standard attention guarantees |
| MemoryEstimates.FirstSplitFits | src/servepilot/planner/memory.py:110-119 | from one GPU to several fitting carries over when the split pays for the communication buffer |
| MemoryEstimates.FirstSplitExactly | src/servepilot/planner/memory.py:110-172 | from one GPU to several fitting carries over at every context length exactly when one GPU never fits, or communication buffer and the cache several need for its longest context (or the spare room demanded where sizes are unknown) are within what one GPU has for its cache and what the weights give up |
| MemoryEstimates.LongestDecides | src/servepilot/planner/memory.py:129-172 | so only the longest context that fits on one GPU matters |
| MemoryEstimates.FitsUpToLongest | src/servepilot/planner/memory.py:129-172 | a replica fits exactly up to its longest context |
| MemoryEstimates.FirstSplitCanFail | src/servepilot/planner/memory.py:110-119 | a small model with a latent cache fits on one GPU of 100 GiB at its longest context and not on two |
| MemoryEstimates.MlaWiderFits | src/servepilot/models/kv_cache.py:89-107 | with latent attention what fits on a group of two or more fits on every wider one |
| MemoryEstimates.SmallGpuPasses | src/servepilot/planner/pruning.py:44-49 | five GiB, all free, do not fit a model of unknown size, and the plan passes |
| MemoryEstimates.MinimumTpThatFits | src/servepilot/planner/memory.py:204-227 | the smallest candidate size that fits, or none exactly when none fits |
| KvCache.StandardMonotone | src/servepilot/models/kv_cache.py:42-56 | wider groups hold no more cache per GPU, and at least one byte a token |
| KvCache.MlaPerToken | src/servepilot/models/kv_cache.py:89-107 | the latent cache is the same on every rank as in total, known exactly when layers and rank are, and never lost to rounding |
| KvCache.RanksHoldCache | src/servepilot/models/kv_cache.py:54-56 | all ranks together hold the whole cache, up to the rounding of each |
| KvCache.KeysAndValues | src/servepilot/models/kv_cache.py:42-56 | with whole bytes per element the cache is a key and a value of every element of every head of every layer; heads that divide among the ranks do so exactly, and with as many ranks as heads or more each rank holds one |
| KvCache.LatentBytes | src/servepilot/models/kv_cache.py:96-98 | the latent cache holds the latent and the rotary key of every layer once |
| KvCache.HeadDimKnown | src/servepilot/models/kv_cache.py:43-46 | a configured head size counts, and otherwise the heads share the hidden size |
| Tuning.Session.Benchmark | src/servepilot/benchmark/tuner.py:337-340 | only an open session is measured; what is asked of it is remembered |
| Tuning.Tuner.CloseSession | src/servepilot/benchmark/tuner.py:225-229 | no session is open afterwards and none is closed twice, even if closing raises |
| Tuning.Tuner.Open | src/servepilot/benchmark/tuner.py:207-223 | at most one session is open; a session is reused only for the same topology and memory fraction |
| Tuning.Tuner.Record | src/servepilot/benchmark/tuner.py:167-172 | only evaluations whose results were measured on their plan's launch configuration are recorded |
| Tuning.Tuner.MeasureStructural | src/servepilot/benchmark/tuner.py:325-361 | the launched candidate is measured once, at stage A's concurrency; one evaluation is recorded whatever happens; a session is left open exactly for the last candidate if it was measured, and it is that candidate's |
| Tuning.Tuner.StageAConcurrencyBounds | src/servepilot/benchmark/tuner.py:187-200 | an expected concurrency is used as it is; otherwise at least eight and two for each replica, and as near half the capacity as 256 allows |
| Tuning.Tuner.RunStageA | src/servepilot/benchmark/tuner.py:309-363 | one evaluation for every candidate, in order; a resumed candidate contributes exactly its completed evaluation, another one a single measurement at stage A's concurrency or a failure; those with results are returned; at most the last candidate's session stays open |
| Tuning.Tuner.RankStructural | src/servepilot/benchmark/tuner.py:365-373 | the evaluations ranked: eligible first, then by the score of their first result, ties in their order |
| Tuning.Tuner.RankingSound | src/servepilot/benchmark/tuner.py:365-373 | that ranking lists every eligible evaluation before the others, by descending score within each kind, and holds exactly the evaluations given |
| Tuning.Tuner.RankingStable | src/servepilot/benchmark/tuner.py:369-373 | evaluations that rank the same stay in the order they were measured |
| Tuning.Tuner.RunPoint | src/servepilot/benchmark/tuner.py:424-445 | a point is measured, on this session, exactly when its concurrency was not tried before |
| Tuning.StageADoesNotCount | src/servepilot/benchmark/tuner.py:433-434 | a measurement of stage A does not count as one of a sweep |
| Tuning.SweptCounts | src/servepilot/benchmark/tuner.py:433-434 | any other measurement does |
| Tuning.Tuner.SweepUp | src/servepilot/benchmark/tuner.py:455-466 | every point not tried before is measured, in order, until a result says stop; only the last point may be invalid or violate the SLO |
| Tuning.Tuner.SweepThroughput | src/servepilot/benchmark/tuner.py:447-482 | the geometric points up to the limit are measured until a result says stop, then every midpoint next to the fastest point, each unless it was tried; everything measured was measured on this session |
| Tuning.Tuner.SweepLatency | src/servepilot/benchmark/tuner.py:484-509 | the operating point is measured unless it was tried; without an SLO nothing else, under one the climb |
| Tuning.Tuner.Climb | src/servepilot/benchmark/tuner.py:495-509 | each concurrency grown from the one before is measured until the limit, a point tried before, a failed benchmark or a result that says stop |
| Tuning.Tuner.LimitIsLower | src/servepilot/benchmark/tuner.py:376-377 | no sweep goes beyond the lower of the configured limit and the plan's own |
| Tuning.NeighboursExactly | src/servepilot/benchmark/tuner.py:467-479 | refinement points lie half way between the fastest working point, at its lowest concurrency, and the next ones above and below |
| Tuning.Tuner.SweepCandidate | src/servepilot/benchmark/tuner.py:396-413 | the sweep its objective asks for is run on a session of the plan, and recorded under the plan it was measured on |
| Tuning.Tuner.RunStageB | src/servepilot/benchmark/tuner.py:386-421 | one evaluation for each of the best candidates; what is returned are the sweeps of those that could be relaunched, or, only if none could, the stage A evaluations |
| Tuning.Tuner.TopFacts | src/servepilot/benchmark/tuner.py:387-392 | the best candidates are as many as are kept, all from those given |
| Tuning.Tuner.TopOrder | src/servepilot/benchmark/tuner.py:387-392 | they are the first of the ranking, those of the open session's topology before the others |
| Tuning.Tuner.OperatingPoints | src/servepilot/benchmark/tuner.py:515-526 | one valid operating point, as `choose_concurrency` gives it from everything measured for the topology, for every sweep whose topology has a valid result |
| Tuning.Tuner.PointsConcat | src/servepilot/benchmark/tuner.py:515-526 | the operating points come in the order of the sweeps |
| Tuning.Tuner.PickWinner | src/servepilot/benchmark/tuner.py:512-543 | the winner is an operating point that meets the SLO if any does; scored against all of them it has at least the score of every point of its kind, and more than every earlier one; it is a valid result of its topology, and there is none only if nothing is valid |
| Tuning.Tuner.RunStageC | src/servepilot/benchmark/tuner.py:546-610 | left out exactly when there is no larger fraction to try; otherwise the tuned plan is launched anew and measured at its trials, one evaluation is recorded, and the operating point among its results replaces the winner exactly when it is eligible and better by enough |
| Tuning.Tuner.MemoryPoints | src/servepilot/benchmark/tuner.py:583-589 | the winner's concurrency and one growth step more are measured, within twice the plan's cap |
| Tuning.Tuner.FractionFits | src/servepilot/benchmark/tuner.py:554-560 | the fraction tried leaves a GiB of free memory alone and grows by at most a step and the rounding |
| Tuning.Tuner.FractionTried | src/servepilot/benchmark/tuner.py:554-562 | a hundredth more is tried whenever the step reaches it and free memory allows it |
| Tuning.Tuner.RunStageD | src/servepilot/benchmark/tuner.py:613-653 | the stage is never left out: one evaluation of the final plan is recorded, and an open session was measured once more at the winning concurrency; the winner stays, or is replaced by that sample, whatever it shows |
| Tuning.FinalCanBeInvalid | src/servepilot/planner/scoring.py:14-16 | a winner without errors is replaced by a final sample in which one request in ten fails |
| Tuning.Tuner.RunStages | src/servepilot/benchmark/tuner.py:241-263 | whatever is selected is a valid recorded result, or the final sample of one, and was led to by the best operating point of the sweeps |
| Tuning.Tuner.SelectWinner | src/servepilot/benchmark/tuner.py:243-262 | the winner of stages A to C is the best operating point of the sweeps as they were recorded then, or what stage C made of it |
| Tuning.Tuner.Tune | src/servepilot/benchmark/tuner.py:236-265 | on every path no session is left open, each opened one was closed exactly once, and every recorded result belongs to its evaluation's launch configuration; the winner is the sweeps' best operating point or what stage C made of it; the result is a valid recorded one or the final sample of one, and invalid exactly when that sample is |
| LogBuffer.RetainedIsLongest | src/servepilot/engines/process.py:38-55 | what is kept is the longest suffix within both limits, a single line being allowed any size |
| LogBuffer.RetainedStep | src/servepilot/engines/process.py:49-55 | forgetting lines early never changes what is kept later |
| LogBuffer.RingBuffer.Append | src/servepilot/engines/process.py:49-55 | after every append the buffer holds that suffix of everything ever appended, and the byte counter is the sum of what is held |

## Left out

* HTTP, sockets, NVML, Ray, subprocess handling, files, the command line, rendering, settings,
  fingerprints and the cache store, prompt generation, engine command lines and failure
  classification: string plumbing, random sampling or foreign systems.
* Candidate generation beyond its topology loop: variants, cross-machine plans, de-duplication,
  ranking and rationale texts.
* Event texts, error strings, reasons, metrics and notes everywhere; floating-point rounding.
* Cancellation inside a start or a launch, and launches that overlap in time.
* `RoundRobinRoutingPolicy`, `PortAllocator.allocate_many`, `release_all` and the dry-run `specs`: easy
  members of the same kind.
* A dead process is never seen running again: process identifiers are not reused.
* Negative values of `max_restarts`, `max_lines` and `max_queue_depth`, and `unhealthy_after` below 1,
  which no caller configures.
- Tuning.Ceiling: does not model the two-decimal rounding of ties to even; `Rounded` rounds them up.
- Tuning.Tuner.RunStageD: does not promise a valid result, because the source does not check the final
  sample; `Tune` says when it is one.
- Replicas.ReplicaSet.AwaitReady: does not model `wait_until_ready` raising; its polling loop turns
  transport errors into another try and returns a result in every branch (src/servepilot/engines/base.py:205-243).
- Semaphores.WakeNext: does not model event-loop fairness beyond first-come order among pending waiters.
- HealthChecks.HealthChecker.Scan: does not model the engine's exit code or the probe's two paths.
