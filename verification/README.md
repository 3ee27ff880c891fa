# kqos: a verified model of the node resource governor

kqos watches every pod on a node, decides how much CPU and memory can be sold a second time to
"reclaimed" pods, carves the node's CPUs into pools, evicts when the node is stressed, and
advertises the result to the cluster. This project models the code that decides, leaving out the
code that talks to Kubernetes or the kernel, and proves what those decisions guarantee: for every
input, over every run, and across components.

Run `dafny verify dfyconfig.toml` to check everything.

## How it is organised

| files | component |
|---|---|
| `Numbers`, `OrderStats`, `StableSort` | Go's number conversions, order statistics of a window, a stable in-place sort |
| `SampleWindow`, `WindowStatistics`, `AdvisorModel`, `Advisor`, `AdvisorWindows` | the ring windows, their statistics, and the advisor that turns them into an offer and a pressure level |
| `AdvisorRuns`, `AdvisorOffers`, `AdvisorRevisions`, `PressureLevels` | what offers, revisions and levels are, over whole runs |
| `CpuSets`, `CpuSetText`, `CpuSetNormal`, `CpuSetGrammar`, `CpuPool`, `PoolContents`, `CpuExclusive` | CPU sets, their list format, the greedy pool allocator, what its pools hold and where each pod may run |
| `TokenBucket`, `EvictionModel`, `EvictionRate`, `EvictionExact`, `EvictionManager`, `Plugins`, `PluginAnswers` | the rate limit and what it means for evictions, the eviction pass, the manager that runs it and the plugins that propose victims |
| `UsageStore`, `UsageRuns`, `UsageAnswers`, `UsageVisibility` | the controller's sample store, its statistics, what they say of the reports, its garbage collection and when that can be noticed |
| `AgentRuns`, `PressureRuns`, `BadSample` | the agent's tick, with advisor, plugins and eviction manager together, its level as the recent samples have it, and what one bad sample can do |
| `Tiers`, `Pods`, `Webhook`, `AdmissionRules`, `DedicatedAdmission` | service tiers, pod footprints, the admission rewrite with its inverse, the rules of admission and what it promises a dedicated pod |
| `CgroupSearch`, `CgroupNames` | the bounded breadth-first search for a pod's cgroup, its cache, and the names it goes by |
| `Overcommit`, `OvercommitWrites`, `PolicyRollup`, `ControllerFigures`, `EndToEnd` | advertising an offer on the node, how often that writes, the cluster rollup and what it sums, and the bounds carried from end to end |

Components that the program updates in place are classes (`Window`, `Advisor`, `Manager`,
`TokenBucket`, `Store`, `PodUnderAdmission`, `Resolver`, `Reconciler`) or loops over arrays. Each
method is proved equal to a function of the old state, and the theorems are about those functions
and about sequences of them. Times are nanoseconds since Go's zero time, so zero is Go's
`IsZero()`. Quantities are exact decimals counted in billionths.

## Where the code and its documentation differ

The model follows the code. Each difference is proved on a concrete input, with the exact
condition under which the documented property does hold.

- A damped offer may be positive yet below the minimum that `reclaimable` enforces
  (`AdvisorRuns.OfferBelowFloor`). A tick keeps the minimum exactly when
  `AdvisorRuns.FloorKeptAtTick` says.
- Raising the eviction budget is said not to hand out a burst. It pays for the time already
  elapsed at the new rate (`TokenBucket.RaiseHandsOutBurst`), unless none has elapsed
  (`TokenBucket.RaisingPaysForThePast`).
- "Per minute" is not a sliding count (`TokenBucket.FourWithinAMinute`,
  `EvictionRate.FourEvictionsWithinTwentySeconds`). A cap c holds as a count over every span of
  one length exactly when c times that length is less than a minute
  (`TokenBucket.SlidingCount`, `EvictionRate.SlidingEvictions`).
- `ZoneFor` is documented as choosing the zone with the most free CPUs; it chooses the tightest
  that fits (`CpuPool.ZoneIsNotRoomiest`, `CpuPool.BestZoneLaw`), and so the roomiest only when
  all that fit have equally many (`CpuPool.ZoneIsRoomiest`).
- A dedicated pod's CPUs are said to be ones no other pod may run on. But the reclaimed pool can
  take them back (`CpuPool.ReclaimedCanOverlap`), exactly when the shared pool is below the
  reclaimed floor and something was granted (`CpuPool.ReclaimedAvoidsDedicated`); and with nothing
  reserved, no pool confines a system pod (`CpuExclusive.SystemPodsRoam`). A granted pod has its
  CPUs to itself exactly when it is the only pod, or CPU sets are written and neither kind of
  other pod can reach them (`CpuExclusive.Exclusive`). The fallback of the shared pool, in
  contrast, can never change anything (`CpuPool.SharedIsTheRest`).
- The wait before an eviction is said to keep a single bad sample from evicting anything. The
  advisor's windows keep the node pressed over that sample (`AgentRuns.SpikeLevel`), and under the
  defaults a pod is evicted over it (`BadSample.DefaultsEvictOverSpike`). It can be exactly when
  the wait is no longer than the window (`BadSample.SpikeCanEvict`).
- A disabled manager is said to go on reporting what it would evict; it returns before any plugin
  runs (`EvictionModel.DisabledReportsNothing`). A pass counts proposals exactly when it is enabled
  and its sample is not degraded (`EvictionModel.ProposalsReported`).
- The overrun plugin is said not to wait for node pressure, and does wait
  (`Plugins.OverrunWaitsForPressure`); it proposes exactly the overrunning pods when there is some
  (`Plugins.EvaluateReclaimedOverrun`).
- The CPU plugin is said to trigger on stalls rather than on use, and triggers on either
  (`PluginAnswers.UseAloneTriggers`); `PressureRuns.CPUTrigger` says exactly when.
- The wait before an eviction is said to need a threshold to stay breached, and counts from moderate
  pressure (`EvictionExact.ModerateStartsClock`, `EvictionExact.WaitsExactly`).
- A pod that misspells its level is said to be refused, and is admitted as if it had said none
  (`AdmissionRules.MisspellingReplaced`). `AdmissionRules.DeniedExactly` says which pods are refused.
- Admission is said to keep a dedicated pod's request from being rounded up silently, and an init
  container can have it rounded up (`DedicatedAdmission.InitRoundsUp`).
  `DedicatedAdmission.AdmittedCores` says exactly when it is not.
- Reading back the requests of a rewritten pod is not always the inverse of the rewrite
  (`Webhook.ReadBackCanLose`); `Webhook.ReadBackCPU` and `Webhook.ReadBackMemory` say when it is.
- An unchanged revision is taken to mean that nothing material changed. Over one tick it means
  exactly that (`AdvisorRevisions.TickRevision`); over a run it means that each tick was immaterial
  against the one before (`AdvisorRevisions.RunRevision`), so offers may drift
  (`AdvisorRevisions.RevisionCanDrift`), by two percent compounded a tick at most
  (`AdvisorRevisions.UnchangedRevisionBoundsDrift`). Across a restart it means nothing
  (`EndToEnd.RestartHidesChange`).
- A collection of the usage store can be noticed later (`UsageVisibility.LateArrivalsTell`),
  exactly when it finds an expired sample of the series behind one that has not expired
  (`UsageVisibility.CollectionVisible`). Over whole runs collections go unnoticed if none finds
  one, as when samples arrive in time order, or if the series received no more samples than the
  cap (`UsageRuns.CollectionsInvisible`, `UsageRuns.InOrderInvisible`).
- Parsing a list that contains the greatest representable id never ends, because the loop counter
  wraps (`CpuSetText.LoopEnds`); printing and parsing are inverse exactly on the sets without it
  (`CpuSetText.RoundTrip`).

## Model

| member | source | states |
|---|---|---|
| `SampleWindow.Window.Push` | pkg/agent/sysadvisor/window.go:35-42 | the arrays, cursor and wrap-around flag together behave as a list that drops its oldest entry when full |
| `SampleWindow.Window.LiveValues` | pkg/agent/sysadvisor/window.go:47-68 | the unrolled ring yields the unexpired values in push order |
| `SampleWindow.Window.Aggregate` | pkg/agent/sysadvisor/window.go:151-164 | the configured statistic of the live values, and zero for an empty window |
| `SampleWindow.PushAllKeepsLast` | pkg/agent/sysadvisor/window.go:35-77 | after any run of pushes the window holds exactly the last min(n, capacity) observations, and is full iff at least capacity pushes happened |
| `SampleWindow.LiveMembers` | pkg/agent/sysadvisor/window.go:47-68 | a value is live iff some remembered observation carries it with a stamp not before the cutoff |
| `SampleWindow.LiveAppend` | pkg/agent/sysadvisor/window.go:47-68 | liveness keeps push order |
| `SampleWindow.AggregateWithin` | pkg/agent/sysadvisor/window.go:82-164 | every algorithm stays between the least and greatest live value |
| `SampleWindow.AggregateDominated` | pkg/agent/sysadvisor/window.go:82-164 | every algorithm is monotone under pointwise domination |
| `WindowStatistics.AlgorithmLaw` | pkg/agent/sysadvisor/window.go:82-164 | what each configured algorithm computes, by counting and weighing: the greatest value, the mean, a sum in which each later value shrinks the weight of those before, and the percentiles 99 and 95 for "p99" and any other name |
| `WindowStatistics.NothingLive` | pkg/agent/sysadvisor/window.go:82-164 | a window without live values gives zero, whatever the algorithm |
| `WindowStatistics.PercentileOver` | pkg/agent/sysadvisor/window.go:82-102 | the p-th percentile is over a threshold iff fewer than p hundredths of the values are not |
| `OrderStats.PercentileIsNearestRank` | pkg/agent/sysadvisor/window.go:82-102 | the percentile is the nearest rank of the sorted window, and zero for none |
| `OrderStats.PercentileCharacterised` | pkg/agent/sysadvisor/window.go:82-102 | it is the one observation with at least ceil(p n / 100) values at or below it and at least n minus that, plus one, at or above |
| `WindowStatistics.PercentileLaw` | pkg/agent/sysadvisor/window.go:82-102 | the same by counts alone: fewer than p hundredths of the values lie below it, and at least p hundredths at or below |
| `Advisor.Advisor.SetConfig` | pkg/agent/sysadvisor/advisor.go:135-164 | history is discarded exactly when the window geometry changes |
| `Advisor.Advisor.Observe` | pkg/agent/sysadvisor/advisor.go:167-189 | an invalid sample is ignored; otherwise each of the six windows receives its own reading, protected use leaving out reclaimed pods |
| `Advisor.Advisor.Recommend` | pkg/agent/sysadvisor/advisor.go:193-247 | the verdict, its damping, the critical-pressure withdrawal and the revision, as one function of the state |
| `AdvisorWindows.FreshWindows` | pkg/agent/sysadvisor/advisor.go:126-164 | a new advisor, and one whose geometry has just changed, remember nothing |
| `PressureRuns.RoomLaw` | pkg/agent/sysadvisor/advisor.go:147-164 | a window has room for as many samples as intervals fit in it, and for three at least |
| `PressureRuns.RunConfidence` | pkg/agent/sysadvisor/advisor.go:224-229 | after any run of usable samples confidence is low iff the windows have not filled once, and else high iff half of what they have room for is recent |
| `AdvisorWindows.WindowsRemember` | pkg/agent/sysadvisor/advisor.go:147-189 | over any run of one geometry each window holds its own reading of exactly the last usable samples, in order |
| `AdvisorWindows.MemoryPeakRemembered` | pkg/agent/sysadvisor/advisor.go:198-202 | no remembered, recent sample shows more protected memory than the advisor assumes, whatever the algorithm |
| `AdvisorRuns.DampLaw` | pkg/agent/sysadvisor/advisor.go:273-290 | falls at once; rises strictly, never past the target, closing the gap by the step |
| `AdvisorRuns.DampConverges` | pkg/agent/sysadvisor/advisor.go:273-290 | under a constant target the offer climbs by at least one a tick, arrives within the gap in ticks, and stays |
| `AdvisorRuns.SteadyRunConverges` | pkg/agent/sysadvisor/advisor.go:193-247 | the same for either resource over a whole run of samples and untroubled ticks |
| `AdvisorRuns.DampDecays` | pkg/agent/sysadvisor/advisor.go:273-290 | under a constant target the gap left after n ticks is at most a geometric decay in n, down to where a step closes one unit |
| `AdvisorRuns.SteadyRunDecays` | pkg/agent/sysadvisor/advisor.go:193-290 | the same for either resource over a whole run of samples and untroubled ticks |
| `AdvisorRuns.FloorKept` | pkg/agent/sysadvisor/advisor.go:273-290 | one damped step towards a target at or above a floor lands at zero or at least on the floor iff it does not damp or the step taken clears the floor |
| `AdvisorRuns.FloorKeptAtTick` | pkg/agent/sysadvisor/advisor.go:193-290 | a tick offers, of either resource, zero or at least the floor iff it is critical, aims at nothing or no higher than the current offer, does not damp, or takes a step that clears the floor |
| `AdvisorRuns.OfferBelowFloor` | pkg/agent/sysadvisor/advisor.go:210-211 | a concrete run of the default configuration, whatever memory the node has, that offers 125m under a floor of 200m |
| `AdvisorRuns.OfferBounded` | pkg/agent/sysadvisor/advisor.go:193-270 | after any samples and configuration changes an offer lies in [0, share of allocatable], a positive one fits the budget with protected use and headroom, and critical pressure offers nothing |
| `AdvisorOffers.TargetIsGreatest` | pkg/agent/sysadvisor/advisor.go:250-270 | a tick aims, for either resource, at the greatest positive amount that is at least the floor and within the budget, and at nothing iff there is none |
| `AdvisorOffers.ShareLaw` | pkg/agent/sysadvisor/advisor.go:254-262 | a percentage of an amount is rounded down to a whole unit |
| `AdvisorOffers.UnboundTarget` | pkg/agent/sysadvisor/advisor.go:250-270 | a verdict that no other term bound aims at exactly what the budget leaves |
| `AdvisorOffers.OfferIsGreatest` | pkg/agent/sysadvisor/advisor.go:193-290 | an untroubled tick that is not damped offers exactly that much, and no untroubled tick offers more |
| `AdvisorOffers.SteadyRunOffersGreatest` | pkg/agent/sysadvisor/advisor.go:193-290 | so does, damped or not, a run of enough ticks that aim alike |
| `AdvisorOffers.ProtectedUseIsSum` | pkg/agent/sysadvisor/advisor.go:171-181 | protected use is the sum over the pods that are not reclaimed, a valid rate mattering to CPU alone |
| `AdvisorOffers.FirstOffer` | pkg/agent/sysadvisor/advisor.go:193-290 | ten cores of which a shared pod uses four: the default configuration first offers 625m |
| `AdvisorOffers.ReasonLaw` | pkg/agent/sysadvisor/advisor.go:216-270 | a verdict names the term that bound each resource, or critical pressure |
| `PressureLevels.LevelExactly` | pkg/agent/sysadvisor/advisor.go:295-325 | a verdict is critical iff one live reading of memory reaches its threshold, or not nine tenths of those of CPU use, CPU stalls or memory stalls stay below theirs; moderate iff not critical and the same for ten points less, or half the stalls; and none otherwise |
| `PressureLevels.FiguresLaw` | pkg/agent/sysadvisor/advisor.go:295-308 | each reported percentage reaches a figure iff so many live readings do |
| `PressureRuns.RunLevel` | pkg/agent/sysadvisor/advisor.go:167-325 | after any run of usable samples the level is what the recent ones call for, counted directly |
| `PressureRuns.CriticalSpike` | pkg/agent/sysadvisor/advisor.go:295-325 | over a run in which one sample alone reaches the memory threshold, the level is critical iff the windows hold it |
| `PressureRuns.RunOffers` | pkg/agent/sysadvisor/advisor.go:216-222 | after any run a resource is offered at nothing iff the recent samples overload the node or nothing fits the budget |
| `PressureRuns.FullNode` | pkg/agent/sysadvisor/advisor.go:295-325 | ninety of a hundred GiB in use: the default configuration reports critical pressure and offers nothing |
| `AdvisorRuns.LoadNeverRaisesOffers` | pkg/agent/sysadvisor/advisor.go:167-325 | of two runs alike but for load, the one with every reading lower never has the higher pressure nor the lower offers, for every algorithm |
| `AdvisorRuns.ReclaimedUseIsInvisible` | pkg/agent/sysadvisor/advisor.go:167-189 | runs that agree on protected pods keep identical protected windows, whatever reclaimed pods do |
| `AdvisorRuns.ReclaimedUseDoesNotInterfere` | pkg/agent/sysadvisor/advisor.go:167-247 | such runs, withdrawn at the same ticks if at all, make identical offers at every tick |
| `AdvisorRevisions.TickRevision` | pkg/agent/sysadvisor/advisor.go:238-247 | a tick leaves the revision alone iff the pressure level stays and both offers move by no more than 2%; otherwise it adds one |
| `AdvisorRevisions.RunRevision` | pkg/agent/sysadvisor/advisor.go:238-247 | over any run the revision never falls, and is unchanged iff every tick was immaterial against the one before |
| `AdvisorRevisions.UnchangedRevisionBoundsDrift` | pkg/agent/sysadvisor/advisor.go:329-346 | while the revision is unchanged the pressure level is too, and n ticks move either offer by no more than 2% compounded n times |
| `AdvisorRevisions.RevisionCanDrift` | pkg/agent/sysadvisor/advisor.go:329-346 | a run of the default configuration, settled and then on a shrinking node, in which the revision stays while the offer drifts by 3% |
| `CpuSetText.ParseText` | pkg/cpuset/cpuset.go:38-69 | the parsing loops compute `Parse`: the ids, an error, or no end when a range runs up to the greatest representable id |
| `CpuSetGrammar.RefusedExactly` | pkg/cpuset/cpuset.go:38-69 | a text is refused iff some part of it is and every part before that is read and its ids are all added |
| `CpuSetGrammar.PartLaw` | pkg/cpuset/cpuset.go:44-66 | a part is read iff it is blank, a number, or a range of numbers that does not descend, blanks around any of them aside, and means no ids, that one, or all in between |
| `CpuSetGrammar.AtoiLaw` | pkg/cpuset/cpuset.go:50-60 | a number is decimal digits, with or without a sign, within the range of int |
| `CpuSetGrammar.SplitLaw` | pkg/cpuset/cpuset.go:44 | the parts hold no comma and, put together with commas, give the text |
| `CpuSetText.SpaceLaw` | pkg/cpuset/cpuset.go:38-52 | what counts as white space, in Unicode's sense |
| `CpuSetText.TrimLaw` | pkg/cpuset/cpuset.go:38-52 | trimming takes white space off both ends, all of it, and nothing else |
| `CpuSetText.LoopEnds` | pkg/cpuset/cpuset.go:64-66 | the inner loop over a range of representable ids, its counter wrapping, ever ends iff the upper end is not the greatest |
| `CpuSetText.RenderText` | pkg/cpuset/cpuset.go:104-129 | the printing loops compute `Render`: pairs listed, longer runs as ranges |
| `CpuSetNormal.RenderNormal` | pkg/cpuset/cpuset.go:104-129 | a set is printed as its items in order: a range, as long as it can be, for every three or more ids in a row, and the others one by one |
| `CpuSetText.ListReads` | pkg/cpuset/cpuset.go:38-69 | any list of ids and ascending ranges, in any order and overlapping or not, reads as the union of what its items denote, or never ends if that has the greatest id |
| `CpuSetText.RoundTrip` | pkg/cpuset/cpuset.go:38-129 | for every finite set of representable ids, parsing what was printed gives the same set iff the greatest id is not in it, and never ends if it is |
| `CpuSetText.ParseIds` | pkg/cpuset/cpuset.go:38-69 | every successful parse yields non-negative ids below the greatest representable one |
| `CpuSetText.NormalForm` | pkg/cpuset/cpuset.go:104-129 | printing what was parsed keeps its meaning and is an idempotent normal form |
| `CpuSetText.RenderInjective` | pkg/cpuset/cpuset.go:104-129 | different sets never print alike |
| `CpuSets.TakeLaw` | pkg/cpuset/cpuset.go:181-190 | taking splits the set into the lowest ids, as many as asked for or there are, and the rest |
| `CpuSets.TakeFromLaw` | pkg/cpuset/cpuset.go:195-202 | the preferred part is used up before any other id is taken |
| `CpuPool.ZoneFor` | pkg/agent/cpupool/topology.go:47-62 | the loop finds the zone that `BestZone` specifies |
| `CpuPool.BestZoneLaw` | pkg/agent/cpupool/topology.go:47-62 | the zone fits, no fitting zone is tighter, and none is returned only if none fits |
| `CpuPool.ZoneIsRoomiest` | pkg/agent/cpupool/topology.go:44-62 | the chosen zone has the most free CPUs of those that fit iff all that fit have equally many |
| `CpuPool.ZoneIsNotRoomiest` | pkg/agent/cpupool/topology.go:44-62 | two zones of which the chosen one has fewer free CPUs |
| `CpuPool.ComputePools` | pkg/agent/cpupool/pool.go:183-275 | the loops that carve, sort, fall back and record membership produce the specified layout |
| `CpuPool.ServedLaw` | pkg/agent/cpupool/pool.go:317-323 | dedicated pods are served in a stable descending permutation of their order |
| `CpuPool.ReservedLaw` | pkg/agent/cpupool/pool.go:186-192 | when the configured expression is any list of ids and ranges, reading it ends iff it does not name the greatest representable id, and then the reserved CPUs are what it names among the online CPUs |
| `CpuPool.ReservedOnline` | pkg/agent/cpupool/pool.go:186-192 | whatever the expression, reserved CPUs are online, and a malformed one reserves none |
| `CpuPool.SharedIsTheRest` | pkg/agent/cpupool/pool.go:246-250 | the shared fallback never changes the result |
| `CpuPool.Partition` | pkg/agent/cpupool/pool.go:183-251 | reserved, dedicated and shared are pairwise disjoint with union exactly the online CPUs, and shared keeps its floor unless the node is smaller |
| `CpuPool.PoolsPartition` | pkg/agent/cpupool/pool.go:183-275 | the returned list ends with the reclaimed pool, and all its other pools are pairwise disjoint with union exactly the online CPUs |
| `PoolContents.CommonPoolsHold` | pkg/agent/cpupool/pool.go:246-261 | the last pool but one holds exactly the online CPUs that are neither reserved nor any pod's own, and the last every online CPU that is not reserved, without the pods' own iff the last but one meets the reclaimed floor |
| `PoolContents.TierListed` | pkg/agent/cpupool/pool.go:263-275 | each tier's pool lists exactly the pods of its tier |
| `PoolContents.ConfinedTo` | pkg/agent/cpupool/pool.go:278-299 | a reclaimed pod is confined to the last pool, a shared one and a dedicated one without its own to that before, a system pod to the reserved one if there is any |
| `PoolContents.FloorLaw` | pkg/agent/cpupool/pool.go:208-256 | a configured floor below one counts as one |
| `CpuPool.ReclaimedAvoidsDedicated` | pkg/agent/cpupool/pool.go:253-261 | the reclaimed pool avoids every dedicated CPU iff shared meets the reclaimed floor or nothing was granted; always when the reclaimed floor is at most the shared floor |
| `CpuPool.ReclaimedCanOverlap` | pkg/agent/cpupool/pool.go:253-261 | a layout of four CPUs and one dedicated pod whose reclaimed pool holds the dedicated CPU |
| `CpuPool.GreedyWastesNothing` | pkg/agent/cpupool/pool.go:214-244 | a granted pod owns exactly its rounded request, NUMA-bound ones wholly in the tightest zone that had room; a denied one would not fit even in what is finally left |
| `CpuPool.OwnCpus` | pkg/agent/cpupool/pool.go:278-299 | a granted pod is confined to its own pool, of exactly its size |
| `CpuPool.PoolsApart` | pkg/agent/cpupool/pool.go:183-299 | when shared meets the reclaimed floor, a granted pod's pool shares no CPU with the pool of any other pod that has one, whatever its UID and level |
| `CpuExclusive.Exclusive` | pkg/agent/cpupool/pool.go:116-299 | a granted pod's CPUs are disjoint from where every other listed pod may run, pods that no pool confines included, iff it is the only pod, or CPU sets are enabled, no other pod is reclaimed unless shared meets the reclaimed floor, and none is of the system tier unless something is reserved |
| `CpuExclusive.Apart` | pkg/agent/cpupool/pool.go:149-162 | the same for one other pod, by its level |
| `CpuExclusive.SystemPodsRoam` | pkg/agent/cpupool/pool.go:194-197 | a node that reserves nothing, whose shared pool meets the reclaimed floor, and whose system pod may run on the dedicated CPU |
| `TokenBucket.TokenBucket.Configure` | pkg/agent/eviction/manager.go:265-274 | the bucket in place takes the new capacity and window and clamps its tokens |
| `TokenBucket.TokenBucket.Take` | pkg/agent/eviction/manager.go:276-296 | refill, clamp and spend in place, refusing below one token |
| `TokenBucket.StaysSound` | pkg/agent/eviction/manager.go:265-296 | 0 <= tokens <= capacity after any interleaving |
| `TokenBucket.Envelope` | pkg/agent/eviction/manager.go:265-296 | over any interleaving, clocks that step back included, successes number at most the starting tokens plus what the cap earns while the bucket's clock advances |
| `TokenBucket.SpanEnvelope` | pkg/agent/eviction/manager.go:265-296 | in any span at most the cap plus what it earns over the span, hence at most twice the cap within one window |
| `TokenBucket.RaisingPaysForThePast` | pkg/agent/eviction/manager.go:262-296 | raising the capacity hands out nothing extra iff no time passed since the bucket's clock |
| `TokenBucket.RaiseHandsOutBurst` | pkg/agent/eviction/manager.go:262-296 | raised from three a minute to thirty, a bucket emptied twenty seconds ago lets ten through at once instead of one |
| `TokenBucket.FourWithinAMinute` | pkg/agent/eviction/manager.go:276-296 | three a minute lets a fourth through twenty seconds later |
| `TokenBucket.SlidingCount` | pkg/agent/eviction/manager.go:265-296 | every sound bucket capped at c allows at most c successes in any span of one length iff c times that length is less than the window |
| `EvictionManager.Manager.Run` | pkg/agent/eviction/manager.go:77-176 | one pass over in-place state equals the specified pass: early returns, stabilisation, duplicates, vetoes, budget, dry run, failed evictions and trimming |
| `EvictionModel.OnlyLawfulEvictions` | pkg/agent/eviction/manager.go:77-217 | a pass evicts only what was proposed, each pod once, nothing vetoed, and nothing when degraded, disabled, stabilising or dry |
| `EvictionExact.EvictsExactly` | pkg/agent/eviction/manager.go:121-172 | a pass that is enabled and settled evicts exactly those of the first eligible verdicts, as many as the budget has whole tokens, that the API accepts, and in a dry run none; eligible are those whose pod is named for the first time and spared by no rule |
| `EvictionExact.SuppressedExactly` | pkg/agent/eviction/manager.go:121-217 | what such a pass reports as suppressed, cause by cause, are the fates of all the verdicts it considered |
| `EvictionExact.SuppressedOtherwise` | pkg/agent/eviction/manager.go:77-121 | any other pass suppresses everything it has at once, as degraded or stabilising |
| `EvictionExact.VetoExactly` | pkg/agent/eviction/manager.go:191-217 | a pod is spared iff it is of the system tier, mirrored, on its way out, finished, of system-critical priority, or was evicted less than two minutes ago |
| `EvictionExact.WaitsExactly` | pkg/agent/eviction/manager.go:113-121 | a pass waits iff the policy asks it to and there is no pressure, or was none at the last pass, or it was first seen less than that long ago |
| `EvictionExact.ModerateStartsClock` | pkg/agent/eviction/manager.go:178-189 | a pass under moderate pressure starts the clock |
| `EvictionModel.ProposalsReported` | pkg/agent/eviction/manager.go:77-111 | proposals are counted exactly by a pass that is enabled and not degraded, and a dry run evicts none of them |
| `EvictionModel.DisabledReportsNothing` | pkg/agent/eviction/manager.go:77-83 | one proposal that a disabled manager does not report and a dry run does |
| `EvictionModel.EvictionsBounded` | pkg/agent/eviction/manager.go:121-172 | the bucket's envelope bounds the evictions of any run, with policies changing below a cap, whatever capacity the bucket had before |
| `EvictionRate.SlidingEvictions` | pkg/agent/eviction/manager.go:121-172 | passes within a span evict at most the cap, for every state, run and policy below it, iff the cap times the span is less than a minute |
| `EvictionRate.FourEvictionsWithinTwentySeconds` | pkg/agent/eviction/manager.go:50-172 | a new manager under its default of three a minute evicts four pods within twenty seconds |
| `EvictionModel.BudgetStaysSound` | pkg/agent/eviction/manager.go:50-62 | a manager's own bucket always meets what that bound assumes |
| `EvictionModel.Stabilised` | pkg/agent/eviction/manager.go:113-121 | an eviction under a wait implies a pass at least that long ago from which on every active pass saw pressure |
| `AgentRuns.SpikeLevel` | pkg/agent/sysadvisor/advisor.go:295-325 | over a run of agent ticks in which one sample alone shows too much memory in use, the node counts as pressed exactly while the windows hold that sample |
| `AgentRuns.SpikeEvictsLate` | pkg/agent/eviction/manager.go:113-121 | in such a run, whatever the plugins answer, a manager that waits evicts only when the wait is over since that sample and the windows still hold it |
| `BadSample.SpikeCanEvict` | pkg/agent/eviction/manager.go:35-37 | some run with a single bad sample, its plugins answering as written, evicts a pod iff the wait is no longer than the window |
| `BadSample.DefaultsEvictOverSpike` | pkg/agent/agent.go:245-280 | under the default wait of 30s and window of 300s there is such a run |
| `EvictionModel.TrimKeepsVetoes` | pkg/agent/eviction/manager.go:242-248 | forgetting old evictions never changes a later veto |
| `EvictionModel.NoRepeatEviction` | pkg/agent/eviction/manager.go:191-217 | under a nondecreasing clock two evictions of one namespace and name are at least two minutes apart |
| `Plugins.EvaluateMemoryPressure` | pkg/agent/eviction/plugins.go:30-71 | the plugin's loops propose exactly the specified victims, in rank order |
| `PluginAnswers.ProposesWhen` | pkg/agent/eviction/plugins.go:30-48 | somebody is proposed iff there is a candidate, the node has memory, its use has reached the threshold and is above five points under it |
| `PluginAnswers.ReachingIsOver` | pkg/agent/eviction/plugins.go:35-48 | where the threshold is reached the node is above five points under it |
| `PluginAnswers.NoneTooMany` | pkg/agent/eviction/plugins.go:44-71 | without the last victim, or any more, use would stay above five points under the threshold; with all of them it does not, unless everybody is proposed |
| `PluginAnswers.MemoryAnswerMeans` | pkg/agent/eviction/plugins.go:50-71 | verdicts name candidates, cheaper tiers first and bigger users first within one, and release what each uses |
| `PluginAnswers.TiersInOrder` | pkg/apis/kqos/v1alpha1/qos.go:85-100 | reclaimed pods go before shared ones, these before dedicated ones, and system pods are not evictable |
| `PluginAnswers.TwoOfTen` | pkg/agent/eviction/plugins.go:30-71 | of ten pods of 8 GiB on a node with 90 of 100 GiB in use and a threshold of 85, two are proposed |
| `Plugins.RankedLaw` | pkg/agent/eviction/plugins.go:202-212 | the ranking is a permutation of the candidates by tier, then usage |
| `Plugins.EnoughLaw` | pkg/agent/eviction/plugins.go:50-71 | the victims are the shortest prefix that frees enough, or all candidates if none does |
| `Plugins.DearerTiersLast` | pkg/agent/eviction/plugins.go:30-71 | a pod of a dearer tier is proposed only if all candidates of cheaper tiers together free too little |
| `Plugins.FewestVictims` | pkg/agent/eviction/plugins.go:30-71 | when the victims are of one tier, no smaller choice from that tier frees enough |
| `Plugins.ProposalRecovers` | pkg/agent/eviction/plugins.go:35-48 | a sufficient proposal leaves utilisation at most five points under the threshold |
| `Plugins.EvaluateCPUSuppression` | pkg/agent/eviction/plugins.go:85-123 | at most one victim, the hungriest reclaimed pod, and none without a trigger |
| `PluginAnswers.CPUAnswerMeans` | pkg/agent/eviction/plugins.go:85-123 | somebody is proposed iff the plugin is triggered and some candidate is reclaimed, and then one reclaimed pod that uses most |
| `PressureRuns.CPUTrigger` | pkg/agent/eviction/plugins.go:85-91 | over a run the plugin is triggered iff not nine tenths of the recent samples stay below its threshold of CPU use, or below stalls that round to theirs |
| `PluginAnswers.UseAloneTriggers` | pkg/agent/eviction/plugins.go:73-91 | CPU use alone, without any stalls, triggers the plugin |
| `Plugins.EvaluateReclaimedOverrun` | pkg/agent/eviction/plugins.go:141-176 | exactly the reclaimed pods at three times their request or more, worst first, and none without pressure |
| `PluginAnswers.OverrunAnswerMeans` | pkg/agent/eviction/plugins.go:141-176 | a pod is proposed iff there is pressure and it is a reclaimed candidate that asks for CPU and uses at least three times as much |
| `PluginAnswers.OverrunVerdicts` | pkg/agent/eviction/plugins.go:157-172 | each verdict says how many times its request the pod uses, and releases all of that |
| `Plugins.OverrunWaitsForPressure` | pkg/agent/eviction/plugins.go:124-176 | a pod at nine times its request, proposed under pressure and not without |
| `Plugins.OtherPluginsSpareProtected` | pkg/agent/eviction/plugins.go:85-176 | neither of those two plugins ever proposes a pod of a protected tier |
| `Plugins.ProtectedTiersLast` | pkg/agent/eviction/manager.go:77-172 | together: a pod of a protected tier is evicted only under memory pressure that the cheaper tiers could not relieve |
| `UsageStore.Store.IngestReport` | pkg/usage/store.go:73-116 | degraded reports change nothing; others append to each owner's series in order, under the cap |
| `UsageStore.Store.Query` | pkg/usage/store.go:139-164 | the distributions of the unexpired samples, and nothing when none is left |
| `UsageStore.Store.QueryRequests` | pkg/usage/store.go:166-178 | the requests of the newest sample held of a workload |
| `UsageAnswers.AnswersFromReports` | pkg/usage/store.go:73-164 | through any run in which collections go unnoticed, an answer is the distributions of the CPU and memory that the workload's pods were reported to use, in order of arrival, the last up to the cap that have not expired, and the number of their distinct UIDs |
| `UsageAnswers.BelowCapAnswers` | pkg/usage/store.go:73-164 | below the cap, of everything ever reported that has not expired, in whatever order |
| `UsageAnswers.NewStore` | pkg/usage/store.go:55-70 | a store as it is built keeps ten minutes unless told a positive time, and 4096 samples of a series |
| `UsageAnswers.RequestsFromReports` | pkg/usage/store.go:73-178 | without collections the requests reported are those of the last pod reported |
| `UsageAnswers.OwnerLaw` | pkg/usage/store.go:118-131 | a pod counts for what its controller resolves to, else for that controller, else for itself |
| `UsageAnswers.OneSighting` | pkg/usage/store.go:73-178 | one report of a pod that uses 100m and a MiB and asks for 500m and a GiB, and what is answered |
| `UsageAnswers.CollectKeeps` | pkg/usage/store.go:207-230 | a collection keeps a series iff it has a sample that has not expired or was fed within twice the retention, and a node iff it reported within twice the retention |
| `UsageStore.Store.Collect` | pkg/usage/store.go:207-230 | the map loops drop exactly the expired samples, the abandoned series and the silent nodes |
| `UsageStore.CompactInPlace` | pkg/usage/store.go:212-220 | compacting a buffer over itself keeps exactly the unexpired samples, in order |
| `UsageRuns.UnexpiredMembers` | pkg/usage/store.go:139-164 | a sample is counted iff it is held and not older than the cutoff |
| `UsageRuns.GCInvisible` | pkg/usage/store.go:207-230 | a collection changes no answer at its own time or later, whatever the store holds |
| `UsageRuns.RunOfSeries` | pkg/usage/store.go:73-116 | what happens to one series never depends on the others |
| `UsageRuns.CollectionsInvisible` | pkg/usage/store.go:73-230 | erasing every collection from a run changes none of its answers, cap included, if no collection finds an expired sample of a series behind an unexpired one, or the series received no more than the cap |
| `UsageRuns.InOrderInvisible` | pkg/usage/store.go:73-230 | so it changes none when each series receives its samples in time order |
| `UsageRuns.BelowCapCounts` | pkg/usage/store.go:110-164 | a series that received no more than the cap counts exactly the unexpired of all it received, in whatever order they came |
| `UsageRuns.AnswersFromReceived` | pkg/usage/store.go:73-164 | through any such run, answers are computed from exactly those of the last capped number of samples received that have not expired |
| `UsageVisibility.CollectionVisible` | pkg/usage/store.go:110-112 | some later reports and question tell whether a collection took place iff it found an expired sample of the series behind an unexpired one |
| `UsageVisibility.LateArrivalsTell` | pkg/usage/store.go:64-112 | a store as it is built, with one fresh sample and then 4095 late ones: after one more sample an answer counts one without a collection and two with it |
| `UsageRuns.SamplesBounded` | pkg/usage/store.go:110-112 | no series ever holds more samples than the cap |
| `UsageRuns.SummaryAgrees` | pkg/usage/store.go:233-267 | the reported figures are the same statistics the advisor computes |
| `UsageRuns.SummaryLaw` | pkg/usage/store.go:233-267 | P50 <= P90 <= P95 <= P99 <= max, and mean, percentiles and max stay within any bounds on the data |
| `UsageRuns.SummaryIgnoresOrder` | pkg/usage/store.go:233-253 | a summary does not depend on sample order |
| `Pods.SumPod` | pkg/qos/qos.go:119-137 | app containers are summed and raised to the largest init container, per resource |
| `Pods.NativeQoS` | pkg/qos/qos.go:49-83 | guaranteed iff every container limits what it requests, best effort iff none asks anything |
| `AdmissionRules.LevelLaw` | pkg/qos/qos.go:21-83 | a pod's level is the one of four it spells out, else system for the node-critical priority classes, else by the class Kubernetes gave it, else by whether its containers ask for nothing or limit everything |
| `Pods.WholeCoresLaw` | pkg/agent/cpupool/pool.go:301-315 | a dedicated request becomes the least whole number of cores that covers it |
| `DedicatedAdmission.AdmittedCores` | pkg/webhook/pod.go:147-161 | an admitted dedicated pod gets exactly the CPU it asks for iff an init container that asks for more than the app containers asks for whole cores, or none does and what rounding to milli-cores hides adds up to whole cores; with fewer than a thousand app containers, iff each asks for whole cores |
| `DedicatedAdmission.InitRoundsUp` | pkg/webhook/pod.go:147-161 | an admitted pod of one core, with an init container of 1500m, gets two |
| `Pods.SumExtended` | pkg/qos/qos.go:163-172 | an extended resource is summed over the app containers alone |
| `Webhook.PodUnderAdmission.RewriteReclaimed` | pkg/webhook/pod.go:209-275 | the in-place rewrite of every container, the snapshot annotation and the reported change |
| `Webhook.RewrittenContainer` | pkg/webhook/pod.go:229-256 | extended requests equal extended limits, requested memory stays limited, no non-zero native request is left, nothing else moves |
| `Webhook.RewriteTwice` | pkg/webhook/pod.go:209-275 | a second rewrite reports no change and makes none |
| `Webhook.ReadBackCPU` | pkg/qos/qos.go:147-172 | the read-back gives the original milli-cores iff a native entry survived and the init containers account for the total; or none did, rounding adds less than one in all and no container that asks for no CPU asks for extended CPU; or no app container asks for CPU |
| `Webhook.ReadBackWholeMillis` | pkg/qos/qos.go:147-172 | whole milli-cores, where no native entry survives, are read back iff no container asks for extended CPU only, beside one that asks for CPU |
| `Webhook.ReadBackCanLose` | pkg/qos/qos.go:147-172 | a pod whose init container hides what its app container asked for |
| `Webhook.ReadBackMemory` | pkg/qos/qos.go:147-172 | with n containers asking, memory is read back strictly within n MiB iff a native entry survived and the init containers come that close themselves, or none did and what other containers ask of extended memory is nothing or keeps the sum that close |
| `Webhook.ReadBackNoMemory` | pkg/qos/qos.go:147-172 | with none asking it is read back exactly |
| `Webhook.AdmitTwice` | pkg/webhook/pod.go:50-110 | an admitted pod carries the level it was checked at, and admitting it again changes nothing |
| `AdmissionRules.AdmittedLevelLaw` | pkg/webhook/pod.go:66-82 | a pod is admitted at its own level, except that one which says none and seems shared is admitted at the default |
| `AdmissionRules.DeniedExactly` | pkg/webhook/pod.go:141-189 | exactly which pods are refused, by level: fractional or absent CPU requests, memory limits of zero, positive priorities, zone binding without exclusive CPUs |
| `AdmissionRules.AdmittedAs` | pkg/webhook/pod.go:88-98 | an admitted pod has its level written down, and nothing else changes unless it is reclaimed and rewriting is on |
| `AdmissionRules.MisspellingReplaced` | pkg/webhook/pod.go:66-115 | a pod whose level is misspelled is admitted or refused as if it said none |
| `AdmissionRules.RewriteLaw` | pkg/webhook/pod.go:209-265 | the rewrite touches app containers one by one and the annotation, which it sets iff some app container asks for CPU or memory and the snapshot can be written down |
| `AdmissionRules.MebibytesExactly` | pkg/webhook/pod.go:240-243 | memory is asked for in whole MiB, rounded down, and in one at least |
| `AdmissionRules.SnapshotLaw` | pkg/webhook/pod.go:209-222 | the annotation remembers the original of every container that asks for CPU or memory, and of one name that of the last |
| `CgroupSearch.Search` | pkg/agent/cgroup/resolver.go:129-162 | terminates on every finite tree; finds a match iff one lies within the bound behind readable directories only, and none is shallower than the one found |
| `CgroupSearch.Resolver.PodPath` | pkg/agent/cgroup/resolver.go:54-90 | a remembered path while it is present, else the shallowest match; always a present directory bearing the pod's name |
| `CgroupNames.WithinSixLevels` | pkg/agent/cgroup/resolver.go:39-45 | a pod's directory is found iff one lies within six levels behind readable directories, and as shallow as any |
| `CgroupNames.NamesExactly` | pkg/agent/cgroup/resolver.go:47-80 | a directory bears a pod's name iff "pod" and its UID, as it is or with underscores for dashes, stand in its own |
| `CgroupNames.UnderscoreLaw` | pkg/agent/cgroup/resolver.go:47-52 | every dash of a UID becomes an underscore, and nothing else changes |
| `CgroupNames.DriversNamePods` | pkg/agent/cgroup/resolver.go:11-23 | both drivers' spellings are recognised |
| `Overcommit.Reconciler.Reconcile` | pkg/controller/overcommit/controller.go:75-192 | the node's patched status and outcome, for every combination of missing, unreadable, stale and refused |
| `Overcommit.SyncTracks` | pkg/controller/overcommit/controller.go:152-192 | after every synchronisation that did not fail, each advertised amount is zero iff the wanted one is and differs from it by less than its threshold |
| `Overcommit.SyncTouchesOnlyReclaimed` | pkg/controller/overcommit/controller.go:169-190 | a patch touches only the two extended resources, and a failure touches nothing |
| `Overcommit.SyncSettles` | pkg/controller/overcommit/controller.go:158-167 | wanting the same again writes nothing |
| `Overcommit.StaleWithdraws` | pkg/controller/overcommit/controller.go:98-103 | a stale profile withdraws everything |
| `ControllerFigures.AliveLaw` | pkg/controller/overcommit/controller.go:145-150 | a profile is stale iff it was never reported or more than 90s ago, and ready iff reported less than 90s ago, so that just at 90s it is neither |
| `ControllerFigures.DesiredLaw` | pkg/controller/overcommit/controller.go:124-143 | a fresh profile asks for its own millicores and bytes, never for less than nothing, and a stale one for nothing |
| `Overcommit.SilenceWithdraws` | pkg/controller/overcommit/controller.go:75-192 | while an agent is silent, the first accepted patch withdraws its node, and nothing advertises or writes it again |
| `OvercommitWrites.WritesBounded` | pkg/controller/overcommit/controller.go:152-192 | over any run, refused patches included, a node is written no more often than its wanted amounts travel in thresholds plus go to zero or leave it |
| `PolicyRollup.Rollup` | pkg/controller/policy/controller.go:76-135 | the accumulating loop computes each total over exactly the selected profiles |
| `ControllerFigures.TotalsAdd` | pkg/controller/policy/controller.go:82-118 | however a cluster is split in two, its totals are those of the parts, and one profile's are what it reports |
| `ControllerFigures.SelectedLaw` | pkg/controller/policy/controller.go:76-100 | so are the profiles a selector keeps, and one is kept iff there is no selector or its node matches |
| `ControllerFigures.PercentLaw` | pkg/controller/policy/controller.go:120-123 | the percentage is what is offered of all allocatable CPU, rounded down |
| `PolicyRollup.RollupBounded` | pkg/controller/policy/controller.go:120-123 | when no node offers more than a percentage, neither does the cluster |
| `EndToEnd.AdvertisementBounded` | pkg/controller/overcommit/controller.go:75-192 | from any advisor run: a fresh profile's advertisement tracks the offer and exceeds the reclaim share by less than the write threshold, in CPU and in memory; stale or critical advertises nothing |
| `EndToEnd.LagBetweenTriggers` | pkg/controller/overcommit/predicate.go:19-32 | while one advisor's revision and pressure level wake no reconcile, advertised CPU lags the offer by at most the write threshold and 2% of what it tracked compounded once a tick |
| `EndToEnd.MemoryLagBetweenTriggers` | pkg/controller/overcommit/predicate.go:19-32 | the same for memory, which is advertised in whole MiB |
| `EndToEnd.LagUntilRequeue` | pkg/controller/overcommit/controller.go:120-122 | as a reconcile that succeeded comes again after 45s by itself, that lag never exceeds the drift of the ticks that fit in |
| `EndToEnd.MemoryLagUntilRequeue` | pkg/controller/overcommit/controller.go:120-122 | the same for memory |
| `EndToEnd.RestartHidesChange` | pkg/controller/overcommit/predicate.go:19-32 | two new advisors with equal revisions and levels whose offers differ a hundredfold |
| `EndToEnd.ClusterBounded` | pkg/controller/policy/controller.go:82-123 | the rollup never exceeds the highest reclaim share configured on any node, whatever each node went through |

## Left out

- Kubernetes clients, watches, patches, admission decoding and JSON: their outcomes (found, missing, refused, serialised or not) are parameters.
- Webhook.AdmitTwice: starts from a decoded pod in a namespace that is not exempt, with the webhook's settings already read.
- HTTP, DNS, Prometheus metrics, logging, events, messages and condition bookkeeping.
- Reading and writing cgroup files and detecting the topology: readings, topology and directory tree are arbitrary inputs.
- IEEE rounding, NaN and 64-bit overflow: reals and unbounded integers stand for floats and int64, except that `CpuSetText` keeps the range of a parsed integer and the wrap-around of the loop counter.
- CpuPool.ComputePools: a reserved expression that names the greatest representable id has no layout, since reading it never ends.
- EndToEnd.LagBetweenTriggers: like `EndToEnd.MemoryLagBetweenTriggers` and the two bounds until the requeue, it holds within one life of an advisor; a restarted one numbers from zero again, and until the requeue its offer may be any distance from what is advertised.
- EndToEnd.MemoryLagBetweenTriggers: as for CPU. The wake-up by a change of the agent's health condition, which only brings the next look forward, is not modelled.
- CpuExclusive.Exclusive: UIDs are distinct and none is the name of a tier pool. Every CPU set that is wanted has been written; failed writes, pods whose cgroup is not found yet, and a set written earlier that stays when none is wanted later are not modelled.
- BadSample.SpikeCanEvict: the bad sample is one of memory, and a tick takes no time, so that a sample's stamp is also the manager's clock.
- Plugins.EvaluateCPUSuppression: Go's unstable sort, here and in `Plugins.EvaluateReclaimedOverrun`, is modelled by a stable one; both contracts allow any order of ties. The memory plugin's and the pool allocator's sorts are stable in the code too.
- Webhook.PodUnderAdmission.RewriteReclaimed: resource maps are values here, so aliasing between containers and the difference between a nil and an empty map are not modelled.
- UsageStore.Store.Collect: a series' samples are values that are copied into a buffer, compacted in place and copied back; sharing of one series between readers is not modelled.
- UsageStore.Store.Query: the lists of workloads and nodes, which ignore retention, are not modelled.
- UsageRuns.SamplesBounded: speaks of samples only; the map of pods in a series is never trimmed by the code.
- CgroupSearch.Resolver.PodPath: a remembered path stays valid while present even if a shallower match appears later, as in the code; locks are not modelled.
- The set algebra of CPU sets (union, intersection, difference): Dafny's own set operators.
- The maps of CPU weights and CPU sets already applied to cgroups: caches in front of file writes.
- The collector's rate derivation, label discovery and process start-up.
