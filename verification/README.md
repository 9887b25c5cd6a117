# node-sentinel: a verified model

node-sentinel runs an agent on every node. The agent counts scheduler events per cgroup in the kernel,
turns them into percentiles and timelines, learns what is normal for each pod, names the pods that
suffer and the pods that cause it, and sends that snapshot to a controller. The controller lowers the
CPU limit of a confident offender for a while and puts it back, keeping a ledger so that a restart does
not forget a throttled pod.

This project models those parts in Dafny and proves what they promise over every input and every run.
`dafny verify dfyconfig.toml` checks all of it.

| module | what it models |
|---|---|
| `Protocol`, `Safety`, `Exposure`, `Actuation` | the throttle/restore protocol as a state machine with failing API calls, pod churn and kills; its invariant, exactly which steps let a restart orphan a pod, and what it does to the cluster over whole runs |
| `Remediation` | the remediator as an object whose methods are proved to take exactly the protocol's steps |
| `Targets`, `Identity` | which offenders become targets; labels, pod keys, ledger keys |
| `Timeline` | the 64-window ring with lazy reset and its drain |
| `Histogram` | log2 buckets, the per-CPU merge, the percentile estimate |
| `SchedHistory`, `Sched` | what a history of wakeups and switches means for a cgroup; the context-switch handler and the three read-and-delete drains, proved to keep and return exactly that |
| `Correlation` | the lagged Pearson scorer |
| `Baselines`, `Judging` | the moving averages and how victims and usage feed them |
| `Attribution` | confidence, ranking, and the bound on how many pods can be blamed |
| `TtlCache` | the cgroup name cache with a grace period |
| `Options`, `Reals` | shared helpers |

## What the model takes for granted

- **Protocol.** Every API call either takes effect or fails without effect; a restore of a missing pod
  answers NotFound. Nobody else edits limits, and while a record of a pod exists a pod of that name is
  only recreated with the limits it was declared with. In the state machine the read of the ledger at a
  restart succeeds or finds nothing.
  The patch, the in-memory record, the ledger write, the restore and the ledger delete are separate
  steps; anything may happen between them, including a kill, except a second action on a pod whose
  throttle is still between its patch and the end of its ledger write. In the object model one target
  and one due entry take one instant of the clock.
- **Scheduler.** Time does not run backwards on one CPU, nor from a task's wakeup to its switch; the CPUs'
  clocks need not agree otherwise. A drain is one atomic step. A map is never full.
- **Numbers.** Integers are unbounded, floats are exact reals, CPU quantities are integers in one unit.
  The correlation coefficient r is carried as its signed square r·|r|, which is ordered and bounded
  exactly as r is (`RhoIsSignedSquare`, `SignedSquareOrders`), so no square root is needed. The ring's
  bit mask is written as a remainder.
- **Collections.** A pod's containers are a map by name, the ledger a map from data key to record, the
  allowlist a set. Go's map iteration is an arbitrary choice of the next key. `sort.Slice` is insertion
  ranking, one of the orders it may produce.

## Where the code does not do what it promises

- **A late forget.** `restoreDue` deletes the record from memory before it deletes it from the ledger
  (internal/controller/resize.go:125-128). A report handled in between can throttle the pod again; the
  late delete then erases the new entry, and the next restart orphans the pod although every call
  succeeded. `LateForgetLoses` gives the run. `OrphanedExactly` says of every run which containers are
  orphaned: those a restart found exposed, where the only steps that expose a container are a patch the
  ledger does not name yet and such a late forget, and the only steps that cover it again are a ledger
  write of its record, its restore and the end of the pod (`ExposedNext`). `RestartSafety` follows for
  runs whose steps open no window.
- **Silent throttles.** Every throttle and restore is said to be announced by an Event
  (internal/controller/resize.go:5-6), but the result of that call is ignored: the contracts of
  `Throttle` and `RestoreCall` have the announcement exactly when the call succeeds.
- **Dry run.** `--dry-run` is documented as touching nothing, but the restore loop never looks at it: a
  dry-run controller restores what it finds in memory or in an earlier controller's ledger.
  `DryRunInertExactly` states when the promise holds.
- **A full-weight average.** With alpha = 1, which is allowed, one idle interval resets a usage normal
  to zero, which reads as not yet learned, and the next spike becomes the new normal.
  `UsageGrowthExactly`: the growth bound holds over all runs exactly when alpha < 1.
- **Outside the histogram's range.** The estimate is within half of the true wait exactly for waits
  from 1 µs to just under 2^27 µs (`EstimatePercentile`).
- **The first window after boot.** Epoch 0 marks a slot as never written, so charges of the first
  100 ms are dropped by the drain (`DrainExact`).

## Model

| member | source | states |
|---|---|---|
| `Safety.RunKeeps` | internal/controller/resize.go:39-150 | in every state of every run each record fits its pod's declaration, every lowered container is recorded or one a restart orphaned, and orphans stay lowered without a record |
| `Safety.NextKeeps` | internal/controller/resize.go:69-130 | each single step (patch, record, persist, restore, forget, pod churn, kill and recover) keeps that invariant, whatever the calls answer |
| `Safety.OriginalNeverLost` | internal/controller/resize.go:60-81 | no record in memory or ledger ever holds an already-lowered limit; each lowered container of an existing pod has its declared limit on record unless a restart orphaned it |
| `Exposure.RestartSafety` | internal/controller/persist.go:52-129 | with persistence on, in any run in which ledger writes succeed, no kill falls inside a throttle and no pod is lowered while its last forget is outstanding, every lowered container has a record with its declared limit, and a restart keeps it unless that container's own throttle is in flight |
| `Exposure.ExposedNext` | internal/controller/resize.go:69-130 | for every step, both ways: a container is lowered without a ledger entry after it if and only if the step exposed it (a patch the ledger does not name, or a late forget) or it was so before and the step did not cover it (its ledger write, its restore, the pod's end) |
| `Exposure.ExposedRun` | internal/controller/persist.go:52-96 | after every run a container is exposed if and only if some step exposed it and none since covered it |
| `Exposure.OrphanedExactly` | internal/controller/persist.go:98-129 | over every run and every configuration a container is orphaned if and only if a restart found it exposed and its pod was not deleted since |
| `Exposure.LostIffExposed` | internal/controller/persist.go:101-124 | a restart orphans exactly the exposed containers |
| `Safety.RestartKeepsExactly` | internal/controller/persist.go:101-129 | a restart keeps the record of a lowered container if and only if the ledger holds it |
| `Safety.LostForGood` | internal/controller/persist.go:101-129 | an orphaned container stays lowered in every continuation until its pod is deleted |
| `Exposure.CrashWindow` | internal/controller/resize.go:69-82 | killed after the patch, after the in-memory record or after a failed persist the container is orphaned if and only if no older ledger entry names it; after a completed persist never |
| `Exposure.LateForgetWindow` | internal/controller/resize.go:125-128 | after a new throttle of a pod, a ledger delete orphans it at the next restart if and only if the delete succeeds and was outstanding from an earlier throttle; the record is in memory all the while |
| `Exposure.LateForgetReachable` | internal/controller/resize.go:109-130 | one throttle and its restore always lead to a state where that window is open |
| `Exposure.LateForgetLoses` | internal/controller/resize.go:109-130 | from any start about to lower a pod, a run in which every call succeeds and no kill falls inside a throttle orphans the container |
| `Safety.RecoverFinds` | internal/controller/persist.go:114-124 | Recover loads a record for a pod exactly when the ledger holds one under its data key, and it is that record |
| `Actuation.LedgerRoundTrip` | internal/controller/persist.go:52-129 | after any run of successful ledger writes that do not overtake each other, with no call in flight, Recover rebuilds exactly the in-memory map |
| `Actuation.RestoreDueReturnsAll` | internal/controller/resize.go:109-150 | after any run, one restoreDue past all deadlines with successful patches empties the records, and a container is back at its declared resources if and only if no restart orphaned it |
| `Actuation.CooldownHolds` | internal/controller/remediation.go:118-189 | within one process lifetime two successful actions on the same pod are at least a cooldown apart, although failed Events erase the last attempt |
| `Actuation.CooldownExactly` | internal/controller/remediation.go:174-189 | neither longer nor shorter: within one process lifetime a pod is out of cooldown if and only if every successful action on it lies at least a cooldown back |
| `Actuation.TurnExactly` | internal/controller/remediation.go:126-162 | after an action on a pod that was due it is due again exactly when the cooldown has passed or the action came to nothing; a dry run takes its turn too |
| `Actuation.ThrottleLasts` | internal/controller/resize.go:74-114 | in every run, across restarts, a limit is only put back more than RestoreAfter after the controller lowered that pod |
| `Actuation.RestoreRunSteps` | internal/controller/resize.go:120-129 | the run of restoreDue is, for each due pod in turn, a restore and then a forget |
| `Actuation.OnlyAuthorisedChanges` | internal/controller/remediation.go:118-162 | every limit change lowers to the strictly smaller request for a cpu target of the allowlist at the gate with resize on and dry run off, or writes back a recorded original after its deadline |
| `Actuation.OthersChangeNothing` | internal/controller/persist.go:52-129 | no step but an action or a restore changes an existing container's limit |
| `Actuation.DryRunInertExactly` | internal/controller/remediation.go:42-44 | all runs of a dry-run controller leave pods and ledger alone if and only if it starts with nothing to restore |
| `Actuation.DryRunMutates` | internal/controller/resize.go:109-150 | otherwise a run of restores changes a pod or the ledger |
| `Remediation.ApiServer.PatchLimit` | internal/controller/resize.go:154-161 | the one container's limit changes, or nothing does and the error says whether the pod was missing |
| `Remediation.ApiServer.CreateEvent` | internal/controller/remediation.go:194-217 | one Event more exactly when the call succeeds |
| `Remediation.Remediator.constructor` | internal/controller/remediation.go:91-113 | empty memory; positive settings are kept, others become five minutes of cooldown and ten of throttle |
| `Remediation.Remediator.IsThrottled` | internal/controller/remediation.go:165-170 | true exactly for pods with a record |
| `Remediation.Remediator.TakeCooldown` | internal/controller/remediation.go:174-183 | succeeds exactly out of cooldown, and only then stamps the pod |
| `Remediation.Remediator.ClearCooldown` | internal/controller/remediation.go:185-189 | forgets this pod's last attempt and no other |
| `Remediation.Remediator.Throttle` | internal/controller/resize.go:39-89 | succeeds exactly when the read and the patch do and there is room; then the state is patch, record, persist of the protocol, else unchanged; announced exactly when it succeeded and the Event call did |
| `Remediation.Remediator.ReadContainer` | internal/controller/resize.go:40-64 | finds a request strictly below a limit exactly when the read succeeds and the container has room, and then the pod's own values |
| `Remediation.Remediator.PatchCall` | internal/controller/resize.go:66-72 | the protocol's lowering, or nothing on an error |
| `Remediation.Remediator.RecordCall` | internal/controller/resize.go:74-81 | the protocol's record step with the limit read before the patch |
| `Remediation.Remediator.ActCall` | internal/controller/remediation.go:135-162 | dry run does nothing, resize first for cpu, else an Event, and a failed Event gives the cooldown back; exactly one Event per successful call |
| `Remediation.Remediator.HandleTarget` | internal/controller/remediation.go:119-130 | one target is the protocol's action, record and persist steps, with Events only for a target that is due |
| `Remediation.Remediator.TakeTurn` | internal/controller/remediation.go:120-128 | a target is due exactly when allowed, not throttled and out of cooldown, and only then is its cooldown taken |
| `Remediation.Remediator.Remediate` | internal/controller/remediation.go:118-131 | one snapshot is the run of those steps over exactly its confident targets, in order; Events are only added, and none in a dry run |
| `Remediation.RemediateRunSteps` | internal/controller/remediation.go:118-131 | that run is, for each target in turn, its action, its record and its ledger write |
| `Remediation.AnnouncedExactly` | internal/controller/remediation.go:148-161 | a due target leaves one Event exactly when its call succeeds: the announcement of a throttle that went through, the recommendation otherwise, and none in a dry run |
| `Remediation.Remediator.PersistCall` | internal/controller/persist.go:52-75 | the protocol's persist step: the record under the pod's data key, or nothing |
| `Remediation.Remediator.ForgetCall` | internal/controller/persist.go:78-96 | the protocol's forget step: the pod's entry is gone, or nothing changed |
| `Remediation.Remediator.RestoreCall` | internal/controller/resize.go:135-150 | handled exactly when patched or the pod is gone; only the recorded container's limit changes; announced exactly when patched and the Event call succeeds |
| `Remediation.Remediator.RestoreEntry` | internal/controller/resize.go:120-129 | one due entry is the protocol's restore and forget steps; other records stay |
| `Remediation.Remediator.RestoreAll` | internal/controller/resize.go:120-129 | the second loop is the run of restore and forget steps over the collected records |
| `Remediation.Remediator.CollectDue` | internal/controller/resize.go:110-118 | exactly the records strictly past their deadline, each once |
| `Remediation.Remediator.RestoreDue` | internal/controller/resize.go:109-130 | the run of restore and forget steps over exactly the due pods |
| `Remediation.Remediator.Recover` | internal/controller/persist.go:101-129 | after a successful read memory holds exactly the readable records of any ledger, after a failed one nothing; for a ledger this controller wrote a successful read is the protocol's restart step |
| `Remediation.LoadLedger` | internal/controller/persist.go:112-124 | in any order of the entries: every loaded record is a readable entry under its own pod's key, every readable entry's pod is loaded |
| `Remediation.LoadedIsRecovered` | internal/controller/persist.go:112-124 | for a ledger this controller wrote, the order does not matter |
| `Targets.ConfidentTargets` | internal/controller/remediation.go:224-247 | the cpu, disk and net picks in order, at the override or the snapshot's own gate |
| `Targets.AddAll` | internal/controller/remediation.go:229-236 | appends the picks of one dimension |
| `Targets.PickedExact` | internal/controller/remediation.go:229-236 | a target is picked if and only if an offender at or above the gate carries its name as three non-empty parts |
| `Targets.TargetsGenuine` | internal/controller/remediation.go:219-247 | every target met the gate under a genuine name in its own dimension's list |
| `Targets.TargetsExact` | internal/controller/remediation.go:224-247 | t is a target if and only if its dimension's list has an offender of its full name and confidence at or above the override, or the snapshot's own threshold without one |
| `Identity.SplitPodExact` | internal/controller/remediation.go:252-258 | parsing gives namespace, pod and container if and only if all three are non-empty, the first two free of slashes, and the label is the three joined by slashes |
| `Identity.LabelParsesBack` | internal/agent/agent.go:783-788 | the parser inverts the printer for complete identities without slashes, and rejects every system and unknown label |
| `Identity.CmKeyInjective` | internal/controller/persist.go:45-47 | two pod keys without underscores never share a ledger slot |
| `Identity.CmKeyShape` | internal/controller/persist.go:45-47 | a data key has no slash and differs from the pod key only where that has one |
| `Identity.PodKeyInjective` | internal/controller/remediation.go:72-72 | a pod key determines namespace and pod |
| `Timeline.RingRefines` | internal/ebpf/bpf/sched_monitor.bpf.c:161-195 | for every time-ordered history a slot holds, in each of the four counters, the plain sum of all charges of its window, or an older window and this one was never charged, or a newer one exactly when this one was overwritten |
| `Timeline.DrainExact` | internal/ebpf/sched.go:63-117 | for every history each counter at each of the 64 positions is the plain sum over CPUs of all charges in its window that are not overwritten (zero for epoch 0) |
| `Timeline.DrainIsWindowSum` | internal/ebpf/sched.go:90-105 | if no charge is more than k windows ahead, every counter from position k on is the plain sum over CPUs of its window; with k = 0 at all 64 |
| `Timeline.Drain` | internal/ebpf/sched.go:83-105 | the nested loops compute the per-position sums over CPUs and slots |
| `Timeline.AddRing` | internal/ebpf/sched.go:91-104 | one CPU's ring adds its part at every position |
| `Timeline.AddBucket` | internal/ebpf/sched.go:92-103 | one slot is skipped, or each of its counters added at the position of its epoch and nowhere else |
| `Timeline.PlusAdds` | internal/ebpf/sched.go:100-103 | loads add counter by counter |
| `Timeline.SumAtTotals` | internal/ebpf/bpf/sched_monitor.bpf.c:235-266 | the load of a window is, counter by counter, the plain sum of its charges |
| `Histogram.Log2Bucket` | internal/ebpf/bpf/sched_monitor.bpf.c:118-127 | the bucket is the one whose range holds the value, capped at the last |
| `Histogram.SlotUnique` | internal/ebpf/bpf/sched_monitor.bpf.c:116-127 | that bucket is unique |
| `Histogram.RecordedCounts` | internal/ebpf/bpf/sched_monitor.bpf.c:279-286 | recording a wait keeps the histogram equal to the counts, sum and size of all waits |
| `Histogram.MergePerCpu` | internal/ebpf/sched.go:29-39 | slots, total and count are the sums over CPUs |
| `Histogram.MergeCounts` | internal/ebpf/sched.go:33-39 | the merge counts exactly the concatenation of all CPUs' waits |
| `Histogram.Percentile` | internal/metrics/histogram.go:22-45 | 0 for an empty histogram, else the midpoint of the first slot where the running count reaches the smallest positive number of events that is at least p percent |
| `Histogram.ReachedSlot` | internal/metrics/histogram.go:37-44 | that slot is the slot of the target-th smallest wait |
| `Histogram.MidpointBound` | internal/metrics/histogram.go:58-60 | the midpoint of q's slot lies in (3q/4, 3q/2] if and only if 1 <= q < 134217728 |
| `Histogram.EstimatePercentile` | internal/metrics/histogram.go:14-45 | for any waits on any number of CPUs the estimate is the midpoint of the slot of a wait q such that at least p percent of the waits are q or shorter and fewer than p percent strictly shorter, hence within half of q exactly for q from 1 to 134217727 |
| `Histogram.RankIsPercentile` | internal/metrics/histogram.go:31-35 | the wait at the rank the code computes is that percentile, by counting the waits |
| `Histogram.PercentileUnique` | internal/metrics/histogram.go:14-45 | a percentile is unique |
| `Histogram.TargetIsRank` | internal/metrics/histogram.go:31-35 | the computed rank is the smallest positive number of events that is at least p percent |
| `Histogram.CountsOne` | internal/ebpf/bpf/sched_monitor.bpf.c:284-286 | one wait counts once, in its own slot, with its own length |
| `Histogram.SlotsSumToCount` | internal/ebpf/sched.go:33-39 | every histogram's slots add up to its count |
| `Sched.Observer.HandleSwitch` | internal/ebpf/bpf/sched_monitor.bpf.c:214-288 | the history grows by the switch, and counters, waits, charges, idle time and start times are still exactly what the whole history means; time is ordered per CPU only |
| `Sched.SwitchExplains` | internal/ebpf/bpf/sched_monitor.bpf.c:214-288 | what a switch does to the maps is what the event means: cgroup g's counter on a CPU is the sum of now minus the previous switch there over the switches that end a slice of g, its waits are now minus the latest wakeup for the switches that start g |
| `Sched.WakeupExplains` | internal/ebpf/bpf/sched_monitor.bpf.c:197-211 | a wakeup changes nothing but the task's wakeup time |
| `SchedHistory.ChargesTotal` | internal/ebpf/bpf/sched_monitor.bpf.c:221-266 | the charges of a history add up, window by window, to its slices, switches, wait times and wait counts |
| `Sched.Observer.ChargeSlice` | internal/ebpf/bpf/sched_monitor.bpf.c:221-244 | offender half: CPU time, timeline charge, slice start; the first switch and the idle task charge nothing |
| `Sched.Observer.ChargeWait` | internal/ebpf/bpf/sched_monitor.bpf.c:246-287 | victim half: one wait and one charge if next was woken, and the wakeup is consumed |
| `Sched.Observer.HandleWakeup` | internal/ebpf/bpf/sched_monitor.bpf.c:130-135 | the history grows by the wakeup and the task's wakeup time is the latest one |
| `Sched.Observer.AddCpuTime` | internal/ebpf/bpf/sched_monitor.bpf.c:138-151 | one cgroup's counter on one CPU grows by the slice |
| `Sched.Observer.ChargeTimeline` | internal/ebpf/bpf/sched_monitor.bpf.c:161-195 | the ring still stands for the charge history, one charge longer |
| `Sched.Observer.RecordWait` | internal/ebpf/bpf/sched_monitor.bpf.c:268-286 | the histograms still count exactly the waits, one more |
| `Sched.BumpRing` | internal/ebpf/bpf/sched_monitor.bpf.c:178-194 | the slot of the 100 ms window takes that epoch and each counter grows by the load, from zero if it held another window; no other slot changes |
| `Sched.SwitchConserves` | internal/ebpf/bpf/sched_monitor.bpf.c:221-244 | on every CPU, time charged (resident and drained) plus idle time stays equal to last minus first switch time |
| `Sched.Observer.Read` | internal/ebpf/sched.go:14-51 | per cgroup a histogram of exactly the waits its events mean since the last Read, slots summing to the count; a cgroup left out had none |
| `Sched.Observer.ReadTimeline` | internal/ebpf/sched.go:63-117 | per cgroup a series on one axis showing all visible charges since the last drain; when the reference is at or after every CPU's last switch each counter at each position is, in plain numbers, what the events of that 100 ms window add up to over all CPUs |
| `Sched.Observer.ReadCPU` | internal/ebpf/sched.go:122-149 | per cgroup exactly the on-CPU time its slices since the last ReadCPU add up to, zero for one left out; what is returned is what every CPU's drained time grows by |
| `Sched.RowsAndColumns` | internal/ebpf/sched.go:132-140 | adding the counters up by cgroup or by CPU gives the same total |
| `Correlation.SinglePassIsCov` | internal/metrics/correlation.go:144-154 | n·Σxy − Σx·Σy is the sum over all pairs i<j of (x_i−x_j)(y_i−y_j) |
| `Correlation.VarNonNegative` | internal/metrics/correlation.go:147-157 | the variance term is never negative and zero if and only if the series is constant |
| `Correlation.CauchySchwarz` | internal/metrics/correlation.go:145-158 | num² <= vx·vy for all series |
| `Correlation.RhoAtBounded` | internal/metrics/correlation.go:130-159 | at every lag the score lies in [-1, 1] and the early return is taken exactly for a constant overlap |
| `Correlation.RhoIsSignedSquare` | internal/metrics/correlation.go:158-158 | the modelled score is r·\|r\| for the r the code computes |
| `Correlation.SignedSquareOrders` | internal/metrics/correlation.go:111-114 | comparing and bounding signed squares is comparing and bounding r |
| `Correlation.Moments` | internal/metrics/correlation.go:135-143 | the five accumulators are the moments of x[..n] against y[lag..] |
| `Correlation.PearsonLagged` | internal/metrics/correlation.go:130-159 | the pairwise co-movement score at that lag, 0 below three pairs |
| `Correlation.ScoreIsLocal` | internal/metrics/correlation.go:131-143 | the score at a lag depends only on the offender without its last lag buckets and the victim without its first |
| `Correlation.PerfectScoreExactly` | internal/metrics/correlation.go:130-159 | the score at a lag is 1 if and only if the offender's overlap is not flat and the victim repeats it lag buckets later, scaled by a positive factor and shifted |
| `Correlation.CountActive` | internal/metrics/correlation.go:163-171 | the number of buckets strictly above the floor |
| `Correlation.Variance` | internal/metrics/correlation.go:175-190 | the mean squared distance from the mean |
| `Correlation.TwoPassMeetsSinglePass` | internal/metrics/correlation.go:175-190 | n² times the two-pass variance is the single-pass variance term |
| `Correlation.SearchLags` | internal/metrics/correlation.go:101-115 | the loop with its early break finds the smallest lag with the largest score among all lags with three pairs |
| `Correlation.Correlate` | internal/metrics/correlation.go:80-124 | gated exactly when the series do not line up or are shorter than three, a side has too few active buckets, or a side's variance is below the floor; otherwise the smallest-lag argmax, in [-1, 1] |
| `Correlation.FollowerFound` | internal/metrics/correlation.go:101-124 | if the victim follows the offender at a delay within the search, the verdict is 1 at that lag or an earlier one |
| `Correlation.GateExactly` | internal/metrics/correlation.go:85-99 | the gate in terms of the series: sizes of the sets of active buckets and the variance terms |
| `Correlation.ActiveCountIsSize` | internal/metrics/correlation.go:163-171 | the active count is the size of the set of buckets strictly above the floor |
| `Correlation.BestUnique` | internal/metrics/correlation.go:104-115 | the verdict's score and lag are determined by the series |
| `Correlation.AffineInvariant` | internal/metrics/correlation.go:130-159 | a·x+b with a > 0 has the same score at every lag |
| `Correlation.BusyIsNotGuilty` | internal/metrics/correlation.go:80-124 | a·x+b with a > 0 has the same best score and lag |
| `Baselines.Baseline.Deviation` | internal/metrics/baseline.go:39-48 | the ratio to the learned value, ready exactly when tracked, warm and positive |
| `Baselines.Baseline.Observe` | internal/metrics/baseline.go:54-69 | seeds a new key, else counts it and blends the value unless frozen |
| `Baselines.Baseline.Prune` | internal/metrics/baseline.go:73-87 | the loop keeps exactly the surviving keys, each aged once |
| `Baselines.TrackedExactly` | internal/metrics/baseline.go:54-87 | after any intervals and under any freezing policy the tracked keys are exactly those observed in the last twelve |
| `Baselines.WarmExactly` | internal/metrics/baseline.go:39-69 | a normal is trusted exactly when its key was read in the last twelve intervals, at least warmup times since it was last forgotten, and is positive; the ratio times it is then the reading |
| `Baselines.Convex` | internal/metrics/baseline.go:66-68 | a blend stays between its two inputs' bounds |
| `Judging.JudgeVictim` | internal/agent/agent.go:296-310 | victim exactly at the floor and, once warm, the factor; frozen exactly while a warm victim; degradation is the ratio or 0 |
| `Judging.ObserveUsage` | internal/agent/agent.go:650-654 | learned unless warm and spiking |
| `Judging.FlaggedExactly` | internal/agent/agent.go:297-302 | a reading is flagged exactly when it reaches the floor and, once there is a normal, factor times it |
| `Judging.JudgedExactly` | internal/agent/agent.go:296-310 | the victim normal moves by alpha towards the reading unless a trusted one is exceeded by a flagged reading |
| `Judging.LearnedExactly` | internal/agent/agent.go:650-654 | the usage normal moves by alpha towards the reading unless a trusted one is exceeded by the factor |
| `Judging.NewLevelLearned` | internal/agent/agent.go:626-654 | a change that is no spike becomes the new normal: n readings at a level close the gap by exactly (1-alpha)^n |
| `Judging.AgentTracks` | internal/agent/agent.go:626-654 | the victim and the usage baselines both track exactly the cgroups read in the last twelve intervals |
| `Judging.SpikeNeverAbsorbed` | internal/agent/agent.go:296-310 | from a warm normal v any number of intervals at or above the floor and factor·v leave v unchanged and flag every reading |
| `Judging.NormalAmongUsages` | internal/agent/agent.go:626-654 | through any learning, freezing and pruning a normal stays within the range of its usages |
| `Judging.UsageGrowthBounded` | internal/agent/agent.go:650-654 | after n readings a warm normal is at most v·(1+α(D−1))^n |
| `Judging.UsageGrowthExactly` | internal/metrics/baseline.go:30-69 | over all runs of non-negative usage that bound holds if and only if alpha < 1 |
| `Judging.FullWeightForgets` | internal/metrics/baseline.go:44-46 | with alpha = 1 an idle interval makes the next usage the normal, whatever it is |
| `Attribution.ConfidenceCapped` | internal/agent/agent.go:670-685 | confidence never exceeds the share over 25 percent, nor 1 |
| `Attribution.ConfidenceExactly` | internal/agent/agent.go:670-685 | confidence reaches g if and only if harm does, the share is at least 25g percent, and usage is at least 1+4g times normal (the fallback reaches g before there is one) or throttling reaches g |
| `Attribution.UnattributableExactly` | internal/agent/agent.go:670-685 | it is -1 if and only if there is no ratio, the fallback is negative and nothing is throttled, and otherwise in [0, 1] |
| `Attribution.UnattributableRow` | internal/agent/agent.go:495-536 | a row scores -1 exactly when its cgroup is unknown, or has no normal and neither requests nor throttling to go by |
| `Attribution.ToBlameExactly` | internal/agent/agent.go:495-536 | a row reaches g if and only if its cgroup is known, there is harm, it holds at least g/4 of the resource, and it is throttled at g, uses 1+4g times its normal, or before that at least g/2 more than its share of all requests |
| `Attribution.TargetExactly` | internal/agent/agent.go:247-290 | t is a target of the agent's snapshot if and only if its dimension has victims and one of the largest users bears its full name, its score and that blame |
| `Attribution.TotalsAdd` | internal/agent/agent.go:478-485 | the totals of amounts and of requests add over the rows |
| `Attribution.TotalsOne` | internal/agent/agent.go:478-485 | one row adds its own amount, and its request if its cgroup is known |
| `Attribution.TopExact` | internal/agent/agent.go:487-490 | the cut keeps as many rows as asked for or there are, and every row left out is no larger than any kept |
| `Attribution.SteadyNeverBlamed` | internal/agent/agent.go:626-685 | usage within [lo, hi], hi < lo·(1+4g), no throttling: confidence below g in every warm interval of every run |
| `Attribution.SteadyNeverTargeted` | internal/controller/remediation.go:224-247 | whatever snapshot the agent builds, every target at gate g stems from a row that is not steady: no steady, warm, unthrottled cgroup's row ever yields a target |
| `Attribution.RankRanks` | internal/agent/agent.go:487-487 | ranking sorts by amount, largest first, and is a permutation |
| `Attribution.CpuOffenders` | internal/agent/agent.go:477-542 | as `RankOffenders`, with every pod's fair share of all resolved requests in its score |
| `Attribution.Build` | internal/agent/agent.go:247-290 | offenders only for dimensions with victims; a healthy node yields no target under any gate |
| `Attribution.RankOffenders` | internal/agent/agent.go:564-589 | the listed offenders are the scored top rows with shares of the whole total, and maxConf is the best confidence seen |
| `Attribution.CpuCapped` | internal/agent/agent.go:495-536 | the cpu scorer obeys the cap of a 25 percent share for all evidence |
| `Attribution.BytesCapped` | internal/agent/agent.go:575-587 | so do the disk and network scorers |
| `Attribution.BlameBounded` | internal/agent/agent.go:564-624 | at most floor(4/g) offenders of a dimension reach confidence g, for any interval |
| `Attribution.TargetsBounded` | internal/agent/agent.go:247-290 | the controller gets at most 3·floor(4/g) targets from any snapshot the agent builds, for any gate g > 0 and any evidence |
| `Attribution.NoUnresolvedTarget` | internal/controller/remediation.go:219-258 | every target of any snapshot the agent builds is the full identity of a cgroup of that dimension the resolver knew, with that cgroup's own score |
| `TtlCache.CacheIsHistory` | internal/cgroup/ttlcache.go:36-96 | a lookup gives pod p if and only if p is the latest binding and no later tombstone or omitting scan is more than ttl back |
| `TtlCache.Cache.Get` | internal/cgroup/ttlcache.go:36-47 | answers exactly what the history says |
| `TtlCache.Cache.Put` | internal/cgroup/ttlcache.go:79-83 | the cache is that of the history with the binding added |
| `TtlCache.Cache.Tombstone` | internal/cgroup/ttlcache.go:88-96 | the cache is that of the history with the tombstone added |
| `TtlCache.Cache.Replace` | internal/cgroup/ttlcache.go:52-75 | the three loops give the cache of the history with the scan added |
| `TtlCache.FadeAll` | internal/cgroup/ttlcache.go:57-64 | live entries get the deadline, others keep theirs |
| `TtlCache.Revive` | internal/cgroup/ttlcache.go:65-68 | exactly the scanned entries are live with their pod |
| `TtlCache.DropExpired` | internal/cgroup/ttlcache.go:69-74 | exactly the entries past their deadline are gone |

## Left out

- Kubernetes, CRI, gRPC, HTTP, JSON, Prometheus, fsnotify and the unix socket: an API call is a step with an arbitrary outcome. Creating the ledger ConfigMap and unreadable JSON in it are folded into that outcome.
- Loading and attaching the BPF programs, and the disk and network observers, which repeat the scheduler's bucketing and drains.
- Float rounding, NaN and the cancellation the variance guard is written for: over exact reals the guard is the constant-series case.
- Counter wrap-around, map capacity, and the small loss between iterating a map and deleting its keys.
- Goroutine interleavings finer than the protocol's steps, time passing inside one call of the object model, and clock reads taken before a lock.
- The victim lists, the victim signal and the choice of the best victim series for a burst correlation: they enter the scorers as arbitrary numbers, so the bounds hold for all of them.
- `CorrelationResult.Confidence`, `Mean`, `Len` and other one-line readers.
- The policy controller, the cpu.stat reader, printing, Event text, flags and manifests.
- The taint, cordon and evict engine of the design document, which the repository does not implement.
- A failed ledger read at a restart: `Recover` models it, the state machine's restart step does not, so the run theorems say nothing of a controller that forgot records its ledger still holds.
