# Verified models of the Vitess operator

These Dafny modules model the parts of the operator that are hardest to get right, and prove what they promise. Each
module follows one source file or package. Code that changes things step by step is modelled by methods and classes,
which are proved against specification functions and predicates; the main results are lemmas about these. Go maps are
walked in an arbitrary order, so results hold for every order.

- **Drain protocol** (`drain.dfy`, `reconcile_drain.dfy`, `candidate_primary.dfy`, `drain_protocol.dfy`,
  `drain_assumptions.dfy`). The state machine of drains, the controller's pass over the cached Pods, and the protocol
  between the controller and everyone else as steps over the history of all cluster states. Passes are serial; each
  reads one past state, never older than the one read before; a write may be lost, and takes effect only if the Pod was
  not written since it was read. Others may request drains, change, create and delete Pods at any time, but nobody takes
  a drain request back. Main result: at most one tablet is marked finished, in every state of every run. The assumptions
  about reading are needed: there are runs with snapshots that go back in time, with overlapping passes, and with a
  cache that is behind by different amounts for different Pods, that end with two finished tablets.
- **Reconciler** (`reconciler.dfy`, `object_set.dfy`, `drained_deletion.dfy`). Which writes a call decides on, for any
  cached copy and any strategy of hooks; convergence with a measure, under stated laws for the hooks; sets of objects;
  and the composition with the drain protocol: the reconciler keeps to it, and deletions of drain-supporting tablets that
  can take effect at one moment hit one tablet.
- **Rollout** (`rollout_annotations.dfy`, `rollout.dfy`). Releasing scheduled tablets one at a time, primary last.
- **Topology connections** (`conn_pool.dfy`). All interleavings of opens, time-outs, closes, liveness checks, background
  connects and garbage collection, at the granularity of the locks. A connection attempt is assumed to end before the
  idle TTL, and every holder to close once.
- **Resync queue** (`timer_queue.dfy`). Heap, back-pointers and key map refine a plain map from key to expiration.
- **Election** (`election.dfy`). Promotion of a first primary under a lock, with crashes and unknown outcomes anywhere.
- **Backup schedules** (`backup_frequency.dfy`, `next_schedule.dfy`, `frequency_schedule.dfy`, `backup_strategies.dfy`).
  Frequencies and the cron expressions made from them, with the meaning of these expressions in UTC; the search for
  missed runs; the expansion of strategies to shards.
- **Names** (`names.dfy`). Joined names with hashes; the digest is an arbitrary function to eight hexadecimal digits,
  and lemmas that need it not to confuse two particular inputs say so.
- **Pod updates** (`list_merge.dfy`, `podspec.dfy`). Merging lists and containers into live Pods.

`annotations.dfy`, `string_order.dfy` and `wrappers.dfy` hold what the others share.

## Where the code is not what one would expect

- `getNextSchedule` fails with "too many missed runs" for a schedule that never fires within the search horizon of the
  cron library, although no run was missed (`NextSchedule.NeverFiringFails`; the exact condition is in
  `NextSchedule.FindsTheMissedRun`).
- `JoinWithConstraints` documents its names as unique for a list of parts. Parts that contain NUL characters break this
  for every hash function (`Names.NulsCollide`, `Names.UniqueWithoutNul`).
- Distinct backup targets are refused as duplicates if one straddles the other: its keyspace continues that of the other
  behind a slash, as in k and s/-, and k/s and - (`BackupStrategies.SlashConfusesTargets`). This is the only way in which
  distinct targets are refused (`BackupStrategies.ValidatedExactlyWhenDistinct`).
- `PodContainers` is not idempotent for a source container that mounts two different things at one path
  (`PodSpec.TwoMountsAtOnePath`; the exact condition is in `PodSpec.IdempotentExactlyWhen`).

## Model

| member | source | states |
|---|---|---|
| Drain.Start | pkg/operator/drain/drain.go:132-143 | Adds the drain request; a request that is already there is left as it is, message included |
| Drain.Acknowledge | pkg/operator/drain/drain.go:155-166 | Adds the acknowledgement, once |
| Drain.Unacknowledge | pkg/operator/drain/drain.go:177-181 | Removes exactly the acknowledgement |
| Drain.Finish | pkg/operator/drain/drain.go:192-203 | Adds the finished mark, once |
| Drain.Unfinish | pkg/operator/drain/drain.go:214-218 | Removes exactly the finished mark |
| Drain.GetState | pkg/operator/drain/drain.go:366-382 | The state for every combination of marks; an error exactly for the impossible one, finished but not acknowledged |
| Drain.StateTransitions | pkg/operator/drain/drain.go:315-356 | Whatever the order in which the maps are walked: exactly the draining names are acknowledged, whatever else is in the map, and a name is finished exactly if it is the least acknowledged one while nothing is draining or finished |
| Drain.TransitionsSound | pkg/operator/drain/drain.go:275-313 | Every single transition is justified by the drain states, and a finish is the only transition of its round |
| Drain.TransitionsAnswer | pkg/operator/drain/drain.go:315-356 | The specification function gives exactly that answer, in both directions |
| Drain.RoundAcknowledgesAll | pkg/operator/drain/drain.go:276-278 | After one round nothing is left draining, whether or not something was finished before; nobody is forgotten, and requested drains join the acknowledged ones |
| Drain.FinishedForGood | pkg/operator/drain/drain.go:275-313 | Once something is finished, no number of rounds finishes anything else or undoes it |
| Drain.Converges | pkg/operator/drain/drain.go:315-356 | From any drain set with something to drain and nothing finished, exactly the least involved name is finished after two rounds, and nothing changes from then on |
| ReconcileDrain.UpdateDrainStatus | pkg/controller/vitessshardreplication/reconcile_drain.go:347-379 | Finishing and acknowledging add their mark, once; clearing removes both and nothing else; the Pod is sent exactly if it changed |
| ReconcileDrain.LoadDrains | pkg/controller/vitessshardreplication/reconcile_drain.go:187-234 | Phase 2, in any order of the Pods: the drain states of requested Pods, whether some drain was aborted, and that exactly the aborted Pods were cleared and sent |
| ReconcileDrain.ApplyTransitions | pkg/controller/vitessshardreplication/reconcile_drain.go:240-262 | Phase 3, in any order: exactly the transitions other than the finish of the primary are applied and sent |
| ReconcileDrain.Pass | pkg/controller/vitessshardreplication/reconcile_drain.go:187-332 | Phases 2, 3 and 5 together: the Pods sent are exactly the planned ones, never with a finish of the primary, with the planned annotations, and a reparent is attempted exactly under the stated condition |
| ReconcileDrain.PlanExactly | pkg/controller/vitessshardreplication/reconcile_drain.go:187-300 | The plan in terms of the Pods, both directions: if a drain was aborted, exactly the aborted Pods are cleared; otherwise exactly the new requests are acknowledged, exactly the first in line other than the primary is finished, and a reparent is wanted exactly if the primary is draining and finished or first in line |
| ReconcileDrain.PlanReachesTarget | pkg/controller/vitessshardreplication/reconcile_drain.go:187-262 | Every planned write really changes its Pod, and moves it to the planned state without an impossible combination |
| ReconcileDrain.ReparentOnlyWhenSettled | pkg/controller/vitessshardreplication/reconcile_drain.go:272-300 | A reparent is attempted only away from a finished primary, or in a pass that writes nothing, with the primary first in line among acknowledged drains only |
| CandidatePrimary.Candidates | pkg/controller/vitessshardreplication/reconcile_drain.go:393-432 | Exactly the eligible tablets are collected, in whatever order the records are walked |
| CandidatePrimary.Choose | pkg/controller/vitessshardreplication/reconcile_drain.go:392-478 | None exactly if no ready replica without drain marks is there (of the external pool, if that is used); the choice is one; if anyone answers, the choice answered, and no comparable answer is ahead of it |
| CandidatePrimary.ReparentUnblocksFinish | pkg/controller/vitessshardreplication/reconcile_drain.go:272-332 | After a reparent to the chosen tablet, the next pass wants no further reparent, and finishes the old primary if that one was waiting for it |
| DrainProtocol.StepKeepsInv | pkg/operator/drain/drain.go:284-314 | Every step of controller and environment keeps the protocol invariant: versions, justification of every finish by one snapshot, nothing acknowledged that was not requested in the snapshot last read |
| DrainProtocol.FinishExcludesOthers | pkg/operator/drain/drain.go:290-314 | The heart of the argument that the source sketches: a finish that takes effect meets no other finished tablet, even though it was decided on an old snapshot |
| DrainProtocol.RunKeepsInv | pkg/operator/drain/drain.go:284-314 | The invariant holds in every state of every run |
| DrainProtocol.Safety | pkg/controller/vitessshardreplication/reconcile_drain.go:74-83 | In every run no state of the API server ever has two finished tablets |
| DrainProtocol.ExclusiveUntilDeleted | pkg/controller/vitessshardreplication/reconcile_drain.go:74-83 | A finished tablet stays finished, and stays the only one, until its Pod is deleted |
| DrainProtocol.OneDeletableTablet | pkg/controller/vitessshardreplication/reconcile_drain.go:90-101 | Of all copies marked finished that anyone ever read, however old, those that can still delete a Pod all name the same Pod |
| DrainProtocol.OldSnapshotBreaksSafety | pkg/operator/drain/drain.go:290-314 | Counterexample: if a pass may read an older snapshot than the pass before, a run ends with two finished tablets |
| DrainAssumptions.OverlapBreaksSafety | pkg/operator/drain/drain.go:290-314 | Counterexample: two controllers that each keep to the protocol and read in order, but whose passes overlap, end with two finished tablets |
| DrainAssumptions.ProtocolIsPatched | pkg/controller/vitessshardreplication/reconcile_drain.go:125-140 | Every step of the protocol is one of a system in which each Pod may be seen as in a different past state, never older than before |
| DrainAssumptions.PatchworkBreaksSafety | pkg/operator/drain/drain.go:290-314 | Counterexample: in that system serial passes end with two finished tablets |
| Reconciler.UpdateInPlace | pkg/operator/reconciler/object.go:277-320 | Fails without a write on a foreign owner, writes nothing if nothing changed, and one update otherwise |
| Reconciler.DrainAndDelete | pkg/operator/reconciler/object.go:322-346 | An object that supports drain and is not finished gets a drain request, a new schedule message and an in-place update; anything else is deleted |
| Reconciler.ReconcileExisting | pkg/operator/reconciler/object.go:210-275 | The in-place, recreate, released and scheduled branches: which writes are decided, and their effect up to the first one refused |
| Reconciler.ReconcileObject | pkg/operator/reconciler/object.go:54-275 | For any cached copy, exactly the decided writes are performed, up to the first one the server refuses, and an error is returned exactly if one was refused or the decision says so; a copy with foreign labels leads to no write, and to an error exactly if the object is wanted |
| Reconciler.ForeignLabelsAreLeftAlone | pkg/operator/reconciler/object.go:187-198 | For every strategy: an object with other labels is not written, and it is an error to want it |
| Reconciler.ForeignOwnerIsNotUpdated | pkg/operator/reconciler/object.go:277-300 | An object of another owner is never updated; it is deleted, or the call fails without a write |
| Reconciler.MissingIsCreated | pkg/operator/reconciler/object.go:89-185 | A missing object is created with our labels and ownership exactly if it is wanted; the tombstone of an evicted Pod is removed first |
| Reconciler.RecreatedAtOnce | pkg/operator/reconciler/object.go:217-227 | A change that needs immediate recreation deletes the object, released or not |
| Reconciler.UnreleasedIsScheduled | pkg/operator/reconciler/object.go:254-275 | Unless released, exactly the in-place changes are applied; the object is scheduled, with the description of the rest, exactly if there is a rest |
| Reconciler.ReleasedIsUpdated | pkg/operator/reconciler/object.go:229-252 | A released object that need not be recreated gets the rolling changes and loses both rollout annotations |
| Reconciler.ReleasedIsDrainedFirst | pkg/operator/reconciler/object.go:322-346 | A released object to be recreated is deleted, unless it supports drains and is not drained: then a drain is requested, if none was, and it stays released, with a new message |
| Reconciler.UnwantedIsTurnedDown | pkg/operator/reconciler/object.go:114-162 | An unwanted object of ours is deleted, or gets what its guard has changed if the guard blocks the deletion |
| Reconciler.CallLowersRank | pkg/operator/reconciler/object.go:187-275 | For lawful hooks, every call that changes anything strictly lowers a measure over all phases, including the extra write that corrects the message after the drain request |
| Reconciler.EventLowersRank | pkg/operator/reconciler/object.go:187-346 | So does every release, every finished drain and every completed deletion |
| Reconciler.BoundedChanges | pkg/operator/reconciler/object.go:54-275 | In any interleaving of calls, releases, finished drains and completed deletions at most 93 events change anything |
| Reconciler.RestingPlaces | pkg/operator/reconciler/object.go:187-275 | Where calls change nothing, the object is up to date and unscheduled, or waits for its deletion, its release or its drain |
| Reconciler.WritesAreChanges | pkg/operator/reconciler/object.go:301-304 | A call decides on a write exactly if it changes the object: no idle updates |
| Reconciler.CallsComeToRest | pkg/operator/reconciler/object.go:74-77 | In an unchanged environment repeated calls reach a state in which the next call writes nothing, within the measure |
| ObjectSet.Cluster.Reconcile | pkg/operator/reconciler/object_set.go:89-89 | One key is reconciled up to the first refused write, no other object is touched, and an error is returned exactly if a write was refused or the decision says so |
| ObjectSet.Cluster.ReconcileDesired | pkg/operator/reconciler/object_set.go:84-94 | Whatever is refused, every listed key is attempted, in order, as often as it is listed; only desired keys are written; without an error every attempt got through |
| ObjectSet.Cluster.DeleteUnwanted | pkg/operator/reconciler/object_set.go:96-120 | Whatever is refused, exactly the listed objects that are not desired are attempted, in any order; only undesired keys are written |
| ObjectSet.Cluster.ReconcileObjectSet | pkg/operator/reconciler/object_set.go:45-127 | For every pattern of refusals: the state afterwards, that all desired keys are attempted in order before anything undesired, and that a call without an error got everything through |
| ObjectSet.SetLeaves | pkg/operator/reconciler/object_set.go:79-123 | Every desired key exists; among matching objects the undesired survivors are exactly those blocked or on their way down; everything else is untouched |
| ObjectSet.DesiredExists | pkg/operator/reconciler/object_set.go:84-94 | A wanted object exists after one error-free call |
| ObjectSet.UnwantedLeftover | pkg/operator/reconciler/object.go:114-162 | What one turndown leaves: nothing of an evicted Pod, otherwise an object that is deleting or blocked |
| DrainedDeletion.DeletesOnlyDrained | pkg/controller/vitessshard/reconcile_tablets.go:224-259 | A tablet Pod is deleted only on a copy marked finished, except evicted Pods and wanted Pods without drain support |
| DrainedDeletion.TurndownDrainsFirst | pkg/controller/vitessshard/reconcile_tablets.go:224-259 | An unwanted tablet Pod that is not drained gets a drain request and stays; once drained it is deleted exactly if that is safe, and otherwise left as it is |
| DrainedDeletion.DrainedIsDeleted | pkg/operator/reconciler/object.go:229-243 | A released Pod that has to be recreated is deleted if and only if its copy is marked finished |
| DrainedDeletion.OneDeletionAtATime | pkg/operator/reconciler/object.go:322-346 | On top of any run of the drain protocol: all such deletions that can take effect at one moment, decided on copies however old, hit the same tablet |
| DrainedDeletion.WritesOnlyRequests | pkg/operator/reconciler/object.go:277-346 | No write that the reconciler decides on for a tablet Pod sets or removes the marks of the drain controller or takes a drain request back |
| DrainedDeletion.ReconcilerKeepsToTheProtocol | pkg/operator/reconciler/object.go:277-373 | So every write of the reconciler that the API server accepts is a step that the drain protocol allows to others |
| RolloutAnnotations.Schedule | pkg/operator/rollout/rollout.go:102-109 | Sets the schedule message, overwriting an older one, and nothing else |
| RolloutAnnotations.Unschedule | pkg/operator/rollout/rollout.go:121-126 | Removes schedule and release together |
| RolloutAnnotations.Release | pkg/operator/rollout/rollout.go:137-148 | Adds the release, once |
| RolloutAnnotations.Uncascade | pkg/operator/rollout/rollout.go:197-201 | Removes exactly the cascade annotation |
| Rollout.GetNextScheduledTablet | pkg/controller/vitessshard/reconcile_rollout.go:138-169 | In any map order: a drained tablet first, in list order; otherwise any scheduled tablet but the primary; the primary only if it is alone; none exactly if nothing is scheduled |
| Rollout.ReconcileRollout | pkg/controller/vitessshard/reconcile_rollout.go:20-91 | Waits exactly if there is no rollout, or a desired tablet is unavailable, missing or released; otherwise acts on a scheduled tablet, a drained one if there is any and the primary last, deletes it exactly if it is a lone primary, and declares the end exactly if nothing is scheduled |
| Rollout.StepKeepsInv | pkg/controller/vitessshard/reconcile_rollout.go:20-91 | Every step, Pods deleted by anyone at any time included, keeps at most one tablet released, never adds work, and each action of the policy removes some |
| Rollout.OneReleaseAtATime | pkg/controller/vitessshard/reconcile_rollout.go:20-91 | In every run with up-to-date reads at most one desired tablet is released at a time, and the number of actions is bounded by the scheduled work |
| ConnPool.Manager.Get | pkg/operator/toposerver/connpool.go:128-155 | The returned connection is in the map under its parameters and not failed; it is a new, unused, connecting one exactly if there was none or a failed one; a check is started exactly if it is up; all other entries and old connections are unchanged |
| ConnPool.Manager.CheckIsDue | pkg/operator/toposerver/connpool.go:371-380 | Due exactly ten seconds or more after the last check, and then noted |
| ConnPool.Manager.RemoveBad | pkg/operator/toposerver/connpool.go:198-212 | The connection leaves the map for the dead list exactly if it is still the one in the map |
| ConnPool.Manager.Sweep | pkg/operator/toposerver/connpool.go:222-245 | In any map order: failed attempts are forgotten, connections without references that were last opened more than a minute ago are closed once and forgotten, all others kept |
| ConnPool.Manager.Reap | pkg/operator/toposerver/connpool.go:249-276 | The dead list afterwards is its used part, in order, and each other entry has its connection closed once |
| ConnPool.Manager.Gc | pkg/operator/toposerver/connpool.go:215-279 | Both loops in sequence, if no holder closes a connection in between |
| ConnPool.OpenRuns | pkg/operator/toposerver/connpool.go:87-106 | An uninterrupted open gets a connection, starting a check if it is up, and counts itself in; whether it succeeds and is closed, or fails, only the time of the open and the check are left of it |
| ConnPool.CheckRuns | pkg/operator/toposerver/connpool.go:157-213 | An uninterrupted check does nothing if the connection is gone, not up or was checked lately; otherwise it notes the time, and moves the connection to the dead list exactly if the probe fails |
| ConnPool.StepKeepsInv | pkg/operator/toposerver/connpool.go:87-280 | Every atomic step of opens, time-outs, closes, liveness checks, background connects and collection keeps the pool invariant |
| ConnPool.RefCountIsExact | pkg/operator/toposerver/connpool.go:341-367 | In every interleaving refCount is the number of pending opens and unreturned successful opens |
| ConnPool.NeverClosedInUse | pkg/operator/toposerver/connpool.go:215-279 | A server with a pending open, a holder or a running liveness check is never closed, and a holder has a live connection |
| ConnPool.CloseIsSafe | pkg/operator/toposerver/connpool.go:233-275 | When the collector closes a server, its attempt had succeeded and nobody uses it |
| ConnPool.OnlyCollectorCloses | pkg/operator/toposerver/connpool.go:215-279 | Servers are closed only by the collector: idle ones from the map, unused ones from the dead list |
| ConnPool.ExactlyOnePlace | pkg/operator/toposerver/connpool.go:108-126 | A connection that came up is in the map under its own parameters, or once on the dead list, or closed once; never two of these, never none |
| ConnPool.NeverResurrected | pkg/operator/toposerver/connpool.go:128-212 | A connection that left the map never returns to it |
| ConnPool.IdleLongEnough | pkg/operator/toposerver/connpool.go:233-241 | In every interleaving, a connection that is closed as idle was last opened more than a minute before |
| ConnPool.ProbesAreSpaced | pkg/operator/toposerver/connpool.go:371-380 | In every interleaving, two probes of one connection lie at least ten seconds apart, however many checks are started |
| TimerQueue.Periodic.Less | pkg/operator/resync/periodic.go:167-169 | Compares expirations |
| TimerQueue.Periodic.Swap | pkg/operator/resync/periodic.go:171-175 | Swaps two timers and keeps every back-pointer right |
| TimerQueue.Periodic.Up | pkg/operator/resync/periodic.go:161-191 | Sift-up restores heap order and keeps the set of timers |
| TimerQueue.Periodic.Down | pkg/operator/resync/periodic.go:161-191 | Sift-down restores heap order within its bound, or reports that nothing moved |
| TimerQueue.Periodic.HeapPush | pkg/operator/resync/periodic.go:177-182 | Adds one timer, in heap order, with right back-pointers |
| TimerQueue.Periodic.HeapFix | pkg/operator/resync/periodic.go:106-109 | Restores heap order after the expiration of one timer was changed, in either direction |
| TimerQueue.Periodic.HeapPop | pkg/operator/resync/periodic.go:184-191 | Removes the root and nothing else |
| TimerQueue.Periodic.RootIsEarliest | pkg/operator/resync/periodic.go:118-120 | The root is due first of all pending keys |
| TimerQueue.Periodic.Enqueue | pkg/operator/resync/periodic.go:94-113 | The queue stands for a plain map from key to expiration, in which exactly this key is set |
| TimerQueue.Periodic.Fire | pkg/operator/resync/periodic.go:117-133 | Exactly the keys with an expiration before now are triggered, each once, in order of expiration, and removed |
| TimerQueue.Periodic.Wake | pkg/operator/resync/periodic.go:81-151 | One wake-up refines one step of the plain map; the Go timer is armed exactly if something is pending, and for the earliest expiration |
| TimerQueue.PendingMeaning | pkg/operator/resync/periodic.go:81-151 | In every run a key is pending exactly while its last request has not been met by a later wake-up |
| TimerQueue.TriggersExactly | pkg/operator/resync/periodic.go:81-151 | In every run a wake-up triggers a key exactly if it is the first one after the expiration set by the last request for the key: no trigger is early, repeated or lost |
| Election.Topo.FindExistingPrimary | pkg/controller/vitessshardreplication/init_restored_shard.go:163-178 | In any order of the records: none, the one primary, or a report of several |
| Election.Topo.ChooseCandidate | pkg/controller/vitessshardreplication/init_restored_shard.go:197-240 | None exactly if no replica has answered that it has finished its restore; the choice has, and no comparable position is ahead of it |
| Election.Topo.ElectInitialShardPrimary | pkg/controller/vitessshardreplication/init_restored_shard.go:136-281 | What one attempt may do to the records, for every outcome of its reads, its lock check and its two writes; whom it promotes is eligible and no comparable candidate is ahead |
| Election.StepKeepsInv | pkg/controller/vitessshardreplication/init_restored_shard.go:136-281 | Every step of an attempt, crashes and unknown outcomes included, and of everybody else keeps the election invariant |
| Election.OnePromotion | pkg/controller/vitessshardreplication/init_restored_shard.go:136-281 | However many attempts are made and wherever they crash: at most one tablet is ever promoted, it is the only one that claims to be primary, and the shard record names no other |
| Election.RetryRepairs | pkg/controller/vitessshardreplication/init_restored_shard.go:179-195 | An attempt after a crash between promotion and record repairs the record and promotes nobody |
| Election.ElectsWhenPossible | pkg/controller/vitessshardreplication/init_restored_shard.go:136-281 | If nothing fails, nobody is primary and some replica has finished its restore, such a replica is promoted, recorded and returned |
| Election.FailsWithoutAWrite | pkg/controller/vitessshardreplication/init_restored_shard.go:136-240 | Nothing is written if a primary is recorded, a read fails, the lock is lost, several tablets claim to be primary, or nobody qualifies |
| Election.LostAnswer | pkg/controller/vitessshardreplication/init_restored_shard.go:241-281 | A promotion or record that took effect without an answer ends the attempt with an error although one more tablet was promoted; after a lost promotion there is no record, which is what a retry repairs |
| Election.AttemptIsRun | pkg/controller/vitessshardreplication/init_restored_shard.go:136-281 | Every attempt of the method is one of the runs of the step system |
| BackupFrequency.AcceptedExactlyWhenPeriodic | pkg/apis/planetscale/v2/vitessbackupschedule_methods.go:47-76 | An interval is accepted if and only if, for every offset, its expression fires at exactly the minutes that are the offset modulo the interval, across hours, days and months; for a refused interval no offset does |
| BackupFrequency.AcceptedIsWhole | pkg/apis/planetscale/v2/vitessbackupschedule_methods.go:48-54 | Only whole positive numbers of minutes are accepted |
| BackupFrequency.AcceptedIsPeriodic | pkg/controller/vitessbackupschedule/schedule_generator.go:49-103 | The generated expression is exactly periodic with the requested offset, for every accepted interval |
| BackupFrequency.RefusedMisfires | pkg/apis/planetscale/v2/vitessbackupschedule_methods.go:55-73 | For a refused interval and any offset: no expression, or a minute at which it fires wrongly or fails to fire |
| BackupFrequency.GeneratedFiresOncePerInterval | pkg/controller/vitessbackupschedule/schedule_generator.go:32-46 | An accepted frequency yields an expression without a range error, and it fires exactly once in every stretch of one interval |
| BackupFrequency.GeneratedFiresAtItsOffset | pkg/controller/vitessbackupschedule/schedule_generator.go:29-46 | The expression fires at a minute if and only if the minute is, modulo the interval, the hash of cluster, keyspace, shard and schedule name joined by bars |
| BackupFrequency.IdentitiesAreStaggered | pkg/controller/vitessbackupschedule/schedule_generator.go:29-32 | Two identities whose hashes differ modulo the interval never fire together |
| BackupFrequency.RefusedIsNotGenerated | pkg/controller/vitessbackupschedule/schedule_generator.go:33-35 | No refused frequency yields an expression |
| BackupFrequency.StaggeredNeverCoincide | pkg/controller/vitessbackupschedule/schedule_generator.go:29-32 | Schedules with different offsets never fire at the same minute |
| BackupFrequency.FailsExactly | pkg/controller/vitessbackupschedule/schedule_generator.go:49-103 | The exact inputs on which the generator fails: offsets out of range, and offsets beyond one day for intervals that are not whole days |
| NextSchedule.Start | pkg/controller/vitessbackupschedule/vitessbackupschedule_controller.go:417-431 | The start of the search is the later one of the latest job (or else the creation) and the starting deadline |
| NextSchedule.GetNextSchedule | pkg/controller/vitessbackupschedule/vitessbackupschedule_controller.go:411-450 | The loop computes the walk over the schedule, for any schedule function, and terminates |
| NextSchedule.FindsTheMissedRun | pkg/controller/vitessbackupschedule/vitessbackupschedule_controller.go:433-451 | Succeeds if and only if the schedule has no gap beyond its search horizon and no more runs are due than the schedule allows, 100 unless it says otherwise; then it returns the greatest due instant, or none, and the least instant after now |
| NextSchedule.OtherOutcomes | pkg/controller/vitessbackupschedule/vitessbackupschedule_controller.go:411-435 | An unparsable schedule is an error; if the start lies in the future nothing was missed, and the next instant is still returned |
| NextSchedule.NeverFiringFails | pkg/controller/vitessbackupschedule/vitessbackupschedule_controller.go:438-448 | Counterexample without the gap condition: a schedule that never fires has no missed run, and still fails with too many |
| NextSchedule.LatestScheduledTime | pkg/controller/vitessbackupschedule/vitessbackupschedule_controller.go:477-500 | The greatest parsable annotation, or none if there is none |
| NextSchedule.CreatedIsNewAndDue | pkg/controller/vitessbackupschedule/vitessbackupschedule_controller.go:346-406 | A job is created for an instant of the schedule that has come, later than that of every listed job |
| NextSchedule.InstantsIncrease | pkg/controller/vitessbackupschedule/vitessbackupschedule_controller.go:346-406 | Over any run with up-to-date job lists, whatever the clock and however the schedule changes, created instants strictly increase |
| FrequencySchedule.FailsOnlyOnTooManyMissedRuns | pkg/controller/vitessbackupschedule/vitessbackupschedule_controller.go:329-352 | A schedule made from an accepted frequency never runs into a gap: looking for its missed run succeeds if and only if no more runs are due than allowed |
| FrequencySchedule.RunsAreSpaced | pkg/controller/vitessbackupschedule/schedule_generator.go:29-50 | Two runs of such a schedule are at least one frequency apart |
| BackupStrategies.ExpandToShards | pkg/controller/vitessbackupschedule/vitessbackupschedule_controller.go:1108-1121 | One shard-scope strategy per shard, in order, with the flags of the original and the name made of its name, the keyspace and the safe name of the shard |
| BackupStrategies.SafeNameMeans | pkg/controller/vitessbackupschedule/vitessbackupschedule_controller.go:1123-1131 | The safe name keeps both ends of a key range, with x for an open end; a shard without a hyphen keeps its name |
| BackupStrategies.ExpandStrategy | pkg/controller/vitessbackupschedule/vitessbackupschedule_controller.go:1004-1041 | Shard scope, also unset, returns the strategy as it is; keyspace scope one strategy per shard, none for an unknown keyspace; cluster scope all keyspaces but the excluded ones; an unknown scope is an error |
| BackupStrategies.KeyspacesInOrder | pkg/controller/vitessbackupschedule/vitessbackupschedule_controller.go:1027-1037 | Cluster scope expands the keyspaces one after the other: the expansion of a concatenation is the concatenation of the expansions |
| BackupStrategies.OneKeyspace | pkg/controller/vitessbackupschedule/vitessbackupschedule_controller.go:1027-1037 | One keyspace is expanded to its shards, in order, or to nothing if it is excluded |
| BackupStrategies.ValidateNoDuplicateExpandedShardTargets | pkg/controller/vitessbackupschedule/vitessbackupschedule_controller.go:1065-1082 | Accepts if and only if every scope is known and all expanded targets have different texts; the error names the first unknown scope, or the first repeated text and the two strategies that have it |
| BackupStrategies.LocalExcludedKeyspaces | pkg/controller/vitessbackupschedule/vitessbackupschedule_controller.go:1097-1105 | Exactly the named keyspaces of keyspace-scope strategies |
| BackupStrategies.NewStrategyExpansionContext | pkg/controller/vitessbackupschedule/vitessbackupschedule_controller.go:1084-1095 | The index by keyspace holds exactly the discovered keyspaces, of several with one name the last |
| BackupStrategies.ValidStrategies | pkg/apis/planetscale/v2/vitessbackupschedule_methods.go:79-112 | If validation passes, every single strategy is consistent |
| BackupStrategies.ValidExactly | pkg/apis/planetscale/v2/vitessbackupschedule_methods.go:79-112 | Validation passes if and only if every shard scope has keyspace and shard, every keyspace scope only a keyspace, every cluster scope neither, and there is no other scope |
| BackupStrategies.SameTextExactly | pkg/controller/vitessbackupschedule/vitessbackupschedule_controller.go:1073-1076 | Two targets have one text if and only if they are equal or one straddles the other: its keyspace continues that of the other behind a slash |
| BackupStrategies.ValidatedExactlyWhenDistinct | pkg/controller/vitessbackupschedule/vitessbackupschedule_controller.go:1065-1082 | A schedule is accepted if and only if its targets are pairwise distinct and none straddles another, which takes a slash in the name of a keyspace |
| BackupStrategies.SlashConfusesTargets | pkg/controller/vitessbackupschedule/vitessbackupschedule_controller.go:1073-1076 | Counterexample: with a slash in a name two different targets are refused as one |
| BackupStrategies.CoversExactlyOnce | pkg/controller/vitessbackupschedule/vitessbackupschedule_controller.go:1004-1041 | With a cluster-scope strategy and both validations passed, every discovered shard is targeted exactly once, unless a peer schedule excludes its keyspace and this schedule does not name it; then not at all |
| Names.Hash | pkg/operator/names/join.go:66-85 | Feeds the digest the parts, each followed by a NUL |
| Names.DeprecatedJoin | pkg/operator/names/join.go:42-47 | The hyphen-joined parts and the hash |
| Names.TwoMarksDetermineParts | pkg/operator/names/join.go:69-77 | For arbitrary strings, NULs and hyphens included, the encodings with two different terminators together determine the list of parts |
| Names.DeprecatedNamesCollideOnlyWithDigests | pkg/operator/names/join.go:42-47 | Names are equal exactly if the hyphen-terminated encodings and the digests are; unless the digest confuses two different inputs, exactly if the lists of parts are |
| Names.SaltedInputDeterminesParts | pkg/operator/names/join.go:52-63 | With salt, the parts are still determined, and the salt up to its encoding |
| Names.JoinSaltWithConstraints | pkg/operator/names/join_constraints.go:111-169 | Panics exactly on too small a MaxLength; the empty list gives the empty name; the slice is always in range |
| Names.NameMeetsConstraints | pkg/operator/names/join_constraints.go:37-51 | At most MaxLength long, only lower-case alphanumerics and hyphens, a valid first character, the full hash at the end, and exactly MaxLength long with the truncation mark when truncated |
| Names.TransformMeans | pkg/operator/names/join_constraints.go:133-141 | Small letters, digits and hyphens stay, capitals become small letters, anything else becomes a hyphen |
| Names.GoodPartsAreKept | pkg/operator/names/join_constraints.go:131-153 | Parts that meet the constraints are readable in the name unchanged, joined by hyphens |
| Names.BadStartGetsAnX | pkg/operator/names/join_constraints.go:149-153 | If the first part is empty or starts with an invalid character, an x is put in front and nothing else changes |
| Names.NamesCoincideExactlyWithEncodings | pkg/operator/names/join_constraints.go:119-169 | Unless the digest confuses two inputs, names coincide if and only if the NUL-terminated encodings of the parts do and, where names may start with a hyphen, the lists agree on whether the first part is empty |
| Names.UniqueWithoutNul | pkg/operator/names/join_constraints.go:77-83 | Unless the digest confuses two inputs, and without NULs in the parts, equal names mean equal parts and conversely |
| Names.NulsCollide | pkg/operator/names/join_constraints.go:77-83 | Counterexample to the documented uniqueness: two part lists, one with a NUL, share their name under every digest |
| ListMerge.UpdateList | pkg/operator/update/podspec.go:26-66 | The merge loops of Env, Volumes and VolumeMounts: first match overwritten in place, otherwise appended |
| ListMerge.UpdateListIdempotent | pkg/operator/update/podspec.go:261-276 | Idempotent on all lists, even with duplicate keys on either side |
| ListMerge.UpdateListMeaning | pkg/operator/update/podspec.go:29-44 | Under every key the last source entry is found afterwards, or what was there before |
| ListMerge.MergeKeeps | pkg/operator/update/podspec.go:49-64 | Positions and keys are kept, and entries that the source has no key for are unchanged |
| ListMerge.MergeAdds | pkg/operator/update/podspec.go:49-64 | Whatever is added has a key of the source |
| ListMerge.RemergeExactly | pkg/operator/update/podspec.go:49-64 | A list that was not merged itself, merged again with everything merged into it since, changes nothing if and only if first and last entry agree for every key that came in no later list |
| PodSpec.UpdateResourceList | pkg/operator/update/podspec.go:228-236 | In any map order: the source values override, all others stay, and nil becomes an empty map |
| PodSpec.UpdateSecurityContext | pkg/operator/update/podspec.go:182-215 | Nil on either side makes the target point to the source; otherwise the object the target points to is overwritten in place: each of the five fields is that of the source where the source sets it, else the live one, and everything else is that of the source |
| PodSpec.PodContainer | pkg/operator/update/podspec.go:122-152 | The merge of one container, component by component |
| PodSpec.PodContainers | pkg/operator/update/podspec.go:73-88 | The merge of the list: first match merged in place, otherwise appended |
| PodSpec.PodContainersIdempotent | pkg/operator/update/podspec.go:73-88 | Applied twice it equals once, nil and empty maps identified, if for every name, in the first source container of that name, the first and the last mount agree for each path that no later one mounts |
| PodSpec.UniquePathsSuffice | pkg/operator/update/podspec.go:49-64 | Unique mount paths within each source container meet that condition |
| PodSpec.IdempotentExactlyWhen | pkg/operator/update/podspec.go:73-88 | The condition is exact for every list of sources, names repeated or not: idempotent on all targets if and only if it holds |
| PodSpec.TwoMountsAtOnePath | pkg/operator/update/podspec.go:73-88 | Counterexample: a container with two different mounts at one path, merged twice into an empty list |
| PodSpec.PodContainersKeep | pkg/operator/update/podspec.go:67-80 | Containers keep their positions; injected mounts, resource keys, the pull policy and each of the five security fields stay where no source of that name has an opinion; mounts and resource keys are added only by sources; unnamed containers are unchanged |
| PodSpec.PodContainersAchieve | pkg/operator/update/podspec.go:114-152 | Everything that the last source container of a name asks for is in force afterwards: its image and other fields, its resources, its mounts, and every security field it sets |

## Left out

- NextSchedule.GetNextSchedule: overflow of the deadline in 64-bit nanoseconds is not modelled; instants are unbounded.
- NextSchedule.InstantsIncrease: not claimed once jobs are deleted; history limits and time-outs can remove the latest job, after which the same instant is found again.
- Rollout.OneReleaseAtATime: needs up-to-date reads and a spec that schedules no new changes; under a stale cache the rollout code alone does not give it, and the drain protocol carries safety.
- CandidatePrimary.Choose: farthest ahead only among comparable positions; with incomparable GTID sets the fold need not end in a maximal one.
- Election.Topo.ChooseCandidate: the same restriction to comparable positions.
- Election.OnePromotion: assumes that a promotion request takes no effect after its attempt has lost the lock, and that nobody removes or changes the record of a promoted tablet.
- BackupStrategies.CoversExactlyOnce: is about one schedule and one discovery; exactly-once coverage across schedules is not claimed, since peers are validated with their local exclusions only.
- PodSpec.PodContainers: works on values; that an appended container shares memory with its source, so that a later source of the same name also changes the earlier one, is not captured.
- ConnPool.Manager.Gc: the method runs without holders closing connections in between; the step system of the same module covers these interleavings. Connections are numbered records, not pointers, and Server.Close is a count.
- TimerQueue.Periodic.Wake: the channel of the Go timer (Stop, draining, Reset) is reduced to when it is due; the random jitter is part of the requested expiration.
- Reconciler.ReconcileObject: hooks act on an abstract body and a few metadata fields; drain support is decided by the body; deleting an evicted Pod removes it at once, any other deletion is graceful.
- DrainProtocol.Safety: aborted drains are excluded, as the source says its invariant may break there.
- DrainedDeletion.DeletesOnlyDrained: evicted Pods are deleted before any check, labels included, and the rollout policy deletes a lone primary; these are the exceptions.
- BackupFrequency.AcceptedIsPeriodic: expressions are structured values; their printing and parsing as text is the cron library's, which is not part of this model, and so is the floating-point conversion of a duration to minutes, which cannot change a verdict.
- Names.Hash: MD5 itself, and its truncation to 32 bits, is an uninterpreted function.
- Phase 4 of the drain pass, which disables fast shutdown, and the shard health check before phase 2.
- The Kubernetes, etcd, gRPC and Vitess clients, wrangler calls, events, metrics, logging, contexts and time-outs: a call is a step that succeeds, fails or has an unknown outcome.
- The sorting of jobs into failed, successful and active ones, their clean-up, and the concurrency and deadline policies that may keep a due job from being created.
- Discovery of keyspaces from the API server, and which peer schedules contribute exclusions: the excluded set is an input.
- PodTemplateContainers, LocalObjectReferences, Tolerations and TopologySpreadConstraints, which follow the same merge pattern.
- Construction of Pods, Deployments and Services, flags, secrets, defaults and API types; status aggregation, set equality, key-range sorting and topology pruning: easy members only.
