# Coordinated rollouts of LeaderWorkerSets

This project models the decision logic of the LeaderWorkerSet and
DisaggregatedSet controllers, and proves what that logic guarantees over every
input, every run and every interleaving.

A DisaggregatedSet runs several roles (prefill, decode, ...) as separate
LeaderWorkerSets and updates them together. The model follows its parts:

- **The rollout planner.** `RolloutState`, `CoordinationWindow`, `DrainBudget`
  and `Planner` describe one step of an N-role update: surge ceilings,
  availability floors, the fractional coordination window, revision
  completeness and three recovery kinds. `PlannerLoops` holds the loops that
  fill these vectors, `StepValidator` the independent validator, and
  `StepSelection` the choice among old revisions.
- **What a step does.** `FurthestDrain` and `ReplacementPace` say what the drain
  and growth limits mean; `StepSafety` and `RemovedRoles` say what a single step
  may do to live roles and to roles the target has removed, `RoleAvailability` puts
  them together, and `Bootstrap` is about steps beyond the surge budget;
  `CatchUpRun` follows one rollout to such a step.
- **Whole rollouts.** `Simulation`, `Liveness`, `RenamedRollout` and
  `WholeRollout` follow the planner to its fixed point, with the budgets that
  `RolloutBudgets` extracts; in `RolloutHistory` and `AvailabilityHistory` several
  old revisions, late readiness and Ready-first deletions interleave with the steps.
- **The write ledger.** `WriteLedger` is the ledger of unaccounted writes, and
  `WriteProtocol` a step machine around it: conditional requests that may be
  lost, delayed or replayed, writes by others, a lagging informer, restarts.
- **Sub-roles.** `SubRoleAssignment`, `SubRoleFloors`, `SubRoleStability`,
  `SubRoleTransfer` and `SubRolePlan` assign the groups of one workload to its
  child roles, move them one at a time and publish the result; `RetainedCredit`
  counts the Ready groups that accepted scale-downs cannot take, `HashSurvivors`
  those that a further one leaves, and `DeletionCost` is the override that steers
  a ReplicaSet's choice of victims.
- **Two kernels of the LeaderWorkerSet controller.** `GateAdmission` ranks gated
  and exhausted Hash leaders, `RollingPartition` computes a StatefulSet partition.

Replica counts per role are equal-length vectors, as in the controller. The
API server, informers, clocks and schedulers appear as parameters or as steps
of a state machine. `dafny verify dfyconfig.toml` checks everything.

## What turned out not to hold

- A bootstrap step does not raise every role by at most one group. The role that
  borrows gains exactly one, but the borrowed slot can bring another role with
  free ordinary slots within the window by two (`Bootstrap.BootstrapMayRaiseTwo`,
  reached in `CatchUpRun.RunMayRaiseTwo`; exact condition in
  `Bootstrap.BootstrapRaisesOneIff`).
- Not every rollout between budgeted roles finishes. If the revisions share no
  role, target and old revision can each wait for the other for ever
  (`WholeRollout.MayNotComplete`). They do so exactly if some target role has no
  surge and no old group may go first: no old role with several groups has an
  unavailability budget, nor may all of them go at once
  (`WholeRollout.ComputeAllSteps`; what may start is `RenamedRollout.MayStart`).
  Roles removed from a specification always have such a budget, so the controller
  plans such a rollout only if a role that is still in it is scaled to zero, with
  surge and without unavailability (`RolloutBudgets.ControlledCompletes`,
  `RolloutBudgets.KeptRoleMayBlock`); `hack/plan-steps` takes any budgets.
- The write barrier does not cover every mutation: the ledger drops one against
  an object that was already being deleted at once, while the request can still
  apply (`WriteProtocol.TerminatingBaseEscapes`). That is possible exactly when
  the object is being deleted and the mutation is sent against its current state
  (`WriteProtocol.EscapesIff`), and the barrier holds for all others
  (`WriteProtocol.BarrierSound`).
- The rolling-update partition can take more replicas out of service than its
  rolling step: unready replicas between the step partition and the budget
  partition are not accounted for (`RollingPartition.BudgetExceeded`; exact
  condition in `RollingPartition.BudgetKeptIff`). The bound on what one call
  newly exposes does hold (`RollingPartition.ExposureBounded`).
- The deletion-cost override restores every text except the three it uses
  itself (`DeletionCost.EditSafeIff`).

## Model

| member | source | states |
|---|---|---|
| CoordinationWindow.WindowDescribes | pkg/controllers/disaggregatedset/planner.go:374-396 | the accumulated window holds the true minimum progress fraction of the roles with replicas and the smallest role size |
| CoordinationWindow.CoordinationWindowForProgress | pkg/controllers/disaggregatedset/planner.go:374-382 | the accumulating loop computes that window, and reports failure exactly when no role has replicas |
| CoordinationWindow.WithinWindowIff | pkg/controllers/disaggregatedset/planner.go:398-420 | a count is within the window exactly when its fraction of the role is at most least/target + 1/denominator |
| CoordinationWindow.MaxProgressIsFloor | pkg/controllers/disaggregatedset/planner.go:398-420 | the quotient-and-remainder computation equals min(r, floor(r * (least/target + 1/denominator))) over the reals |
| CoordinationWindow.MaxProgressFitsInt64 | pkg/controllers/disaggregatedset/planner.go:398-420 | every intermediate of that computation fits 64 bits when all counts fit 32 |
| CoordinationWindow.EdgeMonotone | pkg/controllers/disaggregatedset/planner.go:398-420 | a larger least fraction never lowers the edge |
| CoordinationWindow.SameEdge | pkg/controllers/disaggregatedset/planner.go:329-343 | the edge depends only on the minimum fraction: progress lowered without falling behind it has the same window |
| CoordinationWindow.BoundGrowingEffective | pkg/controllers/disaggregatedset/planner.go:329-343 | bounded growth lies between current and proposed, leaves the least fraction unchanged, and puts every role that grew within one replica of the smallest role of it |
| CoordinationWindow.BoundGrowingIdempotent | pkg/controllers/disaggregatedset/planner.go:329-343 | bounding growth twice is bounding it once |
| CoordinationWindow.BoundReleasingEffective | pkg/controllers/disaggregatedset/planner.go:286-298 | the drain bound with surge release lies between proposed and current, leaves no role behind the least-drained fraction, and holds every role that drains beyond its excess within one replica of the smallest role of it |
| CoordinationWindow.BoundReleasingIdempotent | pkg/controllers/disaggregatedset/planner.go:286-298 | the drain bound, surge release included, is fixed on its own output |
| CoordinationWindow.BoundGrowingRoleTargetsToWindow | pkg/controllers/disaggregatedset/planner.go:329-343 | the growth loop computes the bound described above |
| CoordinationWindow.BoundDrainingRoleTargetsToWindow | pkg/controllers/disaggregatedset/planner.go:350-370 | the drain loop computes the drain bound |
| DrainBudget.PreservesUpwardClosed | pkg/controllers/disaggregatedset/planner_availability.go:102-137 | whatever keeps at least as much as a safe drain is safe |
| DrainBudget.CoordinatedOldTargetsCoordinated | pkg/controllers/disaggregatedset/planner_availability.go:146-159 | window, completeness and window again reach a fixed point of all three bounds at or above the proposal |
| DrainBudget.FurthestOldTargetsSafe | pkg/controllers/disaggregatedset/planner_availability.go:146-159 | the planner's old drain is a fixed point of window and completeness and within the drain budget |
| FurthestDrain.MinimumTargetsLeast | pkg/controllers/disaggregatedset/planner_availability.go:72-98 | the minimum targets are below every drain that keeps the budget |
| FurthestDrain.MinimumTargetsPreserve | pkg/controllers/disaggregatedset/planner_availability.go:72-122 | if any real drain keeps the budget, the minimum targets do |
| FurthestDrain.BoundReleasingMonotone | pkg/controllers/disaggregatedset/planner.go:286-298 | proposing less leaves no role with more: the drain bound is monotone |
| FurthestDrain.FurthestOldTargetsLeast | pkg/controllers/disaggregatedset/planner_availability.go:146-159 | the planner's old drain is below every drain that keeps the budget, the window and completeness |
| PlannerLoops.ServingAfter | pkg/controllers/disaggregatedset/planner_availability.go:124-137 | the loop, with its clearing of the whole slice, computes the serving capacity of every role after a drain |
| PlannerLoops.Preserves | pkg/controllers/disaggregatedset/planner_availability.go:102-122 | the loop decides exactly whether every role keeps its serving and individual readiness |
| PlannerLoops.MinimumTargets | pkg/controllers/disaggregatedset/planner_availability.go:72-98 | the two loops compute the minimum target of every role: its Ready need as a Spec, and a last group where the revision must go on serving |
| PlannerLoops.BoundOldTargetsByRevisionCompleteness | pkg/controllers/disaggregatedset/planner_availability.go:163-176 | the nested loops lift every vanishing required role exactly when some required role stays |
| PlannerLoops.TargetReplicasForActiveRevision | pkg/controllers/disaggregatedset/planner.go:106-124 | the loops compute the replacement work left to this candidate |
| PlannerLoops.FindDisjointGrowthLimits | pkg/controllers/disaggregatedset/planner.go:180-202 | limits exist exactly while a role being replaced still has groups; beyond its surge a limit is ahead of what every such role has drained by less than one group, a first group excepted |
| PlannerLoops.FindHardNewReplicaLimits | pkg/controllers/disaggregatedset/planner.go:136-162 | the loops compute the surge, pending-readiness and renamed-role limits of every role |
| PlannerLoops.FindDisjointReadyFraction | pkg/controllers/disaggregatedset/planner_availability.go:198-218 | the fraction covers what every removed role still needs of the target, and is that of one of them or zero |
| ReplacementPace.ReleasedDescribes | pkg/controllers/disaggregatedset/planner.go:180-202 | the released window holds the least drained fraction of the roles being replaced and the smallest of their baselines |
| ReplacementPace.DisjointLimitsIff | pkg/controllers/disaggregatedset/planner.go:180-202 | growth is limited exactly while a role being replaced still has groups |
| ReplacementPace.DisjointLimitsPace | pkg/controllers/disaggregatedset/planner.go:180-202 | no limit is ahead of any role being replaced by a whole group beyond its surge, a first group excepted |
| ReplacementPace.DisjointLimitsReach | pkg/controllers/disaggregatedset/planner.go:180-202 | and none is behind the least drained of them |
| ReplacementPace.FractionCovers | pkg/controllers/disaggregatedset/planner_availability.go:198-218 | no removed role needs a larger fraction of the target |
| ReplacementPace.FractionAttained | pkg/controllers/disaggregatedset/planner_availability.go:198-218 | some removed role needs exactly it, unless none needs any |
| PlannerLoops.TargetScaleDownBounds | pkg/controllers/disaggregatedset/planner_availability.go:180-194 | the loop computes the minimum of every target role from the drain budget, the fraction removed roles need and possible startup work |
| PlannerLoops.FindFurthestTargetScaleDownTargets | pkg/controllers/disaggregatedset/planner_availability.go:222-243 | the loop reduces every role above its desired count to its ceiling and minimum, and nothing at all when the drain budget forbids that |
| PlannerLoops.IncludeBaseline | pkg/controllers/disaggregatedset/planner_state.go:262-275 | the loops fold one old revision into the availability baseline |
| PlannerLoops.IncludeParkedRevision | pkg/controllers/disaggregatedset/planner_state.go:160-171 | the loop adds one parked revision to the totals; an overlapping one supplies no readiness to removed roles |
| PlannerLoops.SnapshotForRolloutState | pkg/controllers/disaggregatedset/planner_state.go:138-158 | the loop over parked revisions builds the planner's snapshot |
| PlannerLoops.FindDisjointSurplusStep | pkg/controllers/disaggregatedset/planner.go:206-225 | the loop finds the renamed-role rebalance, or none when a wanted role has a baseline or the drain budget forbids it |
| PlannerLoops.SnapshotWithBootstrapSurge | pkg/controllers/disaggregatedset/planner.go:229-248 | the loop lends one slot to exactly the roles that may borrow, and reports whether there is any |
| PlannerLoops.SnapshotWithUnavailableFallback | pkg/controllers/disaggregatedset/planner.go:252-261 | the loop lends one unavailable replica to exactly the roles whose floor exceeds one |
| PlannerLoops.AllRequiredRolesPresent | pkg/controllers/disaggregatedset/planner_state.go:242-251 | true exactly when some role is required and no required role is absent |
| PlannerLoops.CheckTargets | pkg/controllers/disaggregatedset/executor.go:953-983 | the loop with its accumulated flag gives the validator's verdict on the proposed counts |
| StepValidator.PlannerStepAccepted | pkg/controllers/disaggregatedset/executor.go:869-983 | planner and validator agree: every step the planner returns, of any of the four kinds and for every valid state, is accepted |
| StepValidator.FallbackKeepsCoordination | pkg/controllers/disaggregatedset/planner.go:252-273 | the fallback relaxes availability only: surge, windows and completeness are judged as before |
| StepValidator.BootstrapBeyondOrdinary | pkg/controllers/disaggregatedset/planner.go:91-102 | a bootstrap step drains nothing, reduces nothing and takes some role beyond its ordinary limit |
| StepValidator.GrowthBeyondStuckLimits | pkg/controllers/disaggregatedset/planner.go:126-132 | growth beyond a stuck plan must exceed some ordinary limit |
| Bootstrap.BootstrapBorrowsOneSlot | pkg/controllers/disaggregatedset/planner.go:229-248 | a role that leaves its ordinary limit in a bootstrap step is a borrower and gains exactly one group, and there is one; parked revisions and renamed roles included |
| Bootstrap.BootstrapRaisesOneIff | pkg/controllers/disaggregatedset/planner.go:91-102 | every role gains at most one group exactly when no role with two ordinary slots catches up: in terms of the ordinary plan, when the window of the ordinary limits, one slot higher for each borrower, does not reach two groups further; with renamed roles a started borrower counts only if lagging readiness and the drained share let it |
| Bootstrap.RaisedByOne | pkg/controllers/disaggregatedset/planner.go:229-248 | without renamed roles lending raises the limit of exactly the borrowers, each by one |
| Bootstrap.BootstrapMayRaiseTwo | pkg/controllers/disaggregatedset/planner.go:91-102 | a state in which a bootstrap step raises one role by two groups |
| CatchUpRun.RunMayRaiseTwo | pkg/controllers/disaggregatedset/planner_state.go:278-294 | a run of the planner from the start of a rollout to that step |
| StepSelection.PlanIgnoresRejections | pkg/controllers/disaggregatedset/planner.go:45-102 | what the scheduler rejected changes nothing in the ordinary plan |
| StepSelection.RejectionsAddFallback | pkg/controllers/disaggregatedset/executor.go:320-336 | where nothing moved, rejections add the availability fallback and nothing else |
| StepSelection.NoFallbackUnrejected | pkg/controllers/disaggregatedset/planner.go:66-85 | without rejections the planner never spends the extra unavailable replica |
| StepSelection.SelectNextStep | pkg/controllers/disaggregatedset/executor.go:278-338 | the loop picks the first of the most preferred steps (progress, target reduction, bootstrap); a fallback is picked only when no candidate moves otherwise, and nothing is picked only when no candidate moves at all |
| StepSafety.AcceptedOldDrain | pkg/controllers/disaggregatedset/executor.go:869-903 | an accepted step only drains the old revision, proposes no negative count and keeps the old drain budget |
| RoleAvailability.AcceptedKeepsRole | pkg/controllers/disaggregatedset/planner_availability.go:40-137 | no accepted step of any kind takes any role, wanted or removed, further below its availability floor, even if every deleted group was Ready: not in Ready groups, and not in serving ones unless it drains a revision whose policy permits an outage of a role the target wants |
| RemovedRoles.DrainKeepsRemoved | pkg/controllers/disaggregatedset/planner_availability.go:40-122 | an old drain leaves a role the target has removed min(what served it, baseline - replaced - maxUnavailable), fallbacks one less |
| RemovedRoles.ReductionKeepsRemoved | pkg/controllers/disaggregatedset/planner_availability.go:180-218 | after a target reduction what still serves a removed role plus what the target replaces of it is at least min(before, baseline - maxUnavailable) |
| RemovedRoles.ReductionKeepsReady | pkg/controllers/disaggregatedset/planner_availability.go:180-218 | the same as the last for all its Ready groups, complete revision or not |
| StepSafety.AcceptedWithinSurge | pkg/controllers/disaggregatedset/executor.go:953-983 | an accepted step exceeds the surge ceiling only as a bootstrap step and then by one group |
| AvailabilityHistory.HistoryKeepsRole | pkg/controllers/disaggregatedset/executor.go:514-540 | over every history of accepted steps on any candidate, delayed readiness and deletions of Ready groups first, no role is further below its floor than at the start, in Ready or serving groups; any number of fallbacks lowers a floor above one by one group |
| AvailabilityHistory.HistoryKeepsLive | pkg/controllers/disaggregatedset/executor.go:514-540 | so a role the target wants keeps min(its start, its floor) |
| AvailabilityHistory.HistoryMeetsFloor | pkg/controllers/disaggregatedset/executor.go:514-540 | a role that starts at its floor stays there, less one group for fallbacks, and keeps a group while the floor is positive |
| AvailabilityHistory.BaselineIs | pkg/controllers/disaggregatedset/planner_state.go:262-275 | the folded baseline of a removed role is the largest initial count of the undrained revisions that share no role with the target |
| Liveness.FloorCannotBlock | pkg/controllers/disaggregatedset/planner_availability.go:146-159 | without a scale-up, a least-drained role kept by its floor would still have surge room, so it is not what stops the rollout |
| Liveness.LastGroupCannotBlock | pkg/controllers/disaggregatedset/planner_availability.go:146-159 | a least-drained role down to its last group stops nothing either |
| Liveness.ExcessReleases | pkg/controllers/disaggregatedset/planner.go:286-298 | in a scale-up a role above its ceiling always releases its excess |
| Liveness.BootstrapMoves | pkg/controllers/disaggregatedset/planner.go:91-102 | a blocked first group, or a least-advanced role exactly at its ceiling in a scale-up, gets its slot |
| RenamedRollout.RenamedNeverStuck | pkg/controllers/disaggregatedset/planner.go:66-102 | a renamed rollout that may start has an ordinary step in every fully Ready state short of the end |
| RenamedRollout.RenamedGrows | pkg/controllers/disaggregatedset/planner.go:136-202 | its target grows once it has started, once any old group has gone, or if every target role has surge |
| RenamedRollout.StartDrainsIff | pkg/controllers/disaggregatedset/planner_availability.go:72-159 | before the target has started, old groups go exactly if all old roles may be unavailable or one with several groups may lose one |
| RenamedRollout.StaysHeldBack | pkg/controllers/disaggregatedset/planner.go:180-225 | otherwise no step touches the old revision or starts the role that waits for it |
| WholeRollout.RunHeldBack | pkg/controllers/disaggregatedset/planner_state.go:278-294 | in every run of a renamed rollout that may not start, all old groups stay and a surge-less target role gets none |
| WholeRollout.StepUnlessFinished | pkg/controllers/disaggregatedset/planner.go:66-102 | every fully Ready state short of the end of a budgeted rollout that completes at all, roles shared or not, has an ordinary step or a bootstrap step |
| WholeRollout.MayNotComplete | pkg/controllers/disaggregatedset/planner_state.go:278-294 | two single-group roles with positive budgets of which no run loses the old group |
| RolloutBudgets.ExtractRollingUpdateConfig | pkg/controllers/disaggregatedset/executor.go:623-658 | the loops give removed roles at least one unavailable group, live roles their policy, and every role some budget |
| RolloutBudgets.ControlledCompletes | pkg/controllers/disaggregatedset/executor.go:623-658 | every rollout the controller plans is budgeted, and completes unless a role still in the specification is scaled to zero with surge and no unavailability budget |
| RolloutBudgets.KeptRoleMayBlock | pkg/controllers/disaggregatedset/executor.go:639-656 | such a role does block: the failing budgets are ones the controller extracts |
| WholeRollout.ComputeAllSteps | pkg/controllers/disaggregatedset/planner_state.go:278-294 | the simulation loop is a run of the planner; with every live role budgeted it ends with nothing old and everything desired exactly if a role is shared or the renamed rollout may start, in particular if every old role without desired groups may release one, and then within sum(initial) + sum(target) steps, so the iteration cap never stops it |
| WholeRollout.RunWithinSurge | pkg/controllers/disaggregatedset/planner_state.go:278-309 | at every step of every run, old groups before the step plus new ones exceed max(initial, target) + maxSurge by at most one, and only for a role that grew in a bootstrap step |
| WholeRollout.RunComplete | pkg/controllers/disaggregatedset/planner_state.go:278-309 | unless some required role's budget permits an outage, the old roles of every run are all present or all gone |
| WholeRollout.RunAvailable | pkg/controllers/disaggregatedset/planner_state.go:278-309 | at every step of every run each live role keeps min(initial, target - maxUnavailable) groups that were there before the step |
| WriteLedger.PendingWrites.CheckWrite | pkg/controllers/disaggregatedset/lws_manager.go:952-1001 | evidence in the informer's view drops the entry and records a takeover; otherwise an ambiguous write is replayed unchanged |
| WriteLedger.PendingWrites.Mutate | pkg/controllers/disaggregatedset/lws_manager.go:868-914 | a mutation waits for any earlier write to its object, is recorded before it is sent, and stays recorded unless definitely refused |
| WriteLedger.PendingWrites.Observed | pkg/controllers/disaggregatedset/lws_manager.go:935-950 | success means no write of the slice is left; nothing outside the slice is touched |
| WriteLedger.PendingWrites.PrepareSlice | pkg/controllers/disaggregatedset/lws_manager.go:796-828 | success means no write of the slice is left and every listed live object is taken over |
| WriteLedger.PendingWrites.Forget | pkg/controllers/disaggregatedset/lws_manager.go:918-931 | exactly the entries of the departed parent are released |
| WriteProtocol.StepKeeps | pkg/controllers/disaggregatedset/lws_manager.go:868-1001 | every step of the cluster (sends, deliveries, replays, writes by others, informer lag, creations, restarts) keeps the protocol invariant |
| WriteProtocol.CommitsAtMostOnce | pkg/controllers/disaggregatedset/lws_manager.go:868-914 | in every run one request writes at most one state of one object |
| WriteProtocol.SettledForever | pkg/controllers/disaggregatedset/lws_manager.go:952-1001 | once a request is settled, whether it has taken effect never changes in any continuation |
| WriteProtocol.BarrierSound | pkg/controllers/disaggregatedset/lws_manager.go:935-1001 | when no write of a slice is pending, each mutation sent for it, unless it was escapable when sent, is already in the informer's view or never takes effect |
| WriteProtocol.EscapesIff | pkg/controllers/disaggregatedset/lws_manager.go:935-1001 | a mutation about to be sent can be released unseen and take effect later exactly when its object is being deleted and it is sent against the current state |
| WriteProtocol.TakeoverFences | pkg/controllers/disaggregatedset/lws_manager.go:796-828 | once a slice is prepared, no request an earlier process left in flight against one of its live objects can still take effect |
| WriteProtocol.TerminatingBaseEscapes | pkg/controllers/disaggregatedset/lws_manager.go:952-984 | from every state of the protocol such a mutation does escape: a run that sends it, settles it and then applies it |
| SubRoleAssignment.StickyAssignments | pkg/controllers/disaggregatedset/subrole_groups.go:182-203 | the loops compute the sticky assignment: exactly min(groups, sum of targets) groups placed, no child over target, every label kept for which there is room |
| SubRoleAssignment.StickyMeets | pkg/controllers/disaggregatedset/subrole_groups.go:182-203 | the same, of the assignment as a function |
| SubRoleAssignment.StickyKeepsMost | pkg/controllers/disaggregatedset/subrole_groups.go:182-203 | no feasible assignment keeps more of any child's labels |
| SubRoleAssignment.RoomKeepsAll | pkg/controllers/disaggregatedset/subrole_groups.go:182-203 | a child with room for all its labelled groups keeps every one of them |
| SubRoleFloors.ReadyAssignments | pkg/controllers/disaggregatedset/subrole_groups.go:526-556 | none exactly when eligible groups are fewer than the floors' sum; otherwise every floor is met by eligible groups, min(eligible, sum of counts) eligible groups and min(groups, sum of counts) groups are placed |
| SubRoleFloors.ReadyMeets | pkg/controllers/disaggregatedset/subrole_groups.go:526-556 | the same, of the assignment as a function |
| SubRoleStability.StickyStable | pkg/controllers/disaggregatedset/subrole_groups.go:182-203 | relabelling any group with its sticky assignment leaves the whole assignment unchanged |
| SubRoleStability.ServeIsSticky | pkg/controllers/disaggregatedset/subrole_groups.go:537-556 | when labels alone meet every floor, reserving the floors first makes no difference |
| SubRoleStability.ReadyStable | pkg/controllers/disaggregatedset/subrole_groups.go:526-556 | relabelling the first mislabelled group with its planned child leaves the whole planned assignment unchanged |
| SubRoleTransfer.DonorCanSpare | pkg/controllers/disaggregatedset/subrole_groups.go:485-497 | an eligible group that has to move leaves a child with more Ready groups than its floor |
| SubRoleTransfer.MoveKeepsFloors | pkg/controllers/disaggregatedset/subrole_groups.go:483-501 | no move takes any child below the lesser of its floor and what it had |
| SubRoleTransfer.NextTransfer | pkg/controllers/disaggregatedset/subrole_groups.go:473-505 | the pass moves the first mislabelled survivor to its assignment and keeps every floor; the blocked-transfer wait is never reached |
| SubRolePlan.StartPlan | pkg/controllers/disaggregatedset/subrole_groups.go:365-381 | a started plan has a floor for exactly the labels with Ready groups: what they have less what they are reduced by |
| SubRolePlan.ReadPlan | pkg/controllers/disaggregatedset/subrole_groups.go:57-84 | a saved plan is refused exactly when some floor exceeds its count |
| SubRolePlan.StartedReadableIff | pkg/controllers/disaggregatedset/subrole_groups.go:365-381 | a started plan can be read back exactly when no label has more Ready groups than it was issued or is to have |
| SubRolePlan.StartedReadable | pkg/controllers/disaggregatedset/subrole_groups.go:323-358 | every plan started once the active groups carry their issued assignment can be read back |
| SubRolePlan.RequestCounts | pkg/controllers/disaggregatedset/subrole_groups.go:345-361 | a request waits until a pass leaves nothing to do; then an increase is issued at once and anything less starts a plan, which can be read back |
| SubRolePlan.PlanBudgetKept | pkg/controllers/disaggregatedset/subrole_groups.go:365-381 | from the start of a plan to the end of its transfer, counting only the survivors that keep a label, a child loses at most as many Ready groups as it is reduced by |
| SubRolePlan.PlanFloorKept | pkg/controllers/disaggregatedset/subrole_groups.go:365-381 | and at no point in between does it have less |
| SubRolePlan.RepairSettles | pkg/controllers/disaggregatedset/subrole_groups.go:449-472 | one repair is enough: the survivors are assigned as before and no label is left to repair |
| SubRolePlan.RepairKeepsReady | pkg/controllers/disaggregatedset/subrole_groups.go:457-469 | a repair takes no Ready group from any child |
| SubRolePlan.PublishedWithinTarget | pkg/controllers/disaggregatedset/subrole_groups.go:506-519 | once counts are published, no child's label is on more groups than it is to have |
| SubRolePlan.SyncAssignments | pkg/controllers/disaggregatedset/subrole_groups.go:441-519 | the whole pass: removal clears every label and the issued counts; else labels are repaired if any has to be; else one survivor moves within all floors; and the target is published only when every survivor carries its assignment, with every saved floor met by the groups that stay labelled |
| SubRoleTransfer.TransferRun | pkg/controllers/disaggregatedset/subrole_groups.go:483-505 | over any number of passes the assignment stays the same, each pass corrects one label while any is wrong, and floors hold throughout |
| SubRoleTransfer.TransferFinishes | pkg/controllers/disaggregatedset/subrole_groups.go:483-505 | a transfer is complete after exactly as many passes as there are labels to change |
| RetainedCredit.ReplicaTargets | pkg/replicagroups/availability.go:94-139 | the loop finds each controller's target, and acknowledgement exactly when every controller has observed and the targets add up to the replicas |
| RetainedCredit.ComputeAvailability | pkg/replicagroups/availability.go:52-92 | the counting loops compute observed readiness and the retained credit |
| RetainedCredit.CreditSurvives | pkg/replicagroups/availability.go:30-92 | however each ReplicaSet picks up to its excess of victims, or a StatefulSet deletes outside its window, at least the credited number of eligible Ready groups survives |
| RetainedCredit.RetainedIsWorstCase | pkg/replicagroups/availability.go:46-91 | for Hash identity the credit is exactly what the worst choice of victims leaves |
| RetainedCredit.CreditWithinReplicas | pkg/replicagroups/availability.go:84-91 | the cap at the replica count never changes an acknowledged Hash credit |
| RetainedCredit.ChildCreditSurvives | pkg/controllers/disaggregatedset/lws_manager.go:174-202 | the same bound for each child's masked view: as many of its own groups survive as the view credits |
| RetainedCredit.ChildrenShareCredit | pkg/controllers/disaggregatedset/lws_manager.go:174-202 | the children of one workload never claim more between them than the workload retains |
| HashSurvivors.ScalingObserved | pkg/replicagroups/availability.go:158-195 | true exactly when every controller has acknowledged and has exactly its requested active leaders, inside the window for Ordinal identity; where missing leaders are allowed, a controller may have fewer if its status counts what is there |
| HashSurvivors.NothingLeftToDelete | pkg/replicagroups/availability.go:149-195 | once deletions are observed, no ReplicaSet may delete a group of its own, and no StatefulSet one with an active leader |
| HashSurvivors.HashSurvivorsReady | pkg/controllers/disaggregatedset/executor.go:727-759 | the counting loops decide the survivor check |
| HashSurvivors.ShrinkKeepsTarget | pkg/controllers/disaggregatedset/executor.go:727-759 | once the check succeeds, a scale-down leaves at least the target of eligible Ready groups, whichever victims pending deletions pick and however each ReplicaSet picks among its own leaders once those not Ready are gone |
| DeletionCost.LeaderPod.constructor | pkg/controllers/disaggregatedset/subrole_groups.go:615-620 | starts from the Pod's annotations and gates |
| DeletionCost.LeaderPod.PreferDeletion | pkg/controllers/disaggregatedset/subrole_groups.go:615-655 | sets or withdraws the override, keeping the first backup through retries, and reports whether anything changed |
| DeletionCost.LeaderPod.Admit | pkg/controllers/pod_controller.go:1213-1222 | lifting the gate removes the native cost that came with it and nothing else |
| DeletionCost.OverrideUndone | pkg/controllers/disaggregatedset/subrole_groups.go:601-655 | after any interleaving of preferring, withdrawing, retries, gate lifting and other edits, a last withdrawal leaves the Pod as if it had never been preferred |
| DeletionCost.EditSafeIff | pkg/controllers/disaggregatedset/subrole_groups.go:601-655 | an edit to some text is undone correctly in every run exactly when the text is none of the override, "none" and "gated" |
| GateAdmission.CountTearingDown | pkg/controllers/pod_controller.go:1306-1337 | the map of groups counts exactly the groups without a live leader whose budget remains |
| GateAdmission.Census | pkg/controllers/pod_controller.go:1111-1130 | one pass finds the admitted, exhausted and waiting leaders of a revision |
| GateAdmission.RankOf | pkg/controllers/pod_controller.go:1131-1143 | sorting and searching finds the number of peers that come before a Pod |
| GateAdmission.AdmitGated | pkg/controllers/pod_controller.go:1091-1189 | a gated leader is admitted exactly when its rank fits the revision's free slots and the groups not being removed |
| GateAdmission.AdmissionBounded | pkg/controllers/pod_controller.go:1111-1189 | any number of decisions over one stale list admit at most replicas - admitted - exhausted leaders of a revision, and at most gated - blocking while groups block |
| GateAdmission.AdmissionExact | pkg/controllers/pod_controller.go:1111-1189 | of every revision exactly the oldest waiting leaders are admitted, as many as have a slot and as removals leave room for, and none of an outdated one |
| GateAdmission.UnblockedCount | pkg/controllers/pod_controller.go:1153-1189 | for the desired revision, if none of its gated leaders is exhausted, removals leave room for gated - blocking of them |
| GateAdmission.TeardownRequested | pkg/controllers/pod_controller.go:938-1005 | an exhausted group is torn down exactly when its revision is being replaced or its rank exceeds the slots left |
| GateAdmission.ExhaustedRetained | pkg/controllers/pod_controller.go:959-1005 | judging every exhausted group by one list retains exactly min(exhausted, max(0, replicas - active)) |
| RollingPartition.CalculateContinuousReadyReplicas | pkg/controllers/leaderworkerset_controller.go:1057-1067 | counts the finished tail |
| RollingPartition.RollingUpdatePartition | pkg/controllers/leaderworkerset_controller.go:1002-1032 | the loops compute the partition, which never exceeds the current one |
| RollingPartition.UnclampedSkips | pkg/controllers/leaderworkerset_controller.go:1002-1032 | before that clamp the partition stays between the step and budget partitions, and nothing it was lowered past is serving |
| RollingPartition.ExposureBounded | pkg/controllers/leaderworkerset_controller.go:1002-1032 | at most max(0, rollingStep - unready replicas below the step partition) Ready replicas of the previous revision are exposed |
| RollingPartition.ProgressIff | pkg/controllers/leaderworkerset_controller.go:1002-1032 | the highest unfinished replica is exposed exactly when the step has room left or that replica is not Ready |
| RollingPartition.BudgetKeptIff | pkg/controllers/leaderworkerset_controller.go:1008-1016 | when anything is exposed, the total out of service stays within the step exactly when finished replicas above the budget partition are at least the unready ones between the two partitions |
| RollingPartition.BudgetExceeded | pkg/controllers/leaderworkerset_controller.go:1008-1016 | four replicas for which a step of two leaves three out of service |

## Left out

- RoleAvailability.AcceptedKeepsRole: for removed roles takes the target's required roles to be those it wants groups of, as the executor builds it.
- AvailabilityHistory.HistoryKeepsRole: takes the same of the target the history starts with.
- FurthestDrain.FurthestOldTargetsLeast: takes retained readiness not to exceed the issued groups, as credit is counted.
- WriteProtocol.BarrierSound: excludes the mutations that can escape, as shown above, and entries released because their parent is gone.
- WriteProtocol.TakeoverFences: speaks of listed objects that the informer shows alive and not being deleted, which are the ones a takeover rewrites.
- RetainedCredit.RetainedIsWorstCase: tightness is stated for Hash identity; for Ordinal identity only the lower bound.
- SubRoleTransfer.TransferFinishes: assumes membership and readiness steady between passes; the floors of each single pass do not.
- SubRolePlan.PlanBudgetKept: assumes the same steadiness from the start of the plan.
- RollingPartition.RollingUpdatePartition: takes a non-negative rolling step and partition, as its caller computes them.
- SubRoleTransfer.NextTransfer: is the part of a pass that starts from coherent labels; `SubRolePlan.SyncAssignments` is the whole pass.
- SubRolePlan.RequestCounts: models the Ordinal path; `SubRolePlan.StartedReadable` with all active groups as survivors is the Hash path.
- SubRolePlan.SyncAssignments: takes label writes to succeed; a failed write ends the pass early.
- Gate lifting under Ordinal identity, which only waits for Pods of the same ordinal to go.
- Integer widths: counts are unbounded, except where `CoordinationWindow.MaxProgressFitsInt64` speaks of them.
- Maps keyed by child name or controller UID: vectors in name order and lists in listing order; iteration order does not matter to the sums.
- Step kinds outside the four declared ones, which the validator refuses first.
- Which of two out-of-range roles the validator names: one reason covers old and new counts.
- A gate lift computed from a cached Pod older than a concurrent edit: the lift is one step of the Pod's life.
- Hash sub-role repair and the storage of plans in annotations: object updates around the decisions modelled here.
- Candidate ordering and completion checks of the executor: short predicates over the observations modelled here.
- Kubernetes client calls, server-side apply, events, watches, webhooks, configuration, generated code, scheduler providers, hashing, naming, JSON and time.
