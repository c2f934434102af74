/**
 * The budgets the controller plans with. A role that has left the specification may
 * always release a group; one that is still in it keeps its configured policy, even
 * if it is to have no groups.
 */
module RolloutBudgets {
  import opened Roles
  import opened RolloutState
  import opened Planner
  import opened DrainBudget
  import opened Simulation
  import opened Liveness
  import opened WholeRollout

  const DEFAULT_BUDGET := RollingUpdateConfig(0, 1)

  /** A role in the specification has its policy, resolved to counts; a removed one the budget remembered for it. */
  datatype RolePolicy =
    | Live(config: RollingUpdateConfig)
    | Gone(remembered: nat)

  function Budget(policy: RolePolicy): RollingUpdateConfig {
    match policy
    case Live(config) => if config == RollingUpdateConfig(0, 0) then DEFAULT_BUDGET else config
    case Gone(remembered) => DEFAULT_BUDGET.(maxUnavailable := Max(DEFAULT_BUDGET.maxUnavailable, remembered))
  }

  /** Every role starts from the allowance of a removed one; live policies replace it. */
  method ExtractRollingUpdateConfig(policies: seq<RolePolicy>) returns (config: seq<RollingUpdateConfig>)
    ensures |config| == |policies| && forall i | 0 <= i < |policies| :: config[i] == Budget(policies[i])
    ensures forall i | 0 <= i < |policies| :: config[i].maxSurge + config[i].maxUnavailable > 0
    ensures forall i | 0 <= i < |policies| && policies[i].Gone? :: config[i].maxUnavailable > 0
  {
    config := seq(|policies|, _ => DEFAULT_BUDGET);
    for i := 0 to |policies|
      invariant |config| == |policies|
      invariant forall j | 0 <= j < |policies| ::
                  config[j] == if j < i && policies[j].Gone? then Budget(policies[j]) else DEFAULT_BUDGET
    {
      if policies[i].Gone? {
        config := config[i := config[i].(maxUnavailable := Max(config[i].maxUnavailable, policies[i].remembered))];
      }
    }
    for i := 0 to |policies|
      invariant |config| == |policies|
      invariant forall j | 0 <= j < |policies| ::
                  config[j] == if j < i || policies[j].Gone? then Budget(policies[j]) else DEFAULT_BUDGET
    {
      if policies[i].Live? {
        var live := policies[i].config;
        if live.maxSurge == 0 && live.maxUnavailable == 0 {
          live := DEFAULT_BUDGET;
        }
        config := config[i := live];
      }
    }
  }

  /** A rollout as the controller plans it. */
  ghost predicate Controlled(r: Rollout, policies: seq<RolePolicy>) {
    && r.Valid() && |policies| == r.Size()
    && forall i | 0 <= i < r.Size() :: r.config[i] == Budget(policies[i])
  }

  /**
   * Every rollout the controller plans has its live roles budgeted, and completes if
   * each old role that is to have no groups has left the specification, or is in it
   * with an unavailability budget.
   */
  lemma ControlledCompletes(r: Rollout, policies: seq<RolePolicy>)
    requires Controlled(r, policies)
    ensures Budgeted(r)
    ensures (forall i | 0 <= i < r.Size() && r.initial[i] > 0 && r.desired[i] == 0 ::
               policies[i].Gone? || policies[i].config.maxUnavailable > 0 || policies[i].config.maxSurge == 0)
            ==> Completes(r)
  {
    if forall i | 0 <= i < r.Size() && r.initial[i] > 0 && r.desired[i] == 0 ::
         policies[i].Gone? || policies[i].config.maxUnavailable > 0 || policies[i].config.maxSurge == 0 {
      forall i | 0 <= i < r.Size() && r.initial[i] > 0 && r.desired[i] == 0
        ensures r.config[i].maxUnavailable > 0
      {
        assert r.config[i] == Budget(policies[i]);
      }
      ReleasableCompletes(r);
    }
  }

  /** A role scaled to zero but still in the specification, with surge and no unavailability, is what may block. */
  lemma KeptRoleMayBlock(r: Rollout, policies: seq<RolePolicy>)
    requires r == Rollout([0, 1], [1, 0], [RollingUpdateConfig(0, 1), RollingUpdateConfig(1, 0)])
    requires policies == [Live(RollingUpdateConfig(0, 1)), Live(RollingUpdateConfig(1, 0))]
    ensures Controlled(r, policies)
    ensures forall steps: seq<UpdateStep> | IsRun(r, steps) :: steps[|steps| - 1].past != Zeros(r.Size())
  {
    MayNotComplete(r);
    hide IsRun;
    assert Budget(policies[0]) == r.config[0] && Budget(policies[1]) == r.config[1];
  }
}
