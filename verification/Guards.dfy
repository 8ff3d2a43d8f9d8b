/** What the actions let through to the balancer: on a ledger whose stake records agree with the balancer's,
    the guards of the guarded runs are exactly those of the actions. */
module Guards {
  import opened Types
  import opened Ledger
  import A = Actions
  import E = Emission
  import B = Balancer
  import T = StakeTotals
  import Staking

  /** The stake records of the ledger are those the balancer was told of. */
  ghost predicate LedgerAgrees(s: Store, g: T.Guarded) {
    && (forall n: NodeId :: n in g.ends <==> GetValidator(s, n).Some?)
    && (forall n: NodeId :: n in g.ends ==> g.ends[n] == GetValidator(s, n).value.end)
    && (forall n: NodeId, who: Address ::
          GetDelegation(s, who, n).Some? && n in g.w.st.validators && who in g.w.st.validators[n].delegators ==>
            && GetDelegation(s, who, n).value.start == g.w.st.validators[n].delegators[who].start
            && GetDelegation(s, who, n).value.end == g.w.st.validators[n].delegators[who].end)
  }

  /** An action at the balancer's height, on an agreeing ledger, that its decoder accepts. */
  ghost predicate Arrives(s: Store, ctx: A.Context, act: A.Action, g: T.Guarded) {
    LedgerAgrees(s, g) && ctx.height == g.w.st.height && A.WellFormed(act)
  }

  /** A registration succeeds exactly if it is admitted, the fee rate is a percentage, the credentials pass, the balancer
      agrees and the actor holds the stake. */
  lemma RegistrationAdmittedIff(s: Store, ctx: A.Context, act: A.Action, g: T.Guarded)
    requires Arrives(s, ctx, act, g) && act.RegisterValidatorStake?
    ensures A.Execute(s, ctx, act).result.Ok? <==>
              && act.feeRate <= 100
              && T.Admits(g, B.RegisterStake(act.node, act.start, act.end, act.staked, act.feeRate))
              && A.CredentialsDenied(ctx.actor, act.credentials).None? && ctx.emission.Ok?
              && act.staked <= GetBalance(s, ctx.actor, Native)
  {
    hide A.Execute;
    Staking.RegisterSucceedsIff(s, ctx, act);
  }

  /** A delegation succeeds exactly if it is admitted, is the actor's first with this validator, the balancer agrees
      and the actor holds the amount. */
  lemma DelegationAdmittedIff(s: Store, ctx: A.Context, act: A.Action, g: T.Guarded)
    requires Arrives(s, ctx, act, g) && act.DelegateUserStake?
    ensures A.Execute(s, ctx, act).result.Ok? <==>
              && T.Admits(g, B.DelegateStake(act.node, ctx.actor, act.start, act.end, act.staked))
              && GetDelegation(s, ctx.actor, act.node).None? && ctx.emission.Ok?
              && act.staked <= GetBalance(s, ctx.actor, Native)
  {
    hide A.Execute;
    Staking.DelegateSucceedsIff(s, ctx, act);
  }

  /** What an action that releases or claims asks of the balancer. */
  function Asks(ctx: A.Context, act: A.Action): B.Event
    requires act.WithdrawValidatorStake? || act.UndelegateUserStake? || act.ClaimValidatorStakeRewards?
          || act.ClaimDelegationStakeRewards?
  {
    match act
    case WithdrawValidatorStake(node, _) => B.WithdrawStake(node)
    case UndelegateUserStake(node, _) => B.UndelegateStake(node, ctx.actor)
    case ClaimValidatorStakeRewards(node) => B.ClaimReward(node)
    case ClaimDelegationStakeRewards(node, user) => B.ClaimShare(node, user)
  }

  /** Whatever succeeds in releasing or claiming was admitted. */
  lemma SuccessIsAdmitted(s: Store, ctx: A.Context, act: A.Action, g: T.Guarded)
    requires Arrives(s, ctx, act, g) && A.Execute(s, ctx, act).result.Ok?
    requires act.WithdrawValidatorStake? || act.UndelegateUserStake? || act.ClaimValidatorStakeRewards?
          || act.ClaimDelegationStakeRewards?
    ensures T.Admits(g, Asks(ctx, act))
  {
    hide A.Execute;
    match act
    case WithdrawValidatorStake(_, _) => Staking.WithdrawSucceedsIff(s, ctx, act);
    case UndelegateUserStake(_, _) => Staking.UndelegateSucceedsIff(s, ctx, act);
    case ClaimValidatorStakeRewards(_) => Staking.ClaimValidatorSucceedsIff(s, ctx, act);
    case ClaimDelegationStakeRewards(_, _) => Staking.ClaimDelegationSucceedsIff(s, ctx, act);
  }
}
