/** The staking actions on any ledger: exactly when each of them succeeds, what it hands back, and everything
    it changes. */
module Staking {
  import opened Types
  import opened Ledger
  import opened Actions
  import opened Effects
  import opened Conservation
  import opened Treasury
  import opened Parallel
  import opened Authority

  /** Nothing but the values under these two keys differs. */
  ghost predicate OnlyThese(t: Store, s: Store, j: Key, k: Key) {
    forall i: Key :: i != j && i != k ==> Same(t, s, i)
  }

  /** A credit fits, given what was added to the account before it. */
  predicate Room(s: Store, addr: Address, before: int, amount: uint64) {
    GetBalance(s, addr, Native) + before + amount <= MAX_UINT64
  }

  // ---------------------------------------------------------------------------------------------
  // Locking

  /** Pay in a stake and record it. */
  lemma Lock(s: Store, actor: Address, amount: uint64, put: Op)
    requires put.PutValidator? || put.PutDelegation?
    ensures var r := Apply(s, Do(Debit(actor, Native, amount), Do(put, Done)));
            && (r.Ok? <==> amount <= GetBalance(s, actor, Native))
            && (r.Ok? ==>
                  && OnlyThese(r.value, s, put.Key(), BalanceKey(actor, Native))
                  && GetBalance(r.value, actor, Native) == GetBalance(s, actor, Native) - amount
                  && (put.PutValidator? ==> GetValidator(r.value, put.node) == Some(put.stake))
                  && (put.PutDelegation? ==> GetDelegation(r.value, put.addr, put.node) == Some(put.delegation)))
  {
    ApplyTwo(s, Debit(actor, Native, amount), put, Done);
  }

  /** A registration succeeds exactly if the credentials pass, the node has no stake on record, stake, window and fee
      rate are within their limits, the window does not open in the past, the balancer agrees, and the actor holds
      the stake. Then exactly what was asked for is on record, with the actor as the owner. */
  lemma RegisterSucceedsIff(s: Store, ctx: Context, act: Action)
    requires act.RegisterValidatorStake?
    ensures var o := Execute(s, ctx, act);
            && (o.result.Ok? <==>
                  && CredentialsDenied(ctx.actor, act.credentials).None?
                  && GetValidator(s, act.node).None?
                  && MIN_VALIDATOR_STAKE <= act.staked <= MAX_VALIDATOR_STAKE
                  && ctx.height <= act.start <= act.end
                  && MIN_STAKE_DURATION <= act.end - act.start <= MAX_STAKE_DURATION
                  && MIN_DELEGATION_FEE <= act.feeRate <= 100
                  && ctx.emission.Ok?
                  && act.staked <= GetBalance(s, ctx.actor, Native))
            && (o.result.Ok? ==>
                  && o.result.value == Receipt(NoOutput, None)
                  && GetValidator(o.store, act.node)
                     == Some(ValidatorStake(act.start, act.end, act.staked, act.feeRate, act.rewardAddress, ctx.actor))
                  && GetBalance(o.store, ctx.actor, Native) == GetBalance(s, ctx.actor, Native) - act.staked
                  && OnlyThese(o.store, s, ValidatorKey(act.node), BalanceKey(ctx.actor, Native)))
  {
    hide OnlyThese;
    var plan := Plan(s, ctx, act);
    if plan.Do? {
      Lock(s, ctx.actor, act.staked, plan.next.op);
    }
  }

  /** A delegation succeeds exactly if the node has a stake on record and the actor none with it yet, the amount is
      large enough, the window is not empty and does not open in the past, the balancer agrees, and the actor
      holds the amount. Then exactly what was asked for is on record, with the actor as the owner. */
  lemma DelegateSucceedsIff(s: Store, ctx: Context, act: Action)
    requires act.DelegateUserStake?
    ensures var o := Execute(s, ctx, act);
            && (o.result.Ok? <==>
                  && GetValidator(s, act.node).Some?
                  && GetDelegation(s, ctx.actor, act.node).None?
                  && MIN_DELEGATOR_STAKE <= act.staked
                  && ctx.height <= act.start < act.end
                  && ctx.emission.Ok?
                  && act.staked <= GetBalance(s, ctx.actor, Native))
            && (o.result.Ok? ==>
                  && o.result.value == Receipt(NoOutput, None)
                  && GetDelegation(o.store, ctx.actor, act.node)
                     == Some(Delegation(act.start, act.end, act.staked, act.rewardAddress, ctx.actor))
                  && GetBalance(o.store, ctx.actor, Native) == GetBalance(s, ctx.actor, Native) - act.staked
                  && OnlyThese(o.store, s, DelegationKey(ctx.actor, act.node), BalanceKey(ctx.actor, Native)))
  {
    hide OnlyThese;
    var plan := Plan(s, ctx, act);
    if plan.Do? {
      Lock(s, ctx.actor, act.staked, plan.next.op);
    }
  }

  // ---------------------------------------------------------------------------------------------
  // Releasing

  /** The reward goes to one address and then the stake to its owner; nothing else but the record changes. */
  ghost predicate Released(t: Store, s: Store, record: Key, to: Address, reward: uint64, owner: Address, staked: uint64) {
    && record !in t
    && (forall k: Key :: k != record && k != BalanceKey(to, Native) && k != BalanceKey(owner, Native) ==> Same(t, s, k))
    && GetBalance(t, to, Native) == GetBalance(s, to, Native) + reward + If(to == owner, staked)
    && GetBalance(t, owner, Native) == GetBalance(s, owner, Native) + staked + If(to == owner, reward)
  }

  lemma Release(s: Store, to: Address, reward: uint64, drop: Op, owner: Address, staked: uint64)
    requires drop.DropValidator? || drop.DropDelegation?
    ensures var r := Apply(s, Do(Credit(to, Native, reward), Do(drop, Do(Credit(owner, Native, staked), Done))));
            && (r.Ok? <==> Room(s, to, 0, reward) && Room(s, owner, If(to == owner, reward), staked))
            && (r.Ok? ==> Released(r.value, s, drop.Key(), to, reward, owner, staked))
  {
    var credit, last := Credit(to, Native, reward), Credit(owner, Native, staked);
    ApplyTwo(s, credit, drop, Do(last, Done));
    if ApplyOp(s, credit).Ok? {
      var s2 := ApplyOp(ApplyOp(s, credit).value, drop).value;
      assert Apply(s2, Do(last, Done)) == ApplyTo(ApplyOp(s2, last), Done);
    }
  }

  /** A validator's stake is released exactly to its owner, from its end block on, if the balancer agrees and both
      credits fit: the stake to the owner, the reward to the address the owner names. */
  lemma WithdrawSucceedsIff(s: Store, ctx: Context, act: Action)
    requires act.WithdrawValidatorStake?
    ensures var o, v := Execute(s, ctx, act), GetValidator(s, act.node);
            && (o.result.Ok? <==>
                  && v.Some? && v.value.owner == ctx.actor && v.value.end <= ctx.height && ctx.emission.Ok?
                  && Room(s, act.rewardAddress, 0, ctx.emission.value)
                  && Room(s, ctx.actor, If(act.rewardAddress == ctx.actor, ctx.emission.value), v.value.staked))
            && (o.result.Ok? ==>
                  && o.result.value == Receipt(StakeReturned(v.value.staked, ctx.emission.value), None)
                  && Released(o.store, s, ValidatorKey(act.node), act.rewardAddress, ctx.emission.value, v.value.owner, v.value.staked))
  {
    hide Released;
    var v := GetValidator(s, act.node);
    if v.Some? && ctx.emission.Ok? {
      Release(s, act.rewardAddress, ctx.emission.value, DropValidator(act.node), ctx.actor, v.value.staked);
    }
  }

  /** A delegation is released exactly to its owner, from its end block on, if the balancer agrees and both credits
      fit: the stake to the owner, the reward to the address the owner names. */
  lemma UndelegateSucceedsIff(s: Store, ctx: Context, act: Action)
    requires act.UndelegateUserStake?
    ensures var o, d := Execute(s, ctx, act), GetDelegation(s, ctx.actor, act.node);
            && (o.result.Ok? <==>
                  && d.Some? && d.value.owner == ctx.actor && d.value.end <= ctx.height && ctx.emission.Ok?
                  && Room(s, act.rewardAddress, 0, ctx.emission.value)
                  && Room(s, ctx.actor, If(act.rewardAddress == ctx.actor, ctx.emission.value), d.value.staked))
            && (o.result.Ok? ==>
                  && o.result.value == Receipt(StakeReturned(d.value.staked, ctx.emission.value), None)
                  && Released(o.store, s, DelegationKey(ctx.actor, act.node), act.rewardAddress, ctx.emission.value,
                              d.value.owner, d.value.staked))
  {
    hide Released;
    var d := GetDelegation(s, ctx.actor, act.node);
    if d.Some? && ctx.emission.Ok? {
      Release(s, act.rewardAddress, ctx.emission.value, DropDelegation(d.value.owner, act.node), d.value.owner, d.value.staked);
    }
  }

  // ---------------------------------------------------------------------------------------------
  // Claiming

  /** A validator's reward is claimed exactly by the reward address on record, from the end block on, if the balancer
      agrees and the credit fits; and it is that address that is paid, and nothing else changes. */
  lemma ClaimValidatorSucceedsIff(s: Store, ctx: Context, act: Action)
    requires act.ClaimValidatorStakeRewards?
    ensures var o, v := Execute(s, ctx, act), GetValidator(s, act.node);
            && (o.result.Ok? <==>
                  && v.Some? && v.value.rewardAddress == ctx.actor && v.value.end <= ctx.height && ctx.emission.Ok?
                  && Room(s, v.value.rewardAddress, 0, ctx.emission.value))
            && (o.result.Ok? ==>
                  && o.result.value == Receipt(RewardClaimed(ctx.emission.value), None)
                  && GetBalance(o.store, v.value.rewardAddress, Native)
                     == GetBalance(s, v.value.rewardAddress, Native) + ctx.emission.value
                  && forall k: Key :: k != BalanceKey(v.value.rewardAddress, Native) ==> Same(o.store, s, k))
  {
    var plan := Plan(s, ctx, act);
    if plan.Do? {
      assert Apply(s, Do(plan.op, Done)) == ApplyTo(ApplyOp(s, plan.op), Done);
    }
  }

  /** A delegator's reward is claimed exactly by the reward address on record, from the start block on, if the balancer
      agrees and the credit fits; and it is that address that is paid, and nothing else changes. */
  lemma ClaimDelegationSucceedsIff(s: Store, ctx: Context, act: Action)
    requires act.ClaimDelegationStakeRewards?
    ensures var o, d := Execute(s, ctx, act), GetDelegation(s, act.user, act.node);
            && (o.result.Ok? <==>
                  && d.Some? && d.value.rewardAddress == ctx.actor && d.value.start <= ctx.height && ctx.emission.Ok?
                  && Room(s, d.value.rewardAddress, 0, ctx.emission.value))
            && (o.result.Ok? ==>
                  && o.result.value == Receipt(RewardClaimed(ctx.emission.value), None)
                  && GetBalance(o.store, d.value.rewardAddress, Native)
                     == GetBalance(s, d.value.rewardAddress, Native) + ctx.emission.value
                  && forall k: Key :: k != BalanceKey(d.value.rewardAddress, Native) ==> Same(o.store, s, k))
  {
    var plan := Plan(s, ctx, act);
    if plan.Do? {
      assert Apply(s, Do(plan.op, Done)) == ApplyTo(ApplyOp(s, plan.op), Done);
    }
  }

  // ---------------------------------------------------------------------------------------------
  // Runs

  /** A posting made before block `end`. */
  predicate Before(p: Posting, end: uint64) {
    p.Tx? ==> p.ctx.height < end
  }

  /** Until its end block a stake record stays as it is, whatever anybody, its owner included, does. */
  lemma {:induction false} StakeStaysLocked(b: Books, ps: seq<Posting>, k: Key, owner: Address, end: uint64)
    requires StakeRecord(b.store, k, owner, end)
    requires forall i | 0 <= i < |ps| :: Before(ps[i], end)
    ensures Same(PostAll(b, ps).store, b.store, k)
    decreases |ps|
  {
    hide Execute, Deduct, Refund;
    if ps != [] {
      var rest, p := ps[..|ps| - 1], ps[|ps| - 1];
      StakeStaysLocked(b, rest, k, owner, end);
      PostKeepsLocked(PostAll(b, rest), p, k, owner, end);
    }
  }

  lemma PostKeepsLocked(b: Books, p: Posting, k: Key, owner: Address, end: uint64)
    requires StakeRecord(b.store, k, owner, end) && Before(p, end)
    ensures Same(Post(b, p).store, b.store, k)
  {
    match p
    case Tx(ctx, act) => OnlyTheOwnerReleases(b.store, ctx, act, k, owner, end);
    case Charge(addr, amount) => FeeKeepsOthers(b.store, Post(b, p).store, addr);
    case GiveBack(addr, amount) => FeeKeepsOthers(b.store, Post(b, p).store, addr);
  }

  /** What was registered stays on record, word for word, over any run until the end block that was asked for. */
  lemma RegisteredStaysLocked(b: Books, ctx: Context, act: Action, ps: seq<Posting>)
    requires act.RegisterValidatorStake? && Execute(b.store, ctx, act).result.Ok?
    requires forall i | 0 <= i < |ps| :: Before(ps[i], act.end)
    ensures GetValidator(PostAll(Post(b, Tx(ctx, act)), ps).store, act.node)
         == Some(ValidatorStake(act.start, act.end, act.staked, act.feeRate, act.rewardAddress, ctx.actor))
  {
    hide Execute, PostAll, OnlyThese;
    RegisterSucceedsIff(b.store, ctx, act);
    StakeStaysLocked(Post(b, Tx(ctx, act)), ps, ValidatorKey(act.node), ctx.actor, act.end);
  }

  /** So does what was delegated. */
  lemma DelegatedStaysLocked(b: Books, ctx: Context, act: Action, ps: seq<Posting>)
    requires act.DelegateUserStake? && Execute(b.store, ctx, act).result.Ok?
    requires forall i | 0 <= i < |ps| :: Before(ps[i], act.end)
    ensures GetDelegation(PostAll(Post(b, Tx(ctx, act)), ps).store, ctx.actor, act.node)
         == Some(Delegation(act.start, act.end, act.staked, act.rewardAddress, ctx.actor))
  {
    hide Execute, PostAll, OnlyThese;
    DelegateSucceedsIff(b.store, ctx, act);
    StakeStaysLocked(Post(b, Tx(ctx, act)), ps, DelegationKey(ctx.actor, act.node), ctx.actor, act.end);
  }
}
