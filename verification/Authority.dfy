/** Who can take what: only the actor of a transaction pays, only owners mint, and only owners release
    stake, so an address that does not act keeps everything it has. */
module Authority {
  import opened Types
  import opened Ledger
  import opened Actions
  import opened Effects
  import opened Conservation
  import opened Treasury
  import opened Parallel

  // ---------------------------------------------------------------------------------------------
  // Balances

  /** What a staking action moves into account `x`. */
  function StakingDelta(s: Store, ctx: Context, act: Action, x: Address): int
    requires !IsAssetAction(act)
  {
    var reward := RewardPaid(ctx, act);
    match act
    case RegisterValidatorStake(_, _, _, staked, _, _, _) => -If(x == ctx.actor, staked)
    case DelegateUserStake(_, _, _, staked, _) => -If(x == ctx.actor, staked)
    case WithdrawValidatorStake(node, to) =>
      var v := GetValidator(s, node);
      If(x == to, reward) + If(v.Some? && x == v.value.owner, if v.Some? then v.value.staked else 0)
    case UndelegateUserStake(node, to) =>
      var d := GetDelegation(s, ctx.actor, node);
      If(x == to, reward) + If(d.Some? && x == d.value.owner, if d.Some? then d.value.staked else 0)
    case ClaimValidatorStakeRewards(node) =>
      var v := GetValidator(s, node);
      If(v.Some? && x == v.value.rewardAddress, reward)
    case ClaimDelegationStakeRewards(node, user) =>
      var d := GetDelegation(s, user, node);
      If(d.Some? && x == d.value.rewardAddress, reward)
  }

  /** A successful staking action locks the actor's stake, or pays the stake back to its owner and the
      reward to where it belongs, and leaves every other balance alone. */
  lemma StakingBalances(s: Store, ctx: Context, act: Action, x: Address, a: AssetId)
    requires !IsAssetAction(act) && Execute(s, ctx, act).result.Ok?
    ensures GetBalance(Execute(s, ctx, act).store, x, a)
         == GetBalance(s, x, a) + If(a == Native, StakingDelta(s, ctx, act, x))
  {
    var plan, m := Plan(s, ctx, act), BalanceOf(x, a);
    FlowIsExact(s, plan, m);
    if plan.next.Do? {
      Unfold(plan, m, Native, None);
    }
  }

  /** No action takes anything out of an account other than the actor's. */
  lemma OnlyTheActorPays(s: Store, ctx: Context, act: Action, x: Address, a: AssetId)
    requires WellFormed(act) && x != ctx.actor
    ensures GetBalance(Execute(s, ctx, act).store, x, a) >= GetBalance(s, x, a)
  {
    if Execute(s, ctx, act).result.Ok? {
      if IsAssetAction(act) {
        BalanceEffects(s, ctx, act, x, a);
      } else {
        StakingBalances(s, ctx, act, x, a);
      }
    }
  }

  // ---------------------------------------------------------------------------------------------
  // Assets

  /** The two records differ at most in their supply, which did not grow. */
  predicate AtMostShrunk(before: Option<Asset>, after: Option<Asset>) {
    before.Some? ==>
      && after.Some? && after.value.supply <= before.value.supply
      && after.value == before.value.(supply := after.value.supply)
  }

  /** An action that does not create it again and is not its owner's leaves a home asset as it is,
      except that units of it can be burned. */
  lemma OnlyTheOwnerMints(s: Store, ctx: Context, act: Action, a: AssetId)
    requires RecordsShaped(s) && !a.Imported?
    requires act.CreateAsset? ==> a != Created(ctx.tx)
    requires GetAsset(s, a).Some? && GetAsset(s, a).value.owner != ctx.actor
    ensures AtMostShrunk(GetAsset(s, a), GetAsset(Execute(s, ctx, act).store, a))
  {
    if Execute(s, ctx, act).result.Ok? {
      RecordEffects(s, ctx, act, a);
      assert Shaped(a, GetAsset(s, a).value);
    }
  }

  // ---------------------------------------------------------------------------------------------
  // Stake

  /** No operation of the list is on key `k`. */
  predicate Untouched(ops: Ops, k: Key) {
    match ops
    case Do(op, next) => op.Key() != k && Untouched(next, k)
    case _ => true
  }

  lemma {:induction false} UntouchedKept(s: Store, ops: Ops, k: Key)
    requires Untouched(ops, k) && Apply(s, ops).Ok?
    ensures Same(Apply(s, ops).value, s, k)
    decreases ops
  {
    if ops.Do? {
      UntouchedKept(ApplyOp(s, ops.op).value, ops.next, k);
    }
  }

  lemma {:induction false} StakeFreeUntouched(ops: Ops, k: Key)
    requires StakeFree(ops) && (k.ValidatorKey? || k.DelegationKey?)
    ensures Untouched(ops, k)
    decreases ops
  {
    if ops.Do? {
      StakeFreeUntouched(ops.next, k);
    }
  }

  /** A stake record under `k` with this owner and end block. */
  predicate StakeRecord(s: Store, k: Key, owner: Address, end: uint64) {
    match k
    case ValidatorKey(node) => var v := GetValidator(s, node); v.Some? && v.value.owner == owner && v.value.end == end
    case DelegationKey(who, node) =>
      var d := GetDelegation(s, who, node); d.Some? && d.value.owner == owner && d.value.end == end
    case _ => false
  }

  /** An action that releases the stake under `k`. */
  predicate Releases(ctx: Context, act: Action, k: Key) {
    || (act.WithdrawValidatorStake? && k == ValidatorKey(act.node))
    || (act.UndelegateUserStake? && k == DelegationKey(ctx.actor, act.node))
  }

  /** A stake record never changes; it can only be released, by its owner, once its end block has come. */
  lemma OnlyTheOwnerReleases(s: Store, ctx: Context, act: Action, k: Key, owner: Address, end: uint64)
    requires StakeRecord(s, k, owner, end)
    ensures var t := Execute(s, ctx, act).store;
            Same(t, s, k) || (k !in t && Releases(ctx, act, k) && ctx.actor == owner && ctx.height >= end)
  {
    var plan := Plan(s, ctx, act);
    if Apply(s, plan).Ok? {
      if IsAssetAction(act) {
        AssetActionsAreStakeFree(s, ctx, act);
        StakeFreeUntouched(plan, k);
        UntouchedKept(s, plan, k);
      } else if act.WithdrawValidatorStake? || act.UndelegateUserStake? {
        ReleaseAt(s, plan.op, plan.next.op, plan.next.next.op, k);
      } else {
        assert plan.next.Do? ==> Untouched(plan.next.next, k);
        UntouchedKept(s, plan, k);
      }
    }
  }

  /** Reward, release, stake: of the stake records only the released one is touched. */
  lemma ReleaseAt(s: Store, reward: Op, drop: Op, stake: Op, k: Key)
    requires reward.Credit? && stake.Credit? && (drop.DropValidator? || drop.DropDelegation?)
    requires k.ValidatorKey? || k.DelegationKey?
    requires Apply(s, Do(reward, Do(drop, Do(stake, Done)))).Ok?
    ensures var t := Apply(s, Do(reward, Do(drop, Do(stake, Done)))).value;
            if k == drop.Key() then k !in t else Same(t, s, k)
  {
    ApplyTwo(s, reward, drop, Do(stake, Done));
    var s2 := ApplyOp(ApplyOp(s, reward).value, drop).value;
    assert Apply(s2, Do(stake, Done)) == ApplyTo(ApplyOp(s2, stake), Done);
  }

  // ---------------------------------------------------------------------------------------------
  // Runs

  /** A posting that `x` has no part in: another one's transaction or fee. */
  predicate WithoutHelp(p: Posting, x: Address) {
    match p
    case Tx(ctx, act) => WellFormed(act) && ctx.actor != x
    case Charge(addr, _) => addr != x
    case GiveBack(_, _) => true
  }

  lemma FeeKeepsOthers(s: Store, t: Store, addr: Address)
    requires t - {BalanceKey(addr, Native)} == s - {BalanceKey(addr, Native)}
    ensures forall k: Key :: k != BalanceKey(addr, Native) ==> Same(t, s, k)
  {
    forall k: Key | k != BalanceKey(addr, Native) ensures Same(t, s, k) {
      var u, v := t - {BalanceKey(addr, Native)}, s - {BalanceKey(addr, Native)};
      assert (k in t <==> k in u) && (k in s <==> k in v);
      assert k in u ==> u[k] == t[k];
      assert k in v ==> v[k] == s[k];
    }
  }

  lemma PostKeepsBalances(b: Books, p: Posting, x: Address, a: AssetId)
    requires WithoutHelp(p, x)
    ensures GetBalance(Post(b, p).store, x, a) >= GetBalance(b.store, x, a)
  {
    match p
    case Tx(ctx, act) => OnlyTheActorPays(b.store, ctx, act, x, a);
    case Charge(addr, amount) =>
      FeeKeepsOthers(b.store, Post(b, p).store, addr);
      assert Same(Post(b, p).store, b.store, BalanceKey(x, a));
    case GiveBack(addr, amount) =>
      if addr != x || a != Native {
        FeeKeepsOthers(b.store, Post(b, p).store, addr);
        assert Same(Post(b, p).store, b.store, BalanceKey(x, a));
      }
  }

  lemma PostKeepsStake(b: Books, p: Posting, x: Address, k: Key, end: uint64)
    requires WithoutHelp(p, x) && StakeRecord(b.store, k, x, end)
    ensures Same(Post(b, p).store, b.store, k)
  {
    match p
    case Tx(ctx, act) => OnlyTheOwnerReleases(b.store, ctx, act, k, x, end);
    case Charge(addr, amount) => FeeKeepsOthers(b.store, Post(b, p).store, addr);
    case GiveBack(addr, amount) => FeeKeepsOthers(b.store, Post(b, p).store, addr);
  }

  /** In any run of transactions and fees of others, an address loses nothing: no balance of any asset
      shrinks, and each of its stake records stays exactly as it is. */
  lemma {:induction false} AbsenteesLoseNothing(b: Books, ps: seq<Posting>, x: Address, a: AssetId, k: Key, end: uint64)
    requires forall i | 0 <= i < |ps| :: WithoutHelp(ps[i], x)
    ensures GetBalance(PostAll(b, ps).store, x, a) >= GetBalance(b.store, x, a)
    ensures StakeRecord(b.store, k, x, end) ==> Same(PostAll(b, ps).store, b.store, k)
    decreases |ps|
  {
    if ps != [] {
      var rest, p := ps[..|ps| - 1], ps[|ps| - 1];
      AbsenteesLoseNothing(b, rest, x, a, k, end);
      PostKeepsBalances(PostAll(b, rest), p, x, a);
      if StakeRecord(b.store, k, x, end) {
        PostKeepsStake(PostAll(b, rest), p, x, k, end);
      }
    }
  }

  lemma PostKeepsAsset(b: Books, p: Posting, x: Address, a: AssetId)
    requires WithoutHelp(p, x) && RecordsShaped(b.store) && !a.Imported?
    requires p.Tx? && p.act.CreateAsset? ==> a != Created(p.ctx.tx)
    requires GetAsset(b.store, a).Some? && GetAsset(b.store, a).value.owner == x
    ensures RecordsShaped(Post(b, p).store) && AtMostShrunk(GetAsset(b.store, a), GetAsset(Post(b, p).store, a))
  {
    var t := Post(b, p).store;
    match p
    case Tx(ctx, act) =>
      OnlyTheOwnerMints(b.store, ctx, act, a);
      if Execute(b.store, ctx, act).result.Ok? {
        ShapesKept(b.store, ctx, act);
      }
    case Charge(addr, amount) => FeeKeepsRecords(b.store, t, addr);
    case GiveBack(addr, amount) => FeeKeepsRecords(b.store, t, addr);
  }

  lemma FeeKeepsRecords(s: Store, t: Store, addr: Address)
    requires RecordsShaped(s) && t - {BalanceKey(addr, Native)} == s - {BalanceKey(addr, Native)}
    ensures RecordsShaped(t) && forall a: AssetId :: GetAsset(t, a) == GetAsset(s, a)
  {
    FeeKeepsOthers(s, t, addr);
    forall a: AssetId ensures GetAsset(t, a) == GetAsset(s, a) {
      assert Same(t, s, AssetKey(a));
    }
  }

  /** In any run of others, the supply of its assets never grows, and nothing else about them changes. */
  lemma {:induction false} AbsenteesAssetsNeverGrow(b: Books, ps: seq<Posting>, x: Address, a: AssetId)
    requires RecordsShaped(b.store) && !a.Imported?
    requires GetAsset(b.store, a).Some? && GetAsset(b.store, a).value.owner == x
    requires forall i | 0 <= i < |ps| :: WithoutHelp(ps[i], x)
    requires forall i | 0 <= i < |ps| :: ps[i].Tx? && ps[i].act.CreateAsset? ==> a != Created(ps[i].ctx.tx)
    ensures RecordsShaped(PostAll(b, ps).store)
    ensures AtMostShrunk(GetAsset(b.store, a), GetAsset(PostAll(b, ps).store, a))
    decreases |ps|
  {
    if ps != [] {
      var rest := ps[..|ps| - 1];
      AbsenteesAssetsNeverGrow(b, rest, x, a);
      PostKeepsAsset(PostAll(b, rest), ps[|ps| - 1], x, a);
    }
  }
}
