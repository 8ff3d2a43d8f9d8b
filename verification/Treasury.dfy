/** The native asset: genesis, staking, fees and rewards. */
module Treasury {
  import opened Types
  import opened Sums
  import opened Ledger
  import opened Actions
  import opened Effects
  import opened Conservation
  import opened Network

  // ---------------------------------------------------------------------------------------------
  // Locked stake

  ghost function StakeWeight(): (Key, Value) -> int {
    (k: Key, v: Value) =>
      if k.ValidatorKey? && v.ValidatorRecord? then v.stake.staked
      else if k.DelegationKey? && v.DelegationRecord? then v.delegation.staked
      else 0
  }

  ghost function Staked(s: Store): int {
    Sum(s, StakeWeight())
  }

  /** All native units: in accounts, on loan, and locked as stake. */
  ghost function Worth(s: Store): int {
    Holdings(s, Native) + Staked(s)
  }

  lemma StakedOp(s: Store, op: Op)
    requires ApplyOp(s, op).Ok?
    ensures Staked(ApplyOp(s, op).value)
         == Staked(s) - At(s, op.Key(), StakeWeight()) + At(ApplyOp(s, op).value, op.Key(), StakeWeight())
  {
    OpFrame(s, op);
    SumChange(s, ApplyOp(s, op).value, op.Key(), StakeWeight());
  }

  predicate StakeFree(ops: Ops) {
    match ops
    case Do(op, next) => !op.Key().ValidatorKey? && !op.Key().DelegationKey? && StakeFree(next)
    case _ => true
  }

  lemma {:induction false} StakeFreeKeepsStaked(s: Store, ops: Ops)
    requires StakeFree(ops) && Apply(s, ops).Ok?
    ensures Staked(Apply(s, ops).value) == Staked(s)
    decreases ops
  {
    if ops.Do? {
      StakedOp(s, ops.op);
      StakeFreeKeepsStaked(ApplyOp(s, ops.op).value, ops.next);
    }
  }

  lemma {:induction false} ThenStakeFree(ops: Ops, next: Ops)
    requires StakeFree(ops) && StakeFree(next)
    ensures StakeFree(Then(ops, next))
    decreases ops
  {
    if ops.Do? {
      ThenStakeFree(ops.next, next);
    }
  }

  lemma AssetActionsAreStakeFree(s: Store, ctx: Context, act: Action)
    requires IsAssetAction(act)
    ensures StakeFree(Plan(s, ctx, act))
  {
    var plan := Plan(s, ctx, act);
    if act.ImportAsset? {
      var settle, swap := SettlePlan(s, ctx, act.source, act.transfer), SwapPlan(ctx, act.fill, act.source, act.transfer);
      assert swap.Do? ==> StakeFree(swap.next.next);
      assert settle.Do? ==> StakeFree(settle.next.next);
      ThenStakeFree(settle, swap);
    } else if plan.Do? && plan.next.Do? {
      assert StakeFree(plan.next.next);
    }
  }

  // ---------------------------------------------------------------------------------------------
  // Books

  /** What a successful staking action pays out beyond the stake itself. */
  function RewardPaid(ctx: Context, act: Action): nat {
    if act.WithdrawValidatorStake? || act.UndelegateUserStake? || act.ClaimValidatorStakeRewards? || act.ClaimDelegationStakeRewards?
    then (if ctx.emission.Ok? then ctx.emission.value else 0)
    else 0
  }

  /** Paying in a stake and recording it keeps all native units. */
  lemma LockWorth(s: Store, debit: Op, put: Op)
    requires Apply(s, Do(debit, Do(put, Done))).Ok?
    requires debit.Debit? && debit.asset == Native && At(s, put.Key(), StakeWeight()) == 0
    requires (put.PutValidator? && put.stake.staked == debit.amount)
          || (put.PutDelegation? && put.delegation.staked == debit.amount)
    ensures Worth(Apply(s, Do(debit, Do(put, Done))).value) == Worth(s)
  {
    ApplyTwo(s, debit, put, Done);
    var s1 := ApplyOp(s, debit).value;
    HoldingsOp(s, debit, Native);
    StakedOp(s, debit);
    HoldingsOp(s1, put, Native);
    StakedOp(s1, put);
  }

  /** Paying a reward, dropping a stake record and paying the stake back adds just the reward. */
  lemma ReleaseWorth(s: Store, reward: Op, drop: Op, stake: Op)
    requires Apply(s, Do(reward, Do(drop, Do(stake, Done)))).Ok?
    requires reward.Credit? && reward.asset == Native && stake.Credit? && stake.asset == Native
    requires (drop.DropValidator? || drop.DropDelegation?) && At(s, drop.Key(), StakeWeight()) == stake.amount
    ensures Worth(Apply(s, Do(reward, Do(drop, Do(stake, Done)))).value) == Worth(s) + reward.amount
  {
    hide Holdings, Staked;
    ApplyTwo(s, reward, drop, Do(stake, Done));
    var s1 := ApplyOp(s, reward).value;
    var s2 := ApplyOp(s1, drop).value;
    assert Apply(s2, Do(stake, Done)) == ApplyTo(ApplyOp(s2, stake), Done);
    HoldingsOp(s, reward, Native);
    StakedOp(s, reward);
    HoldingsOp(s1, drop, Native);
    StakedOp(s1, drop);
    HoldingsOp(s2, stake, Native);
    StakedOp(s2, stake);
  }

  /** A staking action moves native units between accounts and stake, and adds the reward. */
  lemma StakingWorth(s: Store, ctx: Context, act: Action)
    requires !IsAssetAction(act) && Execute(s, ctx, act).result.Ok?
    ensures Worth(Execute(s, ctx, act).store) == Worth(s) + RewardPaid(ctx, act)
  {
    var plan := Plan(s, ctx, act);
    if act.RegisterValidatorStake? || act.DelegateUserStake? {
      LockWorth(s, plan.op, plan.next.op);
    } else if act.WithdrawValidatorStake? || act.UndelegateUserStake? {
      ReleaseWorth(s, plan.op, plan.next.op, plan.next.next.op);
    } else {
      assert Apply(s, Do(plan.op, Done)) == ApplyTo(ApplyOp(s, plan.op), Done);
      HoldingsOp(s, plan.op, Native);
      StakedOp(s, plan.op);
    }
  }

  /** Every successful action: native units change by the change in recorded supply plus rewards. */
  lemma ExecuteWorth(s: Store, ctx: Context, act: Action)
    requires Execute(s, ctx, act).result.Ok?
    ensures var t := Execute(s, ctx, act).store;
            Worth(t) - Worth(s) == Supply(t, Native) - Supply(s, Native) + RewardPaid(ctx, act)
  {
    SupplyEffects(s, ctx, act, Native);
    if IsAssetAction(act) {
      HoldingsEffects(s, ctx, act, Native);
      AssetActionsAreStakeFree(s, ctx, act);
      StakeFreeKeepsStaked(s, Plan(s, ctx, act));
    } else {
      StakingWorth(s, ctx, act);
    }
  }

  /** A ledger together with the fees kept and the rewards paid so far. */
  datatype Books = Books(store: Store, fees: int, rewards: nat)

  datatype Posting =
    | Tx(ctx: Context, act: Action)
    | Charge(addr: Address, amount: uint64)
    | GiveBack(addr: Address, amount: uint64)

  function Post(b: Books, p: Posting): Books {
    match p
    case Tx(ctx, act) => (
      var o := Execute(b.store, ctx, act);
      if o.result.Ok? then Books(o.store, b.fees, b.rewards + RewardPaid(ctx, act)) else b
    )
    case Charge(addr, amount) => (
      match Deduct(b.store, addr, amount)
      case Ok(t) => Books(t, b.fees + amount, b.rewards)
      case Err(_) => b
    )
    case GiveBack(addr, amount) =>
      match Refund(b.store, addr, amount)
      case Ok(t) => Books(t, if BalanceKey(addr, Native) in b.store then b.fees - amount else b.fees, b.rewards)
      case Err(_) => b
  }

  function PostAll(b: Books, ps: seq<Posting>): Books {
    if ps == [] then b else Post(PostAll(b, ps[..|ps| - 1]), ps[|ps| - 1])
  }

  /** Native units plus fees kept, minus recorded supply and rewards paid. */
  ghost function Imbalance(b: Books): int {
    Worth(b.store) + b.fees - Supply(b.store, Native) - b.rewards
  }

  lemma FeeWorth(s: Store, t: Store, addr: Address)
    requires t - {BalanceKey(addr, Native)} == s - {BalanceKey(addr, Native)}
    ensures Worth(t) - Worth(s) == GetBalance(t, addr, Native) - GetBalance(s, addr, Native)
    ensures Supply(t, Native) == Supply(s, Native)
  {
    var k := BalanceKey(addr, Native);
    SumChange(s, t, k, HoldingWeight(Native));
    SumChange(s, t, k, StakeWeight());
    var a := AssetKey(Native);
    assert (a in t <==> a in t - {k}) && (a in s <==> a in s - {k});
    assert a in t ==> (t - {k})[a] == t[a] && (s - {k})[a] == s[a];
  }

  /** No action and no fee ever changes the imbalance. */
  lemma PostKeepsBalance(b: Books, p: Posting)
    ensures Imbalance(Post(b, p)) == Imbalance(b)
  {
    match p
    case Tx(ctx, act) =>
      if Execute(b.store, ctx, act).result.Ok? {
        ExecuteWorth(b.store, ctx, act);
      }
    case Charge(addr, amount) =>
      FeeWorth(b.store, Post(b, p).store, addr);
    case GiveBack(addr, amount) =>
      FeeWorth(b.store, Post(b, p).store, addr);
  }

  lemma {:induction false} RunsKeepBalance(b: Books, ps: seq<Posting>)
    ensures Imbalance(PostAll(b, ps)) == Imbalance(b)
    decreases |ps|
  {
    if ps != [] {
      RunsKeepBalance(b, ps[..|ps| - 1]);
      PostKeepsBalance(PostAll(b, ps[..|ps| - 1]), ps[|ps| - 1]);
    }
  }

  // ---------------------------------------------------------------------------------------------
  // Genesis

  datatype Allocation = Allocation(addr: Address, balance: uint64)

  const NATIVE_SYMBOL: Bytes := [78, 65, 73]
  const NATIVE_NAME: Bytes := [110, 117, 107, 108, 97, 105, 118, 109]

  function NativeAsset(supply: uint64): Asset {
    Asset(NATIVE_SYMBOL, 9, Text(NATIVE_NAME), supply, EMPTY_ADDRESS, false)
  }

  function TotalAllocated(allocs: seq<Allocation>): nat {
    if allocs == [] then 0 else TotalAllocated(allocs[..|allocs| - 1]) + allocs[|allocs| - 1].balance
  }

  /** The balances that the allocations leave; a later allocation for an address replaces an earlier one. */
  function Allocated(allocs: seq<Allocation>): Store {
    if allocs == [] then map[]
    else
      var last := allocs[|allocs| - 1];
      Allocated(allocs[..|allocs| - 1])[BalanceKey(last.addr, Native) := Amount(last.balance)]
  }

  function Genesis(allocs: seq<Allocation>): Result<Store, Error> {
    if TotalAllocated(allocs) > MAX_UINT64 then Err(Overflow)
    else Ok(Allocated(allocs)[AssetKey(Native) := AssetRecord(NativeAsset(TotalAllocated(allocs)))])
  }

  /** Every allocation that a later one for the same address replaces is empty. */
  predicate ReplacedAreEmpty(allocs: seq<Allocation>) {
    forall i, j | 0 <= i < j < |allocs| :: allocs[i].addr == allocs[j].addr ==> allocs[i].balance == 0
  }

  lemma {:induction false} AllocatedShape(allocs: seq<Allocation>)
    ensures forall k | k in Allocated(allocs) :: k.BalanceKey? && k.asset == Native
    ensures forall i | 0 <= i < |allocs| :: BalanceKey(allocs[i].addr, Native) in Allocated(allocs)
    decreases |allocs|
  {
    if allocs != [] {
      AllocatedShape(allocs[..|allocs| - 1]);
    }
  }

  /** The balance an address ends up with is its last allocation. */
  lemma {:induction false} LastAllocation(allocs: seq<Allocation>, i: nat)
    requires i < |allocs|
    requires forall j | i < j < |allocs| :: allocs[j].addr != allocs[i].addr
    ensures GetBalance(Allocated(allocs), allocs[i].addr, Native) == allocs[i].balance
    decreases |allocs|
  {
    if i < |allocs| - 1 {
      LastAllocation(allocs[..|allocs| - 1], i);
    }
  }

  lemma {:induction false} Unallocated(allocs: seq<Allocation>, addr: Address)
    requires forall j | 0 <= j < |allocs| :: allocs[j].addr != addr
    ensures GetBalance(Allocated(allocs), addr, Native) == 0
    decreases |allocs|
  {
    if allocs != [] {
      Unallocated(allocs[..|allocs| - 1], addr);
    }
  }

  /** When replaced allocations are empty so far, an address has a balance exactly if one of its allocations is not. */
  lemma {:induction false} BalanceIsSomeAllocation(allocs: seq<Allocation>, addr: Address)
    requires ReplacedAreEmpty(allocs)
    ensures GetBalance(Allocated(allocs), addr, Native) == 0
            <==> forall j | 0 <= j < |allocs| :: allocs[j].addr == addr ==> allocs[j].balance == 0
    decreases |allocs|
  {
    if allocs != [] {
      var n := |allocs| - 1;
      BalanceIsSomeAllocation(allocs[..n], addr);
      if allocs[n].addr == addr {
        LastAllocation(allocs, n);
      } else {
        assert forall j | 0 <= j < n :: allocs[..n][j] == allocs[j];
      }
    }
  }

  /** The balances never exceed the total, and equal it exactly when replaced allocations are empty. */
  lemma {:induction false} AllocatedHoldings(allocs: seq<Allocation>)
    ensures Holdings(Allocated(allocs), Native) <= TotalAllocated(allocs)
    ensures Holdings(Allocated(allocs), Native) == TotalAllocated(allocs) <==> ReplacedAreEmpty(allocs)
    decreases |allocs|
  {
    if allocs != [] {
      var n := |allocs| - 1;
      var before, last := allocs[..n], allocs[n];
      var k := BalanceKey(last.addr, Native);
      AllocatedHoldings(before);
      SumChange(Allocated(before), Allocated(allocs), k, HoldingWeight(Native));
      if ReplacedAreEmpty(before) {
        BalanceIsSomeAllocation(before, last.addr);
        assert forall j | 0 <= j < n :: before[j] == allocs[j];
        if GetBalance(Allocated(before), last.addr, Native) == 0 {
          assert ReplacedAreEmpty(allocs);
        } else {
          var j :| 0 <= j < n && before[j].addr == last.addr && before[j].balance != 0;
          assert allocs[j].addr == allocs[n].addr && allocs[j].balance != 0;
        }
      } else {
        var i, j :| 0 <= i < j < n && before[i].addr == before[j].addr && before[i].balance != 0;
        assert allocs[i].addr == allocs[j].addr && allocs[i].balance != 0;
      }
    }
  }

  /** Genesis fails exactly when the allocations overflow 64 bits; otherwise it is a fresh ledger whose
      books balance exactly when no allocation that is replaced by a later one carried anything. */
  lemma GenesisBalances(allocs: seq<Allocation>)
    ensures Genesis(allocs).Ok? <==> TotalAllocated(allocs) <= MAX_UINT64
    ensures Genesis(allocs).Ok? ==>
              var s := Genesis(allocs).value;
              && IsGenesis(s)
              && Supply(s, Native) == TotalAllocated(allocs)
              && (Imbalance(Books(s, 0, 0)) == 0 <==> ReplacedAreEmpty(allocs))
  {
    if Genesis(allocs).Ok? {
      var s, b := Genesis(allocs).value, Allocated(allocs);
      AllocatedShape(allocs);
      AllocatedHoldings(allocs);
      SumChange(b, s, AssetKey(Native), HoldingWeight(Native));
      SumZero(s, StakeWeight());
    }
  }

  /** Native conservation over every run from genesis of all actions and fees. Addresses of the
      allocations need not even be distinct, as long as a replaced allocation is empty. */
  lemma NativeConservation(allocs: seq<Allocation>, ps: seq<Posting>)
    requires Genesis(allocs).Ok? && ReplacedAreEmpty(allocs)
    ensures var b := PostAll(Books(Genesis(allocs).value, 0, 0), ps);
            Holdings(b.store, Native) + Staked(b.store) + b.fees == Supply(b.store, Native) + b.rewards
  {
    GenesisBalances(allocs);
    RunsKeepBalance(Books(Genesis(allocs).value, 0, 0), ps);
  }

  /** Two allocations for one address: the supply counts both, the account keeps one. */
  lemma RepeatedAllocation()
    ensures var allocs := [Allocation(7, 5), Allocation(7, 3)];
            && !ReplacedAreEmpty(allocs)
            && Genesis(allocs).Ok?
            && Supply(Genesis(allocs).value, Native) == 8
            && GetBalance(Genesis(allocs).value, 7, Native) == 3
  {
    var allocs := [Allocation(7, 5), Allocation(7, 3)];
    assert allocs[..1] == [Allocation(7, 5)];
    assert allocs[..1][..0] == [];
    assert TotalAllocated(allocs[..1]) == 5;
    assert allocs[0].addr == allocs[1].addr;
  }
}
