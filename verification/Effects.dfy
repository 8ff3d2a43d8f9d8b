/** What each action adds to every balance, loan, total holding and recorded supply, in closed form. */
module Effects {
  import opened Types
  import opened Ledger
  import opened Actions

  /** The list does not end in a refusal. */
  predicate Finishes(ops: Ops) {
    match ops
    case Done => true
    case Abort(_) => false
    case Do(_, next) => Finishes(next)
  }

  lemma {:induction false} AppliedFinishes(s: Store, ops: Ops)
    requires Apply(s, ops).Ok?
    ensures Finishes(ops)
    decreases ops
  {
    if ops.Do? {
      AppliedFinishes(ApplyOp(s, ops.op).value, ops.next);
    }
  }

  function OpRecord(op: Op, a: AssetId, x: Option<Asset>): Option<Asset> {
    match op
    case PutAsset(b, rec) => if a == b then Some(rec) else x
    case DropAsset(b) => if a == b then None else x
    case _ => x
  }

  /** The asset record after the operations, when it was `x` before them. */
  function RecordAfter(ops: Ops, a: AssetId, x: Option<Asset>): Option<Asset> {
    match ops
    case Do(op, next) => RecordAfter(next, a, OpRecord(op, a, x))
    case _ => x
  }

  lemma {:induction false} RecordAfterIsExact(s: Store, ops: Ops, a: AssetId)
    requires Apply(s, ops).Ok?
    ensures GetAsset(Apply(s, ops).value, a) == RecordAfter(ops, a, GetAsset(s, a))
    decreases ops
  {
    if ops.Do? {
      RecordAfterIsExact(ApplyOp(s, ops.op).value, ops.next, a);
    }
  }

  /** Accounting of one list of operations after another. */
  lemma {:induction false} ThenAccounting(ops: Ops, next: Ops, m: Meter, a: AssetId, x: Option<Asset>)
    requires Finishes(Then(ops, next))
    ensures Finishes(ops) && Finishes(next)
    ensures Flow(Then(ops, next), m) == Flow(ops, m) + Flow(next, m)
    ensures RecordAfter(Then(ops, next), a, x) == RecordAfter(next, a, RecordAfter(ops, a, x))
    decreases ops
  {
    if ops.Do? {
      ThenAccounting(ops.next, next, m, a, OpRecord(ops.op, a, x));
    }
  }

  /** Two steps of `Flow` and of `RecordAfter` at once. */
  lemma Unfold(ops: Ops, m: Meter, a: AssetId, x: Option<Asset>)
    requires ops.Do? && ops.next.Do?
    ensures Flow(ops, m) == OpFlow(ops.op, m) + OpFlow(ops.next.op, m) + Flow(ops.next.next, m)
    ensures RecordAfter(ops, a, x) == RecordAfter(ops.next.next, a, OpRecord(ops.next.op, a, OpRecord(ops.op, a, x)))
  {
    assert Flow(ops.next, m) == OpFlow(ops.next.op, m) + Flow(ops.next.next, m);
    assert RecordAfter(ops, a, x) == RecordAfter(ops.next, a, OpRecord(ops.op, a, x));
  }

  // ---------------------------------------------------------------------------------------------
  // Closed forms

  function If(b: bool, n: int): int {
    if b then n else 0
  }

  function LoanDelta(act: Action, a: AssetId, c: ChainId): int {
    match act
    case ExportAsset(_, asset, value, isReturn, reward, _, _, _, _, destination) =>
      If(!isReturn && asset == a && destination == c, value + reward)
    case ImportAsset(_, source, t) =>
      -If(t.isReturn && t.asset == a && source == c, t.value + t.reward)
    case _ => 0
  }

  function SupplyDelta(act: Action, a: AssetId): int {
    match act
    case MintAsset(_, asset, value) => If(asset == a, value)
    case BurnAsset(asset, value) => -If(asset == a, value)
    case ExportAsset(_, asset, value, isReturn, reward, _, _, _, _, _) =>
      -If(isReturn && asset == a, value + reward)
    case ImportAsset(_, source, t) =>
      If(!t.isReturn && Imported(t.asset, source) == a, t.value + t.reward)
    case _ => 0
  }

  /** The record of asset `a` after a successful action. */
  function RecordResult(s: Store, ctx: Context, act: Action, a: AssetId): Option<Asset> {
    var was := GetAsset(s, a);
    if act.CreateAsset? then
      if a == Created(ctx.tx) then Some(Asset(act.symbol, act.decimals, Text(act.metadata), 0, ctx.actor, false)) else was
    else if act.ImportAsset? then
      var t := act.transfer;
      if t.isReturn || a != Imported(t.asset, act.source) then was
      else
        var rec := if was.Some? then was.value
                   else Asset(t.symbol, t.decimals, Origin(t.asset, act.source), 0, EMPTY_ADDRESS, true);
        var supply := rec.supply + t.value + t.reward;
        if supply <= MAX_UINT64 then Some(rec.(supply := supply, owner := EMPTY_ADDRESS)) else was
    else
      var supply := Supply(s, a) + SupplyDelta(act, a);
      if was.None? || !(0 <= supply <= MAX_UINT64) then was
      else if act.ExportAsset? && act.isReturn && a == act.asset then
        if supply == 0 then None else Some(was.value.(supply := supply, owner := EMPTY_ADDRESS))
      else Some(was.value.(supply := supply))
  }

  /** What the swap leg of an import moves into account `x`, whoever the parties and whatever the assets are. */
  function SwapDelta(ctx: Context, fill: bool, source: ChainId, t: WarpTransfer, x: Address, a: AssetId): int {
    if t.swapIn == 0 || !fill then 0
    else
      If(ctx.actor == x && AssetIn(source, t) == a, t.swapIn) - If(t.to == x && AssetIn(source, t) == a, t.swapIn)
      + If(t.to == x && t.assetOut == a, t.swapOut) - If(ctx.actor == x && t.assetOut == a, t.swapOut)
  }

  function BalanceDelta(ctx: Context, act: Action, x: Address, a: AssetId): int
    requires IsAssetAction(act)
  {
    match act
    case Transfer(to, asset, value, _) => If(to == x && asset == a, value) - If(ctx.actor == x && asset == a, value)
    case CreateAsset(_, _, _) => 0
    case MintAsset(to, asset, value) => If(to == x && asset == a, value)
    case BurnAsset(asset, value) => -If(ctx.actor == x && asset == a, value)
    case ExportAsset(_, asset, value, _, reward, _, _, _, _, _) => -If(ctx.actor == x && asset == a, value + reward)
    case ImportAsset(fill, source, t) =>
      If(t.to == x && AssetIn(source, t) == a, t.value)
      + If(ctx.actor == x && AssetIn(source, t) == a, t.reward)
      + SwapDelta(ctx, fill, source, t, x, a)
  }

  // ---------------------------------------------------------------------------------------------
  // The static flows of the plans are those closed forms

  lemma SwapFlow(ctx: Context, fill: bool, source: ChainId, t: WarpTransfer, m: Meter)
    ensures var f := Flow(SwapPlan(ctx, fill, source, t), m);
            && (m.BalanceOf? ==> f == SwapDelta(ctx, fill, source, t, m.addr, m.asset))
            && (!m.BalanceOf? ==> f == 0)
  {
    var i := AssetIn(source, t);
    FlowUnfold(Debit(t.to, i, t.swapIn), Credit(ctx.actor, i, t.swapIn),
               Debit(ctx.actor, t.assetOut, t.swapOut), Credit(t.to, t.assetOut, t.swapOut), Done, m);
  }

  lemma SettleFlow(s: Store, ctx: Context, source: ChainId, t: WarpTransfer, m: Meter)
    requires Finishes(SettlePlan(s, ctx, source, t))
    ensures Flow(SettlePlan(s, ctx, source, t), m) == match m {
              case BalanceOf(x, a) =>
                If(t.to == x && AssetIn(source, t) == a, t.value) + If(ctx.actor == x && AssetIn(source, t) == a, t.reward)
              case LoanOf(a, c) => -If(t.isReturn && t.asset == a && source == c, t.value + t.reward)
              case HoldingsOf(a) => If(!t.isReturn && Imported(t.asset, source) == a, t.value + t.reward)
            }
  {
    var plan := SettlePlan(s, ctx, source, t);
    Unfold(plan, m, Native, None);
    if t.isReturn && t.reward > 0 {
      Unfold(plan.next.next, m, Native, None);
    }
  }

  lemma ExportFlow(s: Store, ctx: Context, act: Action, m: Meter)
    requires act.ExportAsset?
    ensures var plan := Plan(s, ctx, act);
            plan.Abort? ||
            Flow(plan, m) == match m {
              case BalanceOf(x, a) => BalanceDelta(ctx, act, x, a)
              case LoanOf(a, c) => LoanDelta(act, a, c)
              case HoldingsOf(a) => SupplyDelta(act, a)
            }
  {
    var plan := Plan(s, ctx, act);
    if !plan.Abort? {
      if act.isReturn {
        assert Flow(plan, m) == OpFlow(plan.op, m) + OpFlow(plan.next.op, m)
                              + Flow(DebitReward(ctx, act.asset, act.reward), m);
      } else {
        FlowUnfold(Lend(act.asset, act.destination, act.value), Debit(ctx.actor, act.asset, act.value),
                   Lend(act.asset, act.destination, act.reward), Debit(ctx.actor, act.asset, act.reward), Done, m);
      }
    }
  }

  lemma AssetActionFlow(s: Store, ctx: Context, act: Action, m: Meter)
    requires IsAssetAction(act) && Finishes(Plan(s, ctx, act))
    ensures Flow(Plan(s, ctx, act), m) == match m {
              case BalanceOf(x, a) => BalanceDelta(ctx, act, x, a)
              case LoanOf(a, c) => LoanDelta(act, a, c)
              case HoldingsOf(a) => SupplyDelta(act, a)
            }
  {
    var plan := Plan(s, ctx, act);
    if act.ImportAsset? {
      ThenAccounting(SettlePlan(s, ctx, act.source, act.transfer), SwapPlan(ctx, act.fill, act.source, act.transfer), m, Native, None);
      SettleFlow(s, ctx, act.source, act.transfer, m);
      SwapFlow(ctx, act.fill, act.source, act.transfer, m);
    } else if act.ExportAsset? {
      ExportFlow(s, ctx, act, m);
    } else if plan.Do? && plan.next.Do? {
      Unfold(plan, m, Native, None);
    }
  }

  /** Staking actions touch only the native asset, and no loan. */
  lemma StakingFlow(s: Store, ctx: Context, act: Action, m: Meter)
    requires !IsAssetAction(act)
    requires m.LoanOf? || m.asset != Native
    ensures Flow(Plan(s, ctx, act), m) == 0
  {
    var plan := Plan(s, ctx, act);
    if plan.Do? && plan.next.Do? {
      Unfold(plan, m, Native, None);
    }
  }

  lemma SwapKeepsRecords(ctx: Context, fill: bool, source: ChainId, t: WarpTransfer, a: AssetId, x: Option<Asset>)
    ensures RecordAfter(SwapPlan(ctx, fill, source, t), a, x) == x
  {
    var plan := SwapPlan(ctx, fill, source, t);
    if plan.Do? {
      Unfold(plan, HoldingsOf(a), a, x);
      Unfold(plan.next.next, HoldingsOf(a), a, x);
    }
  }

  lemma ImportRecord(s: Store, ctx: Context, act: Action, a: AssetId)
    requires act.ImportAsset? && Finishes(Plan(s, ctx, act))
    ensures RecordAfter(Plan(s, ctx, act), a, GetAsset(s, a)) == RecordResult(s, ctx, act, a)
  {
    var ImportAsset(fill, source, t) := act;
    var settle, swap, x := SettlePlan(s, ctx, source, t), SwapPlan(ctx, fill, source, t), GetAsset(s, a);
    ThenAccounting(settle, swap, HoldingsOf(a), a, x);
    SwapKeepsRecords(ctx, fill, source, t, a, RecordAfter(settle, a, x));
    Unfold(settle, HoldingsOf(a), a, x);
    if t.isReturn && t.reward > 0 {
      Unfold(settle.next.next, HoldingsOf(a), a, x);
    }
  }

  lemma ExportRecord(s: Store, ctx: Context, act: Action, a: AssetId)
    requires act.ExportAsset?
    ensures var plan := Plan(s, ctx, act);
            plan.Abort? || RecordAfter(plan, a, GetAsset(s, a)) == RecordResult(s, ctx, act, a)
  {
    var plan := Plan(s, ctx, act);
    if !plan.Abort? {
      var x := OpRecord(plan.op, a, GetAsset(s, a));
      Unfold(plan, HoldingsOf(a), a, GetAsset(s, a));
      if !act.isReturn && act.reward > 0 {
        Unfold(plan.next.next, HoldingsOf(a), a, x);
      }
    }
  }

  /** Creating, minting and burning. */
  lemma IssueRecord(s: Store, ctx: Context, act: Action, a: AssetId)
    requires act.CreateAsset? || act.MintAsset? || act.BurnAsset?
    requires Finishes(Plan(s, ctx, act))
    ensures RecordAfter(Plan(s, ctx, act), a, GetAsset(s, a)) == RecordResult(s, ctx, act, a)
  {
    var plan := Plan(s, ctx, act);
    if plan.next.Do? {
      Unfold(plan, HoldingsOf(a), a, GetAsset(s, a));
    }
  }

  /** Transfers and staking leave asset records alone. */
  lemma NoRecord(s: Store, ctx: Context, act: Action, a: AssetId)
    requires act.Transfer? || !IsAssetAction(act)
    requires Finishes(Plan(s, ctx, act))
    ensures RecordAfter(Plan(s, ctx, act), a, GetAsset(s, a)) == GetAsset(s, a)
  {
    var plan := Plan(s, ctx, act);
    if plan.next.Do? {
      Unfold(plan, HoldingsOf(a), a, GetAsset(s, a));
    }
  }

  lemma PlanRecord(s: Store, ctx: Context, act: Action, a: AssetId)
    requires Finishes(Plan(s, ctx, act))
    ensures RecordAfter(Plan(s, ctx, act), a, GetAsset(s, a)) == RecordResult(s, ctx, act, a)
  {
    if act.ImportAsset? {
      ImportRecord(s, ctx, act, a);
    } else if act.ExportAsset? {
      ExportRecord(s, ctx, act, a);
    } else if act.CreateAsset? || act.MintAsset? || act.BurnAsset? {
      IssueRecord(s, ctx, act, a);
    } else {
      NoRecord(s, ctx, act, a);
    }
  }

  // ---------------------------------------------------------------------------------------------
  // Effects on the ledger

  /** A successful action leaves every asset record as `RecordResult` says. */
  lemma RecordEffects(s: Store, ctx: Context, act: Action, a: AssetId)
    requires Execute(s, ctx, act).result.Ok?
    ensures GetAsset(Execute(s, ctx, act).store, a) == RecordResult(s, ctx, act, a)
  {
    AppliedFinishes(s, Plan(s, ctx, act));
    RecordAfterIsExact(s, Plan(s, ctx, act), a);
    PlanRecord(s, ctx, act, a);
  }

  /** A successful action moves every recorded supply by its closed form. */
  lemma SupplyEffects(s: Store, ctx: Context, act: Action, a: AssetId)
    requires Execute(s, ctx, act).result.Ok?
    requires act.CreateAsset? && a == Created(ctx.tx) ==> GetAsset(s, a).None?
    ensures Supply(Execute(s, ctx, act).store, a) == Supply(s, a) + SupplyDelta(act, a)
  {
    RecordEffects(s, ctx, act, a);
    AppliedFinishes(s, Plan(s, ctx, act));
  }

  /** A successful action moves every loan by its closed form. */
  lemma LoanEffects(s: Store, ctx: Context, act: Action, a: AssetId, c: ChainId)
    requires Execute(s, ctx, act).result.Ok?
    ensures GetLoan(Execute(s, ctx, act).store, a, c) == GetLoan(s, a, c) + LoanDelta(act, a, c)
  {
    var plan := Plan(s, ctx, act);
    AppliedFinishes(s, plan);
    FlowIsExact(s, plan, LoanOf(a, c));
    if IsAssetAction(act) {
      AssetActionFlow(s, ctx, act, LoanOf(a, c));
    } else {
      StakingFlow(s, ctx, act, LoanOf(a, c));
    }
  }

  /** A successful action moves all units in accounts and on loan together by exactly what it
      moves the recorded supply; staking actions do so for every asset but the native one. */
  lemma HoldingsEffects(s: Store, ctx: Context, act: Action, a: AssetId)
    requires Execute(s, ctx, act).result.Ok?
    requires IsAssetAction(act) || a != Native
    ensures Holdings(Execute(s, ctx, act).store, a) == Holdings(s, a) + SupplyDelta(act, a)
  {
    var plan := Plan(s, ctx, act);
    AppliedFinishes(s, plan);
    FlowIsExact(s, plan, HoldingsOf(a));
    if IsAssetAction(act) {
      AssetActionFlow(s, ctx, act, HoldingsOf(a));
    } else {
      StakingFlow(s, ctx, act, HoldingsOf(a));
    }
  }

  /** A successful asset action changes each balance by exactly its closed form. */
  lemma BalanceEffects(s: Store, ctx: Context, act: Action, x: Address, a: AssetId)
    requires IsAssetAction(act) && Execute(s, ctx, act).result.Ok?
    ensures GetBalance(Execute(s, ctx, act).store, x, a) == GetBalance(s, x, a) + BalanceDelta(ctx, act, x, a)
  {
    var plan := Plan(s, ctx, act);
    AppliedFinishes(s, plan);
    FlowIsExact(s, plan, BalanceOf(x, a));
    AssetActionFlow(s, ctx, act, BalanceOf(x, a));
  }
}
