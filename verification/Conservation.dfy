/** What every action keeps true of a single ledger, whatever messages it imports. */
module Conservation {
  import opened Types
  import opened Sums
  import opened Ledger
  import opened Actions
  import opened Effects

  /** The record of a wrapped asset names exactly the origin that its identifier is made from;
      only identifiers of imported assets are wrapped. */
  predicate Shaped(a: AssetId, rec: Asset) {
    && 0 < |rec.symbol| <= MAX_SYMBOL_SIZE
    && (rec.metadata.Text? ==> |rec.metadata.text| <= MAX_METADATA_SIZE)
    && rec.warp == a.Imported?
    && (a.Imported? ==> rec.metadata == Origin(a.origin, a.chain))
  }

  ghost predicate RecordsShaped(s: Store) {
    forall a: AssetId :: GetAsset(s, a).Some? ==> Shaped(a, GetAsset(s, a).value)
  }

  /** Only existing home assets are on loan. */
  ghost predicate LoansAtHome(s: Store) {
    forall a: AssetId, c: ChainId :: GetLoan(s, a, c) > 0 ==> !a.Imported? && GetAsset(s, a).Some?
  }

  /** For every non-native asset, accounts and loans together hold the recorded supply. */
  ghost predicate SupplyMatches(s: Store) {
    forall a: AssetId :: a != Native ==> Holdings(s, a) == Supply(s, a)
  }

  predicate StoredPositive(k: Key, v: Value) {
    k.LoanKey? || (k.BalanceKey? && k.asset != Native) ==> v.Amount? && v.n > 0
  }

  /** No loan and no non-native balance is stored as zero. */
  ghost predicate NoZeroRecords(s: Store) {
    forall k: Key :: k in s ==> StoredPositive(k, s[k])
  }

  ghost predicate Sound(s: Store) {
    RecordsShaped(s) && LoansAtHome(s) && SupplyMatches(s) && NoZeroRecords(s)
  }

  // ---------------------------------------------------------------------------------------------
  // No zero records

  predicate PositiveOps(ops: Ops) {
    match ops
    case Do(op, next) =>
      && (op.Credit? ==> op.asset == Native || op.amount > 0)
      && (op.Lend? ==> op.amount > 0)
      && PositiveOps(next)
    case _ => true
  }

  lemma {:induction false} PositiveOpsKeepPositive(s: Store, ops: Ops)
    requires NoZeroRecords(s) && PositiveOps(ops) && Apply(s, ops).Ok?
    ensures NoZeroRecords(Apply(s, ops).value)
    decreases ops
  {
    if ops.Do? {
      PositiveOpsKeepPositive(ApplyOp(s, ops.op).value, ops.next);
    }
  }

  lemma {:induction false} ThenPositive(ops: Ops, next: Ops)
    requires PositiveOps(ops) && PositiveOps(next)
    ensures PositiveOps(Then(ops, next))
    decreases ops
  {
    if ops.Do? {
      ThenPositive(ops.next, next);
    }
  }

  lemma ImportIsPositive(s: Store, ctx: Context, act: Action)
    requires act.ImportAsset? && WellFormed(act)
    ensures PositiveOps(Plan(s, ctx, act))
  {
    var ImportAsset(fill, source, t) := act;
    var settle, swap := SettlePlan(s, ctx, source, t), SwapPlan(ctx, fill, source, t);
    if swap.Do? {
      assert PositiveOps(swap.next.next);
    }
    if settle.Do? {
      assert PositiveOps(settle.next.next);
    }
    ThenPositive(settle, swap);
  }

  lemma PlanIsPositive(s: Store, ctx: Context, act: Action)
    requires WellFormed(act)
    ensures PositiveOps(Plan(s, ctx, act))
  {
    var plan := Plan(s, ctx, act);
    if act.ImportAsset? {
      ImportIsPositive(s, ctx, act);
    } else if act.ExportAsset? && plan.Do? {
      assert PositiveOps(plan.next.next);
    } else if plan.Do? && plan.next.Do? {
      assert PositiveOps(plan.next.next);
    }
  }

  // ---------------------------------------------------------------------------------------------
  // Preservation

  /** A transaction identifier that names no asset yet. */
  predicate FreshFor(s: Store, act: Action, tx: TxId) {
    act.CreateAsset? ==> GetAsset(s, Created(tx)).None?
  }

  lemma ShapesKept(s: Store, ctx: Context, act: Action)
    requires RecordsShaped(s) && WellFormed(act) && Execute(s, ctx, act).result.Ok?
    ensures RecordsShaped(Execute(s, ctx, act).store)
  {
    var t := Execute(s, ctx, act).store;
    forall a: AssetId | GetAsset(t, a).Some?
      ensures Shaped(a, GetAsset(t, a).value)
    {
      RecordEffects(s, ctx, act, a);
      assert GetAsset(s, a).Some? ==> Shaped(a, GetAsset(s, a).value);
    }
  }

  /** A home asset, once recorded, stays recorded with the same symbol and decimals. */
  lemma HomeRecordKept(s: Store, ctx: Context, act: Action, a: AssetId)
    requires Execute(s, ctx, act).result.Ok? && FreshFor(s, act, ctx.tx) && RecordsShaped(s)
    requires !a.Imported? && GetAsset(s, a).Some?
    ensures var r := GetAsset(Execute(s, ctx, act).store, a);
            r.Some? && r.value.symbol == GetAsset(s, a).value.symbol && r.value.decimals == GetAsset(s, a).value.decimals
  {
    RecordEffects(s, ctx, act, a);
    assert Shaped(a, GetAsset(s, a).value);
    assert act.ExportAsset? && act.isReturn && act.asset == a ==> Plan(s, ctx, act).Abort?;
  }

  lemma LoansKeptAtHome(s: Store, ctx: Context, act: Action)
    requires Sound(s) && WellFormed(act) && FreshFor(s, act, ctx.tx) && Execute(s, ctx, act).result.Ok?
    ensures LoansAtHome(Execute(s, ctx, act).store)
  {
    var t := Execute(s, ctx, act).store;
    forall a: AssetId, c: ChainId | GetLoan(t, a, c) > 0
      ensures !a.Imported? && GetAsset(t, a).Some?
    {
      LoanEffects(s, ctx, act, a, c);
      if GetLoan(s, a, c) == 0 {
        assert act.ExportAsset? && !act.isReturn && act.asset == a;
        assert GetAsset(s, a).Some? && Shaped(a, GetAsset(s, a).value);
      }
      HomeRecordKept(s, ctx, act, a);
    }
  }

  /** Every action, successful or not, keeps the ledger sound. */
  lemma ExecuteKeepsSound(s: Store, ctx: Context, act: Action)
    requires Sound(s) && WellFormed(act) && FreshFor(s, act, ctx.tx)
    ensures Sound(Execute(s, ctx, act).store)
  {
    var o := Execute(s, ctx, act);
    if o.result.Ok? {
      ShapesKept(s, ctx, act);
      LoansKeptAtHome(s, ctx, act);
      PlanIsPositive(s, ctx, act);
      PositiveOpsKeepPositive(s, Plan(s, ctx, act));
      forall a: AssetId | a != Native
        ensures Holdings(o.store, a) == Supply(o.store, a)
      {
        HoldingsEffects(s, ctx, act, a);
        SupplyEffects(s, ctx, act, a);
      }
    }
  }

  // ---------------------------------------------------------------------------------------------
  // Fees

  /** Charge a fee; nothing happens when the account cannot pay. */
  function Deduct(s: Store, addr: Address, amount: uint64): Result<Store, Error> {
    SubBalance(s, addr, Native, amount)
  }

  /** Give back part of a fee, but only to an account that still exists. */
  function Refund(s: Store, addr: Address, amount: uint64): Result<Store, Error> {
    AddBalance(s, addr, Native, amount, false)
  }

  function StoreOr(r: Result<Store, Error>, s: Store): Store {
    match r
    case Ok(t) => t
    case Err(_) => s
  }

  /** Fees move native balances only: soundness, loans and asset records stay. */
  lemma FeesKeepSound(s: Store, t: Store, addr: Address)
    requires Sound(s) && t - {BalanceKey(addr, Native)} == s - {BalanceKey(addr, Native)}
    ensures Sound(t)
    ensures forall a: AssetId :: GetAsset(t, a) == GetAsset(s, a)
    ensures forall a: AssetId, c: ChainId :: GetLoan(t, a, c) == GetLoan(s, a, c)
  {
    var k := BalanceKey(addr, Native);
    assert forall j: Key :: j != k ==> ((j in t <==> j in t - {k}) && (j in s <==> j in s - {k}));
    assert forall j: Key :: j in t && j != k ==> (t - {k})[j] == t[j] && j in s && (s - {k})[j] == s[j];
    assert forall j: Key :: j in s && j != k ==> j in t;
    assert forall a: AssetId :: GetAsset(t, a) == GetAsset(s, a);
    assert forall a: AssetId, c: ChainId :: GetLoan(t, a, c) == GetLoan(s, a, c);
    forall a: AssetId | a != Native
      ensures Holdings(t, a) == Supply(t, a)
    {
      SumChange(s, t, k, HoldingWeight(a));
      assert At(s, k, HoldingWeight(a)) == 0 == At(t, k, HoldingWeight(a));
      assert Holdings(s, a) == Supply(s, a);
    }
    forall j: Key | j in t
      ensures StoredPositive(j, t[j])
    {
      assert j in s ==> StoredPositive(j, s[j]);
    }
  }
}
