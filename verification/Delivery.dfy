/** When an import goes through: settling a message, then filling its swap. */
module Delivery {
  import opened Types
  import opened Sums
  import opened Ledger
  import opened Actions
  import opened Effects
  import opened Conservation
  import opened Network

  /** Room for the units that an import credits. */
  predicate Fits(s: Store, ctx: Context, t: WarpTransfer, a: AssetId) {
    && GetBalance(s, t.to, a) + t.value <= MAX_UINT64
    && (t.reward > 0 ==> GetBalance(s, ctx.actor, a) + If(ctx.actor == t.to, t.value) + t.reward <= MAX_UINT64)
  }

  /** Room for returned native units: the only condition that settling depends on. */
  predicate NativeFits(s: Store, ctx: Context, t: WarpTransfer) {
    t.isReturn && t.asset == Native ==> Fits(s, ctx, t, Native)
  }

  /** Redeeming a loan that covers the message succeeds exactly when the credits fit. */
  lemma RedeemIff(s: Store, ctx: Context, source: ChainId, t: WarpTransfer)
    requires t.isReturn && t.value > 0
    requires Ticker(s, t.asset, t.symbol, t.decimals) && !GetAsset(s, t.asset).value.warp
    requires t.value + t.reward <= GetLoan(s, t.asset, source)
    ensures Apply(s, SettlePlan(s, ctx, source, t)).Ok? <==> Fits(s, ctx, t, t.asset)
  {
    SettlesIff(s, ctx, source, t);
  }

  /** Minting a wrapped asset succeeds when the new supply and the credits fit. */
  lemma MintSucceeds(s: Store, ctx: Context, source: ChainId, t: WarpTransfer)
    requires !t.isReturn && RecordsShaped(s)
    requires var a := Imported(t.asset, source);
             Supply(s, a) + t.value + t.reward <= MAX_UINT64 && Fits(s, ctx, t, a)
    ensures Apply(s, SettlePlan(s, ctx, source, t)).Ok?
  {
    var a := Imported(t.asset, source);
    assert GetAsset(s, a).Some? ==> Shaped(a, GetAsset(s, a).value);
    SettlesIff(s, ctx, source, t);
  }

  /** The asset is a home asset with the ticker that the message gives, and the loan to the source covers the message. */
  predicate CanRedeem(s: Store, source: ChainId, t: WarpTransfer) {
    && Ticker(s, t.asset, t.symbol, t.decimals) && !GetAsset(s, t.asset).value.warp
    && t.value + t.reward <= GetLoan(s, t.asset, source)
  }

  /** No asset of another kind has the identifier, and the new supply fits. */
  predicate CanMint(s: Store, source: ChainId, t: WarpTransfer) {
    var a := Imported(t.asset, source);
    && (GetAsset(s, a).Some? ==> GetAsset(s, a).value.warp)
    && Supply(s, a) + t.value + t.reward <= MAX_UINT64
  }

  /** The message can be honoured on this ledger. */
  predicate CanSettle(s: Store, ctx: Context, source: ChainId, t: WarpTransfer) {
    && (if t.isReturn then CanRedeem(s, source, t) else CanMint(s, source, t))
    && Fits(s, ctx, t, AssetIn(source, t))
  }

  /** On any ledger, and for any message whatever, settling succeeds exactly when the message can be honoured. */
  lemma SettlesIff(s: Store, ctx: Context, source: ChainId, t: WarpTransfer)
    ensures Apply(s, SettlePlan(s, ctx, source, t)).Ok? <==> CanSettle(s, ctx, source, t)
  {
    var a, plan := AssetIn(source, t), SettlePlan(s, ctx, source, t);
    if plan.Do? {
      ApplyTwo(s, plan.op, plan.next.op, plan.next.next);
      var r := ApplyOp(s, plan.op);
      if r.Ok? && ApplyOp(r.value, plan.next.op).Ok? {
        var u, last := ApplyOp(r.value, plan.next.op).value, plan.next.next;
        if last.Do? && last.next.Do? {
          ApplyTwo(u, last.op, last.next.op, Done);
        } else if last.Do? {
          assert Apply(u, last) == ApplyTo(ApplyOp(u, last.op), Done);
        }
      }
    }
  }

  /** In a sound ledger, units of a non-native asset that are already accounted for always fit. */
  lemma SoundFits(s: Store, ctx: Context, t: WarpTransfer, a: AssetId, k: Key)
    requires Sound(s) && a != Native
    requires k.BalanceKey? ==> k.asset != a
    requires At(s, k, HoldingWeight(a)) + MAX_UINT64 - Supply(s, a) >= t.value + t.reward
    ensures Fits(s, ctx, t, a)
  {
    HoldingsAtLeast(s, a, k, BalanceKey(t.to, a));
    HoldingsAtLeast(s, a, k, BalanceKey(ctx.actor, a));
    assert Holdings(s, a) == Supply(s, a);
  }

  /** A message in flight between two chains of the network never carries more than is on loan. */
  lemma FlightIsCovered(net: Network, i: nat)
    requires Invariant(net) && i < |net.flight|
    requires var m := net.flight[i]; m.source in net.ledgers && m.transfer.destination in net.ledgers
    ensures var m := net.flight[i];
            var t := m.transfer;
            var home, away := if t.isReturn then t.destination else m.source, if t.isReturn then m.source else t.destination;
            t.value + t.reward + Supply(net.ledgers[away], Imported(t.asset, home)) <= GetLoan(net.ledgers[home], t.asset, away)
  {
    var m := net.flight[i];
    var t := m.transfer;
    var home, away := if t.isReturn then t.destination else m.source, if t.isReturn then m.source else t.destination;
    assert LoanLaw(net, home, away, t.asset);
    SeqSumAtLeast(net.flight, i, TransitWeight(home, away, t.asset));
    SeqSumNonNegative(net.log, BurnWeight(away, Imported(t.asset, home)));
  }

  /** A delivery of message `i` to its destination. */
  predicate DeliversTo(net: Network, i: nat, ctx: Context) {
    && i < |net.flight|
    && net.flight[i].source in net.ledgers
    && ctx.chain == net.flight[i].transfer.destination
    && ctx.chain in net.ledgers
    && ctx.warpVerified
  }

  /** Every message between chains of the network can be settled, whoever delivers it and whenever.
      For returned native units, and only for them, the credited balances must still fit into 64 bits. */
  lemma MessagesSettle(net: Network, i: nat, ctx: Context)
    requires Invariant(net) && DeliversTo(net, i, ctx)
    ensures var m := net.flight[i];
            Apply(net.ledgers[ctx.chain], SettlePlan(net.ledgers[ctx.chain], ctx, m.source, m.transfer)).Ok?
            <==> NativeFits(net.ledgers[ctx.chain], ctx, m.transfer)
  {
    var m := net.flight[i];
    var s, t := net.ledgers[ctx.chain], m.transfer;
    assert HonestMessage(net, m) && Sound(s);
    FlightIsCovered(net, i);
    if t.isReturn {
      assert Shaped(t.asset, GetAsset(s, t.asset).value);
      RedeemIff(s, ctx, m.source, t);
      if t.asset != Native {
        SoundFits(s, ctx, t, t.asset, LoanKey(t.asset, m.source));
      }
    } else {
      var a := Imported(t.asset, m.source);
      SoundFits(s, ctx, t, a, AssetKey(a));
      MintSucceeds(s, ctx, m.source, t);
    }
  }

  // ---------------------------------------------------------------------------------------------
  // Swaps

  /** What settling leaves behind, for any message that decodes. */
  lemma Settled(s: Store, ctx: Context, source: ChainId, t: WarpTransfer, x: Address, a: AssetId)
    requires Apply(s, SettlePlan(s, ctx, source, t)).Ok?
    ensures var u := Apply(s, SettlePlan(s, ctx, source, t)).value;
            && GetBalance(u, x, a) == GetBalance(s, x, a) + If(t.to == x && AssetIn(source, t) == a, t.value)
                                      + If(ctx.actor == x && AssetIn(source, t) == a, t.reward)
            && Holdings(u, a) == Holdings(s, a) + If(!t.isReturn && Imported(t.asset, source) == a, t.value + t.reward)
  {
    var plan := SettlePlan(s, ctx, source, t);
    AppliedFinishes(s, plan);
    FlowIsExact(s, plan, BalanceOf(x, a));
    FlowIsExact(s, plan, HoldingsOf(a));
    SettleFlow(s, ctx, source, t, BalanceOf(x, a));
    SettleFlow(s, ctx, source, t, HoldingsOf(a));
  }

  /** The first step of a swap, taking `swapIn` back from the recipient, never fails. */
  lemma RecipientCanPay(s: Store, ctx: Context, source: ChainId, t: WarpTransfer)
    requires WellFormedTransfer(t) && Apply(s, SettlePlan(s, ctx, source, t)).Ok?
    ensures SubBalance(Apply(s, SettlePlan(s, ctx, source, t)).value, t.to, AssetIn(source, t), t.swapIn).Ok?
  {
    Settled(s, ctx, source, t, t.to, AssetIn(source, t));
  }

  /** The filler's balance of the asset it has to pay, at the moment it pays. */
  function FillerFunds(u: Store, ctx: Context, source: ChainId, t: WarpTransfer): int {
    GetBalance(u, ctx.actor, t.assetOut) + If(AssetIn(source, t) == t.assetOut && ctx.actor != t.to, t.swapIn)
  }

  /** Between two parties, both have room for what they get. */
  predicate RoomForBoth(u: Store, ctx: Context, source: ChainId, t: WarpTransfer) {
    ctx.actor != t.to ==>
      && GetBalance(u, ctx.actor, AssetIn(source, t)) + t.swapIn <= MAX_UINT64
      && GetBalance(u, t.to, t.assetOut) - If(AssetIn(source, t) == t.assetOut, t.swapIn) + t.swapOut <= MAX_UINT64
  }

  /** Filling a swap succeeds exactly when the filler can pay and both parties have room, for any two assets
      and in every aliasing case. */
  lemma SwapIff(u: Store, ctx: Context, source: ChainId, t: WarpTransfer)
    requires t.swapIn > 0 && t.swapIn <= GetBalance(u, t.to, AssetIn(source, t))
    ensures Apply(u, SwapPlan(ctx, true, source, t)).Ok?
            <==> t.swapOut <= FillerFunds(u, ctx, source, t) && RoomForBoth(u, ctx, source, t)
  {
    var plan := SwapPlan(ctx, true, source, t);
    var u1 := ApplyOp(u, plan.op).value;
    var r2, last := ApplyOp(u1, plan.next.op), plan.next.next;
    ApplyTwo(u, plan.op, plan.next.op, last);
    SecondBalance(u, u1, ctx, source, t);
    if r2.Ok? {
      ApplyTwo(r2.value, last.op, last.next.op, Done);
      ThirdBalances(u, u1, r2.value, ctx, source, t);
    }
  }

  lemma SecondBalance(u: Store, u1: Store, ctx: Context, source: ChainId, t: WarpTransfer)
    requires ApplyOp(u, Debit(t.to, AssetIn(source, t), t.swapIn)) == Ok(u1)
    ensures var i := AssetIn(source, t);
            GetBalance(u1, ctx.actor, i) == GetBalance(u, ctx.actor, i) - If(ctx.actor == t.to, t.swapIn)
  {
  }

  /** Balances of the asset to be paid once the recipient has handed over `swapIn`. */
  lemma ThirdBalances(u: Store, u1: Store, u2: Store, ctx: Context, source: ChainId, t: WarpTransfer)
    requires ApplyOp(u, Debit(t.to, AssetIn(source, t), t.swapIn)) == Ok(u1)
    requires ApplyOp(u1, Credit(ctx.actor, AssetIn(source, t), t.swapIn)) == Ok(u2)
    ensures GetBalance(u2, ctx.actor, t.assetOut) == FillerFunds(u, ctx, source, t)
    ensures ctx.actor != t.to ==>
              GetBalance(u2, t.to, t.assetOut)
              == GetBalance(u, t.to, t.assetOut) - If(AssetIn(source, t) == t.assetOut, t.swapIn)
  {
  }

  /** A swap only changes hands: no asset gains or loses units, no loan and no record changes. */
  lemma SwapConserves(u: Store, ctx: Context, fill: bool, source: ChainId, t: WarpTransfer, a: AssetId, c: ChainId)
    requires Apply(u, SwapPlan(ctx, fill, source, t)).Ok?
    ensures var v := Apply(u, SwapPlan(ctx, fill, source, t)).value;
            Holdings(v, a) == Holdings(u, a) && GetLoan(v, a, c) == GetLoan(u, a, c) && GetAsset(v, a) == GetAsset(u, a)
  {
    var plan := SwapPlan(ctx, fill, source, t);
    FlowIsExact(u, plan, HoldingsOf(a));
    FlowIsExact(u, plan, LoanOf(a, c));
    RecordAfterIsExact(u, plan, a);
    SwapFlow(ctx, fill, source, t, HoldingsOf(a));
    SwapFlow(ctx, fill, source, t, LoanOf(a, c));
    SwapKeepsRecords(ctx, fill, source, t, a, GetAsset(u, a));
  }

  // ---------------------------------------------------------------------------------------------
  // Whole imports

  /** An import without a swap to fill, or past its expiry, succeeds exactly when it settles. */
  lemma ImportIff(s: Store, ctx: Context, fill: bool, source: ChainId, t: WarpTransfer)
    requires ctx.warpVerified && t.destination == ctx.chain && t.value > 0
    requires t.swapIn == 0 || (!fill && t.swapExpiry <= ctx.time)
    ensures Execute(s, ctx, ImportAsset(fill, source, t)).result.Ok? <==> Apply(s, SettlePlan(s, ctx, source, t)).Ok?
  {
    ApplyThen(s, SettlePlan(s, ctx, source, t), SwapPlan(ctx, fill, source, t));
  }

  /** An account's balance once an import has settled. */
  function AfterSettling(s: Store, ctx: Context, source: ChainId, t: WarpTransfer, x: Address, a: AssetId): int {
    GetBalance(s, x, a) + If(t.to == x && AssetIn(source, t) == a, t.value)
    + If(ctx.actor == x && AssetIn(source, t) == a, t.reward)
  }

  /** The filler can pay, and both parties have room, counted from the balances before the import. */
  predicate CanFill(s: Store, ctx: Context, source: ChainId, t: WarpTransfer) {
    var i, o := AssetIn(source, t), t.assetOut;
    && t.swapOut <= AfterSettling(s, ctx, source, t, ctx.actor, o) + If(i == o && ctx.actor != t.to, t.swapIn)
    && (ctx.actor != t.to ==>
          && AfterSettling(s, ctx, source, t, ctx.actor, i) + t.swapIn <= MAX_UINT64
          && AfterSettling(s, ctx, source, t, t.to, o) - If(i == o, t.swapIn) + t.swapOut <= MAX_UINT64)
  }

  /** A filled import of any decodable message succeeds exactly when it settles and can be filled. */
  lemma FilledImportIff(s: Store, ctx: Context, source: ChainId, t: WarpTransfer)
    requires ctx.warpVerified && t.destination == ctx.chain && WellFormedTransfer(t) && t.swapIn > 0
    ensures Execute(s, ctx, ImportAsset(true, source, t)).result.Ok?
            <==> Apply(s, SettlePlan(s, ctx, source, t)).Ok? && CanFill(s, ctx, source, t)
  {
    var settle, i, o := SettlePlan(s, ctx, source, t), AssetIn(source, t), t.assetOut;
    ApplyThen(s, settle, SwapPlan(ctx, true, source, t));
    if Apply(s, settle).Ok? {
      Settled(s, ctx, source, t, t.to, i);
      Settled(s, ctx, source, t, t.to, o);
      Settled(s, ctx, source, t, ctx.actor, i);
      Settled(s, ctx, source, t, ctx.actor, o);
      SwapIff(Apply(s, settle).value, ctx, source, t);
    }
  }

  /** When an import goes through, on any ledger and for any message that decodes: it is verified and meant for this chain,
      it can be honoured, and its swap, if it has one, can be filled, or is left unfilled once it has expired. */
  lemma ImportSucceedsIff(s: Store, ctx: Context, fill: bool, source: ChainId, t: WarpTransfer)
    requires WellFormedTransfer(t)
    ensures Execute(s, ctx, ImportAsset(fill, source, t)).result.Ok? <==>
              && ctx.warpVerified && t.destination == ctx.chain
              && CanSettle(s, ctx, source, t)
              && (t.swapIn == 0 || (if fill then CanFill(s, ctx, source, t) else t.swapExpiry <= ctx.time))
  {
    hide CanFill, CanSettle, SettlePlan;
    SettlesIff(s, ctx, source, t);
    if ctx.warpVerified && t.destination == ctx.chain {
      if t.swapIn == 0 || (!fill && t.swapExpiry <= ctx.time) {
        ImportIff(s, ctx, fill, source, t);
      } else if fill {
        FilledImportIff(s, ctx, source, t);
      } else {
        ApplyThen(s, SettlePlan(s, ctx, source, t), SwapPlan(ctx, fill, source, t));
      }
    }
  }

  /** Settling a message of the network never pushes a non-native asset over 64 bits. */
  lemma SettledInRange(net: Network, i: nat, ctx: Context, a: AssetId)
    requires Invariant(net) && DeliversTo(net, i, ctx) && a != Native
    requires var m := net.flight[i];
             Apply(net.ledgers[ctx.chain], SettlePlan(net.ledgers[ctx.chain], ctx, m.source, m.transfer)).Ok?
    ensures var m := net.flight[i];
            var s := net.ledgers[ctx.chain];
            Holdings(Apply(s, SettlePlan(s, ctx, m.source, m.transfer)).value, a) <= MAX_UINT64
  {
    var m := net.flight[i];
    var s := net.ledgers[ctx.chain];
    Settled(s, ctx, m.source, m.transfer, ctx.actor, a);
    FlightIsCovered(net, i);
    assert Sound(s) && Holdings(s, a) == Supply(s, a);
  }

  /** In a message of the network, two non-native assets always leave room: then paying is all it takes. */
  lemma CanFillIff(net: Network, i: nat, ctx: Context)
    requires Invariant(net) && DeliversTo(net, i, ctx)
    requires var m := net.flight[i];
             && AssetIn(m.source, m.transfer) != Native && m.transfer.assetOut != Native
             && WellFormedTransfer(m.transfer)
             && Apply(net.ledgers[ctx.chain], SettlePlan(net.ledgers[ctx.chain], ctx, m.source, m.transfer)).Ok?
    ensures var m := net.flight[i];
            var t, s := m.transfer, net.ledgers[ctx.chain];
            CanFill(s, ctx, m.source, t) <==> CanPay(s, ctx, m.source, t)
  {
    var m := net.flight[i];
    var t, s := m.transfer, net.ledgers[ctx.chain];
    var a, o := AssetIn(m.source, t), t.assetOut;
    var u := Apply(s, SettlePlan(s, ctx, m.source, t)).value;
    if ctx.actor != t.to && CanPay(s, ctx, m.source, t) {
      SettledInRange(net, i, ctx, a);
      SettledInRange(net, i, ctx, o);
      Settled(s, ctx, m.source, t, ctx.actor, a);
      Settled(s, ctx, m.source, t, t.to, a);
      Settled(s, ctx, m.source, t, ctx.actor, o);
      Settled(s, ctx, m.source, t, t.to, o);
      HoldingsAtLeast(u, a, BalanceKey(ctx.actor, a), BalanceKey(t.to, a));
      HoldingsAtLeast(u, o, BalanceKey(ctx.actor, o), BalanceKey(t.to, o));
    }
  }

  /** The filler can pay `swapOut` out of what it holds once it has the reward and `swapIn`. */
  predicate CanPay(s: Store, ctx: Context, source: ChainId, t: WarpTransfer) {
    var same := AssetIn(source, t) == t.assetOut;
    t.swapOut <= GetBalance(s, ctx.actor, t.assetOut)
                 + If(same, t.reward) + If(same && ctx.actor == t.to, t.value) + If(same && ctx.actor != t.to, t.swapIn)
  }

  // ---------------------------------------------------------------------------------------------
  // Refusals

  /** The list does not end in this refusal. */
  predicate NeverAborts(ops: Ops, e: Error) {
    match ops
    case Done => true
    case Abort(f) => f != e
    case Do(_, next) => NeverAborts(next, e)
  }

  lemma {:induction false} OtherError(s: Store, ops: Ops, e: Error)
    requires NeverAborts(ops, e)
    requires !e.CannotAddBalance? && !e.CannotSubBalance? && !e.CannotAddLoan? && !e.CannotSubLoan?
    ensures Apply(s, ops) != Err(e)
    decreases ops
  {
    if ops.Do? && ApplyOp(s, ops.op).Ok? {
      OtherError(ApplyOp(s, ops.op).value, ops.next, e);
    }
  }

  /** Settling is never refused for want of a filler. */
  lemma SettlingNeedsNoFiller(s: Store, ctx: Context, source: ChainId, t: WarpTransfer)
    ensures Apply(s, SettlePlan(s, ctx, source, t)) != Err(MustFill)
  {
    var settle := SettlePlan(s, ctx, source, t);
    if settle.Do? {
      assert NeverAborts(settle.next.next, MustFill);
    }
    OtherError(s, settle, MustFill);
  }
}
