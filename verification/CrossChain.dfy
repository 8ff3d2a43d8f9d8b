/** The cross-chain guarantees, over every run of a network from genesis. The chains in
    `net.ledgers` run this program; every other chain may sign any messages it likes. */
module CrossChain {
  import opened Types
  import opened Sums
  import opened Ledger
  import opened Actions
  import opened Effects
  import opened Conservation
  import opened Network
  import opened Delivery

  /** What `home` has on loan to `away` is always accounted for: messages under way in either direction,
      the wrapped supply on `away`, and what was burned there. Forged messages make no difference. */
  lemma {:induction false} LoansAreAccountedFor(net: Network, evs: seq<Event>, home: ChainId, away: ChainId, a: AssetId)
    requires Initial(net) && home in net.ledgers && away in net.ledgers
    ensures var now := Run(net, evs);
            && home in now.ledgers && away in now.ledgers
            && GetLoan(now.ledgers[home], a, away)
               == InTransit(now, home, away, a)
                  + Supply(now.ledgers[away], Imported(a, home))
                  + Burned(now, away, Imported(a, home))
  {
    RunKeepsInvariant(net, evs);
    assert LoanLaw(Run(net, evs), home, away, a);
  }

  /** No chain, honest or not, brings back more of an asset than was exported to it. */
  lemma {:induction false} NeverMoreBackThanLent(net: Network, evs: seq<Event>, chain: ChainId, other: ChainId, a: AssetId)
    requires Initial(net) && chain in net.ledgers
    ensures var now := Run(net, evs);
            && chain in now.ledgers
            && GetLoan(now.ledgers[chain], a, other) == Lent(now, chain, a, other) - Redeemed(now, chain, a, other)
            && Redeemed(now, chain, a, other) <= Lent(now, chain, a, other)
  {
    RunKeepsInvariant(net, evs);
    assert LoanHistory(Run(net, evs), chain, a, other);
  }

  /** For every non-native asset, on every chain, accounts and loans together hold the recorded supply;
      only existing home assets are lent; and nothing is stored as zero. */
  lemma {:induction false} SupplyIsHeld(net: Network, evs: seq<Event>, chain: ChainId, a: AssetId, k: Key)
    requires Initial(net) && chain in net.ledgers && a != Native
    ensures var now := Run(net, evs);
            && chain in now.ledgers
            && Holdings(now.ledgers[chain], a) == Supply(now.ledgers[chain], a)
            && (forall c: ChainId :: GetLoan(now.ledgers[chain], a, c) > 0 ==>
                  !a.Imported? && GetAsset(now.ledgers[chain], a).Some?)
            && (k in now.ledgers[chain] ==> StoredPositive(k, now.ledgers[chain][k]))
  {
    RunKeepsInvariant(net, evs);
    assert Sound(Run(net, evs).ledgers[chain]);
  }

  /** Wrapped records name their true origin, so a return export goes back to it and to nowhere else,
      and a wrapped asset is never lent on to a third chain. */
  lemma {:induction false} WrappedGoesHomeOnly(net: Network, evs: seq<Event>, chain: ChainId, ctx: Context, act: Action)
    requires Initial(net) && chain in net.ledgers && act.ExportAsset?
    requires act.asset.Imported? || act.isReturn
    ensures var now := Run(net, evs);
            && chain in now.ledgers
            && var s := now.ledgers[chain];
               var o := Execute(s, ctx, act);
               o.result.Ok? ==>
                 && act.isReturn
                 && act.asset == Imported(o.result.value.message.value.asset, act.destination)
                 && o.result.value.message.value.destination == act.destination
                 && GetAsset(s, act.asset).value.metadata == Origin(act.asset.origin, act.asset.chain)
  {
    RunKeepsInvariant(net, evs);
    var s := Run(net, evs).ledgers[chain];
    assert Sound(s);
    assert GetAsset(s, act.asset).Some? ==> Shaped(act.asset, GetAsset(s, act.asset).value);
    if Execute(s, ctx, act).result.Ok? {
      AppliedFinishes(s, Plan(s, ctx, act));
    }
  }

  /** Redeemability. At any point of any run, any message that is still in flight between two chains of
      the network can be settled, by anybody; for returned native units the credited balances must fit. */
  lemma {:induction false} MessagesStayRedeemable(net: Network, evs: seq<Event>, i: nat, ctx: Context)
    requires Initial(net) && DeliversTo(Run(net, evs), i, ctx)
    ensures var now := Run(net, evs);
            var m := now.flight[i];
            var s := now.ledgers[ctx.chain];
            Apply(s, SettlePlan(s, ctx, m.source, m.transfer)).Ok?
            <==> NativeFits(s, ctx, m.transfer)
  {
    RunKeepsInvariant(net, evs);
    MessagesSettle(Run(net, evs), i, ctx);
  }

  /** Without a swap, or unfilled once the swap has expired, the whole import succeeds; for returned native
      units exactly if the credited balances fit. */
  lemma {:induction false} ImportsSucceed(net: Network, evs: seq<Event>, i: nat, ctx: Context, fill: bool)
    requires Initial(net) && DeliversTo(Run(net, evs), i, ctx)
    requires var t := Run(net, evs).flight[i].transfer;
             t.swapIn == 0 || (!fill && t.swapExpiry <= ctx.time)
    ensures var now := Run(net, evs);
            var s := now.ledgers[ctx.chain];
            Execute(s, ctx, DeliveredAction(now.flight[i], fill)).result.Ok?
            <==> NativeFits(s, ctx, now.flight[i].transfer)
  {
    RunKeepsInvariant(net, evs);
    var now := Run(net, evs);
    var m := now.flight[i];
    assert HonestMessage(now, m);
    MessagesSettle(now, i, ctx);
    ImportIff(now.ledgers[ctx.chain], ctx, fill, m.source, m.transfer);
  }

  /** Unfilled before its expiry, a message with a swap is refused, and for no other reason than that, unless
      returned native units do not fit. */
  lemma {:induction false} UnfilledMustFill(net: Network, evs: seq<Event>, i: nat, ctx: Context)
    requires Initial(net) && DeliversTo(Run(net, evs), i, ctx)
    requires var t := Run(net, evs).flight[i].transfer;
             t.swapIn > 0 && t.swapExpiry > ctx.time
    ensures var now := Run(net, evs);
            var s := now.ledgers[ctx.chain];
            var r := Execute(s, ctx, DeliveredAction(now.flight[i], false)).result;
            r.Err? && (r.error == MustFill <==> NativeFits(s, ctx, now.flight[i].transfer))
  {
    RunKeepsInvariant(net, evs);
    UnfilledNow(Run(net, evs), i, ctx);
  }

  lemma UnfilledNow(net: Network, i: nat, ctx: Context)
    requires Invariant(net) && DeliversTo(net, i, ctx)
    requires var t := net.flight[i].transfer; t.swapIn > 0 && t.swapExpiry > ctx.time
    ensures var s := net.ledgers[ctx.chain];
            var r := Execute(s, ctx, DeliveredAction(net.flight[i], false)).result;
            r.Err? && (r.error == MustFill <==> NativeFits(s, ctx, net.flight[i].transfer))
  {
    hide Invariant, SettlePlan, Fits;
    var m := net.flight[i];
    var s, t := net.ledgers[ctx.chain], m.transfer;
    InFlightIsHonest(net, i);
    MessagesSettle(net, i, ctx);
    SettlingNeedsNoFiller(s, ctx, m.source, t);
    ApplyThen(s, SettlePlan(s, ctx, m.source, t), SwapPlan(ctx, false, m.source, t));
  }

  lemma InFlightIsHonest(net: Network, i: nat)
    requires Invariant(net) && i < |net.flight| && net.flight[i].source in net.ledgers
    ensures WellFormedTransfer(net.flight[i].transfer)
  {
    assert HonestMessage(net, net.flight[i]);
  }

  /** Filled, an import of a message in flight succeeds exactly when the filler can pay and there is room;
      for two non-native assets exactly when the filler can pay `swapOut` out of what it holds once it has the
      reward and `swapIn`. */
  lemma {:induction false} FillSucceedsIff(net: Network, evs: seq<Event>, i: nat, ctx: Context)
    requires Initial(net) && DeliversTo(Run(net, evs), i, ctx)
    requires Run(net, evs).flight[i].transfer.swapIn > 0
    ensures var now := Run(net, evs);
            var m, s := now.flight[i], now.ledgers[ctx.chain];
            var ok := Execute(s, ctx, DeliveredAction(m, true)).result.Ok?;
            && (ok <==> NativeFits(s, ctx, m.transfer) && CanFill(s, ctx, m.source, m.transfer))
            && (AssetIn(m.source, m.transfer) != Native && m.transfer.assetOut != Native ==>
                  (ok <==> CanPay(s, ctx, m.source, m.transfer)))
  {
    RunKeepsInvariant(net, evs);
    FillNow(Run(net, evs), i, ctx);
  }

  lemma FillNow(net: Network, i: nat, ctx: Context)
    requires Invariant(net) && DeliversTo(net, i, ctx) && net.flight[i].transfer.swapIn > 0
    ensures var m, s := net.flight[i], net.ledgers[ctx.chain];
            var ok := Execute(s, ctx, DeliveredAction(m, true)).result.Ok?;
            && (ok <==> NativeFits(s, ctx, m.transfer) && CanFill(s, ctx, m.source, m.transfer))
            && (AssetIn(m.source, m.transfer) != Native && m.transfer.assetOut != Native ==>
                  (ok <==> CanPay(s, ctx, m.source, m.transfer)))
  {
    hide Invariant, SettlePlan, Fits, CanFill, CanPay, Execute;
    var m := net.flight[i];
    InFlightIsHonest(net, i);
    MessagesSettle(net, i, ctx);
    FilledImportIff(net.ledgers[ctx.chain], ctx, m.source, m.transfer);
    if AssetIn(m.source, m.transfer) != Native && m.transfer.assetOut != Native && NativeFits(net.ledgers[ctx.chain], ctx, m.transfer) {
      CanFillIff(net, i, ctx);
    }
  }

  /** A filled import between two distinct parties over two distinct assets, in every balance. */
  lemma FilledImportBalances(s: Store, ctx: Context, source: ChainId, t: WarpTransfer)
    requires t.to != ctx.actor && AssetIn(source, t) != t.assetOut && t.swapIn > 0
    requires Execute(s, ctx, ImportAsset(true, source, t)).result.Ok?
    ensures var v := Execute(s, ctx, ImportAsset(true, source, t)).store;
            var i := AssetIn(source, t);
            && GetBalance(v, t.to, i) == GetBalance(s, t.to, i) + t.value - t.swapIn
            && GetBalance(v, t.to, t.assetOut) == GetBalance(s, t.to, t.assetOut) + t.swapOut
            && GetBalance(v, ctx.actor, i) == GetBalance(s, ctx.actor, i) + t.reward + t.swapIn
            && GetBalance(v, ctx.actor, t.assetOut) == GetBalance(s, ctx.actor, t.assetOut) - t.swapOut
            && (forall x: Address, a: AssetId ::
                  !(x in {t.to, ctx.actor} && a in {i, t.assetOut}) ==> GetBalance(v, x, a) == GetBalance(s, x, a))
  {
    var act := ImportAsset(true, source, t);
    var v := Execute(s, ctx, act).store;
    var i := AssetIn(source, t);
    forall x: Address, a: AssetId
      ensures GetBalance(v, x, a) == GetBalance(s, x, a) + BalanceDelta(ctx, act, x, a)
    {
      BalanceEffects(s, ctx, act, x, a);
    }
  }
}
