/** A transfer from one chain to another, from the request to the balances on the other side. */
module EndToEnd {
  import opened Types
  import opened Ledger
  import opened Actions
  import opened Effects
  import opened Conservation
  import opened Network

  /** A successful export sends exactly this: the request, with symbol and decimals of the exported asset; a returned
      asset goes by the name it has at home. */
  lemma SentPayload(s: Store, ctx: Context, act: Action)
    requires act.ExportAsset? && RecordsShaped(s) && Execute(s, ctx, act).result.Ok?
    ensures var rec := GetAsset(s, act.asset);
            && rec.Some? && (act.isReturn ==> act.asset.Imported? && act.asset.chain == act.destination)
            && Execute(s, ctx, act).result.value == Receipt(NoOutput, Some(WarpTransfer(
                 act.to, rec.value.symbol, rec.value.decimals, if act.isReturn then act.asset.origin else act.asset,
                 act.value, act.isReturn, act.reward, act.swapIn, act.assetOut, act.swapOut, act.swapExpiry,
                 ctx.tx, act.destination)))
  {
    AppliedFinishes(s, Plan(s, ctx, act));
    assert GetAsset(s, act.asset).Some? ==> Shaped(act.asset, GetAsset(s, act.asset).value);
  }

  /** The asset that arrives on the other side. */
  function Arriving(from: ChainId, act: Action): AssetId
    requires act.ExportAsset?
  {
    if act.isReturn then (if act.asset.Imported? then act.asset.origin else act.asset) else Imported(act.asset, from)
  }

  /** What account `x` gains of asset `a` on the other side: the value for the recipient, the reward for whoever delivers,
      and, if the swap is filled, an exchange between the two of the amounts and assets that the exporter named. */
  function Gain(act: Action, from: ChainId, deliverer: Address, fill: bool, x: Address, a: AssetId): int
    requires act.ExportAsset?
  {
    var arrives, swapped := Arriving(from, act) == a, fill && act.swapIn > 0;
    If(x == act.to && arrives, act.value) + If(x == deliverer && arrives, act.reward)
    + (if swapped then
         If(x == deliverer && arrives, act.swapIn) - If(x == act.to && arrives, act.swapIn)
         + If(x == act.to && act.assetOut == a, act.swapOut) - If(x == deliverer && act.assetOut == a, act.swapOut)
       else 0)
  }

  /** Whatever is exported from one ledger and delivered to another, every balance on the other side moves by what the
      exporter asked for. */
  lemma Delivered(s: Store, ctx: Context, act: Action, r: Store, over: Context, fill: bool, x: Address, a: AssetId)
    requires act.ExportAsset? && RecordsShaped(s) && Execute(s, ctx, act).result.Ok?
    requires var m := Execute(s, ctx, act).result.value.message;
             m.Some? && Execute(r, over, ImportAsset(fill, ctx.chain, m.value)).result.Ok?
    ensures var m := Execute(s, ctx, act).result.value.message;
            && over.chain == act.destination
            && GetBalance(Execute(r, over, ImportAsset(fill, ctx.chain, m.value)).store, x, a)
               == GetBalance(r, x, a) + Gain(act, ctx.chain, over.actor, fill, x, a)
  {
    var m := Execute(s, ctx, act).result.value.message.value;
    SentPayload(s, ctx, act);
    BalanceEffects(r, over, ImportAsset(fill, ctx.chain, m), x, a);
    ImportChecks(r, over, ImportAsset(fill, ctx.chain, m));
  }

  lemma ImportChecks(s: Store, ctx: Context, act: Action)
    requires act.ImportAsset? && Execute(s, ctx, act).result.Ok?
    ensures ctx.warpVerified && act.transfer.destination == ctx.chain && act.transfer.value > 0
  {
  }

  /** In particular, without a filled swap and between two parties: the recipient gains exactly the value, the deliverer
      exactly the reward, in the asset that arrives. */
  lemma PlainDelivery(s: Store, ctx: Context, act: Action, r: Store, over: Context, fill: bool)
    requires act.ExportAsset? && RecordsShaped(s) && Execute(s, ctx, act).result.Ok?
    requires over.actor != act.to && (act.swapIn == 0 || !fill)
    requires var m := Execute(s, ctx, act).result.value.message;
             m.Some? && Execute(r, over, ImportAsset(fill, ctx.chain, m.value)).result.Ok?
    ensures var t := Execute(r, over, ImportAsset(fill, ctx.chain, Execute(s, ctx, act).result.value.message.value)).store;
            var i := Arriving(ctx.chain, act);
            && GetBalance(t, act.to, i) == GetBalance(r, act.to, i) + act.value
            && GetBalance(t, over.actor, i) == GetBalance(r, over.actor, i) + act.reward
  {
    Delivered(s, ctx, act, r, over, fill, act.to, Arriving(ctx.chain, act));
    Delivered(s, ctx, act, r, over, fill, over.actor, Arriving(ctx.chain, act));
  }

  /** At any point of any run of the network, an accepted export puts exactly that payload in flight. */
  lemma {:induction false} ExportIsInFlight(net: Network, evs: seq<Event>, chain: ChainId, ctx: Context, act: Action)
    requires Initial(net) && act.ExportAsset?
    requires var now := Run(net, evs); Admissible(now, chain, ctx, act) && Execute(now.ledgers[chain], ctx, act).result.Ok?
    ensures var now := Run(net, evs);
            var rec := GetAsset(now.ledgers[chain], act.asset);
            && rec.Some?
            && Step(now, Submit(chain, ctx, act)).flight == now.flight + [Message(chain, WarpTransfer(
                 act.to, rec.value.symbol, rec.value.decimals,
                 if act.isReturn && act.asset.Imported? then act.asset.origin else act.asset,
                 act.value, act.isReturn, act.reward, act.swapIn, act.assetOut, act.swapOut, act.swapExpiry,
                 ctx.tx, act.destination))]
  {
    hide Run, Execute;
    RunKeepsInvariant(net, evs);
    assert Sound(Run(net, evs).ledgers[chain]);
    SentPayload(Run(net, evs).ledgers[chain], ctx, act);
  }
}
