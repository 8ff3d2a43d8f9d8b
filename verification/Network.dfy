/** Several chains exchanging assets by warp messages, some of the senders dishonest. */
module Network {
  import opened Types
  import opened Sums
  import opened Ledger
  import opened Actions
  import opened Effects
  import opened Conservation

  datatype Message = Message(source: ChainId, transfer: WarpTransfer)

  /** An accepted transaction. */
  datatype Entry = Entry(chain: ChainId, ctx: Context, act: Action)

  /** The chains that run this program, the verified messages not yet honoured, the transactions
      accepted so far in order, and the transaction identifiers already seen. */
  datatype Network = Network(
    ledgers: map<ChainId, Store>, flight: seq<Message>, log: seq<Entry>, used: set<TxId>)

  datatype Event =
    | Submit(chain: ChainId, ctx: Context, act: Action)
    | Deliver(index: nat, chain: ChainId, ctx: Context, fill: bool)
    | Forge(message: Message)                    // a chain outside the network signs whatever it likes
    | ChargeFee(chain: ChainId, addr: Address, amount: uint64)
    | RefundFee(chain: ChainId, addr: Address, amount: uint64)

  function Sent(chain: ChainId, receipt: Receipt): seq<Message> {
    if receipt.message.Some? then [Message(chain, receipt.message.value)] else []
  }

  /** Run one transaction; `flight` is what remains in flight if it succeeds. */
  function Commit(net: Network, chain: ChainId, ctx: Context, act: Action, flight: seq<Message>): Network
    requires chain in net.ledgers
  {
    var o := Execute(net.ledgers[chain], ctx, act);
    match o.result
    case Err(_) => net.(used := net.used + {ctx.tx})
    case Ok(receipt) =>
      Network(net.ledgers[chain := o.store], flight + Sent(chain, receipt),
              net.log + [Entry(chain, ctx, act)], net.used + {ctx.tx})
  }

  /** A transaction with a new identifier, on a chain of the network, carrying an action that decodes. */
  predicate Admissible(net: Network, chain: ChainId, ctx: Context, act: Action) {
    chain in net.ledgers && ctx.chain == chain && ctx.tx !in net.used && WellFormed(act)
  }

  function DeliveredAction(m: Message, fill: bool): Action {
    ImportAsset(fill, m.source, m.transfer)
  }

  function Step(net: Network, ev: Event): Network {
    match ev
    case Submit(chain, ctx, act) =>
      if Admissible(net, chain, ctx, act) && !(act.ImportAsset? && ctx.warpVerified)
      then Commit(net, chain, ctx, act, net.flight) else net
    case Deliver(i, chain, ctx, fill) =>
      if i < |net.flight| && ctx.warpVerified && Admissible(net, chain, ctx, DeliveredAction(net.flight[i], fill))
      then Commit(net, chain, ctx, DeliveredAction(net.flight[i], fill), RemoveAt(net.flight, i)) else net
    case Forge(m) =>
      if m.source !in net.ledgers then net.(flight := net.flight + [m]) else net
    case ChargeFee(chain, addr, amount) =>
      if chain in net.ledgers
      then net.(ledgers := net.ledgers[chain := StoreOr(Deduct(net.ledgers[chain], addr, amount), net.ledgers[chain])])
      else net
    case RefundFee(chain, addr, amount) =>
      if chain in net.ledgers
      then net.(ledgers := net.ledgers[chain := StoreOr(Refund(net.ledgers[chain], addr, amount), net.ledgers[chain])])
      else net
  }

  function Run(net: Network, evs: seq<Event>): Network {
    if evs == [] then net else Step(Run(net, evs[..|evs| - 1]), evs[|evs| - 1])
  }

  // ---------------------------------------------------------------------------------------------
  // Quantities of a network

  /** Units of home asset `a` of chain `home` that message `m` carries to or back from chain `away`. */
  ghost function TransitWeight(home: ChainId, away: ChainId, a: AssetId): Message -> int {
    (m: Message) =>
      var t := m.transfer;
      if t.asset == a && (if t.isReturn then m.source == away && t.destination == home
                          else m.source == home && t.destination == away)
      then t.value + t.reward else 0
  }

  ghost function BurnWeight(chain: ChainId, a: AssetId): Entry -> int {
    (e: Entry) => if e.chain == chain && e.act.BurnAsset? && e.act.asset == a then e.act.value else 0
  }

  ghost function LentWeight(chain: ChainId, a: AssetId, to: ChainId): Entry -> int {
    (e: Entry) =>
      if e.chain == chain && e.act.ExportAsset? && !e.act.isReturn && e.act.asset == a && e.act.destination == to
      then e.act.value + e.act.reward else 0
  }

  ghost function RedeemedWeight(chain: ChainId, a: AssetId, from: ChainId): Entry -> int {
    (e: Entry) =>
      if e.chain == chain && e.act.ImportAsset? && e.act.transfer.isReturn && e.act.transfer.asset == a && e.act.source == from
      then e.act.transfer.value + e.act.transfer.reward else 0
  }

  ghost function InTransit(net: Network, home: ChainId, away: ChainId, a: AssetId): int {
    SeqSum(net.flight, TransitWeight(home, away, a))
  }

  ghost function Burned(net: Network, chain: ChainId, a: AssetId): int {
    SeqSum(net.log, BurnWeight(chain, a))
  }

  ghost function Lent(net: Network, chain: ChainId, a: AssetId, to: ChainId): int {
    SeqSum(net.log, LentWeight(chain, a, to))
  }

  ghost function Redeemed(net: Network, chain: ChainId, a: AssetId, from: ChainId): int {
    SeqSum(net.log, RedeemedWeight(chain, a, from))
  }

  // ---------------------------------------------------------------------------------------------
  // Invariant

  /** The loan of `a` from `home` to `away` is what is under way between them, plus what circulates
      wrapped on `away`, plus what was burned there. */
  ghost predicate LoanLaw(net: Network, home: ChainId, away: ChainId, a: AssetId)
    requires home in net.ledgers && away in net.ledgers
  {
    GetLoan(net.ledgers[home], a, away)
    == InTransit(net, home, away, a) + Supply(net.ledgers[away], Imported(a, home)) + Burned(net, away, Imported(a, home))
  }

  /** The loan to any chain, honest or not, is what was lent to it minus what it brought back. */
  ghost predicate LoanHistory(net: Network, chain: ChainId, a: AssetId, other: ChainId)
    requires chain in net.ledgers
  {
    GetLoan(net.ledgers[chain], a, other) == Lent(net, chain, a, other) - Redeemed(net, chain, a, other)
  }

  predicate Ticker(s: Store, a: AssetId, symbol: Bytes, decimals: uint8) {
    var r := GetAsset(s, a);
    r.Some? && r.value.symbol == symbol && r.value.decimals == decimals
  }

  /** A message of an honest sender still decodes and still matches the record at the asset's home. */
  predicate HonestMessage(net: Network, m: Message) {
    var t := m.transfer;
    m.source in net.ledgers ==>
      && WellFormedTransfer(t)
      && (!t.isReturn ==> !t.asset.Imported? && Ticker(net.ledgers[m.source], t.asset, t.symbol, t.decimals))
      && (t.isReturn && t.destination in net.ledgers ==>
            !t.asset.Imported? && Ticker(net.ledgers[t.destination], t.asset, t.symbol, t.decimals))
  }

  /** A wrapped asset carries the symbol and decimals of its origin. */
  predicate WrappedAgrees(net: Network, home: ChainId, away: ChainId, a: AssetId)
    requires home in net.ledgers && away in net.ledgers
  {
    var r := GetAsset(net.ledgers[away], Imported(a, home));
    r.Some? ==> !a.Imported? && Ticker(net.ledgers[home], a, r.value.symbol, r.value.decimals)
  }

  ghost predicate LedgersSound(net: Network) {
    && EMPTY_CHAIN !in net.ledgers
    && forall c | c in net.ledgers :: Sound(net.ledgers[c])
  }

  ghost predicate IdsUsed(net: Network) {
    forall c, tx | c in net.ledgers :: GetAsset(net.ledgers[c], Created(tx)).Some? ==> tx in net.used
  }

  ghost predicate Labelled(net: Network) {
    && (forall m | m in net.flight :: HonestMessage(net, m))
    && (forall home, away, a: AssetId | home in net.ledgers && away in net.ledgers :: WrappedAgrees(net, home, away, a))
  }

  ghost predicate Accounted(net: Network) {
    && (forall home, away, a: AssetId | home in net.ledgers && away in net.ledgers :: LoanLaw(net, home, away, a))
    && (forall c, other, a: AssetId | c in net.ledgers :: LoanHistory(net, c, a, other))
  }

  ghost predicate Invariant(net: Network) {
    LedgersSound(net) && IdsUsed(net) && Labelled(net) && Accounted(net)
  }

  // ---------------------------------------------------------------------------------------------
  // A committed transaction keeps the invariant

  /** What `Commit` may assume: a new identifier, and that a verified import takes its own message
      out of flight while anything else leaves the flight alone. */
  ghost predicate CommitsFrom(net: Network, chain: ChainId, ctx: Context, act: Action, flight: seq<Message>) {
    && Admissible(net, chain, ctx, act)
    && Execute(net.ledgers[chain], ctx, act).result.Ok?
    && (act.ImportAsset? ==>
          exists i: nat :: i < |net.flight| && net.flight[i] == Message(act.source, act.transfer)
                           && flight == RemoveAt(net.flight, i))
    && (!act.ImportAsset? ==> flight == net.flight)
  }

  lemma CommitKeepsSound(net: Network, chain: ChainId, ctx: Context, act: Action, flight: seq<Message>)
    requires LedgersSound(net) && IdsUsed(net) && CommitsFrom(net, chain, ctx, act, flight)
    ensures LedgersSound(Commit(net, chain, ctx, act, flight))
    ensures IdsUsed(Commit(net, chain, ctx, act, flight))
  {
    var s := net.ledgers[chain];
    var after := Commit(net, chain, ctx, act, flight);
    ExecuteKeepsSound(s, ctx, act);
    forall c, tx | c in after.ledgers && GetAsset(after.ledgers[c], Created(tx)).Some?
      ensures tx in after.used
    {
      if c == chain {
        RecordEffects(s, ctx, act, Created(tx));
      }
    }
  }

  /** The message that a successful export sends, field by field. */
  lemma ExportedMessage(net: Network, chain: ChainId, ctx: Context, act: Action, flight: seq<Message>)
    requires LedgersSound(net) && CommitsFrom(net, chain, ctx, act, flight) && act.ExportAsset?
    ensures var s := net.ledgers[chain];
            var m := ExportMessage(s, ctx, act);
            && m.Some? && Commit(net, chain, ctx, act, flight).flight == net.flight + [Message(chain, m.value)]
            && GetAsset(s, act.asset).Some?
            && Ticker(s, act.asset, m.value.symbol, m.value.decimals)
            && WellFormedTransfer(m.value)
            && (act.isReturn ==> act.asset == Imported(m.value.asset, m.value.destination))
            && (!act.isReturn ==> act.asset == m.value.asset && !act.asset.Imported?)
  {
    var s := net.ledgers[chain];
    AppliedFinishes(s, Plan(s, ctx, act));
    assert Shaped(act.asset, GetAsset(s, act.asset).value);
  }

  /** Nothing but an export sends a message. */
  lemma OtherwiseSilent(net: Network, chain: ChainId, ctx: Context, act: Action, flight: seq<Message>)
    requires CommitsFrom(net, chain, ctx, act, flight) && !act.ExportAsset?
    ensures Commit(net, chain, ctx, act, flight).flight == flight
  {
  }

  lemma TickerKept(net: Network, chain: ChainId, ctx: Context, act: Action, flight: seq<Message>,
                   c: ChainId, a: AssetId, symbol: Bytes, decimals: uint8)
    requires LedgersSound(net) && IdsUsed(net) && CommitsFrom(net, chain, ctx, act, flight)
    requires c in net.ledgers && !a.Imported? && Ticker(net.ledgers[c], a, symbol, decimals)
    ensures Ticker(Commit(net, chain, ctx, act, flight).ledgers[c], a, symbol, decimals)
  {
    if c == chain {
      HomeRecordKept(net.ledgers[chain], ctx, act, a);
    }
  }

  lemma CommitKeepsMessages(net: Network, chain: ChainId, ctx: Context, act: Action, flight: seq<Message>, m: Message)
    requires LedgersSound(net) && IdsUsed(net) && Labelled(net) && CommitsFrom(net, chain, ctx, act, flight)
    requires m in Commit(net, chain, ctx, act, flight).flight
    ensures HonestMessage(Commit(net, chain, ctx, act, flight), m)
  {
    var s, t := net.ledgers[chain], m.transfer;
    if act.ExportAsset? {
      ExportedMessage(net, chain, ctx, act, flight);
    } else {
      OtherwiseSilent(net, chain, ctx, act, flight);
    }
    if m.source in net.ledgers {
      if m !in net.flight && t.isReturn && t.destination in net.ledgers {
        assert WrappedAgrees(net, t.destination, chain, t.asset);
      }
      assert HonestMessage(net, m);
      if !t.isReturn {
        TickerKept(net, chain, ctx, act, flight, m.source, t.asset, t.symbol, t.decimals);
      } else if t.destination in net.ledgers {
        TickerKept(net, chain, ctx, act, flight, t.destination, t.asset, t.symbol, t.decimals);
      }
    }
  }

  lemma CommitKeepsWrapped(net: Network, chain: ChainId, ctx: Context, act: Action, flight: seq<Message>,
                           home: ChainId, away: ChainId, a: AssetId)
    requires LedgersSound(net) && IdsUsed(net) && Labelled(net) && CommitsFrom(net, chain, ctx, act, flight)
    requires home in net.ledgers && away in net.ledgers
    ensures WrappedAgrees(Commit(net, chain, ctx, act, flight), home, away, a)
  {
    var s, after := net.ledgers[chain], Commit(net, chain, ctx, act, flight);
    var r := GetAsset(after.ledgers[away], Imported(a, home));
    if r.Some? {
      assert WrappedAgrees(net, home, away, a);
      RecordEffects(s, ctx, act, Imported(a, home));
      if away == chain && GetAsset(s, Imported(a, home)).None? {
        assert act.ImportAsset? && HonestMessage(net, Message(act.source, act.transfer));
      }
      TickerKept(net, chain, ctx, act, flight, home, a, r.value.symbol, r.value.decimals);
    }
  }

  /** Units of home asset `a` that an action puts under way between `home` and `away`. */
  function Departing(chain: ChainId, act: Action, home: ChainId, away: ChainId, a: AssetId): int {
    if !act.ExportAsset? then 0
    else if act.isReturn then
      If(chain == away && act.destination == home && act.asset == Imported(a, home), act.value + act.reward)
    else
      If(chain == home && act.destination == away && act.asset == a, act.value + act.reward)
  }

  /** Units of home asset `a` that an action takes in. */
  function Arriving(chain: ChainId, act: Action, home: ChainId, away: ChainId, a: AssetId): int {
    if !act.ImportAsset? then 0
    else if act.transfer.isReturn then
      If(chain == home && act.source == away && act.transfer.asset == a, act.transfer.value + act.transfer.reward)
    else
      If(chain == away && act.source == home && act.transfer.asset == a, act.transfer.value + act.transfer.reward)
  }

  /** Units that an exported message carries. */
  lemma DepartingIs(net: Network, chain: ChainId, ctx: Context, act: Action, flight: seq<Message>,
                    home: ChainId, away: ChainId, a: AssetId)
    requires LedgersSound(net) && CommitsFrom(net, chain, ctx, act, flight) && act.ExportAsset?
    ensures var m := ExportMessage(net.ledgers[chain], ctx, act);
            && m.Some?
            && TransitWeight(home, away, a)(Message(chain, m.value)) == Departing(chain, act, home, away, a)
  {
    hide LedgersSound, CommitsFrom, Ticker, WellFormedTransfer;
    ExportedMessage(net, chain, ctx, act, flight);
  }

  /** How a committed transaction moves what is in transit. */
  lemma TransitMoves(net: Network, chain: ChainId, ctx: Context, act: Action, flight: seq<Message>,
                     home: ChainId, away: ChainId, a: AssetId)
    requires LedgersSound(net) && CommitsFrom(net, chain, ctx, act, flight)
    ensures InTransit(Commit(net, chain, ctx, act, flight), home, away, a)
         == InTransit(net, home, away, a) + Departing(chain, act, home, away, a) - Arriving(chain, act, home, away, a)
  {
    hide LedgersSound, SeqSum, Commit, Execute, ExportMessage, Ticker, WellFormedTransfer;
    var w := TransitWeight(home, away, a);
    if act.ExportAsset? {
      ExportedMessage(net, chain, ctx, act, flight);
      DepartingIs(net, chain, ctx, act, flight, home, away, a);
      SeqSumSnoc(net.flight, Message(chain, ExportMessage(net.ledgers[chain], ctx, act).value), w);
    } else {
      OtherwiseSilent(net, chain, ctx, act, flight);
      if act.ImportAsset? {
        var i: nat :| i < |net.flight| && net.flight[i] == Message(act.source, act.transfer)
                      && flight == RemoveAt(net.flight, i);
        SeqSumRemoveAt(net.flight, i, w);
        ArrivesHere(net, chain, ctx, act, flight);
      }
    }
  }

  lemma ArrivesHere(net: Network, chain: ChainId, ctx: Context, act: Action, flight: seq<Message>)
    requires CommitsFrom(net, chain, ctx, act, flight) && act.ImportAsset?
    ensures act.transfer.destination == chain
  {
  }

  /** How it moves what is burned. */
  lemma BurnsMove(net: Network, chain: ChainId, ctx: Context, act: Action, flight: seq<Message>,
                  away: ChainId, a: AssetId)
    requires chain in net.ledgers && Execute(net.ledgers[chain], ctx, act).result.Ok?
    ensures Burned(Commit(net, chain, ctx, act, flight), away, a)
         == Burned(net, away, a) + (if act.BurnAsset? then If(chain == away && act.asset == a, act.value) else 0)
  {
    hide Execute, SeqSum;
    SeqSumSnoc(net.log, Entry(chain, ctx, act), BurnWeight(away, a));
  }

  /** The wrapped supply on `chain` moves by what arrives, departs and burns. */
  lemma WrappedSupplyMoves(net: Network, chain: ChainId, ctx: Context, act: Action, flight: seq<Message>,
                           home: ChainId, a: AssetId)
    requires LedgersSound(net) && CommitsFrom(net, chain, ctx, act, flight)
    ensures var s := net.ledgers[chain];
            Supply(Execute(s, ctx, act).store, Imported(a, home)) == Supply(s, Imported(a, home))
            + If(act.ImportAsset? && !act.transfer.isReturn, Arriving(chain, act, home, chain, a))
            - If(act.ExportAsset? && act.isReturn, Departing(chain, act, home, chain, a))
            - (if act.BurnAsset? then If(act.asset == Imported(a, home), act.value) else 0)
  {
    var s, w := net.ledgers[chain], Imported(a, home);
    SupplyEffects(s, ctx, act, w);
    AppliedFinishes(s, Plan(s, ctx, act));
    assert GetAsset(s, w).Some? ==> Shaped(w, GetAsset(s, w).value);
    if act.ExportAsset? {
      ExportedMessage(net, chain, ctx, act, flight);
    }
  }

  /** The loan on `chain` moves by what departs and comes back. */
  lemma LoanMoves(net: Network, chain: ChainId, ctx: Context, act: Action, flight: seq<Message>,
                  away: ChainId, a: AssetId)
    requires LedgersSound(net) && CommitsFrom(net, chain, ctx, act, flight)
    ensures var s := net.ledgers[chain];
            GetLoan(Execute(s, ctx, act).store, a, away) == GetLoan(s, a, away)
            + If(act.ExportAsset? && !act.isReturn, Departing(chain, act, chain, away, a))
            - If(act.ImportAsset? && act.transfer.isReturn, Arriving(chain, act, chain, away, a))
  {
    LoanEffects(net.ledgers[chain], ctx, act, a, away);
  }

  lemma CommitKeepsLaw(net: Network, chain: ChainId, ctx: Context, act: Action, flight: seq<Message>,
                       home: ChainId, away: ChainId, a: AssetId)
    requires LedgersSound(net) && IdsUsed(net) && CommitsFrom(net, chain, ctx, act, flight)
    requires home in net.ledgers && away in net.ledgers && LoanLaw(net, home, away, a)
    ensures LoanLaw(Commit(net, chain, ctx, act, flight), home, away, a)
  {
    TransitMoves(net, chain, ctx, act, flight, home, away, a);
    BurnsMove(net, chain, ctx, act, flight, away, Imported(a, home));
    if home == chain {
      LoanMoves(net, chain, ctx, act, flight, away, a);
    }
    if away == chain {
      WrappedSupplyMoves(net, chain, ctx, act, flight, home, a);
    }
  }

  lemma CommitKeepsHistory(net: Network, chain: ChainId, ctx: Context, act: Action, flight: seq<Message>,
                           c: ChainId, a: AssetId, other: ChainId)
    requires CommitsFrom(net, chain, ctx, act, flight)
    requires c in net.ledgers && LoanHistory(net, c, a, other)
    ensures LoanHistory(Commit(net, chain, ctx, act, flight), c, a, other)
  {
    SeqSumSnoc(net.log, Entry(chain, ctx, act), LentWeight(c, a, other));
    SeqSumSnoc(net.log, Entry(chain, ctx, act), RedeemedWeight(c, a, other));
    if c == chain {
      LoanEffects(net.ledgers[chain], ctx, act, a, other);
    }
  }

  lemma CommitKeepsInvariant(net: Network, chain: ChainId, ctx: Context, act: Action, flight: seq<Message>)
    requires Invariant(net) && CommitsFrom(net, chain, ctx, act, flight)
    ensures Invariant(Commit(net, chain, ctx, act, flight))
  {
    var after := Commit(net, chain, ctx, act, flight);
    CommitKeepsSound(net, chain, ctx, act, flight);
    forall m | m in after.flight ensures HonestMessage(after, m) {
      CommitKeepsMessages(net, chain, ctx, act, flight, m);
    }
    forall home, away, a: AssetId | home in after.ledgers && away in after.ledgers
      ensures WrappedAgrees(after, home, away, a) && LoanLaw(after, home, away, a)
    {
      CommitKeepsWrapped(net, chain, ctx, act, flight, home, away, a);
      assert LoanLaw(net, home, away, a);
      CommitKeepsLaw(net, chain, ctx, act, flight, home, away, a);
    }
    forall c, other, a: AssetId | c in after.ledgers
      ensures LoanHistory(after, c, a, other)
    {
      assert LoanHistory(net, c, a, other);
      CommitKeepsHistory(net, chain, ctx, act, flight, c, a, other);
    }
  }

  /** Fees change one native balance of one chain, which none of the clauses look at. */
  lemma FeeKeepsInvariant(net: Network, chain: ChainId, addr: Address, t: Store)
    requires Invariant(net) && chain in net.ledgers
    requires t - {BalanceKey(addr, Native)} == net.ledgers[chain] - {BalanceKey(addr, Native)}
    ensures Invariant(net.(ledgers := net.ledgers[chain := t]))
  {
    FeesKeepSound(net.ledgers[chain], t, addr);
    var after := net.(ledgers := net.ledgers[chain := t]);
    forall m | m in after.flight ensures HonestMessage(after, m) {
      assert HonestMessage(net, m);
    }
    forall home, away, a: AssetId | home in after.ledgers && away in after.ledgers
      ensures WrappedAgrees(after, home, away, a) && LoanLaw(after, home, away, a)
    {
      assert WrappedAgrees(net, home, away, a) && LoanLaw(net, home, away, a);
    }
    forall c, other, a: AssetId | c in after.ledgers
      ensures LoanHistory(after, c, a, other)
    {
      assert LoanHistory(net, c, a, other);
    }
  }

  /** A forged message carries nothing between chains of the network. */
  lemma ForgeKeepsInvariant(net: Network, m: Message)
    requires Invariant(net) && m.source !in net.ledgers
    ensures Invariant(net.(flight := net.flight + [m]))
  {
    var after := net.(flight := net.flight + [m]);
    forall n | n in after.flight ensures HonestMessage(after, n) {
      assert n != m ==> HonestMessage(net, n);
    }
    forall home, away, a: AssetId | home in after.ledgers && away in after.ledgers
      ensures WrappedAgrees(after, home, away, a) && LoanLaw(after, home, away, a)
    {
      assert WrappedAgrees(net, home, away, a) && LoanLaw(net, home, away, a);
      SeqSumSnoc(net.flight, m, TransitWeight(home, away, a));
    }
    forall c, other, a: AssetId | c in after.ledgers
      ensures LoanHistory(after, c, a, other)
    {
      assert LoanHistory(net, c, a, other);
    }
  }

  /** Every event keeps the invariant. */
  lemma StepKeepsInvariant(net: Network, ev: Event)
    requires Invariant(net)
    ensures Invariant(Step(net, ev))
  {
    match ev
    case Submit(chain, ctx, act) =>
      if Admissible(net, chain, ctx, act) && !(act.ImportAsset? && ctx.warpVerified) {
        CommitOrSkip(net, chain, ctx, act, net.flight);
      }
    case Deliver(i, chain, ctx, fill) =>
      if i < |net.flight| && ctx.warpVerified && Admissible(net, chain, ctx, DeliveredAction(net.flight[i], fill)) {
        CommitOrSkip(net, chain, ctx, DeliveredAction(net.flight[i], fill), RemoveAt(net.flight, i));
      }
    case Forge(m) =>
      if m.source !in net.ledgers {
        ForgeKeepsInvariant(net, m);
      }
    case ChargeFee(chain, addr, amount) =>
      if chain in net.ledgers {
        var s := net.ledgers[chain];
        FeeKeepsInvariant(net, chain, addr, StoreOr(Deduct(s, addr, amount), s));
      }
    case RefundFee(chain, addr, amount) =>
      if chain in net.ledgers {
        var s := net.ledgers[chain];
        FeeKeepsInvariant(net, chain, addr, StoreOr(Refund(s, addr, amount), s));
      }
  }

  lemma CommitOrSkip(net: Network, chain: ChainId, ctx: Context, act: Action, flight: seq<Message>)
    requires Invariant(net) && Admissible(net, chain, ctx, act)
    requires Execute(net.ledgers[chain], ctx, act).result.Ok? ==> CommitsFrom(net, chain, ctx, act, flight)
    ensures Invariant(Commit(net, chain, ctx, act, flight))
  {
    if Execute(net.ledgers[chain], ctx, act).result.Ok? {
      CommitKeepsInvariant(net, chain, ctx, act, flight);
    } else {
      var after := Commit(net, chain, ctx, act, flight);
      forall m | m in after.flight ensures HonestMessage(after, m) {
        assert HonestMessage(net, m);
      }
      forall home, away, a: AssetId | home in after.ledgers && away in after.ledgers
        ensures WrappedAgrees(after, home, away, a) && LoanLaw(after, home, away, a)
      {
        assert WrappedAgrees(net, home, away, a) && LoanLaw(net, home, away, a);
      }
      forall c, other, a: AssetId | c in after.ledgers
        ensures LoanHistory(after, c, a, other)
      {
        assert LoanHistory(net, c, a, other);
      }
    }
  }

  // ---------------------------------------------------------------------------------------------
  // Runs

  /** A ledger just after genesis: native balances and the native record, nothing else. */
  predicate IsGenesis(s: Store) {
    && (forall k | k in s :: k == AssetKey(Native) || (k.BalanceKey? && k.asset == Native))
    && GetAsset(s, Native).Some? && Shaped(Native, GetAsset(s, Native).value)
  }

  ghost predicate Initial(net: Network) {
    && EMPTY_CHAIN !in net.ledgers
    && (forall c | c in net.ledgers :: IsGenesis(net.ledgers[c]))
    && net.flight == [] && net.log == [] && net.used == {}
  }

  lemma GenesisIsSound(s: Store)
    requires IsGenesis(s)
    ensures Sound(s)
    ensures forall a: AssetId, c: ChainId :: GetLoan(s, a, c) == 0
    ensures forall a: AssetId :: GetAsset(s, a).Some? ==> a == Native
  {
    forall a: AssetId | a != Native
      ensures Holdings(s, a) == Supply(s, a)
    {
      SumZero(s, HoldingWeight(a));
    }
  }

  lemma InitialInvariant(net: Network)
    requires Initial(net)
    ensures Invariant(net)
  {
    forall c | c in net.ledgers ensures Sound(net.ledgers[c]) {
      GenesisIsSound(net.ledgers[c]);
    }
    forall home, away, a: AssetId | home in net.ledgers && away in net.ledgers
      ensures WrappedAgrees(net, home, away, a) && LoanLaw(net, home, away, a)
    {
      GenesisIsSound(net.ledgers[home]);
      GenesisIsSound(net.ledgers[away]);
    }
    forall c, other, a: AssetId | c in net.ledgers ensures LoanHistory(net, c, a, other) {
      GenesisIsSound(net.ledgers[c]);
    }
    forall c, tx | c in net.ledgers ensures GetAsset(net.ledgers[c], Created(tx)).None? {
      GenesisIsSound(net.ledgers[c]);
    }
  }

  /** Chains neither join nor leave. */
  lemma StepKeepsChains(net: Network, ev: Event)
    ensures Step(net, ev).ledgers.Keys == net.ledgers.Keys
  {
  }

  lemma {:induction false} RunKeepsInvariant(net: Network, evs: seq<Event>)
    requires Initial(net)
    ensures Invariant(Run(net, evs)) && Run(net, evs).ledgers.Keys == net.ledgers.Keys
    decreases |evs|
  {
    if evs == [] {
      InitialInvariant(net);
    } else {
      var before, ev := Run(net, evs[..|evs| - 1]), evs[|evs| - 1];
      RunKeepsInvariant(net, evs[..|evs| - 1]);
      StepKeepsInvariant(before, ev);
      StepKeepsChains(before, ev);
      assert Run(net, evs) == Step(before, ev);
    }
  }
}
