/** The key-value state of one chain, the storage operations on it as functions, and the
    lists of operations that actions are made of. */
module Ledger {
  import opened Types
  import opened Sums

  datatype Metadata =
    | Text(text: Bytes)                              // free text of a created asset
    | Origin(asset: AssetId, chain: ChainId)         // origin asset and origin chain of an imported one

  datatype Asset = Asset(
    symbol: Bytes, decimals: uint8, metadata: Metadata, supply: uint64, owner: Address, warp: bool)

  datatype ValidatorStake = ValidatorStake(
    start: uint64, end: uint64, staked: uint64, feeRate: uint64, rewardAddress: Address, owner: Address)

  datatype Delegation = Delegation(
    start: uint64, end: uint64, staked: uint64, rewardAddress: Address, owner: Address)

  datatype Key =
    | BalanceKey(addr: Address, asset: AssetId)
    | AssetKey(asset: AssetId)
    | LoanKey(asset: AssetId, chain: ChainId)
    | ValidatorKey(node: NodeId)
    | DelegationKey(addr: Address, node: NodeId)

  datatype Value =
    | Amount(n: uint64)
    | AssetRecord(asset: Asset)
    | ValidatorRecord(stake: ValidatorStake)
    | DelegationRecord(delegation: Delegation)

  type Store = map<Key, Value>

  datatype Error =
    | ValueZero | MemoTooLarge | StakeMissing | Unauthorized | AssetMissing
    | SymbolEmpty | SymbolTooLarge | DecimalsTooLarge | MetadataEmpty | MetadataTooLarge
    | NotWarpAsset | WrongDestination | WarpAsset | Anycast
    | ConflictingAsset | SymbolIncorrect | DecimalsIncorrect | WarpVerificationFailed
    | InvalidDestination | MustFill | AssetIsNative | WrongOwner
    | ValidatorStakedAmountInvalid | InvalidStakeStartBlock | InvalidStakeEndBlock
    | InvalidStakeDuration | InvalidDelegationFeeRate | ValidatorAlreadyRegistered
    | StakeNotStarted | StakeNotEnded
    | DelegateStakedAmountInvalid | UserAlreadyStaked | ValidatorNotYetRegistered
    | Overflow | Underflow | BadMetadata
    | CannotAddBalance(addr: Address, asset: AssetId, balance: uint64, amount: uint64)
    | CannotSubBalance(addr: Address, asset: AssetId, balance: uint64, amount: uint64)
    | CannotAddLoan(asset: AssetId, chain: ChainId, amount: uint64)
    | CannotSubLoan(asset: AssetId, chain: ChainId, amount: uint64)
    | InvalidBalance
    | EmissionFailure(code: nat)
    | DifferentSigner
    | Unreadable(code: nat)

  function GetBalance(s: Store, addr: Address, asset: AssetId): uint64 {
    var k := BalanceKey(addr, asset);
    if k in s && s[k].Amount? then s[k].n else 0
  }

  function GetLoan(s: Store, asset: AssetId, chain: ChainId): uint64 {
    var k := LoanKey(asset, chain);
    if k in s && s[k].Amount? then s[k].n else 0
  }

  function GetAsset(s: Store, asset: AssetId): Option<Asset> {
    var k := AssetKey(asset);
    if k in s && s[k].AssetRecord? then Some(s[k].asset) else None
  }

  function GetValidator(s: Store, node: NodeId): Option<ValidatorStake> {
    var k := ValidatorKey(node);
    if k in s && s[k].ValidatorRecord? then Some(s[k].stake) else None
  }

  function GetDelegation(s: Store, addr: Address, node: NodeId): Option<Delegation> {
    var k := DelegationKey(addr, node);
    if k in s && s[k].DelegationRecord? then Some(s[k].delegation) else None
  }

  /** Recorded supply, zero when the asset has no record. */
  function Supply(s: Store, asset: AssetId): uint64 {
    match GetAsset(s, asset)
    case Some(a) => a.supply
    case None => 0
  }

  /** Set the amount under `k`, deleting the record when nothing is left. */
  function SetOrRemove(s: Store, k: Key, n: uint64): Store {
    if n == 0 then s - {k} else s[k := Amount(n)]
  }

  function AddBalance(s: Store, addr: Address, asset: AssetId, amount: uint64, create: bool): Result<Store, Error> {
    var k := BalanceKey(addr, asset);
    var bal := GetBalance(s, addr, asset);
    if k !in s && !create then Ok(s)
    else if bal + amount > MAX_UINT64 then Err(CannotAddBalance(addr, asset, bal, amount))
    else Ok(s[k := Amount(bal + amount)])
  }

  function SubBalance(s: Store, addr: Address, asset: AssetId, amount: uint64): Result<Store, Error> {
    var bal := GetBalance(s, addr, asset);
    if amount > bal then Err(CannotSubBalance(addr, asset, bal, amount))
    else Ok(SetOrRemove(s, BalanceKey(addr, asset), bal - amount))
  }

  function AddLoan(s: Store, asset: AssetId, chain: ChainId, amount: uint64): Result<Store, Error> {
    var loan := GetLoan(s, asset, chain);
    if loan + amount > MAX_UINT64 then Err(CannotAddLoan(asset, chain, amount))
    else Ok(s[LoanKey(asset, chain) := Amount(loan + amount)])
  }

  function SubLoan(s: Store, asset: AssetId, chain: ChainId, amount: uint64): Result<Store, Error> {
    var loan := GetLoan(s, asset, chain);
    if amount > loan then Err(CannotSubLoan(asset, chain, amount))
    else Ok(SetOrRemove(s, LoanKey(asset, chain), loan - amount))
  }

  /** One storage operation of an action. */
  datatype Op =
    | Credit(addr: Address, asset: AssetId, amount: uint64)
    | Debit(addr: Address, asset: AssetId, amount: uint64)
    | Lend(asset: AssetId, chain: ChainId, amount: uint64)
    | Redeem(asset: AssetId, chain: ChainId, amount: uint64)
    | PutAsset(asset: AssetId, rec: Asset)
    | DropAsset(asset: AssetId)
    | PutValidator(node: NodeId, stake: ValidatorStake)
    | DropValidator(node: NodeId)
    | PutDelegation(addr: Address, node: NodeId, delegation: Delegation)
    | DropDelegation(addr: Address, node: NodeId)
  {
    /** The only key the operation reads or writes. */
    function Key(): Key {
      match this
      case Credit(addr, asset, _) => BalanceKey(addr, asset)
      case Debit(addr, asset, _) => BalanceKey(addr, asset)
      case Lend(asset, chain, _) => LoanKey(asset, chain)
      case Redeem(asset, chain, _) => LoanKey(asset, chain)
      case PutAsset(asset, _) => AssetKey(asset)
      case DropAsset(asset) => AssetKey(asset)
      case PutValidator(node, _) => ValidatorKey(node)
      case DropValidator(node) => ValidatorKey(node)
      case PutDelegation(addr, node, _) => DelegationKey(addr, node)
      case DropDelegation(addr, node) => DelegationKey(addr, node)
    }
  }

  /** What an action does once its checks are made: operations in order, possibly ending in a refusal. */
  datatype Ops = Done | Abort(error: Error) | Do(op: Op, next: Ops)

  function ApplyOp(s: Store, op: Op): Result<Store, Error> {
    match op
    case Credit(addr, asset, amount) => AddBalance(s, addr, asset, amount, true)
    case Debit(addr, asset, amount) => SubBalance(s, addr, asset, amount)
    case Lend(asset, chain, amount) => AddLoan(s, asset, chain, amount)
    case Redeem(asset, chain, amount) => SubLoan(s, asset, chain, amount)
    case PutAsset(asset, rec) => Ok(s[AssetKey(asset) := AssetRecord(rec)])
    case DropAsset(asset) => Ok(s - {AssetKey(asset)})
    case PutValidator(node, stake) => Ok(s[ValidatorKey(node) := ValidatorRecord(stake)])
    case DropValidator(node) => Ok(s - {ValidatorKey(node)})
    case PutDelegation(addr, node, d) => Ok(s[DelegationKey(addr, node) := DelegationRecord(d)])
    case DropDelegation(addr, node) => Ok(s - {DelegationKey(addr, node)})
  }

  function Apply(s: Store, ops: Ops): Result<Store, Error>
    decreases ops
  {
    match ops
    case Done => Ok(s)
    case Abort(e) => Err(e)
    case Do(op, next) =>
      match ApplyOp(s, op)
      case Ok(t) => Apply(t, next)
      case Err(e) => Err(e)
  }

  /** Two steps of `Apply` at once. */
  lemma ApplyTwo(s: Store, a: Op, b: Op, next: Ops)
    ensures ApplyOp(s, a).Err? ==> Apply(s, Do(a, Do(b, next))) == Err(ApplyOp(s, a).error)
    ensures ApplyOp(s, a).Ok? ==> Apply(s, Do(a, Do(b, next))) == ApplyTo(ApplyOp(ApplyOp(s, a).value, b), next)
  {
    if ApplyOp(s, a).Ok? {
      assert Apply(s, Do(a, Do(b, next))) == Apply(ApplyOp(s, a).value, Do(b, next));
    }
  }

  /** First `ops`, then `next` unless `ops` refuses. */
  function Then(ops: Ops, next: Ops): Ops {
    match ops
    case Done => next
    case Abort(e) => Abort(e)
    case Do(op, rest) => Do(op, Then(rest, next))
  }

  function ApplyTo(r: Result<Store, Error>, next: Ops): Result<Store, Error> {
    match r
    case Ok(u) => Apply(u, next)
    case Err(e) => Err(e)
  }

  lemma {:induction false} ApplyThen(s: Store, ops: Ops, next: Ops)
    ensures Apply(s, Then(ops, next)) == ApplyTo(Apply(s, ops), next)
    decreases ops
  {
    if ops.Do? {
      var r := ApplyOp(s, ops.op);
      if r.Ok? {
        ApplyThen(r.value, ops.next, next);
      }
    }
  }

  // ---------------------------------------------------------------------------------------------
  // Static accounting: what a list of operations adds to a quantity, read off the list alone.

  /** A quantity of the ledger that operations add to and take from. */
  datatype Meter =
    | BalanceOf(addr: Address, asset: AssetId)
    | LoanOf(asset: AssetId, chain: ChainId)
    | HoldingsOf(asset: AssetId)

  function OpFlow(op: Op, m: Meter): int {
    match m
    case BalanceOf(x, a) => (
      match op
      case Credit(addr, asset, n) => if addr == x && asset == a then n else 0
      case Debit(addr, asset, n) => if addr == x && asset == a then -(n as int) else 0
      case _ => 0
    )
    case LoanOf(a, c) => (
      match op
      case Lend(asset, chain, n) => if asset == a && chain == c then n else 0
      case Redeem(asset, chain, n) => if asset == a && chain == c then -(n as int) else 0
      case _ => 0
    )
    case HoldingsOf(a) => (
      match op
      case Credit(_, asset, n) => if asset == a then n else 0
      case Debit(_, asset, n) => if asset == a then -(n as int) else 0
      case Lend(asset, _, n) => if asset == a then n else 0
      case Redeem(asset, _, n) => if asset == a then -(n as int) else 0
      case _ => 0
    )
  }

  function Flow(ops: Ops, m: Meter): int {
    match ops
    case Do(op, next) => OpFlow(op, m) + Flow(next, m)
    case _ => 0
  }

  /** Four steps of `Flow` at once, for the longer plans. */
  lemma FlowUnfold(a: Op, b: Op, c: Op, d: Op, next: Ops, m: Meter)
    ensures Flow(Do(a, Do(b, Do(c, Do(d, next)))), m)
         == OpFlow(a, m) + OpFlow(b, m) + OpFlow(c, m) + OpFlow(d, m) + Flow(next, m)
  {
    assert Flow(Do(c, Do(d, next)), m) == OpFlow(c, m) + OpFlow(d, m) + Flow(next, m);
  }

  // ---------------------------------------------------------------------------------------------
  // Holdings: all units of an asset in the store, in accounts or out on loan.

  ghost function HoldingWeight(a: AssetId): (Key, Value) -> int {
    (k: Key, v: Value) =>
      if v.Amount? && ((k.BalanceKey? && k.asset == a) || (k.LoanKey? && k.asset == a)) then v.n else 0
  }

  ghost function Holdings(s: Store, a: AssetId): int {
    Sum(s, HoldingWeight(a))
  }

  /** An account and a loan, or two accounts, together hold at most all units of the asset. */
  lemma HoldingsAtLeast(s: Store, a: AssetId, j: Key, k: Key)
    requires j != k
    ensures At(s, j, HoldingWeight(a)) + At(s, k, HoldingWeight(a)) <= Holdings(s, a)
  {
    SumAtLeastTwo(s, j, k, HoldingWeight(a));
  }

  lemma BalanceAtMostHoldings(s: Store, addr: Address, a: AssetId)
    ensures GetBalance(s, addr, a) <= Holdings(s, a)
  {
    SumAtLeast(s, BalanceKey(addr, a), HoldingWeight(a));
  }

  /** An operation changes its own key and nothing else. */
  lemma OpFrame(s: Store, op: Op)
    ensures var r := ApplyOp(s, op); r.Ok? ==> r.value - {op.Key()} == s - {op.Key()}
  {
  }

  lemma HoldingsOp(s: Store, op: Op, a: AssetId)
    requires ApplyOp(s, op).Ok?
    ensures Holdings(ApplyOp(s, op).value, a) == Holdings(s, a) + OpFlow(op, HoldingsOf(a))
  {
    OpFrame(s, op);
    SumChange(s, ApplyOp(s, op).value, op.Key(), HoldingWeight(a));
  }

  /** The reading of a meter in a store. */
  ghost function Reading(s: Store, m: Meter): int {
    match m
    case BalanceOf(x, a) => GetBalance(s, x, a)
    case LoanOf(a, c) => GetLoan(s, a, c)
    case HoldingsOf(a) => Holdings(s, a)
  }

  lemma ReadingOp(s: Store, op: Op, m: Meter)
    requires ApplyOp(s, op).Ok?
    ensures Reading(ApplyOp(s, op).value, m) == Reading(s, m) + OpFlow(op, m)
  {
    if m.HoldingsOf? {
      HoldingsOp(s, op, m.asset);
    }
  }

  /** Every meter moves by exactly the static flow of the operations that were carried out. */
  lemma {:induction false} FlowIsExact(s: Store, ops: Ops, m: Meter)
    requires Apply(s, ops).Ok?
    ensures Reading(Apply(s, ops).value, m) == Reading(s, m) + Flow(ops, m)
    decreases ops
  {
    if ops.Do? {
      var t := ApplyOp(s, ops.op).value;
      ReadingOp(s, ops.op, m);
      FlowIsExact(t, ops.next, m);
    }
  }
}
