/** The twelve actions: for a given ledger, what each one checks, which operations it then
    performs in which order, and what it hands back. */
module Actions {
  import opened Types
  import opened Ledger

  const MAX_MEMO_SIZE := 256
  const MAX_SYMBOL_SIZE := 8
  const MAX_METADATA_SIZE := 256
  const MAX_DECIMALS := 9

  const NAI: nat := 1_000_000_000
  const MIN_VALIDATOR_STAKE := 100 * NAI
  const MAX_VALIDATOR_STAKE := 100_000_000 * NAI
  const MIN_DELEGATOR_STAKE := 25 * NAI
  const MIN_DELEGATION_FEE := 2
  const MIN_STAKE_DURATION := 20
  const MAX_STAKE_DURATION := 20 * 60 * 24 * 364

  type int64 = x: int | -0x8000_0000_0000_0000 <= x < 0x8000_0000_0000_0000

  /** The payload of a cross-chain message. */
  datatype WarpTransfer = WarpTransfer(
    to: Address, symbol: Bytes, decimals: uint8, asset: AssetId, value: uint64, isReturn: bool,
    reward: uint64, swapIn: uint64, assetOut: AssetId, swapOut: uint64, swapExpiry: int64,
    tx: TxId, destination: ChainId)

  /** `none` is the empty identifier: a swap names an asset only if it takes something in. */
  predicate ValidSwapParams<Id(==)>(value: uint64, swapIn: uint64, assetOut: Id, none: Id, swapOut: uint64, swapExpiry: int64) {
    && swapExpiry >= 0
    && swapIn <= value
    && (if swapIn > 0 then swapOut != 0 else assetOut == none && swapOut == 0 && swapExpiry == 0)
  }

  /** A current validator, with the address of its key if that can be read. */
  datatype Listed = Listed(node: NodeId, key: Result<Address, Error>)

  /** What a registration brings: who signed it, the current validators in the order in which they are visited,
      and what is wrong with the signed record, if anything. */
  datatype Credentials = Credentials(signer: Result<Address, Error>, current: seq<Listed>, malformed: Option<Error>)

  datatype Action =
    | Transfer(to: Address, asset: AssetId, value: uint64, memo: Bytes)
    | CreateAsset(symbol: Bytes, decimals: uint8, metadata: Bytes)
    | MintAsset(to: Address, asset: AssetId, value: uint64)
    | BurnAsset(asset: AssetId, value: uint64)
    | ExportAsset(to: Address, asset: AssetId, value: uint64, isReturn: bool, reward: uint64, swapIn: uint64,
                  assetOut: AssetId, swapOut: uint64, swapExpiry: int64, destination: ChainId)
    | ImportAsset(fill: bool, source: ChainId, transfer: WarpTransfer)
    | RegisterValidatorStake(node: NodeId, start: uint64, end: uint64, staked: uint64, feeRate: uint64,
                             rewardAddress: Address, credentials: Credentials)
    | WithdrawValidatorStake(node: NodeId, rewardAddress: Address)
    | DelegateUserStake(node: NodeId, start: uint64, end: uint64, staked: uint64, rewardAddress: Address)
    | UndelegateUserStake(node: NodeId, rewardAddress: Address)
    | ClaimValidatorStakeRewards(node: NodeId)
    | ClaimDelegationStakeRewards(node: NodeId, user: Address)

  /** The transaction around an action. `emission` is the answer the emission balancer gives when asked. */
  datatype Context = Context(
    chain: ChainId, time: int64, actor: Address, tx: TxId, warpVerified: bool,
    height: uint64, emission: Result<uint64, Error>)

  datatype Output =
    | NoOutput
    | StakeReturned(staked: uint64, reward: uint64)
    | RewardClaimed(reward: uint64)

  datatype Receipt = Receipt(output: Output, message: Option<WarpTransfer>)

  predicate IsAssetAction(act: Action) {
    act.Transfer? || act.CreateAsset? || act.MintAsset? || act.BurnAsset? || act.ExportAsset? || act.ImportAsset?
  }

  /** A payload that the payload decoder accepts. */
  predicate WellFormedTransfer(t: WarpTransfer) {
    && 0 < |t.symbol| <= MAX_SYMBOL_SIZE
    && t.value != 0
    && t.destination != EMPTY_CHAIN
    && ValidSwapParams(t.value, t.swapIn, t.assetOut, Native, t.swapOut, t.swapExpiry)
  }

  /** An action that its decoder accepts, so that it can reach `Execute` at all. */
  predicate WellFormed(act: Action) {
    match act
    case Transfer(_, _, value, memo) => value != 0 && |memo| <= MAX_MEMO_SIZE
    case CreateAsset(symbol, _, metadata) =>
      0 < |symbol| <= MAX_SYMBOL_SIZE && 0 < |metadata| <= MAX_METADATA_SIZE
    case MintAsset(_, asset, value) => asset != Native && value != 0
    case BurnAsset(_, value) => value != 0
    case ExportAsset(_, _, value, _, _, swapIn, assetOut, swapOut, swapExpiry, destination) =>
      value != 0 && destination != EMPTY_CHAIN && ValidSwapParams(value, swapIn, assetOut, Native, swapOut, swapExpiry)
    case ImportAsset(fill, _, t) => WellFormedTransfer(t) && (fill ==> t.swapIn > 0)
    case RegisterValidatorStake(_, start, end, staked, feeRate, _, _) =>
      start != 0 && end != 0 && staked != 0 && feeRate != 0
    case DelegateUserStake(_, start, end, staked, _) => start != 0 && end != 0 && staked != 0
    case _ => true
  }

  // ---------------------------------------------------------------------------------------------
  // Plans

  function TransferPlan(ctx: Context, to: Address, asset: AssetId, value: uint64, memo: Bytes): Ops {
    if value == 0 then Abort(ValueZero)
    else if |memo| > MAX_MEMO_SIZE then Abort(MemoTooLarge)
    else Do(Debit(ctx.actor, asset, value), Do(Credit(to, asset, value), Done))
  }

  function CreatePlan(ctx: Context, symbol: Bytes, decimals: uint8, metadata: Bytes): Ops {
    if |symbol| == 0 then Abort(SymbolEmpty)
    else if |symbol| > MAX_SYMBOL_SIZE then Abort(SymbolTooLarge)
    else if decimals > MAX_DECIMALS then Abort(DecimalsTooLarge)
    else if |metadata| == 0 then Abort(MetadataEmpty)
    else if |metadata| > MAX_METADATA_SIZE then Abort(MetadataTooLarge)
    else Do(PutAsset(Created(ctx.tx), Asset(symbol, decimals, Text(metadata), 0, ctx.actor, false)), Done)
  }

  function MintPlan(s: Store, ctx: Context, to: Address, asset: AssetId, value: uint64): Ops {
    if asset == Native then Abort(AssetIsNative)
    else if value == 0 then Abort(ValueZero)
    else
      match GetAsset(s, asset)
      case None => Abort(AssetMissing)
      case Some(rec) =>
        if rec.warp then Abort(WarpAsset)
        else if rec.owner != ctx.actor then Abort(WrongOwner)
        else if rec.supply + value > MAX_UINT64 then Abort(Overflow)
        else Do(PutAsset(asset, rec.(supply := rec.supply + value)), Do(Credit(to, asset, value), Done))
  }

  function BurnPlan(s: Store, ctx: Context, asset: AssetId, value: uint64): Ops {
    if value == 0 then Abort(ValueZero)
    else
      Do(Debit(ctx.actor, asset, value),
         match GetAsset(s, asset)
         case None => Abort(AssetMissing)
         case Some(rec) =>
           if rec.supply < value then Abort(Underflow)
           else Do(PutAsset(asset, rec.(supply := rec.supply - value)), Done))
  }

  function DebitReward(ctx: Context, asset: AssetId, reward: uint64): Ops {
    if reward > 0 then Do(Debit(ctx.actor, asset, reward), Done) else Done
  }

  function ExportReturnPlan(s: Store, ctx: Context, asset: AssetId, value: uint64, reward: uint64, destination: ChainId): Ops {
    match GetAsset(s, asset)
    case None => Abort(AssetMissing)
    case Some(rec) =>
      if !rec.warp then Abort(NotWarpAsset)
      else if !rec.metadata.Origin? then Abort(BadMetadata)
      else if rec.metadata.chain != destination then Abort(WrongDestination)
      else if rec.supply < value then Abort(Underflow)
      else if rec.supply - value < reward then Abort(Underflow)
      else
        var left := rec.supply - value - reward;
        Do(if left > 0 then PutAsset(asset, rec.(supply := left, owner := EMPTY_ADDRESS)) else DropAsset(asset),
           Do(Debit(ctx.actor, asset, value), DebitReward(ctx, asset, reward)))
  }

  function LendReward(ctx: Context, asset: AssetId, reward: uint64, destination: ChainId): Ops {
    if reward > 0 then Do(Lend(asset, destination, reward), Do(Debit(ctx.actor, asset, reward), Done)) else Done
  }

  function ExportLoanPlan(s: Store, ctx: Context, asset: AssetId, value: uint64, reward: uint64, destination: ChainId): Ops {
    match GetAsset(s, asset)
    case None => Abort(AssetMissing)
    case Some(rec) =>
      if rec.warp then Abort(WarpAsset)
      else
        Do(Lend(asset, destination, value),
           Do(Debit(ctx.actor, asset, value), LendReward(ctx, asset, reward, destination)))
  }

  function ExportPlan(s: Store, ctx: Context, act: Action): Ops
    requires act.ExportAsset?
  {
    if act.value == 0 then Abort(ValueZero)
    else if act.destination == EMPTY_CHAIN then Abort(Anycast)
    else if act.isReturn then ExportReturnPlan(s, ctx, act.asset, act.value, act.reward, act.destination)
    else ExportLoanPlan(s, ctx, act.asset, act.value, act.reward, act.destination)
  }

  function CreditReward(actor: Address, asset: AssetId, reward: uint64): Ops {
    if reward > 0 then Do(Credit(actor, asset, reward), Done) else Done
  }

  /** Mint the wrapped asset, creating its record on first sight. */
  function ImportMintPlan(s: Store, ctx: Context, source: ChainId, t: WarpTransfer): Ops {
    var asset := Imported(t.asset, source);
    var found := GetAsset(s, asset);
    if found.Some? && !found.value.warp then Abort(ConflictingAsset)
    else
      var rec := if found.Some? then found.value
                 else Asset(t.symbol, t.decimals, Origin(t.asset, source), 0, EMPTY_ADDRESS, true);
      if rec.supply + t.value > MAX_UINT64 then Abort(Overflow)
      else if rec.supply + t.value + t.reward > MAX_UINT64 then Abort(Overflow)
      else
        Do(PutAsset(asset, rec.(supply := rec.supply + t.value + t.reward, owner := EMPTY_ADDRESS)),
           Do(Credit(t.to, asset, t.value), CreditReward(ctx.actor, asset, t.reward)))
  }

  function RedeemReward(actor: Address, source: ChainId, asset: AssetId, reward: uint64): Ops {
    if reward > 0 then Do(Redeem(asset, source, reward), Do(Credit(actor, asset, reward), Done)) else Done
  }

  /** Take units of a home asset back from the loan to the source chain. */
  function ImportReturnPlan(s: Store, ctx: Context, source: ChainId, t: WarpTransfer): Ops {
    match GetAsset(s, t.asset)
    case None => Abort(AssetMissing)
    case Some(rec) =>
      if t.symbol != rec.symbol then Abort(SymbolIncorrect)
      else if t.decimals != rec.decimals then Abort(DecimalsIncorrect)
      else if rec.warp then Abort(WarpAsset)
      else
        Do(Redeem(t.asset, source, t.value),
           Do(Credit(t.to, t.asset, t.value), RedeemReward(ctx.actor, source, t.asset, t.reward)))
  }

  /** The asset that an import credits on the importing chain. */
  function AssetIn(source: ChainId, t: WarpTransfer): AssetId {
    if t.isReturn then t.asset else Imported(t.asset, source)
  }

  function SwapPlan(ctx: Context, fill: bool, source: ChainId, t: WarpTransfer): Ops {
    if t.swapIn == 0 then Done
    else if !fill then (if t.swapExpiry > ctx.time then Abort(MustFill) else Done)
    else
      Do(Debit(t.to, AssetIn(source, t), t.swapIn),
         Do(Credit(ctx.actor, AssetIn(source, t), t.swapIn),
            Do(Debit(ctx.actor, t.assetOut, t.swapOut),
               Do(Credit(t.to, t.assetOut, t.swapOut), Done))))
  }

  /** The redeeming or minting half of an import. */
  function SettlePlan(s: Store, ctx: Context, source: ChainId, t: WarpTransfer): Ops {
    if t.isReturn then ImportReturnPlan(s, ctx, source, t)
    else ImportMintPlan(s, ctx, source, t)
  }

  function ImportPlan(s: Store, ctx: Context, fill: bool, source: ChainId, t: WarpTransfer): Ops {
    if !ctx.warpVerified then Abort(WarpVerificationFailed)
    else if t.destination != ctx.chain then Abort(InvalidDestination)
    else if t.value == 0 then Abort(ValueZero)
    else Then(SettlePlan(s, ctx, source, t), SwapPlan(ctx, fill, source, t))
  }

  /** Look for the actor's own key; an unreadable key before it stops the search. */
  function OwnerDenied(actor: Address, current: seq<Listed>): Option<Error> {
    if current == [] then Some(Unauthorized)
    else
      match current[0].key
      case Err(e) => Some(e)
      case Ok(a) => if a == actor then None else OwnerDenied(actor, current[1..])
  }

  function CredentialsDenied(actor: Address, c: Credentials): Option<Error> {
    match c.signer
    case Err(e) => Some(e)
    case Ok(a) =>
      if a != actor then Some(DifferentSigner)
      else
        match OwnerDenied(actor, c.current)
        case Some(e) => Some(e)
        case None => c.malformed
  }

  function RegisterPlan(s: Store, ctx: Context, act: Action): Ops
    requires act.RegisterValidatorStake?
  {
    var denied := CredentialsDenied(ctx.actor, act.credentials);
    if denied.Some? then Abort(denied.value)
    else if GetValidator(s, act.node).Some? then Abort(ValidatorAlreadyRegistered)
    else if act.staked < MIN_VALIDATOR_STAKE || act.staked > MAX_VALIDATOR_STAKE then Abort(ValidatorStakedAmountInvalid)
    else if act.start < ctx.height then Abort(InvalidStakeStartBlock)
    else if act.end < act.start then Abort(InvalidStakeEndBlock)
    else if act.end - act.start < MIN_STAKE_DURATION || act.end - act.start > MAX_STAKE_DURATION then Abort(InvalidStakeDuration)
    else if act.feeRate < MIN_DELEGATION_FEE || act.feeRate > 100 then Abort(InvalidDelegationFeeRate)
    else if ctx.emission.Err? then Abort(ctx.emission.error)
    else
      Do(Debit(ctx.actor, Native, act.staked),
         Do(PutValidator(act.node,
                         ValidatorStake(act.start, act.end, act.staked, act.feeRate, act.rewardAddress, ctx.actor)),
            Done))
  }

  function WithdrawPlan(s: Store, ctx: Context, node: NodeId, rewardAddress: Address): Ops {
    match GetValidator(s, node)
    case None => Abort(ValidatorAlreadyRegistered)
    case Some(stake) =>
      if stake.owner != ctx.actor then Abort(Unauthorized)
      else if ctx.height < stake.end then Abort(StakeNotStarted)
      else
        match ctx.emission
        case Err(e) => Abort(e)
        case Ok(reward) =>
          Do(Credit(rewardAddress, Native, reward),
             Do(DropValidator(node), Do(Credit(ctx.actor, Native, stake.staked), Done)))
  }

  function DelegatePlan(s: Store, ctx: Context, act: Action): Ops
    requires act.DelegateUserStake?
  {
    if GetValidator(s, act.node).None? then Abort(ValidatorNotYetRegistered)
    else if GetDelegation(s, ctx.actor, act.node).Some? then Abort(UserAlreadyStaked)
    else if act.staked < MIN_DELEGATOR_STAKE then Abort(DelegateStakedAmountInvalid)
    else if act.end <= act.start then Abort(InvalidStakeEndBlock)
    else if act.start < ctx.height then Abort(InvalidStakeStartBlock)
    else if ctx.emission.Err? then Abort(ctx.emission.error)
    else
      Do(Debit(ctx.actor, Native, act.staked),
         Do(PutDelegation(ctx.actor, act.node,
                          Delegation(act.start, act.end, act.staked, act.rewardAddress, ctx.actor)),
            Done))
  }

  function UndelegatePlan(s: Store, ctx: Context, node: NodeId, rewardAddress: Address): Ops {
    match GetDelegation(s, ctx.actor, node)
    case None => Abort(StakeMissing)
    case Some(d) =>
      if d.owner != ctx.actor then Abort(Unauthorized)
      else if ctx.height < d.end then Abort(StakeNotEnded)
      else
        match ctx.emission
        case Err(e) => Abort(e)
        case Ok(reward) =>
          Do(Credit(rewardAddress, Native, reward),
             Do(DropDelegation(d.owner, node), Do(Credit(d.owner, Native, d.staked), Done)))
  }

  function ClaimValidatorPlan(s: Store, ctx: Context, node: NodeId): Ops {
    match GetValidator(s, node)
    case None => Abort(StakeMissing)
    case Some(stake) =>
      if stake.rewardAddress != ctx.actor then Abort(Unauthorized)
      else if ctx.height < stake.end then Abort(StakeNotEnded)
      else
        match ctx.emission
        case Err(e) => Abort(e)
        case Ok(reward) => Do(Credit(stake.rewardAddress, Native, reward), Done)
  }

  function ClaimDelegationPlan(s: Store, ctx: Context, node: NodeId, user: Address): Ops {
    match GetDelegation(s, user, node)
    case None => Abort(StakeMissing)
    case Some(d) =>
      if d.rewardAddress != ctx.actor then Abort(Unauthorized)
      else if ctx.height < d.start then Abort(StakeNotEnded)
      else
        match ctx.emission
        case Err(e) => Abort(e)
        case Ok(reward) => Do(Credit(d.rewardAddress, Native, reward), Done)
  }

  function Plan(s: Store, ctx: Context, act: Action): Ops {
    match act
    case Transfer(to, asset, value, memo) => TransferPlan(ctx, to, asset, value, memo)
    case CreateAsset(symbol, decimals, metadata) => CreatePlan(ctx, symbol, decimals, metadata)
    case MintAsset(to, asset, value) => MintPlan(s, ctx, to, asset, value)
    case BurnAsset(asset, value) => BurnPlan(s, ctx, asset, value)
    case ExportAsset(_, _, _, _, _, _, _, _, _, _) => ExportPlan(s, ctx, act)
    case ImportAsset(fill, source, t) => ImportPlan(s, ctx, fill, source, t)
    case RegisterValidatorStake(_, _, _, _, _, _, _) => RegisterPlan(s, ctx, act)
    case WithdrawValidatorStake(node, to) => WithdrawPlan(s, ctx, node, to)
    case DelegateUserStake(_, _, _, _, _) => DelegatePlan(s, ctx, act)
    case UndelegateUserStake(node, to) => UndelegatePlan(s, ctx, node, to)
    case ClaimValidatorStakeRewards(node) => ClaimValidatorPlan(s, ctx, node)
    case ClaimDelegationStakeRewards(node, user) => ClaimDelegationPlan(s, ctx, node, user)
  }

  // ---------------------------------------------------------------------------------------------
  // What an action hands back

  /** The payload that a successful export sends. */
  function ExportMessage(s: Store, ctx: Context, act: Action): Option<WarpTransfer>
    requires act.ExportAsset?
  {
    match GetAsset(s, act.asset)
    case None => None
    case Some(rec) =>
      if act.isReturn && !rec.metadata.Origin? then None
      else
        Some(WarpTransfer(act.to, rec.symbol, rec.decimals, if act.isReturn then rec.metadata.asset else act.asset,
                          act.value, act.isReturn, act.reward, act.swapIn, act.assetOut, act.swapOut, act.swapExpiry,
                          ctx.tx, act.destination))
  }

  function ReceiptOf(s: Store, ctx: Context, act: Action): Receipt {
    var reward: uint64 := if ctx.emission.Ok? then ctx.emission.value else 0;
    match act
    case ExportAsset(_, _, _, _, _, _, _, _, _, _) => Receipt(NoOutput, ExportMessage(s, ctx, act))
    case WithdrawValidatorStake(node, _) =>
      var v := GetValidator(s, node);
      Receipt(StakeReturned(if v.Some? then v.value.staked else 0, reward), None)
    case UndelegateUserStake(node, _) =>
      var d := GetDelegation(s, ctx.actor, node);
      Receipt(StakeReturned(if d.Some? then d.value.staked else 0, reward), None)
    case ClaimValidatorStakeRewards(_) => Receipt(RewardClaimed(reward), None)
    case ClaimDelegationStakeRewards(_, _) => Receipt(RewardClaimed(reward), None)
    case _ => Receipt(NoOutput, None)
  }

  datatype Outcome = Outcome(store: Store, result: Result<Receipt, Error>)

  /** One transaction: the whole plan or nothing. */
  function Execute(s: Store, ctx: Context, act: Action): Outcome {
    match Apply(s, Plan(s, ctx, act))
    case Ok(t) => Outcome(t, Ok(ReceiptOf(s, ctx, act)))
    case Err(e) => Outcome(s, Err(e))
  }
}
