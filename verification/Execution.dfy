/** The actions as they run: step by step on the mutable state, each proved to do what its plan says.
    A failed action may leave the state half changed; `Process` rolls it back. */
module Execution {
  import opened Types
  import opened Ledger
  import opened Actions
  import opened Conservation
  import opened Treasury
  import S = Storage

  /** An action on the mutable state did what `Execute` says; after a failure the state is left open. */
  ghost predicate Refines(before: Store, after: Store, ctx: Context, act: Action, r: Result<Receipt, Error>) {
    var o := Execute(before, ctx, act);
    r == o.result && (r.Ok? ==> after == o.store)
  }

  /** Part of an action did what its operations say. */
  ghost predicate Performed(want: Result<Store, Error>, after: Store, err: Option<Error>) {
    match want
    case Ok(t) => err.None? && after == t
    case Err(e) => err == Some(e)
  }

  const DONE: Result<Receipt, Error> := Ok(Receipt(NoOutput, None))

  method ExecuteTransfer(mu: S.Mutable, ctx: Context, to: Address, asset: AssetId, value: uint64, memo: Bytes)
    returns (r: Result<Receipt, Error>)
    modifies mu
    ensures Refines(old(mu.kv), mu.kv, ctx, Transfer(to, asset, value, memo), r)
  {
    if value == 0 {
      return Err(ValueZero);
    }
    if |memo| > MAX_MEMO_SIZE {
      return Err(MemoTooLarge);
    }
    ApplyTwo(mu.kv, Debit(ctx.actor, asset, value), Credit(to, asset, value), Done);
    var err := S.SubBalance(mu, ctx.actor, asset, value);
    if err.Some? {
      return Err(err.value);
    }
    err := S.AddBalance(mu, to, asset, value, true);
    if err.Some? {
      return Err(err.value);
    }
    return DONE;
  }

  method ExecuteCreate(mu: S.Mutable, ctx: Context, symbol: Bytes, decimals: uint8, metadata: Bytes)
    returns (r: Result<Receipt, Error>)
    modifies mu
    ensures Refines(old(mu.kv), mu.kv, ctx, CreateAsset(symbol, decimals, metadata), r)
  {
    if |symbol| == 0 {
      return Err(SymbolEmpty);
    }
    if |symbol| > MAX_SYMBOL_SIZE {
      return Err(SymbolTooLarge);
    }
    if decimals > MAX_DECIMALS {
      return Err(DecimalsTooLarge);
    }
    if |metadata| == 0 {
      return Err(MetadataEmpty);
    }
    if |metadata| > MAX_METADATA_SIZE {
      return Err(MetadataTooLarge);
    }
    ghost var put := PutAsset(Created(ctx.tx), Asset(symbol, decimals, Text(metadata), 0, ctx.actor, false));
    assert Apply(mu.kv, Do(put, Done)) == ApplyTo(ApplyOp(mu.kv, put), Done);
    S.SetAsset(mu, Created(ctx.tx), symbol, decimals, Text(metadata), 0, ctx.actor, false);
    return DONE;
  }

  method ExecuteMint(mu: S.Mutable, ctx: Context, to: Address, asset: AssetId, value: uint64)
    returns (r: Result<Receipt, Error>)
    modifies mu
    ensures Refines(old(mu.kv), mu.kv, ctx, MintAsset(to, asset, value), r)
  {
    if asset == Native {
      return Err(AssetIsNative);
    }
    if value == 0 {
      return Err(ValueZero);
    }
    var found := GetAsset(mu.kv, asset);
    if found.None? {
      return Err(AssetMissing);
    }
    var rec := found.value;
    if rec.warp {
      return Err(WarpAsset);
    }
    if rec.owner != ctx.actor {
      return Err(WrongOwner);
    }
    if rec.supply + value > MAX_UINT64 {
      return Err(Overflow);
    }
    ApplyTwo(mu.kv, PutAsset(asset, rec.(supply := rec.supply + value)), Credit(to, asset, value), Done);
    S.SetAsset(mu, asset, rec.symbol, rec.decimals, rec.metadata, rec.supply + value, ctx.actor, rec.warp);
    var err := S.AddBalance(mu, to, asset, value, true);
    if err.Some? {
      return Err(err.value);
    }
    return DONE;
  }

  method ExecuteBurn(mu: S.Mutable, ctx: Context, asset: AssetId, value: uint64) returns (r: Result<Receipt, Error>)
    modifies mu
    ensures Refines(old(mu.kv), mu.kv, ctx, BurnAsset(asset, value), r)
  {
    if value == 0 {
      return Err(ValueZero);
    }
    ghost var s := mu.kv;
    var err := S.SubBalance(mu, ctx.actor, asset, value);
    if err.Some? {
      return Err(err.value);
    }
    var found := GetAsset(mu.kv, asset);
    assert found == GetAsset(s, asset);
    assert Apply(s, Plan(s, ctx, BurnAsset(asset, value))) == Apply(mu.kv, Plan(s, ctx, BurnAsset(asset, value)).next);
    if found.None? {
      return Err(AssetMissing);
    }
    var rec := found.value;
    if rec.supply < value {
      return Err(Underflow);
    }
    ApplyTwo(s, Debit(ctx.actor, asset, value), PutAsset(asset, rec.(supply := rec.supply - value)), Done);
    S.SetAsset(mu, asset, rec.symbol, rec.decimals, rec.metadata, rec.supply - value, rec.owner, rec.warp);
    return DONE;
  }

  /** Send a wrapped asset home: supply down, balance down. */
  method ExecuteExportReturn(mu: S.Mutable, ctx: Context, act: Action) returns (r: Result<Receipt, Error>)
    requires act.ExportAsset? && act.isReturn && act.value != 0 && act.destination != EMPTY_CHAIN
    modifies mu
    ensures Refines(old(mu.kv), mu.kv, ctx, act, r)
  {
    ghost var s := mu.kv;
    var found := GetAsset(mu.kv, act.asset);
    if found.None? {
      return Err(AssetMissing);
    }
    var rec := found.value;
    if !rec.warp {
      return Err(NotWarpAsset);
    }
    if !rec.metadata.Origin? {
      return Err(BadMetadata);
    }
    if rec.metadata.chain != act.destination {
      return Err(WrongDestination);
    }
    if rec.supply < act.value {
      return Err(Underflow);
    }
    if rec.supply - act.value < act.reward {
      return Err(Underflow);
    }
    var newSupply := rec.supply - act.value - act.reward;
    ghost var plan := Plan(s, ctx, act);
    ApplyTwo(s, plan.op, plan.next.op, plan.next.next);
    if newSupply > 0 {
      S.SetAsset(mu, act.asset, rec.symbol, rec.decimals, rec.metadata, newSupply, EMPTY_ADDRESS, true);
    } else {
      S.DeleteAsset(mu, act.asset);
    }
    var err := S.SubBalance(mu, ctx.actor, act.asset, act.value);
    if err.Some? {
      return Err(err.value);
    }
    if act.reward > 0 {
      assert Apply(mu.kv, plan.next.next) == ApplyTo(ApplyOp(mu.kv, plan.next.next.op), Done);
      err := S.SubBalance(mu, ctx.actor, act.asset, act.reward);
      if err.Some? {
        return Err(err.value);
      }
    }
    return Ok(Receipt(NoOutput,
                      Some(WarpTransfer(act.to, rec.symbol, rec.decimals, rec.metadata.asset, act.value, act.isReturn,
                                        act.reward, act.swapIn, act.assetOut, act.swapOut, act.swapExpiry, ctx.tx,
                                        act.destination))));
  }

  /** Lend a home asset out: loan up, balance down. */
  method ExecuteExportLoan(mu: S.Mutable, ctx: Context, act: Action) returns (r: Result<Receipt, Error>)
    requires act.ExportAsset? && !act.isReturn && act.value != 0 && act.destination != EMPTY_CHAIN
    modifies mu
    ensures Refines(old(mu.kv), mu.kv, ctx, act, r)
  {
    ghost var s := mu.kv;
    var found := GetAsset(mu.kv, act.asset);
    if found.None? {
      return Err(AssetMissing);
    }
    var rec := found.value;
    if rec.warp {
      return Err(WarpAsset);
    }
    ghost var plan := Plan(s, ctx, act);
    ApplyTwo(s, plan.op, plan.next.op, plan.next.next);
    var err := S.AddLoan(mu, act.asset, act.destination, act.value);
    if err.Some? {
      return Err(err.value);
    }
    err := S.SubBalance(mu, ctx.actor, act.asset, act.value);
    if err.Some? {
      return Err(err.value);
    }
    if act.reward > 0 {
      ApplyTwo(mu.kv, Lend(act.asset, act.destination, act.reward), Debit(ctx.actor, act.asset, act.reward), Done);
      err := S.AddLoan(mu, act.asset, act.destination, act.reward);
      if err.Some? {
        return Err(err.value);
      }
      err := S.SubBalance(mu, ctx.actor, act.asset, act.reward);
      if err.Some? {
        return Err(err.value);
      }
    }
    return Ok(Receipt(NoOutput,
                      Some(WarpTransfer(act.to, rec.symbol, rec.decimals, act.asset, act.value, act.isReturn,
                                        act.reward, act.swapIn, act.assetOut, act.swapOut, act.swapExpiry, ctx.tx,
                                        act.destination))));
  }

  method ExecuteExport(mu: S.Mutable, ctx: Context, act: Action) returns (r: Result<Receipt, Error>)
    requires act.ExportAsset?
    modifies mu
    ensures Refines(old(mu.kv), mu.kv, ctx, act, r)
  {
    if act.value == 0 {
      return Err(ValueZero);
    }
    if act.destination == EMPTY_CHAIN {
      return Err(Anycast);
    }
    if act.isReturn {
      r := ExecuteExportReturn(mu, ctx, act);
    } else {
      r := ExecuteExportLoan(mu, ctx, act);
    }
  }

  method ImportMint(mu: S.Mutable, ctx: Context, source: ChainId, t: WarpTransfer) returns (err: Option<Error>)
    modifies mu
    ensures Performed(Apply(old(mu.kv), ImportMintPlan(old(mu.kv), ctx, source, t)), mu.kv, err)
  {
    ghost var plan := ImportMintPlan(mu.kv, ctx, source, t);
    var asset := Imported(t.asset, source);
    var found := GetAsset(mu.kv, asset);
    if found.Some? && !found.value.warp {
      return Some(ConflictingAsset);
    }
    var symbol, decimals, metadata, supply := t.symbol, t.decimals, Origin(t.asset, source), 0;
    if found.Some? {
      symbol, decimals, metadata, supply := found.value.symbol, found.value.decimals, found.value.metadata, found.value.supply;
    }
    if supply + t.value > MAX_UINT64 {
      return Some(Overflow);
    }
    if supply + t.value + t.reward > MAX_UINT64 {
      return Some(Overflow);
    }
    ApplyTwo(mu.kv, plan.op, plan.next.op, plan.next.next);
    S.SetAsset(mu, asset, symbol, decimals, metadata, supply + t.value + t.reward, EMPTY_ADDRESS, true);
    err := S.AddBalance(mu, t.to, asset, t.value, true);
    if err.Some? {
      return;
    }
    if t.reward > 0 {
      assert Apply(mu.kv, plan.next.next) == ApplyTo(ApplyOp(mu.kv, plan.next.next.op), Done);
      err := S.AddBalance(mu, ctx.actor, asset, t.reward, true);
    }
  }

  method ImportReturn(mu: S.Mutable, ctx: Context, source: ChainId, t: WarpTransfer) returns (err: Option<Error>)
    modifies mu
    ensures Performed(Apply(old(mu.kv), ImportReturnPlan(old(mu.kv), ctx, source, t)), mu.kv, err)
  {
    var found := GetAsset(mu.kv, t.asset);
    if found.None? {
      return Some(AssetMissing);
    }
    if t.symbol != found.value.symbol {
      return Some(SymbolIncorrect);
    }
    if t.decimals != found.value.decimals {
      return Some(DecimalsIncorrect);
    }
    if found.value.warp {
      return Some(WarpAsset);
    }
    ApplyTwo(mu.kv, Redeem(t.asset, source, t.value), Credit(t.to, t.asset, t.value),
             RedeemReward(ctx.actor, source, t.asset, t.reward));
    err := S.SubLoan(mu, t.asset, source, t.value);
    if err.Some? {
      return;
    }
    err := S.AddBalance(mu, t.to, t.asset, t.value, true);
    if err.Some? {
      return;
    }
    if t.reward > 0 {
      ApplyTwo(mu.kv, Redeem(t.asset, source, t.reward), Credit(ctx.actor, t.asset, t.reward), Done);
      err := S.SubLoan(mu, t.asset, source, t.reward);
      if err.Some? {
        return;
      }
      err := S.AddBalance(mu, ctx.actor, t.asset, t.reward, true);
    }
  }

  method FillSwap(mu: S.Mutable, ctx: Context, source: ChainId, t: WarpTransfer) returns (err: Option<Error>)
    requires t.swapIn != 0
    modifies mu
    ensures Performed(Apply(old(mu.kv), SwapPlan(ctx, true, source, t)), mu.kv, err)
  {
    var assetIn := if t.isReturn then t.asset else Imported(t.asset, source);
    ghost var last := Do(Debit(ctx.actor, t.assetOut, t.swapOut), Do(Credit(t.to, t.assetOut, t.swapOut), Done));
    ApplyTwo(mu.kv, Debit(t.to, assetIn, t.swapIn), Credit(ctx.actor, assetIn, t.swapIn), last);
    err := S.SubBalance(mu, t.to, assetIn, t.swapIn);
    if err.Some? {
      return;
    }
    err := S.AddBalance(mu, ctx.actor, assetIn, t.swapIn, true);
    if err.Some? {
      return;
    }
    ApplyTwo(mu.kv, last.op, last.next.op, Done);
    err := S.SubBalance(mu, ctx.actor, t.assetOut, t.swapOut);
    if err.Some? {
      return;
    }
    err := S.AddBalance(mu, t.to, t.assetOut, t.swapOut, true);
  }

  method ExecuteImport(mu: S.Mutable, ctx: Context, fill: bool, source: ChainId, t: WarpTransfer)
    returns (r: Result<Receipt, Error>)
    modifies mu
    ensures Refines(old(mu.kv), mu.kv, ctx, ImportAsset(fill, source, t), r)
  {
    if !ctx.warpVerified {
      return Err(WarpVerificationFailed);
    }
    if t.destination != ctx.chain {
      return Err(InvalidDestination);
    }
    if t.value == 0 {
      return Err(ValueZero);
    }
    ApplyThen(mu.kv, SettlePlan(mu.kv, ctx, source, t), SwapPlan(ctx, fill, source, t));
    var err: Option<Error>;
    if t.isReturn {
      err := ImportReturn(mu, ctx, source, t);
    } else {
      err := ImportMint(mu, ctx, source, t);
    }
    if err.Some? {
      return Err(err.value);
    }
    if t.swapIn == 0 {
      return DONE;
    }
    if !fill {
      if t.swapExpiry > ctx.time {
        return Err(MustFill);
      }
      return DONE;
    }
    err := FillSwap(mu, ctx, source, t);
    if err.Some? {
      return Err(err.value);
    }
    return DONE;
  }

  /** Check the signer, then go through the current validators for one with the actor's key. */
  method CheckCredentials(actor: Address, c: Credentials) returns (err: Option<Error>)
    ensures err == CredentialsDenied(actor, c)
  {
    if c.signer.Err? {
      return Some(c.signer.error);
    }
    if c.signer.value != actor {
      return Some(DifferentSigner);
    }
    var isValidatorOwner := false;
    var i := 0;
    while i < |c.current| && !isValidatorOwner
      invariant 0 <= i <= |c.current|
      invariant OwnerDenied(actor, c.current) == if isValidatorOwner then None else OwnerDenied(actor, c.current[i..])
    {
      assert c.current[i..][1..] == c.current[i + 1..];
      if c.current[i].key.Err? {
        return Some(c.current[i].key.error);
      }
      if c.current[i].key.value == actor {
        isValidatorOwner := true;
      }
      i := i + 1;
    }
    if !isValidatorOwner {
      return Some(Unauthorized);
    }
    return c.malformed;
  }

  method ExecuteRegister(mu: S.Mutable, ctx: Context, act: Action) returns (r: Result<Receipt, Error>)
    requires act.RegisterValidatorStake?
    modifies mu
    ensures Refines(old(mu.kv), mu.kv, ctx, act, r)
  {
    var denied := CheckCredentials(ctx.actor, act.credentials);
    if denied.Some? {
      return Err(denied.value);
    }
    var found := GetValidator(mu.kv, act.node);
    if found.Some? {
      return Err(ValidatorAlreadyRegistered);
    }
    if act.staked < MIN_VALIDATOR_STAKE || act.staked > MAX_VALIDATOR_STAKE {
      return Err(ValidatorStakedAmountInvalid);
    }
    if act.start < ctx.height {
      return Err(InvalidStakeStartBlock);
    }
    if act.end < act.start {
      return Err(InvalidStakeEndBlock);
    }
    var duration := act.end - act.start;
    if duration < MIN_STAKE_DURATION || duration > MAX_STAKE_DURATION {
      return Err(InvalidStakeDuration);
    }
    if act.feeRate < MIN_DELEGATION_FEE || act.feeRate > 100 {
      return Err(InvalidDelegationFeeRate);
    }
    if ctx.emission.Err? {
      return Err(ctx.emission.error);
    }
    var stake := ValidatorStake(act.start, act.end, act.staked, act.feeRate, act.rewardAddress, ctx.actor);
    ApplyTwo(mu.kv, Debit(ctx.actor, Native, act.staked), PutValidator(act.node, stake), Done);
    var err := S.SubBalance(mu, ctx.actor, Native, act.staked);
    if err.Some? {
      return Err(err.value);
    }
    mu.Insert(ValidatorKey(act.node), ValidatorRecord(stake));
    return DONE;
  }

  method ExecuteWithdraw(mu: S.Mutable, ctx: Context, node: NodeId, rewardAddress: Address)
    returns (r: Result<Receipt, Error>)
    modifies mu
    ensures Refines(old(mu.kv), mu.kv, ctx, WithdrawValidatorStake(node, rewardAddress), r)
  {
    var found := GetValidator(mu.kv, node);
    if found.None? {
      return Err(ValidatorAlreadyRegistered);
    }
    var stake := found.value;
    if stake.owner != ctx.actor {
      return Err(Unauthorized);
    }
    if ctx.height < stake.end {
      return Err(StakeNotStarted);
    }
    if ctx.emission.Err? {
      return Err(ctx.emission.error);
    }
    var reward := ctx.emission.value;
    ApplyTwo(mu.kv, Credit(rewardAddress, Native, reward), DropValidator(node),
             Do(Credit(ctx.actor, Native, stake.staked), Done));
    var err := S.AddBalance(mu, rewardAddress, Native, reward, true);
    if err.Some? {
      return Err(err.value);
    }
    mu.Remove(ValidatorKey(node));
    assert Apply(mu.kv, Do(Credit(ctx.actor, Native, stake.staked), Done))
        == ApplyTo(ApplyOp(mu.kv, Credit(ctx.actor, Native, stake.staked)), Done);
    err := S.AddBalance(mu, ctx.actor, Native, stake.staked, true);
    if err.Some? {
      return Err(err.value);
    }
    return Ok(Receipt(StakeReturned(stake.staked, reward), None));
  }

  method ExecuteDelegate(mu: S.Mutable, ctx: Context, act: Action) returns (r: Result<Receipt, Error>)
    requires act.DelegateUserStake?
    modifies mu
    ensures Refines(old(mu.kv), mu.kv, ctx, act, r)
  {
    var validator := GetValidator(mu.kv, act.node);
    if validator.None? {
      return Err(ValidatorNotYetRegistered);
    }
    var found := GetDelegation(mu.kv, ctx.actor, act.node);
    if found.Some? {
      return Err(UserAlreadyStaked);
    }
    if act.staked < MIN_DELEGATOR_STAKE {
      return Err(DelegateStakedAmountInvalid);
    }
    if act.end <= act.start {
      return Err(InvalidStakeEndBlock);
    }
    if act.start < ctx.height {
      return Err(InvalidStakeStartBlock);
    }
    if ctx.emission.Err? {
      return Err(ctx.emission.error);
    }
    var d := Delegation(act.start, act.end, act.staked, act.rewardAddress, ctx.actor);
    ApplyTwo(mu.kv, Debit(ctx.actor, Native, act.staked), PutDelegation(ctx.actor, act.node, d), Done);
    var err := S.SubBalance(mu, ctx.actor, Native, act.staked);
    if err.Some? {
      return Err(err.value);
    }
    mu.Insert(DelegationKey(ctx.actor, act.node), DelegationRecord(d));
    return DONE;
  }

  method ExecuteUndelegate(mu: S.Mutable, ctx: Context, node: NodeId, rewardAddress: Address)
    returns (r: Result<Receipt, Error>)
    modifies mu
    ensures Refines(old(mu.kv), mu.kv, ctx, UndelegateUserStake(node, rewardAddress), r)
  {
    var found := GetDelegation(mu.kv, ctx.actor, node);
    if found.None? {
      return Err(StakeMissing);
    }
    var d := found.value;
    if d.owner != ctx.actor {
      return Err(Unauthorized);
    }
    if ctx.height < d.end {
      return Err(StakeNotEnded);
    }
    if ctx.emission.Err? {
      return Err(ctx.emission.error);
    }
    var reward := ctx.emission.value;
    ApplyTwo(mu.kv, Credit(rewardAddress, Native, reward), DropDelegation(d.owner, node),
             Do(Credit(d.owner, Native, d.staked), Done));
    var err := S.AddBalance(mu, rewardAddress, Native, reward, true);
    if err.Some? {
      return Err(err.value);
    }
    mu.Remove(DelegationKey(d.owner, node));
    assert Apply(mu.kv, Do(Credit(d.owner, Native, d.staked), Done))
        == ApplyTo(ApplyOp(mu.kv, Credit(d.owner, Native, d.staked)), Done);
    err := S.AddBalance(mu, d.owner, Native, d.staked, true);
    if err.Some? {
      return Err(err.value);
    }
    return Ok(Receipt(StakeReturned(d.staked, reward), None));
  }

  method ExecuteClaimValidator(mu: S.Mutable, ctx: Context, node: NodeId) returns (r: Result<Receipt, Error>)
    modifies mu
    ensures Refines(old(mu.kv), mu.kv, ctx, ClaimValidatorStakeRewards(node), r)
  {
    var found := GetValidator(mu.kv, node);
    if found.None? {
      return Err(StakeMissing);
    }
    if found.value.rewardAddress != ctx.actor {
      return Err(Unauthorized);
    }
    if ctx.height < found.value.end {
      return Err(StakeNotEnded);
    }
    if ctx.emission.Err? {
      return Err(ctx.emission.error);
    }
    ghost var credit := Credit(found.value.rewardAddress, Native, ctx.emission.value);
    assert Apply(mu.kv, Do(credit, Done)) == ApplyTo(ApplyOp(mu.kv, credit), Done);
    var err := S.AddBalance(mu, found.value.rewardAddress, Native, ctx.emission.value, true);
    if err.Some? {
      return Err(err.value);
    }
    return Ok(Receipt(RewardClaimed(ctx.emission.value), None));
  }

  method ExecuteClaimDelegation(mu: S.Mutable, ctx: Context, node: NodeId, user: Address)
    returns (r: Result<Receipt, Error>)
    modifies mu
    ensures Refines(old(mu.kv), mu.kv, ctx, ClaimDelegationStakeRewards(node, user), r)
  {
    var found := GetDelegation(mu.kv, user, node);
    if found.None? {
      return Err(StakeMissing);
    }
    if found.value.rewardAddress != ctx.actor {
      return Err(Unauthorized);
    }
    if ctx.height < found.value.start {
      return Err(StakeNotEnded);
    }
    if ctx.emission.Err? {
      return Err(ctx.emission.error);
    }
    ghost var credit := Credit(found.value.rewardAddress, Native, ctx.emission.value);
    assert Apply(mu.kv, Do(credit, Done)) == ApplyTo(ApplyOp(mu.kv, credit), Done);
    var err := S.AddBalance(mu, found.value.rewardAddress, Native, ctx.emission.value, true);
    if err.Some? {
      return Err(err.value);
    }
    return Ok(Receipt(RewardClaimed(ctx.emission.value), None));
  }

  /** One transaction on the mutable state: the action in full, or nothing. */
  method Process(mu: S.Mutable, ctx: Context, act: Action) returns (r: Result<Receipt, Error>)
    modifies mu
    ensures Outcome(mu.kv, r) == Execute(old(mu.kv), ctx, act)
  {
    var saved := mu.kv;
    match act {
      case Transfer(to, asset, value, memo) => r := ExecuteTransfer(mu, ctx, to, asset, value, memo);
      case CreateAsset(symbol, decimals, metadata) => r := ExecuteCreate(mu, ctx, symbol, decimals, metadata);
      case MintAsset(to, asset, value) => r := ExecuteMint(mu, ctx, to, asset, value);
      case BurnAsset(asset, value) => r := ExecuteBurn(mu, ctx, asset, value);
      case ExportAsset(_, _, _, _, _, _, _, _, _, _) => r := ExecuteExport(mu, ctx, act);
      case ImportAsset(fill, source, t) => r := ExecuteImport(mu, ctx, fill, source, t);
      case RegisterValidatorStake(_, _, _, _, _, _, _) => r := ExecuteRegister(mu, ctx, act);
      case WithdrawValidatorStake(node, to) => r := ExecuteWithdraw(mu, ctx, node, to);
      case DelegateUserStake(_, _, _, _, _) => r := ExecuteDelegate(mu, ctx, act);
      case UndelegateUserStake(node, to) => r := ExecuteUndelegate(mu, ctx, node, to);
      case ClaimValidatorStakeRewards(node) => r := ExecuteClaimValidator(mu, ctx, node);
      case ClaimDelegationStakeRewards(node, user) => r := ExecuteClaimDelegation(mu, ctx, node, user);
    }
    if r.Err? {
      mu.kv := saved;
    }
  }

  method CanDeduct(mu: S.Mutable, addr: Address, amount: uint64) returns (err: Option<Error>)
    ensures err.None? <==> Deduct(mu.kv, addr, amount).Ok?
    ensures err.Some? ==> err.value == InvalidBalance
  {
    var bal := GetBalance(mu.kv, addr, Native);
    if bal < amount {
      return Some(InvalidBalance);
    }
    return None;
  }

  method DeductFee(mu: S.Mutable, addr: Address, amount: uint64) returns (err: Option<Error>)
    modifies mu
    ensures S.Carried(Deduct(old(mu.kv), addr, amount), old(mu.kv), mu.kv, err)
  {
    err := S.SubBalance(mu, addr, Native, amount);
  }

  method RefundFee(mu: S.Mutable, addr: Address, amount: uint64) returns (err: Option<Error>)
    modifies mu
    ensures S.Carried(Refund(old(mu.kv), addr, amount), old(mu.kv), mu.kv, err)
  {
    err := S.AddBalance(mu, addr, Native, amount, false);
  }

  /** Write the genesis balances and the native record into an empty state. */
  method Load(mu: S.Mutable, allocs: seq<Allocation>) returns (err: Option<Error>)
    requires mu.kv == map[]
    modifies mu
    ensures Performed(Genesis(allocs), mu.kv, err)
  {
    var supply: uint64 := 0;
    for i := 0 to |allocs|
      invariant supply == TotalAllocated(allocs[..i])
      invariant mu.kv == Allocated(allocs[..i])
    {
      assert allocs[..i + 1][..i] == allocs[..i];
      if supply + allocs[i].balance > MAX_UINT64 {
        TotalGrows(allocs, i + 1);
        return Some(Overflow);
      }
      supply := supply + allocs[i].balance;
      mu.Insert(BalanceKey(allocs[i].addr, Native), Amount(allocs[i].balance));
    }
    assert allocs[..|allocs|] == allocs;
    S.SetAsset(mu, Native, NATIVE_SYMBOL, 9, Text(NATIVE_NAME), supply, EMPTY_ADDRESS, false);
    return None;
  }

  lemma {:induction false} TotalGrows(allocs: seq<Allocation>, i: nat)
    requires i <= |allocs|
    ensures TotalAllocated(allocs[..i]) <= TotalAllocated(allocs)
    decreases |allocs|
  {
    if i == |allocs| {
      assert allocs[..i] == allocs;
    } else {
      var n := |allocs| - 1;
      TotalGrows(allocs[..n], i);
      assert allocs[..n][..i] == allocs[..i];
    }
  }
}
