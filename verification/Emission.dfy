/** The emission balancer as a state machine on values: registrations, delegations, the block-driven
    event queues, reward distribution and claims. Amounts are 64-bit and wrap as in the source;
    ratios are exact, rounded down where the source converts to an integer. */
module Emission {
  import opened Types
  import opened Sums

  const EPOCH_LENGTH: nat := 10
  const SECONDS_PER_YEAR: nat := 365 * 24 * 60 * 60
  const BASE_VALIDATORS: nat := 100

  type FeeRate = x: nat | x <= 100
  type Ref = nat

  function WrapAdd(a: uint64, b: uint64): uint64 {
    if a + b > MAX_UINT64 then a + b - TWO_TO_64 else a + b
  }

  function WrapSub(a: uint64, b: uint64): uint64 {
    if a < b then a - b + TWO_TO_64 else a - b
  }

  /** `joined` is the block height at which the delegation was recorded; no operation reads it. */
  datatype Delegator = Delegator(isActive: bool, staked: uint64, start: uint64, end: uint64, joined: nat)

  /** `ref` is the identity of the record; `paidOut` is what was paid to its delegators so far. No operation
      reads `paidOut`, and `ref` only tells records apart that event queues point to. */
  datatype Validator = Validator(
    ref: Ref, isActive: bool, staked: uint64, stakedReward: uint64, feeRate: FeeRate,
    delegated: uint64, delegatedReward: uint64, delegators: map<Address, Delegator>,
    epochRewards: map<nat, uint64>, epochDelegated: map<nat, uint64>, paidOut: nat)

  /** A pointer to a validator record, kept in an event queue. */
  datatype Handle = Handle(node: NodeId, ref: Ref)

  datatype DelegatorEvent = DelegatorEvent(node: NodeId, delegator: Address)

  /** `retired` holds validator records that are no longer registered but still pointed to. */
  datatype State = State(
    height: nat, totalSupply: uint64, maxSupply: uint64, totalStaked: uint64,
    validators: map<NodeId, Validator>, retired: map<Ref, Validator>, nextRef: Ref,
    activations: map<nat, seq<Handle>>, deactivations: map<nat, seq<Handle>>,
    delegatorActivations: map<nat, seq<DelegatorEvent>>, delegatorDeactivations: map<nat, seq<DelegatorEvent>>)

  datatype EmissionError = ValidatorNotFound | DelegatorNotFound | DelegatorAlreadyStaked

  function Queue<T>(q: map<nat, seq<T>>, b: nat): seq<T> {
    if b in q then q[b] else []
  }

  function Enqueue<T>(q: map<nat, seq<T>>, b: nat, e: T): map<nat, seq<T>> {
    q[b := Queue(q, b) + [e]]
  }

  // ---------------------------------------------------------------------------------------------
  // Registration and delegation

  function NewValidator(ref: Ref, staked: uint64, feeRate: FeeRate): Validator {
    Validator(ref, true, staked, 0, feeRate, 0, 0, map[], map[], map[], 0)
  }

  /** A registered validator keeps its rewards and delegators when it registers again. */
  function Register(st: State, node: NodeId, start: uint64, end: uint64, staked: uint64, feeRate: FeeRate): State {
    var known := node in st.validators;
    var v := if known then st.validators[node].(staked := staked, feeRate := feeRate, isActive := true)
             else NewValidator(st.nextRef, staked, feeRate);
    var h := Handle(node, v.ref);
    st.(validators := st.validators[node := v],
        nextRef := if known then st.nextRef else st.nextRef + 1,
        activations := Enqueue(st.activations, start, h),
        deactivations := Enqueue(st.deactivations, end, h))
  }

  /** Pay out the validator's own reward and take its stake away. */
  function Withdraw(st: State, node: NodeId): Result<(State, uint64), EmissionError> {
    if node !in st.validators then Err(ValidatorNotFound)
    else
      var v := st.validators[node];
      Ok((st.(validators := st.validators[node := v.(stakedReward := 0, isActive := false, staked := 0)]), v.stakedReward))
  }

  function ClaimValidator(st: State, node: NodeId): Result<(State, uint64), EmissionError> {
    if node !in st.validators then Err(ValidatorNotFound)
    else
      var v := st.validators[node];
      Ok((st.(validators := st.validators[node := v.(stakedReward := 0)]), v.stakedReward))
  }

  function Delegate(st: State, node: NodeId, who: Address, start: uint64, end: uint64, staked: uint64)
    : Result<State, EmissionError>
  {
    if node !in st.validators then Err(ValidatorNotFound)
    else
      var v := st.validators[node];
      if who in v.delegators then Err(DelegatorAlreadyStaked)
      else
        var d := Delegator(false, staked, start, end, st.height);
        var e := DelegatorEvent(node, who);
        Ok(st.(validators := st.validators[node := v.(delegators := v.delegators[who := d])],
               delegatorActivations := Enqueue(st.delegatorActivations, start, e),
               delegatorDeactivations := Enqueue(st.delegatorDeactivations, end, e)))
  }

  /** A delegator's part of the reward of one epoch. */
  function EpochShare(v: Validator, d: Delegator, epoch: nat): uint64 {
    if epoch in v.epochRewards && epoch in v.epochDelegated && v.epochDelegated[epoch] > 0
    then (v.epochRewards[epoch] * d.staked / v.epochDelegated[epoch]) % TWO_TO_64
    else 0
  }

  /** The shares of epochs `from` up to, not including, `to`. */
  function EpochShares(v: Validator, d: Delegator, from: nat, to: nat): uint64
    decreases to
  {
    if to <= from then 0 else WrapAdd(EpochShares(v, d, from, to - 1), EpochShare(v, d, to - 1))
  }

  function DelegationReward(v: Validator, d: Delegator): uint64 {
    EpochShares(v, d, d.start / EPOCH_LENGTH, d.end / EPOCH_LENGTH + 1)
  }

  /** Pay a delegator that stays what has been worked out for it, without regard to what is left. */
  function ClaimDelegator(st: State, node: NodeId, who: Address): Result<(State, uint64), EmissionError> {
    if node !in st.validators then Err(ValidatorNotFound)
    else
      var v := st.validators[node];
      if who !in v.delegators then Err(DelegatorNotFound)
      else
        var reward := DelegationReward(v, v.delegators[who]);
        var w := v.(delegatedReward := WrapSub(v.delegatedReward, reward), paidOut := v.paidOut + reward);
        Ok((st.(validators := st.validators[node := w]), reward))
  }

  /** Nothing is left of the validator: not active, no stake, no delegator. */
  predicate Abandoned(v: Validator) {
    !v.isActive && v.staked == 0 && v.delegators == map[]
  }

  /** Pay a delegator, at most what is left for delegators, and forget it; the last one to leave an
      abandoned validator removes the validator too. */
  function Undelegate(st: State, node: NodeId, who: Address): Result<(State, uint64), EmissionError> {
    if node !in st.validators then Err(ValidatorNotFound)
    else
      var v := st.validators[node];
      if who !in v.delegators then Err(DelegatorNotFound)
      else
        var reward := Min(DelegationReward(v, v.delegators[who]), v.delegatedReward);
        var w := v.(delegatedReward := v.delegatedReward - reward, delegators := v.delegators - {who},
                    paidOut := v.paidOut + reward);
        Ok((if Abandoned(w) then st.(validators := st.validators - {node}, retired := st.retired[w.ref := w])
            else st.(validators := st.validators[node := w]),
            reward))
  }

  // ---------------------------------------------------------------------------------------------
  // Block events

  function Stake(v: Validator): uint64 {
    WrapAdd(v.staked, v.delegated)
  }

  /** The record that a queued pointer points to. */
  function Deref(st: State, h: Handle): Option<Validator> {
    if h.node in st.validators && st.validators[h.node].ref == h.ref then Some(st.validators[h.node])
    else if h.ref in st.retired then Some(st.retired[h.ref])
    else None
  }

  function Assign(st: State, h: Handle, v: Validator): State {
    if h.node in st.validators && st.validators[h.node].ref == h.ref
    then st.(validators := st.validators[h.node := v])
    else st.(retired := st.retired[h.ref := v])
  }

  function Activate(st: State, h: Handle): State {
    match Deref(st, h)
    case None => st
    case Some(v) =>
      if v.isActive then st
      else Assign(st, h, v.(isActive := true)).(totalStaked := WrapAdd(st.totalStaked, Stake(v)))
  }

  function Deactivate(st: State, h: Handle): State {
    match Deref(st, h)
    case None => st
    case Some(v) =>
      if !v.isActive then st
      else Assign(st, h, v.(isActive := false)).(totalStaked := WrapSub(st.totalStaked, Stake(v)))
  }

  /** Block `b` is the right one to switch the delegator on or off. */
  predicate Applies(d: Delegator, b: nat, on: bool) {
    if on then d.start <= b < d.end else d.end <= b
  }

  predicate Fires(v: Validator, who: Address, b: nat, on: bool) {
    who in v.delegators && Applies(v.delegators[who], b, on) && v.delegators[who].isActive != on
  }

  /** A validator with one delegator switched on or off. */
  function Switched(v: Validator, who: Address, on: bool): Validator
    requires who in v.delegators
  {
    var d := v.delegators[who];
    v.(delegators := v.delegators[who := d.(isActive := on)],
       delegated := if on then WrapAdd(v.delegated, d.staked) else WrapSub(v.delegated, d.staked))
  }

  /** One delegator event: activation if `on`, deactivation otherwise. */
  function Switch(st: State, e: DelegatorEvent, b: nat, on: bool): State {
    if e.node in st.validators && Fires(st.validators[e.node], e.delegator, b, on) then
      var v := st.validators[e.node];
      var staked := v.delegators[e.delegator].staked;
      st.(validators := st.validators[e.node := Switched(v, e.delegator, on)],
          totalStaked := if on then WrapAdd(st.totalStaked, staked) else WrapSub(st.totalStaked, staked))
    else st
  }

  function ActivateAll(st: State, hs: seq<Handle>): State {
    if hs == [] then st else Activate(ActivateAll(st, hs[..|hs| - 1]), hs[|hs| - 1])
  }

  function DeactivateAll(st: State, hs: seq<Handle>): State {
    if hs == [] then st else Deactivate(DeactivateAll(st, hs[..|hs| - 1]), hs[|hs| - 1])
  }

  function SwitchAll(st: State, es: seq<DelegatorEvent>, b: nat, on: bool): State {
    if es == [] then st else Switch(SwitchAll(st, es[..|es| - 1], b, on), es[|es| - 1], b, on)
  }

  /** The state when the validator events of block `b` are worked off. */
  function AfterValidatorEvents(st: State, b: nat): State {
    var s1 := ActivateAll(st, Queue(st.activations, b)).(activations := st.activations - {b});
    DeactivateAll(s1, Queue(st.deactivations, b)).(deactivations := st.deactivations - {b})
  }

  function AfterDelegatorEvents(st: State, b: nat): State {
    var s1 := SwitchAll(st, Queue(st.delegatorActivations, b), b, true)
              .(delegatorActivations := st.delegatorActivations - {b});
    SwitchAll(s1, Queue(st.delegatorDeactivations, b), b, false)
      .(delegatorDeactivations := st.delegatorDeactivations - {b})
  }

  /** Work off the four queues of block `b`, in this order. */
  function ProcessEvents(st: State, b: nat): State {
    AfterDelegatorEvents(AfterValidatorEvents(st, b), b)
  }

  // ---------------------------------------------------------------------------------------------
  // Rewards

  /** What falls to one validator and its delegators out of `total`. */
  function Portion(totalStaked: uint64, v: Validator, total: uint64): uint64 {
    if totalStaked > 0 && v.isActive then (Stake(v) * total / totalStaked) % TWO_TO_64 else 0
  }

  /** The part of a portion that goes to the delegators. */
  function DelegatorsPart(v: Validator, portion: uint64): (r: uint64)
    ensures r <= portion
  {
    if v.delegated > 0 then
      assert portion * v.feeRate <= portion * 100;
      portion * v.feeRate / 100
    else 0
  }

  /** Credit a validator with its portion for an epoch. */
  function Credited(totalStaked: uint64, v: Validator, total: uint64, epoch: nat): Validator {
    if !v.isActive then v
    else
      var portion := Portion(totalStaked, v, total);
      var part := DelegatorsPart(v, portion);
      v.(stakedReward := WrapAdd(v.stakedReward, portion - part),
         delegatedReward := WrapAdd(v.delegatedReward, part),
         epochRewards := v.epochRewards[epoch := part],
         epochDelegated := v.epochDelegated[epoch := v.delegated])
  }

  /** Rewards distributed to all validators at once. */
  function Distribute(st: State, total: uint64, epoch: nat): State {
    st.(validators := map n | n in st.validators :: Credited(st.totalStaked, st.validators[n], total, epoch))
  }

  ghost function PortionWeight(totalStaked: uint64, total: uint64): (NodeId, Validator) -> int {
    (n: NodeId, v: Validator) => Portion(totalStaked, v, total)
  }

  /** The amount distributed, before it wraps. */
  ghost function Distributed(st: State, total: uint64): int {
    Sum(st.validators, PortionWeight(st.totalStaked, total))
  }

  /** Rewards of one epoch: APR 25%, shared out among more than `BASE_VALIDATORS` validators,
      for three seconds per block, and never past the maximum supply. */
  function RewardsPerEpoch(st: State): uint64 {
    var n := |st.validators|;
    var raw := if n <= BASE_VALIDATORS then st.totalStaked * (EPOCH_LENGTH * 3) / (4 * SECONDS_PER_YEAR)
               else st.totalStaked * 25 * (EPOCH_LENGTH * 3) / (n * SECONDS_PER_YEAR);
    var r: uint64 := raw % TWO_TO_64;
    if WrapAdd(st.totalSupply, r) > st.maxSupply then WrapSub(st.maxSupply, st.totalSupply) else r
  }

  /** The current block worked off and, at the end of an epoch, its rewards distributed. */
  function Rewarded(st: State): State {
    var s := ProcessEvents(st, st.height);
    if st.height % EPOCH_LENGTH == 0 then Distribute(s, RewardsPerEpoch(s), st.height / EPOCH_LENGTH) else s
  }

  ghost function MintedAmount(st: State): int {
    var s := ProcessEvents(st, st.height);
    if st.height % EPOCH_LENGTH == 0 then Distributed(s, RewardsPerEpoch(s)) else 0
  }

  /** Supply after `AddToTotalSupply`: cut off at the maximum. */
  function CappedSupply(supply: uint64, maxSupply: uint64, amount: uint64): uint64 {
    var capped := if WrapAdd(supply, amount) > maxSupply then WrapSub(maxSupply, supply) else amount;
    WrapAdd(supply, capped)
  }

  /** Supply after a block: minting adds the amount, and a non-zero amount is added once more, capped. */
  function SupplyAfterBlock(supply: uint64, maxSupply: uint64, minted: uint64): uint64 {
    var s := WrapAdd(supply, minted);
    if minted > 0 then CappedSupply(s, maxSupply, minted) else s
  }

  function WithMinted(s: State, minted: uint64): State {
    s.(totalSupply := SupplyAfterBlock(s.totalSupply, s.maxSupply, minted))
  }

  /** What accepting the next block does. */
  ghost function AcceptBlock(st: State): State {
    var next := st.(height := st.height + 1);
    WithMinted(Rewarded(next), MintedAmount(next) % TWO_TO_64)
  }
}
