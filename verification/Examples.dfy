/** Concrete runs, all of whose events the staking actions and their decoders let through, in which the balancer
    does something that its users would not expect. Amounts are in units of 10^-9 NAI. */
module Examples {
  import opened Types
  import opened Sums
  import opened Emission
  import opened Delegations
  import opened Rewards
  import opened Balancer
  import opened Payouts
  import opened Solvency
  import opened StakeTotals
  import opened Scenes

  const SUPPLY: uint64 := 853_000_000_000_000_000
  const MAX_SUPPLY: uint64 := 10_000_000_000_000_000_000

  /** The smallest stake and the smallest delegation that are accepted. */
  const STAKE: uint64 := 100_000_000_000
  const DELEGATION: uint64 := 25_000_000_000

  /** What an epoch's rewards are when one delegation is recorded, what is distributed then, and the delegators' part. */
  const REWARDS: uint64 := 5945
  const PORTION: uint64 := 29725
  const PART: uint64 := 2972

  function Start(): Guarded {
    NewGuarded(SUPPLY, MAX_SUPPLY)
  }

  const ENDS: map<NodeId, nat> := map[1 := 100]

  /** The guarded run is in state `st`, with the stake of validator 1 on record until block 100. */
  predicate At(g: Guarded, st: State) {
    g.w.st == st && g.ends == ENDS
  }

  // ---------------------------------------------------------------------------------------------
  // Putting runs together

  lemma BlockStep(g: Guarded)
    ensures var h := GuardedStep(g, NextBlock); h.w.st == AcceptBlock(g.w.st) && h.ends == g.ends
  {
    hide AcceptBlock, MintedAmount;
  }

  /** One more block. */
  lemma OneBlock(evs: seq<Event>, st: State)
    requires At(GuardedRun(Start(), evs), st)
    ensures At(GuardedRun(Start(), evs + [NextBlock]), AcceptBlock(st))
  {
    hide AcceptBlock, GuardedRun, GuardedStep;
    GuardedSnoc(Start(), evs, NextBlock);
    BlockStep(GuardedRun(Start(), evs));
  }

  predicate Quiet(st: State, b: nat) {
    b % EPOCH_LENGTH != 0 && Eventless(st, b)
  }

  lemma QuietBlock(st: State)
    requires Quiet(st, st.height + 1)
    ensures AcceptBlock(st) == st.(height := st.height + 1)
  {
    hide ProcessEvents;
    NoEvents(st.(height := st.height + 1), st.height + 1);
    PlainBlock(st);
  }

  /** Some blocks in which nothing happens. */
  lemma {:induction false} QuietBlocks(evs: seq<Event>, st: State, k: nat)
    requires At(GuardedRun(Start(), evs), st)
    requires forall b | st.height < b <= st.height + k :: Quiet(st, b)
    ensures At(GuardedRun(Start(), evs + Blocks(k)), st.(height := st.height + k))
    decreases k
  {
    hide AcceptBlock, GuardedRun;
    if k == 0 {
      assert evs + Blocks(0) == evs;
    } else {
      QuietBlocks(evs, st, k - 1);
      assert evs + Blocks(k) == (evs + Blocks(k - 1)) + [NextBlock];
      OneBlock(evs + Blocks(k - 1), st.(height := st.height + k - 1));
      assert Quiet(st, st.height + k);
      QuietBlock(st.(height := st.height + k - 1));
    }
  }

  /** A delegation to validator 1. */
  lemma Delegates(evs: seq<Event>, st: State, v: Validator, who: Address, start: uint64, end: uint64)
    requires At(GuardedRun(Start(), evs), st) && st.validators == map[1 := v] && who !in v.delegators
    requires 0 < start && st.height <= start < end
    ensures var e := DelegatorEvent(1, who);
            At(GuardedRun(Start(), evs + [DelegateStake(1, who, start, end, DELEGATION)]),
               st.(validators := map[1 := v.(delegators := v.delegators[who := Delegator(false, DELEGATION, start, end, st.height)])],
                   delegatorActivations := Enqueue(st.delegatorActivations, start, e),
                   delegatorDeactivations := Enqueue(st.delegatorDeactivations, end, e)))
  {
    hide GuardedRun;
    var g := GuardedRun(Start(), evs);
    var ev := DelegateStake(1, who, start, end, DELEGATION);
    GuardedSnoc(Start(), evs, ev);
    assert Admits(g, ev);
    assert GuardedStep(g, ev).w.st.validators
        == map[1 := v.(delegators := v.delegators[who := Delegator(false, DELEGATION, start, end, st.height)])];
  }

  /** A delegator leaves validator 1, which stays because it is active. */
  lemma Leaves(evs: seq<Event>, st: State, v: Validator, who: Address)
    requires At(GuardedRun(Start(), evs), st) && st.validators == map[1 := v] && v.isActive
    requires who in v.delegators && v.delegators[who].end <= st.height
    ensures var reward := Min(DelegationReward(v, v.delegators[who]), v.delegatedReward);
            At(GuardedRun(Start(), evs + [UndelegateStake(1, who)]),
               st.(validators := map[1 := v.(delegatedReward := v.delegatedReward - reward,
                                             delegators := v.delegators - {who}, paidOut := v.paidOut + reward)]))
  {
    hide GuardedRun, DelegationReward;
    var g := GuardedRun(Start(), evs);
    var ev := UndelegateStake(1, who);
    GuardedSnoc(Start(), evs, ev);
    assert Admits(g, ev);
    var reward := Min(DelegationReward(v, v.delegators[who]), v.delegatedReward);
    assert GuardedStep(g, ev).w.st.validators
        == map[1 := v.(delegatedReward := v.delegatedReward - reward, delegators := v.delegators - {who},
                       paidOut := v.paidOut + reward)];
  }

  // ---------------------------------------------------------------------------------------------
  // One validator and one delegation

  const H: Handle := Handle(1, 0)
  const A: DelegatorEvent := DelegatorEvent(1, 2)
  const B: DelegatorEvent := DelegatorEvent(1, 3)

  /** The queue in which the validator's end stays. */
  const LAST: map<nat, seq<Handle>> := map[100 := [H]]

  function Register(from: uint64): Event {
    RegisterStake(1, from, 100, STAKE, 10)
  }

  function Registered(from: uint64): State {
    Scene(0, SUPPLY, MAX_SUPPLY, 0, NewValidator(0, STAKE, 10), map[from := [H]], LAST, map[], map[])
  }

  lemma RegisterIsAdmitted(from: uint64)
    requires 0 < from <= 10
    ensures At(GuardedRun(Start(), [Register(from)]), Registered(from))
  {
    GuardedSnoc(Start(), [], Register(from));
    assert [] + [Register(from)] == [Register(from)] && [] + [H] == [H];
    assert GuardedStep(Start(), Register(from)).ends == ENDS;
  }

  lemma FirstQueued(b: nat, e: DelegatorEvent)
    ensures Enqueue(map[], b, e) == map[b := [e]]
  {
    assert [] + [e] == [e];
  }

  // ---------------------------------------------------------------------------------------------
  // A delegation that starts where the chain is

  /** A delegation that starts at the height already reached is accepted, and inside its window it is not active. */
  lemma StartingNowIsMissed()
    ensures var evs := [Register(5)] + Blocks(1) + [DelegateStake(1, 2, 1, 50, DELEGATION)] + Blocks(1);
            var st := GuardedRun(Start(), evs).w.st;
            && st.height == 2 && 1 in st.validators && 2 in st.validators[1].delegators
            && var d := st.validators[1].delegators[2];
               d.start <= 2 < d.end && !d.isActive && st.validators[1].delegated == 0
  {
    hide GuardedRun;
    var v := NewValidator(0, STAKE, 10);
    var e1 := [Register(5)] + Blocks(1);
    RegisterIsAdmitted(5);
    QuietBlocks([Register(5)], Registered(5), 1);
    Delegates(e1, Registered(5).(height := 1), v, 2, 1, 50);
    var st := Scene(1, SUPPLY, MAX_SUPPLY, 0, v.(delegators := map[2 := Delegator(false, DELEGATION, 1, 50, 1)]),
                    map[5 := [H]], LAST, map[1 := [A]], map[50 := [A]]);
    FirstQueued(1, A);
    FirstQueued(50, A);
    QuietBlocks(e1 + [DelegateStake(1, 2, 1, 50, DELEGATION)], st, 1);
  }

  // ---------------------------------------------------------------------------------------------
  // The first epoch

  /** Validator and delegation of address 2 start at block 1; the delegation lasts until block `until`. */
  function Opening(until: uint64): seq<Event> {
    [Register(1)] + [DelegateStake(1, 2, 1, until, DELEGATION)]
  }

  function FirstDelegator(on: bool, until: uint64): Delegator {
    Delegator(on, DELEGATION, 1, until, 0)
  }

  function Opened(until: uint64): State {
    Scene(0, SUPPLY, MAX_SUPPLY, 0, NewValidator(0, STAKE, 10).(delegators := map[2 := FirstDelegator(false, until)]),
          map[1 := [H]], LAST, map[1 := [A]], map[until := [A]])
  }

  lemma OpeningIsAdmitted(until: uint64)
    requires 1 < until
    ensures At(GuardedRun(Start(), Opening(until)), Opened(until))
  {
    hide GuardedRun;
    RegisterIsAdmitted(1);
    Delegates([Register(1)], Registered(1), NewValidator(0, STAKE, 10), 2, 1, until);
    FirstQueued(1, A);
    FirstQueued(until, A);
  }

  function Working(until: uint64): Validator {
    NewValidator(0, STAKE, 10).(delegated := DELEGATION, delegators := map[2 := FirstDelegator(true, until)])
  }

  /** From block 1 on. */
  function Started(until: uint64, height: nat): State {
    Scene(height, SUPPLY, MAX_SUPPLY, DELEGATION, Working(until), map[], LAST, map[], map[until := [A]])
  }

  lemma StartingValidator(until: uint64)
    requires 10 < until
    ensures var st := Opened(until).(height := 1);
            AfterValidatorEvents(st, 1) == st.(activations := map[])
  {
    var st := Opened(until).(height := 1);
    assert Queue(st.activations, 1) == [H] && [H][..0] == [];
    assert ActivateAll(st, [H]) == Activate(ActivateAll(st, []), H);
    assert st.activations - {1} == map[] && st.deactivations - {1} == st.deactivations;
  }

  lemma StartingDelegation(until: uint64)
    requires 10 < until
    ensures AfterDelegatorEvents(Opened(until).(height := 1, activations := map[]), 1) == Started(until, 1)
  {
    var st := Opened(until).(height := 1, activations := map[]);
    SingleEvents(st, 1);
    NoValidatorEvents(st, 1);
    var s1 := Switch(st, A, 1, true);
    assert s1.validators[1].delegators == map[2 := FirstDelegator(true, until)];
    assert s1.validators == Started(until, 1).validators;
    assert st.delegatorActivations - {1} == map[];
    assert st.delegatorDeactivations - {1} == st.delegatorDeactivations;
  }

  lemma FirstBlock(until: uint64)
    requires 10 < until
    ensures AcceptBlock(Opened(until)) == Started(until, 1)
  {
    hide AfterValidatorEvents, AfterDelegatorEvents, AcceptBlock;
    StartingValidator(until);
    StartingDelegation(until);
    PlainBlock(Opened(until));
  }

  lemma NineBlocks(until: uint64)
    requires 10 < until
    ensures At(GuardedRun(Start(), Opening(until) + [NextBlock] + Blocks(8)), Started(until, 9))
  {
    hide GuardedRun, AcceptBlock, Opened;
    OpeningIsAdmitted(until);
    OneBlock(Opening(until), Opened(until));
    FirstBlock(until);
    QuietBlocks(Opening(until) + [NextBlock], Started(until, 1), 8);
  }

  /** Rewards and portion whenever just one delegation is recorded, for both supplies that occur. */
  lemma EpochAmounts(st: State, v: Validator)
    requires st.validators == map[1 := v] && st.totalStaked == DELEGATION
    requires st.totalSupply <= SUPPLY + 4 * PORTION && st.maxSupply == MAX_SUPPLY
    requires v.isActive && v.staked == STAKE && v.delegated == DELEGATION
    ensures RewardsPerEpoch(st) == REWARDS && Portion(DELEGATION, v, REWARDS) == PORTION
  {
    assert st.validators.Keys == {1};
    assert |st.validators.Keys| == 1;
    RewardsOf(st);
  }

  lemma RewardsOf(st: State)
    requires |st.validators| == 1 && st.totalStaked == DELEGATION
    requires st.totalSupply <= SUPPLY + 4 * PORTION && st.maxSupply == MAX_SUPPLY
    ensures RewardsPerEpoch(st) == REWARDS
  {
    assert REWARDS * (4 * SECONDS_PER_YEAR) <= DELEGATION * (EPOCH_LENGTH * 3) < (REWARDS + 1) * (4 * SECONDS_PER_YEAR);
  }

  function Paid(v: Validator, epoch: nat): Validator
    requires v.stakedReward <= SUPPLY && v.delegatedReward <= SUPPLY
  {
    v.(stakedReward := v.stakedReward + PORTION - PART, delegatedReward := v.delegatedReward + PART,
       epochRewards := v.epochRewards[epoch := PART], epochDelegated := v.epochDelegated[epoch := DELEGATION])
  }

  /** A block that ends an epoch while just one delegation is recorded, and nothing is queued for it. */
  lemma PayingBlock(st: State, v: Validator)
    requires (st.height + 1) % EPOCH_LENGTH == 0 && Eventless(st, st.height + 1)
    requires st.validators == map[1 := v] && st.totalStaked == DELEGATION
    requires st.totalSupply <= SUPPLY + 2 * PORTION && st.maxSupply == MAX_SUPPLY
    requires v.isActive && v.staked == STAKE && v.delegated == DELEGATION && v.feeRate == 10
    requires v.stakedReward <= SUPPLY && v.delegatedReward <= SUPPLY
    ensures AcceptBlock(st) == st.(height := st.height + 1, totalSupply := st.totalSupply + 2 * PORTION,
                                   validators := map[1 := Paid(v, (st.height + 1) / EPOCH_LENGTH)])
    ensures MintedAmount(st.(height := st.height + 1)) == PORTION
  {
    hide ProcessEvents, AcceptBlock, MintedAmount, RewardsPerEpoch, Portion, Credited, SupplyAfterBlock, Eventless;
    var s := st.(height := st.height + 1);
    LaterEventless(st);
    NoEvents(s, st.height + 1);
    EpochAmounts(s, v);
    EpochBlock(st, s, v);
    CreditedIs(DELEGATION, v, REWARDS, (st.height + 1) / EPOCH_LENGTH, PORTION, PART);
    SupplyCountsTwice(st.totalSupply, MAX_SUPPLY, PORTION);
  }

  lemma LaterEventless(st: State)
    requires Eventless(st, st.height + 1)
    ensures Eventless(st.(height := st.height + 1), st.height + 1)
  {
  }

  /** Ten blocks after one registration and one delegation, an epoch with rewards of 5945 distributes 29725, because
      the recorded total holds the delegation only; and the supply grows by twice that. */
  lemma DistributionCanExceed()
    ensures var st := GuardedRun(Start(), Opening(50) + [NextBlock] + Blocks(8)).w.st;
            var next := st.(height := 10);
            && st.height == 9 && st.totalStaked == DELEGATION && ActiveTotal(next) == STAKE + DELEGATION
            && RewardsPerEpoch(ProcessEvents(next, 10)) == REWARDS && MintedAmount(next) == PORTION
            && AcceptBlock(st).totalSupply == SUPPLY + 2 * PORTION
  {
    hide GuardedRun, RewardsPerEpoch, MintedAmount, ProcessEvents, AcceptBlock, Portion;
    var st, next := Started(50, 9), Started(50, 10);
    NineBlocks(50);
    NoEvents(next, 10);
    EpochAmounts(next, Working(50));
    PayingBlock(st, Working(50));
    SumOfOne(next.validators, 1, StakeWeight());
  }

  /** After block 10. */
  function Tenth(until: uint64): State {
    Scene(10, SUPPLY + 2 * PORTION, MAX_SUPPLY, DELEGATION, Paid(Working(until), 1), map[], LAST, map[], map[until := [A]])
  }

  function ToTenth(until: uint64): seq<Event> {
    Opening(until) + [NextBlock] + Blocks(8) + [NextBlock]
  }

  lemma TenBlocks(until: uint64)
    requires 10 < until
    ensures At(GuardedRun(Start(), ToTenth(until)), Tenth(until))
  {
    hide GuardedRun, AcceptBlock, MintedAmount;
    NineBlocks(until);
    OneBlock(Opening(until) + [NextBlock] + Blocks(8), Started(until, 9));
    PayingBlock(Started(until, 9), Working(until));
  }

  // ---------------------------------------------------------------------------------------------
  // A delegation in the middle of an epoch

  function Latecomer(on: bool): Delegator {
    Delegator(on, DELEGATION, 12, 25, 11)
  }

  /** Validator 1 with both delegations; `amount` is delegated. */
  function Shared(first: bool, second: bool, amount: uint64): Validator {
    Paid(Working(15), 1).(delegated := amount, delegators := map[2 := FirstDelegator(first, 15), 3 := Latecomer(second)])
  }

  function Mid(height: nat, total: uint64, v: Validator, ons: map<nat, seq<DelegatorEvent>>, offs: map<nat, seq<DelegatorEvent>>): State {
    Scene(height, SUPPLY + 2 * PORTION, MAX_SUPPLY, total, v, map[], LAST, ons, offs)
  }

  lemma LatecomerJoins()
    ensures Switched(Shared(true, false, DELEGATION), 3, true) == Shared(true, true, 2 * DELEGATION)
  {
    assert Shared(true, false, DELEGATION).delegators[3 := Latecomer(true)] == Shared(true, true, 2 * DELEGATION).delegators;
  }

  lemma MidJoins()
    ensures AcceptBlock(Mid(11, DELEGATION, Shared(true, false, DELEGATION), map[12 := [B]], map[15 := [A], 25 := [B]]))
         == Mid(12, 2 * DELEGATION, Shared(true, true, 2 * DELEGATION), map[], map[15 := [A], 25 := [B]])
  {
    hide AcceptBlock, Switch, Switched;
    var ons: map<nat, seq<DelegatorEvent>>, offs: map<nat, seq<DelegatorEvent>> := map[12 := [B]], map[15 := [A], 25 := [B]];
    var v := Shared(true, false, DELEGATION);
    SwitchBlock(Mid(11, DELEGATION, v, ons, offs), v, 3, true);
    Fired(Mid(12, DELEGATION, v, ons, offs), v, 3, 12, true);
    LatecomerJoins();
    assert ons - {12} == map[] && offs - {12} == offs;
  }

  lemma FirstEnds()
    ensures Switched(Shared(true, true, 2 * DELEGATION), 2, false) == Shared(false, true, DELEGATION)
  {
    assert Shared(true, true, 2 * DELEGATION).delegators[2 := FirstDelegator(false, 15)] == Shared(false, true, DELEGATION).delegators;
  }

  lemma MidLeaves()
    ensures AcceptBlock(Mid(14, 2 * DELEGATION, Shared(true, true, 2 * DELEGATION), map[], map[15 := [A], 25 := [B]]))
         == Mid(15, DELEGATION, Shared(false, true, DELEGATION), map[], map[25 := [B]])
  {
    hide AcceptBlock, Switch, Switched;
    var ons: map<nat, seq<DelegatorEvent>>, offs: map<nat, seq<DelegatorEvent>> := map[], map[15 := [A], 25 := [B]];
    var v := Shared(true, true, 2 * DELEGATION);
    SwitchBlock(Mid(14, 2 * DELEGATION, v, ons, offs), v, 2, false);
    Fired(Mid(15, 2 * DELEGATION, v, ons, offs), v, 2, 15, false);
    FirstEnds();
    assert ons - {15} == map[] && offs - {15} == map[25 := [B]];
  }

  lemma PartOf(v: Validator, d: Delegator, epoch: nat)
    requires epoch in v.epochRewards && v.epochRewards[epoch] == PART
    requires epoch in v.epochDelegated && v.epochDelegated[epoch] == DELEGATION && d.staked == DELEGATION
    ensures EpochShare(v, d, epoch) == PART
  {
    assert PART * DELEGATION / DELEGATION == PART;
  }

  /** Shares of a window that touches epoch 1, and perhaps 0, of which nothing is on record. */
  lemma OnePart(v: Validator, d: Delegator)
    requires v.epochRewards == map[1 := PART] && v.epochDelegated == map[1 := DELEGATION] && d.staked == DELEGATION
    requires d.start < 10 && 10 <= d.end < 20
    ensures DelegationReward(v, d) == PART
  {
    PartOf(v, d, 1);
    assert EpochShares(v, d, 0, 0) == 0;
    assert EpochShares(v, d, 0, 1) == 0;
    assert EpochShares(v, d, 0, 2) == PART;
  }

  /** Shares of a window that touches epochs 1 and 2, and perhaps 0. */
  lemma TwoParts(v: Validator, d: Delegator)
    requires v.epochRewards == map[1 := PART, 2 := PART] && v.epochDelegated == map[1 := DELEGATION, 2 := DELEGATION]
    requires d.staked == DELEGATION && d.start < 20 && 20 <= d.end < 30
    ensures DelegationReward(v, d) == DueTo(v, d) == 2 * PART
  {
    PartOf(v, d, 1);
    PartOf(v, d, 2);
    var first := d.start / EPOCH_LENGTH;
    assert Due(v, d, first, 0) == 0;
    assert Due(v, d, first, 1) == 0;
    assert Due(v, d, first, 2) == PART;
    assert Due(v, d, first, 3) == 2 * PART;
    SharesAreDue(v, d, first, 3);
  }

  /** After the first delegator has left. */
  function Alone(on: bool, amount: uint64): Validator {
    Paid(Working(15), 1).(delegated := amount, delegatedReward := 0, paidOut := PART, delegators := map[3 := Latecomer(on)])
  }

  function ToEleven(): seq<Event> {
    ToTenth(15) + Blocks(1) + [DelegateStake(1, 3, 12, 25, DELEGATION)]
  }

  lemma ElevenBlocks()
    ensures At(GuardedRun(Start(), ToEleven()),
               Mid(11, DELEGATION, Shared(true, false, DELEGATION), map[12 := [B]], map[15 := [A], 25 := [B]]))
  {
    hide GuardedRun, AcceptBlock;
    var offs: map<nat, seq<DelegatorEvent>> := map[15 := [A], 25 := [B]];
    TenBlocks(15);
    QuietBlocks(ToTenth(15), Tenth(15), 1);
    Delegates(ToTenth(15) + Blocks(1), Tenth(15).(height := 11), Paid(Working(15), 1), 3, 12, 25);
    FirstQueued(12, B);
    assert Enqueue(map[15 := [A]], 25, B) == offs by { assert [] + [B] == [B]; }
    assert Paid(Working(15), 1).delegators[3 := Latecomer(false)] == map[2 := FirstDelegator(true, 15), 3 := Latecomer(false)];
  }

  function ToFifteen(): seq<Event> {
    ToEleven() + [NextBlock] + Blocks(2) + [NextBlock] + [UndelegateStake(1, 2)]
  }

  lemma FifteenBlocks()
    ensures At(GuardedRun(Start(), ToFifteen()), Mid(15, DELEGATION, Alone(true, DELEGATION), map[], map[25 := [B]]))
  {
    hide GuardedRun, AcceptBlock, DelegationReward;
    var offs: map<nat, seq<DelegatorEvent>> := map[15 := [A], 25 := [B]];
    var e := ToEleven();
    ElevenBlocks();
    OneBlock(e, Mid(11, DELEGATION, Shared(true, false, DELEGATION), map[12 := [B]], offs));
    MidJoins();
    QuietBlocks(e + [NextBlock], Mid(12, 2 * DELEGATION, Shared(true, true, 2 * DELEGATION), map[], offs), 2);
    OneBlock(e + [NextBlock] + Blocks(2), Mid(14, 2 * DELEGATION, Shared(true, true, 2 * DELEGATION), map[], offs));
    MidLeaves();
    var v := Shared(false, true, DELEGATION);
    Leaves(e + [NextBlock] + Blocks(2) + [NextBlock], Mid(15, DELEGATION, v, map[], map[25 := [B]]), v, 2);
    OnePart(v, FirstDelegator(false, 15));
    assert v.delegators - {2} == map[3 := Latecomer(true)];
  }

  lemma LatecomerStops()
    ensures Switched(Paid(Alone(true, DELEGATION), 2), 3, false) == Paid(Alone(false, 0), 2)
  {
    assert Paid(Alone(true, DELEGATION), 2).delegators[3 := Latecomer(false)] == Paid(Alone(false, 0), 2).delegators;
  }

  /** The same state after two epochs. */
  function Late(height: nat, total: uint64, v: Validator, ons: map<nat, seq<DelegatorEvent>>, offs: map<nat, seq<DelegatorEvent>>): State {
    Mid(height, total, v, ons, offs).(totalSupply := SUPPLY + 4 * PORTION)
  }

  lemma LatecomerEnds()
    ensures AcceptBlock(Late(24, DELEGATION, Paid(Alone(true, DELEGATION), 2), map[], map[25 := [B]]))
         == Late(25, 0, Paid(Alone(false, 0), 2), map[], map[])
  {
    hide AcceptBlock, Switch, Switched;
    var ons: map<nat, seq<DelegatorEvent>>, offs: map<nat, seq<DelegatorEvent>> := map[], map[25 := [B]];
    var v := Paid(Alone(true, DELEGATION), 2);
    SwitchBlock(Late(24, DELEGATION, v, ons, offs), v, 3, false);
    Fired(Late(25, DELEGATION, v, ons, offs), v, 3, 25, false);
    LatecomerStops();
    assert ons - {25} == map[] && offs - {25} == map[];
  }

  function ToTheEnd(): seq<Event> {
    ToFifteen() + Blocks(4) + [NextBlock] + Blocks(4) + [NextBlock]
  }

  lemma TwentyFiveBlocks()
    ensures At(GuardedRun(Start(), ToTheEnd()), Late(25, 0, Paid(Alone(false, 0), 2), map[], map[]))
  {
    hide GuardedRun, AcceptBlock, MintedAmount, At;
    var v := Alone(true, DELEGATION);
    var offs: map<nat, seq<DelegatorEvent>> := map[25 := [B]];
    FifteenBlocks();
    QuietBlocks(ToFifteen(), Mid(15, DELEGATION, v, map[], offs), 4);
    OneBlock(ToFifteen() + Blocks(4), Mid(19, DELEGATION, v, map[], offs));
    PayingBlock(Mid(19, DELEGATION, v, map[], offs), v);
    QuietBlocks(ToFifteen() + Blocks(4) + [NextBlock], Late(20, DELEGATION, Paid(v, 2), map[], offs), 4);
    OneBlock(ToFifteen() + Blocks(4) + [NextBlock] + Blocks(4), Late(24, DELEGATION, Paid(v, 2), map[], offs));
    LatecomerEnds();
  }

  /** A delegation that starts in the middle of an epoch is due that epoch too, out of a record that somebody else
      has been paid already: when its window is over it is paid half of what is due. */
  lemma LastToLeaveIsCut()
    ensures var st := GuardedRun(Start(), ToTheEnd()).w.st;
            && st.height == 25 && 1 in st.validators && 3 in st.validators[1].delegators
            && st.validators[1].delegators[3].end <= st.height
            && Undelegate(st, 1, 3).Ok? && Undelegate(st, 1, 3).value.1 == PART
            && DueTo(st.validators[1], st.validators[1].delegators[3]) == 2 * PART
  {
    hide GuardedRun, DelegationReward, DueTo, ToTheEnd;
    TwentyFiveBlocks();
    TwoParts(Paid(Alone(false, 0), 2), Latecomer(false));
  }

  // ---------------------------------------------------------------------------------------------
  // A delegation that is never active

  function Sleeper(): Delegator {
    Delegator(false, DELEGATION, 10, 26, 10)
  }

  /** Validator 1 with the sleeper recorded at block 10. */
  function WithSleeper(first: bool, amount: uint64): Validator {
    Paid(Working(25), 1).(delegated := amount, delegators := map[2 := FirstDelegator(first, 25), 3 := Sleeper()])
  }

  lemma WorkerStops()
    ensures Switched(Paid(WithSleeper(true, DELEGATION), 2), 2, false) == Paid(WithSleeper(false, 0), 2)
  {
    assert Paid(WithSleeper(true, DELEGATION), 2).delegators[2 := FirstDelegator(false, 25)]
        == Paid(WithSleeper(false, 0), 2).delegators;
  }

  lemma WorkerEnds()
    ensures AcceptBlock(Late(24, DELEGATION, Paid(WithSleeper(true, DELEGATION), 2), map[10 := [B]], map[25 := [A], 26 := [B]]))
         == Late(25, 0, Paid(WithSleeper(false, 0), 2), map[10 := [B]], map[26 := [B]])
  {
    hide AcceptBlock, Switch, Switched;
    var ons: map<nat, seq<DelegatorEvent>>, offs: map<nat, seq<DelegatorEvent>> := map[10 := [B]], map[25 := [A], 26 := [B]];
    var v := Paid(WithSleeper(true, DELEGATION), 2);
    SwitchBlock(Late(24, DELEGATION, v, ons, offs), v, 2, false);
    Fired(Late(25, DELEGATION, v, ons, offs), v, 2, 25, false);
    WorkerStops();
    assert ons - {25} == ons && offs - {25} == map[26 := [B]];
  }

  lemma SleeperEnds()
    ensures AcceptBlock(Late(25, 0, Paid(WithSleeper(false, 0), 2), map[10 := [B]], map[26 := [B]]))
         == Late(26, 0, Paid(WithSleeper(false, 0), 2), map[10 := [B]], map[])
  {
    hide AcceptBlock;
    var ons: map<nat, seq<DelegatorEvent>>, offs: map<nat, seq<DelegatorEvent>> := map[10 := [B]], map[26 := [B]];
    var v := Paid(WithSleeper(false, 0), 2);
    SwitchBlock(Late(25, 0, v, ons, offs), v, 3, false);
    assert ons - {26} == ons && offs - {26} == map[];
  }

  function ToSleeper(): seq<Event> {
    ToTenth(25) + [DelegateStake(1, 3, 10, 26, DELEGATION)]
  }

  function ToWaking(): seq<Event> {
    ToSleeper() + Blocks(9) + [NextBlock] + Blocks(4) + [NextBlock] + [NextBlock]
  }

  lemma ToTwenty()
    ensures At(GuardedRun(Start(), ToSleeper() + Blocks(9) + [NextBlock]),
               Late(20, DELEGATION, Paid(WithSleeper(true, DELEGATION), 2), map[10 := [B]], map[25 := [A], 26 := [B]]))
  {
    hide GuardedRun, AcceptBlock, MintedAmount, At;
    var v := WithSleeper(true, DELEGATION);
    var ons: map<nat, seq<DelegatorEvent>>, offs: map<nat, seq<DelegatorEvent>> := map[10 := [B]], map[25 := [A], 26 := [B]];
    TenBlocks(25);
    Delegates(ToTenth(25), Tenth(25), Paid(Working(25), 1), 3, 10, 26);
    FirstQueued(10, B);
    assert Enqueue(map[25 := [A]], 26, B) == offs by { assert [] + [B] == [B]; }
    assert Paid(Working(25), 1).delegators[3 := Sleeper()] == map[2 := FirstDelegator(true, 25), 3 := Sleeper()];
    QuietBlocks(ToSleeper(), Mid(10, DELEGATION, v, ons, offs), 9);
    OneBlock(ToSleeper() + Blocks(9), Mid(19, DELEGATION, v, ons, offs));
    PayingBlock(Mid(19, DELEGATION, v, ons, offs), v);
  }

  lemma TwentySixBlocks()
    ensures At(GuardedRun(Start(), ToWaking()), Late(26, 0, Paid(WithSleeper(false, 0), 2), map[10 := [B]], map[]))
  {
    hide GuardedRun, AcceptBlock, MintedAmount;
    var v, w := Paid(WithSleeper(true, DELEGATION), 2), Paid(WithSleeper(false, 0), 2);
    var ons: map<nat, seq<DelegatorEvent>>, offs: map<nat, seq<DelegatorEvent>> := map[10 := [B]], map[25 := [A], 26 := [B]];
    var e := ToSleeper() + Blocks(9) + [NextBlock];
    ToTwenty();
    QuietBlocks(e, Late(20, DELEGATION, v, ons, offs), 4);
    OneBlock(e + Blocks(4), Late(24, DELEGATION, v, ons, offs));
    WorkerEnds();
    OneBlock(e + Blocks(4) + [NextBlock], Late(25, 0, w, ons, map[26 := [B]]));
    SleeperEnds();
  }

  /** A delegation recorded at the block at which it starts is never active, earns nothing, and is paid in full for
      two epochs when it leaves; and the one whose stake they were earned with, active throughout, then gets nothing. */
  lemma NeverActiveIsPaid()
    ensures var st := GuardedRun(Start(), ToWaking()).w.st;
            && st.height == 26 && 1 in st.validators && {2, 3} <= st.validators[1].delegators.Keys
            && var v := st.validators[1];
               && v.delegators[3] == Sleeper() && EarnedReward(v, v.delegators[3]) == 0
               && v.delegators[2].joined < v.delegators[2].start && EarnedReward(v, v.delegators[2]) == 2 * PART
               && Undelegate(st, 1, 3).Ok? && Undelegate(st, 1, 3).value.1 == 2 * PART
               && var t := Undelegate(st, 1, 3).value.0;
                  Undelegate(t, 1, 2).Ok? && Undelegate(t, 1, 2).value.1 == 0
  {
    hide GuardedRun, DelegationReward;
    var v := Paid(WithSleeper(false, 0), 2);
    TwentySixBlocks();
    TwoParts(v, Sleeper());
    NothingEarned(v);
    AllEarned(v);
  }

  lemma NothingEarned(v: Validator)
    ensures EarnedReward(v, Sleeper()) == 0
  {
    assert Earned(v, Sleeper(), 0) == 0;
    assert Earned(v, Sleeper(), 1) == 0;
    assert Earned(v, Sleeper(), 2) == 0;
    assert Earned(v, Sleeper(), 3) == 0;
  }

  lemma AllEarned(v: Validator)
    requires v.epochRewards == map[1 := PART, 2 := PART] && v.epochDelegated == map[1 := DELEGATION, 2 := DELEGATION]
    ensures EarnedReward(v, FirstDelegator(false, 25)) == 2 * PART
  {
    var d := FirstDelegator(false, 25);
    TwoParts(v, d);
    PartOf(v, d, 1);
    PartOf(v, d, 2);
    assert Earned(v, d, 1) == 0;
    assert Earned(v, d, 2) == PART;
    assert Earned(v, d, 3) == 2 * PART;
  }
}
