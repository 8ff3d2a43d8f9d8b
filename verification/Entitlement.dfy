/** When delegators are paid exactly for the epochs at whose block they were active, over all runs: the
    condition on a delegation, and for each delegation that fails it a run in which it is paid something else. */
module Entitlement {
  import opened Types
  import opened Sums
  import opened Emission
  import opened Delegations
  import opened Rewards
  import opened Balancer
  import opened Payouts
  import opened Scenes

  /** In this run, if it holds such a delegation, the balancer works out for it just what it earned. */
  ghost predicate Fair(totalSupply: uint64, maxSupply: uint64, evs: seq<Event>, n: NodeId, who: Address,
                       joined: nat, start: uint64, end: uint64, staked: uint64)
  {
    var st := Run(NewWorld(totalSupply, maxSupply), evs).st;
    totalSupply <= maxSupply && n in st.validators && who in st.validators[n].delegators ==>
      var v := st.validators[n];
      var d := v.delegators[who];
      d == Delegator(d.isActive, staked, start, end, joined) ==> DelegationReward(v, d) == EarnedReward(v, d)
  }

  lemma {:induction false} PaidAsEarnedIsFair(totalSupply: uint64, maxSupply: uint64, evs: seq<Event>, n: NodeId, who: Address,
                                              joined: nat, start: uint64, end: uint64, staked: uint64)
    requires PaidAsEarned(joined, start, end)
    ensures Fair(totalSupply, maxSupply, evs, n, who, joined, start, end, staked)
  {
    hide Run, DelegationReward, EarnedReward;
    if totalSupply <= maxSupply {
      RunFromStart(totalSupply, maxSupply, evs);
      var w := Run(NewWorld(totalSupply, maxSupply), evs);
      if n in w.st.validators && who in w.st.validators[n].delegators {
        assert EpochsAddUp(w.st.validators[n], w.st.height, Exact(w));
        if PaidAsEarned(w.st.validators[n].delegators[who].joined, w.st.validators[n].delegators[who].start,
                        w.st.validators[n].delegators[who].end) {
          EarnedIsPaid(w.st.validators[n], w.st.validators[n].delegators[who]);
        }
      }
    }
  }

  // ---------------------------------------------------------------------------------------------
  // Runs that record one epoch only

  /** A delegation that makes the rewards of an epoch one unit, and an own stake with which that unit becomes a
      portion as large as the delegation: the stake itself is not in the recorded total. */
  const HELP: uint64 := 4_204_800
  const OWN: uint64 := HELP * (HELP - 1)

  lemma RunSnoc(w: World, evs: seq<Event>, ev: Event)
    ensures Run(w, evs + [ev]) == Step(Run(w, evs), ev)
  {
    assert (evs + [ev])[..|evs|] == evs;
  }

  /** One more block, in terms of states. */
  lemma OneBlock(w: World, evs: seq<Event>)
    ensures Run(w, evs + [NextBlock]).st == AcceptBlock(Run(w, evs).st)
  {
    hide AcceptBlock, MintedAmount, Run;
    RunSnoc(w, evs, NextBlock);
  }

  function Start(): World {
    NewWorld(0, MAX_UINT64)
  }

  function Nobody(h: nat): State {
    NewState(0, MAX_UINT64).(height := h)
  }

  lemma NobodyBlock(h: nat)
    ensures AcceptBlock(Nobody(h)) == Nobody(h + 1)
  {
    hide AcceptBlock, ProcessEvents;
    NoEvents(Nobody(h).(height := h + 1), h + 1);
    InertBlock(Nobody(h));
  }

  lemma {:induction false} NobodyYet(h: nat)
    ensures Run(Start(), Blocks(h)).st == Nobody(h)
    decreases h
  {
    hide AcceptBlock, Step;
    if h > 0 {
      NobodyYet(h - 1);
      OneBlock(Start(), Blocks(h - 1));
      NobodyBlock(h - 1);
    }
  }

  const QUEUED := map[0 := [Handle(1, 0)]]

  /** Register validator 1 with the stake above, all of whose rewards go to delegators; its own events are for block 0,
      which is never worked off. */
  const REGISTER := RegisterStake(1, 0, 0, OWN, 100)

  /** Address 3 delegates for block `b` only. */
  function HelpAt(b: nat): Event
    requires b < MAX_UINT64
  {
    DelegateStake(1, 3, b, b + 1, HELP)
  }

  function Helper(b: nat, on: bool): Delegator
    requires 0 < b < MAX_UINT64
  {
    Delegator(on, HELP, b, b + 1, b - 1)
  }

  // ---------------------------------------------------------------------------------------------
  // The block that records an epoch

  lemma OneUnit(s: State)
    requires |s.validators| == 1 && s.totalStaked == HELP && s.totalSupply == 0 && s.maxSupply == MAX_UINT64
    ensures RewardsPerEpoch(s) == 1
  {
  }

  lemma HelpPortion(u: Validator)
    requires u.isActive && u.staked == OWN && u.delegated == HELP
    ensures Portion(HELP, u, 1) == HELP
  {
    assert OWN + HELP == HELP * HELP;
  }

  /** The validator at the moment of distribution, and after it. */
  predicate Struck(u: Validator) {
    && u.isActive && u.staked == OWN && u.feeRate == 100 && u.delegated == HELP
    && u.stakedReward == 0 && u.delegatedReward == 0 && u.epochRewards == map[] && u.epochDelegated == map[]
  }

  function Credit(u: Validator, epoch: nat): Validator {
    u.(delegatedReward := HELP, epochRewards := map[epoch := HELP], epochDelegated := map[epoch := HELP])
  }

  lemma RecordBlock(st: State, s: State, u: Validator)
    requires (st.height + 1) % EPOCH_LENGTH == 0
    requires s == ProcessEvents(st.(height := st.height + 1), st.height + 1) && s.height == st.height + 1
    requires s.validators == map[1 := u] && Struck(u)
    requires s.totalStaked == HELP && s.totalSupply == 0 && s.maxSupply == MAX_UINT64
    ensures AcceptBlock(st) == s.(validators := map[1 := Credit(u, s.height / EPOCH_LENGTH)],
                                  totalSupply := SupplyAfterBlock(0, MAX_UINT64, HELP))
  {
    hide ProcessEvents, RewardsPerEpoch, AcceptBlock, MintedAmount, Portion, SupplyAfterBlock, Credited;
    assert s.validators.Keys == {1};
    assert |s.validators.Keys| == 1;
    OneUnit(s);
    HelpPortion(u);
    EpochBlock(st, s, u);
    CreditedIs(HELP, u, 1, s.height / EPOCH_LENGTH, HELP, HELP);
  }

  // ---------------------------------------------------------------------------------------------
  // Recorded first, delegated later

  function Ready(b: nat): State
    requires 0 < b < MAX_UINT64
  {
    Scene(b - 1, 0, MAX_UINT64, 0, NewValidator(0, OWN, 100).(delegators := map[3 := Helper(b, false)]),
          QUEUED, QUEUED, map[b := [DelegatorEvent(1, 3)]], map[b + 1 := [DelegatorEvent(1, 3)]])
  }

  lemma Registered(w: World, h: nat)
    requires w.st == Nobody(h)
    ensures Step(w, REGISTER).st
         == Scene(h, 0, MAX_UINT64, 0, NewValidator(0, OWN, 100), QUEUED, QUEUED, map[], map[])
  {
    assert [] + [Handle(1, 0)] == [Handle(1, 0)];
  }

  /** A first delegation to validator 1. */
  lemma FirstDelegation(w: World, v: Validator, starts: map<nat, seq<Handle>>, who: Address, start: uint64, end: uint64, staked: uint64)
    requires w.st == Scene(w.st.height, w.st.totalSupply, w.st.maxSupply, w.st.totalStaked, v, starts, starts, map[], map[])
    requires v.delegators == map[] && w.st.height <= start < end
    ensures Step(w, DelegateStake(1, who, start, end, staked)).st
         == Scene(w.st.height, w.st.totalSupply, w.st.maxSupply, w.st.totalStaked,
                  v.(delegators := map[who := Delegator(false, staked, start, end, w.st.height)]), starts, starts,
                  map[start := [DelegatorEvent(1, who)]], map[end := [DelegatorEvent(1, who)]])
  {
    var e, d := DelegatorEvent(1, who), Delegator(false, staked, start, end, w.st.height);
    assert [] + [e] == [e];
    var t := Step(w, DelegateStake(1, who, start, end, staked)).st;
    assert t.validators == map[1 := v.(delegators := map[who := d])];
    assert t.delegatorActivations == map[start := [e]] && t.delegatorDeactivations == map[end := [e]];
  }

  function Prepared(b: nat): seq<Event>
    requires 0 < b < MAX_UINT64
  {
    Blocks(b - 1) + [REGISTER] + [HelpAt(b)]
  }

  lemma GettingReady(b: nat)
    requires 0 < b < MAX_UINT64
    ensures Run(Start(), Prepared(b)).st == Ready(b)
  {
    hide Run, Step;
    var w := Run(Start(), Blocks(b - 1));
    NobodyYet(b - 1);
    RunSnoc(Start(), Blocks(b - 1), REGISTER);
    RunSnoc(Start(), Blocks(b - 1) + [REGISTER], HelpAt(b));
    Registered(w, b - 1);
    FirstDelegation(Step(w, REGISTER), NewValidator(0, OWN, 100), QUEUED, 3, b, b + 1, HELP);
  }

  /** Block `b` has just recorded its epoch. */
  function Recording(b: nat): State
    requires 0 < b < MAX_UINT64
  {
    Scene(b, SupplyAfterBlock(0, MAX_UINT64, HELP), MAX_UINT64, HELP,
          Credit(NewValidator(0, OWN, 100).(delegated := HELP, delegators := map[3 := Helper(b, true)]), b / EPOCH_LENGTH),
          QUEUED, QUEUED, map[], map[b + 1 := [DelegatorEvent(1, 3)]])
  }

  lemma HelperStarts(b: nat)
    requires 0 < b < MAX_UINT64
    ensures ProcessEvents(Ready(b).(height := b), b)
         == Scene(b, 0, MAX_UINT64, HELP,
                  NewValidator(0, OWN, 100).(delegated := HELP, delegators := map[3 := Helper(b, true)]),
                  QUEUED, QUEUED, map[], map[b + 1 := [DelegatorEvent(1, 3)]])
  {
    hide ProcessEvents, Switch;
    var st := Ready(b).(height := b);
    SingleEvents(st, b);
    Fired(st, st.validators[1], 3, b, true);
    assert st.validators[1].delegators[3 := Helper(b, true)] == map[3 := Helper(b, true)];
    assert st.delegatorActivations - {b} == map[];
    assert st.delegatorDeactivations - {b} == st.delegatorDeactivations;
  }

  lemma RecordedByHelper(b: nat)
    requires 0 < b < MAX_UINT64 && b % EPOCH_LENGTH == 0
    ensures AcceptBlock(Ready(b)) == Recording(b)
  {
    hide ProcessEvents, AcceptBlock, SupplyAfterBlock;
    HelperStarts(b);
    var u := NewValidator(0, OWN, 100).(delegated := HELP, delegators := map[3 := Helper(b, true)]);
    RecordBlock(Ready(b), ProcessEvents(Ready(b).(height := b), b), u);
  }

  /** The validator has withdrawn; its helper is active at `b` and not after. */
  function Rest(b: nat, h: nat): State
    requires 0 < b < MAX_UINT64
  {
    var on := h == b;
    var v := NewValidator(0, 0, 100).(isActive := false, delegated := if on then HELP else 0, delegators := map[3 := Helper(b, on)]);
    Scene(h, SupplyAfterBlock(0, MAX_UINT64, HELP), MAX_UINT64, if on then HELP else 0, Credit(v, b / EPOCH_LENGTH),
          QUEUED, QUEUED, map[], if on then map[b + 1 := [DelegatorEvent(1, 3)]] else map[])
  }

  lemma Withdrawn(w: World, b: nat)
    requires 0 < b < MAX_UINT64 && w.st == Recording(b)
    ensures Step(w, WithdrawStake(1)).st == Rest(b, b)
  {
    hide SupplyAfterBlock;
    assert Step(w, WithdrawStake(1)).st.validators == Rest(b, b).validators;
  }

  lemma StopEvents(b: nat)
    requires 0 < b < MAX_UINT64
    ensures ProcessEvents(Rest(b, b).(height := b + 1), b + 1) == Rest(b, b + 1)
  {
    hide SupplyAfterBlock, ProcessEvents, Switch, Switched;
    var st := Rest(b, b).(height := b + 1);
    SingleEvents(st, b + 1);
    Fired(st, st.validators[1], 3, b + 1, false);
    StopSwitched(b);
    assert st.delegatorActivations - {b + 1} == map[] && st.delegatorDeactivations - {b + 1} == map[];
  }

  lemma StopSwitched(b: nat)
    requires 0 < b < MAX_UINT64
    ensures Switched(Rest(b, b).validators[1], 3, false) == Rest(b, b + 1).validators[1]
  {
    hide SupplyAfterBlock;
    assert Rest(b, b).validators[1].delegators[3 := Helper(b, false)] == map[3 := Helper(b, false)];
  }

  lemma RestEvents(b: nat, h: nat)
    requires 0 < b < MAX_UINT64 && b <= h
    ensures ProcessEvents(Rest(b, h).(height := h + 1), h + 1) == Rest(b, h + 1)
  {
    hide SupplyAfterBlock;
    var st := Rest(b, h).(height := h + 1);
    if h == b {
      StopEvents(b);
    } else {
      NoEvents(st, h + 1);
    }
  }

  lemma RestBlock(b: nat, h: nat)
    requires 0 < b < MAX_UINT64 && b <= h
    ensures AcceptBlock(Rest(b, h)) == Rest(b, h + 1)
  {
    hide ProcessEvents, AcceptBlock, SupplyAfterBlock;
    RestEvents(b, h);
    InertBlock(Rest(b, h));
  }

  /** Record the epoch of block `b`, withdraw, and wait until block `h`. */
  function Recorded(b: nat, h: nat): seq<Event>
    requires 0 < b < MAX_UINT64 && b <= h
    decreases h
  {
    if h == b then Prepared(b) + [NextBlock] + [WithdrawStake(1)] else Recorded(b, h - 1) + [NextBlock]
  }

  lemma {:induction false} RecordedIsRest(b: nat, h: nat)
    requires 0 < b < MAX_UINT64 && b <= h && b % EPOCH_LENGTH == 0
    ensures Run(Start(), Recorded(b, h)).st == Rest(b, h)
    decreases h
  {
    hide Run, Step, AcceptBlock, Rest, Recording, Ready;
    if h == b {
      GettingReady(b);
      OneBlock(Start(), Prepared(b));
      RecordedByHelper(b);
      RunSnoc(Start(), Prepared(b) + [NextBlock], WithdrawStake(1));
      Withdrawn(Run(Start(), Prepared(b) + [NextBlock]), b);
    } else {
      RecordedIsRest(b, h - 1);
      OneBlock(Start(), Recorded(b, h - 1));
      RestBlock(b, h - 1);
    }
  }

  /** A delegation recorded after the block of an epoch that it is paid for and does not earn. */
  lemma LateIsUnfair(b: nat, joined: nat, start: uint64, end: uint64, staked: uint64)
    requires 0 < b <= joined <= start < end && b % EPOCH_LENGTH == 0 && staked > 0
    requires var d := Delegator(false, staked, start, end, joined); Touches(d, b / EPOCH_LENGTH) && !Earns(d, b / EPOCH_LENGTH)
    ensures !Fair(0, MAX_UINT64, Recorded(b, joined) + [DelegateStake(1, 2, start, end, staked)], 1, 2, joined, start, end, staked)
  {
    hide Run, SupplyAfterBlock, DelegationReward, EarnedReward;
    var w := Run(Start(), Recorded(b, joined));
    var ev, d := DelegateStake(1, 2, start, end, staked), Delegator(false, staked, start, end, joined);
    RecordedIsRest(b, joined);
    RunSnoc(Start(), Recorded(b, joined), ev);
    var v := Step(w, ev).st.validators[1];
    assert v.delegators[2] == d;
    OneRecordDiffers(v, d, b / EPOCH_LENGTH, HELP);
  }

  // ---------------------------------------------------------------------------------------------
  // Delegated first, recorded later

  /** The delegation under test: recorded at `joined`, by address 2. */
  datatype Case = Case(joined: nat, start: uint64, end: uint64, staked: uint64) {
    predicate Started(h: nat) {
      joined < start <= h
    }

    function At(on: bool): Delegator {
      Delegator(on, staked, start, end, joined)
    }

    function Request(): Event {
      DelegateStake(1, 2, start, end, staked)
    }
  }

  /** The validator has withdrawn; the delegator waits, joining in when its window opens. */
  function Waiting(c: Case, h: nat): State {
    var on := c.Started(h);
    var v := NewValidator(0, 0, 100).(isActive := false, delegated := if on then c.staked else 0, delegators := map[2 := c.At(on)]);
    Scene(h, 0, MAX_UINT64, if on then c.staked else 0, v, QUEUED, QUEUED,
          if on then map[] else map[c.start := [DelegatorEvent(1, 2)]], map[c.end := [DelegatorEvent(1, 2)]])
  }

  function Joined(c: Case): seq<Event> {
    Blocks(c.joined) + [REGISTER] + [c.Request()] + [WithdrawStake(1)]
  }

  lemma JoinedIsWaiting(c: Case)
    requires c.joined <= c.start < c.end
    ensures Run(Start(), Joined(c)).st == Waiting(c, c.joined)
  {
    hide Run;
    var b := Blocks(c.joined);
    NobodyYet(c.joined);
    RunSnoc(Start(), b, REGISTER);
    RunSnoc(Start(), b + [REGISTER], c.Request());
    RunSnoc(Start(), b + [REGISTER] + [c.Request()], WithdrawStake(1));
    Registered(Run(Start(), b), c.joined);
    FirstDelegation(Run(Start(), b + [REGISTER]), NewValidator(0, OWN, 100), QUEUED, 2, c.start, c.end, c.staked);
    var w := Run(Start(), b + [REGISTER] + [c.Request()]);
    assert Step(w, WithdrawStake(1)).st.validators == Waiting(c, c.joined).validators;
  }

  lemma WaitEvents(c: Case, h: nat)
    requires c.joined <= c.start && c.joined <= h && h + 1 < c.end
    ensures ProcessEvents(Waiting(c, h).(height := h + 1), h + 1) == Waiting(c, h + 1)
  {
    var st := Waiting(c, h).(height := h + 1);
    if h + 1 == c.start {
      JoinEvents(c);
    } else {
      NoEvents(st, h + 1);
    }
  }

  lemma JoinEvents(c: Case)
    requires c.joined < c.start < c.end
    ensures ProcessEvents(Waiting(c, c.start - 1).(height := c.start), c.start) == Waiting(c, c.start)
  {
    hide ProcessEvents, Switch, Switched;
    var b, st := c.start, Waiting(c, c.start - 1).(height := c.start);
    var v := st.validators[1];
    SingleEvents(st, b);
    Fired(st, v, 2, b, true);
    JoinSwitched(c);
    assert st.delegatorActivations - {b} == map[] && st.delegatorDeactivations - {b} == st.delegatorDeactivations;
  }

  lemma JoinSwitched(c: Case)
    requires c.joined < c.start < c.end
    ensures Switched(Waiting(c, c.start - 1).validators[1], 2, true) == Waiting(c, c.start).validators[1]
    ensures WrapAdd(0, c.staked) == c.staked
  {
    assert Waiting(c, c.start - 1).validators[1].delegators[2 := c.At(true)] == map[2 := c.At(true)];
  }

  lemma WaitBlock(c: Case, h: nat)
    requires c.joined <= c.start && c.joined <= h && h + 1 < c.end
    ensures AcceptBlock(Waiting(c, h)) == Waiting(c, h + 1)
  {
    hide ProcessEvents, AcceptBlock;
    WaitEvents(c, h);
    InertBlock(Waiting(c, h));
  }

  function Waited(c: Case, h: nat): seq<Event>
    requires c.joined <= h
    decreases h
  {
    if h == c.joined then Joined(c) else Waited(c, h - 1) + [NextBlock]
  }

  lemma {:induction false} WaitedIsWaiting(c: Case, h: nat)
    requires c.joined <= c.start < c.end && c.joined <= h < c.end
    ensures Run(Start(), Waited(c, h)).st == Waiting(c, h)
    decreases h
  {
    hide Run, AcceptBlock, Waiting;
    if h == c.joined {
      JoinedIsWaiting(c);
    } else {
      WaitedIsWaiting(c, h - 1);
      OneBlock(Start(), Waited(c, h - 1));
      WaitBlock(c, h - 1);
    }
  }

  /** Queued deactivations once the helper is there. */
  function Offs(c: Case, b: nat): map<nat, seq<DelegatorEvent>> {
    var offs := map[c.end := [DelegatorEvent(1, 2)]];
    offs[b + 1 := Queue(offs, b + 1) + [DelegatorEvent(1, 3)]]
  }

  function Ons(c: Case, b: nat): map<nat, seq<DelegatorEvent>> {
    if c.Started(b) then map[b := [DelegatorEvent(1, 3)]]
    else map[c.start := [DelegatorEvent(1, 2)], b := [DelegatorEvent(1, 3)]]
  }

  /** Just before block `b`, at which the helper starts. */
  function Both(c: Case, b: nat): State
    requires 0 < b < MAX_UINT64
  {
    var on := c.Started(b);
    var v := NewValidator(0, OWN, 100).(
               delegated := if on then c.staked else 0, delegators := map[2 := c.At(on), 3 := Helper(b, false)]);
    Scene(b - 1, 0, MAX_UINT64, if on then c.staked else 0, v,
          map[0 := [Handle(1, 0), Handle(1, 0)]], map[0 := [Handle(1, 0), Handle(1, 0)]], Ons(c, b), Offs(c, b))
  }

  lemma Again(w: World, c: Case, b: nat)
    requires 0 < b < MAX_UINT64 && c.start != b && w.st == Waiting(c, b - 1)
    ensures var st := Step(w, REGISTER).st;
            st == w.st.(validators := map[1 := w.st.validators[1].(staked := OWN, isActive := true)],
                        activations := map[0 := [Handle(1, 0), Handle(1, 0)]],
                        deactivations := map[0 := [Handle(1, 0), Handle(1, 0)]])
  {
    assert [Handle(1, 0)] + [Handle(1, 0)] == [Handle(1, 0), Handle(1, 0)];
  }

  lemma TheHelperJoins(w: World, c: Case, b: nat)
    requires 0 < b < MAX_UINT64 && c.start != b && c.start < c.end
    requires w.st == Waiting(c, b - 1).(
               validators := map[1 := Waiting(c, b - 1).validators[1].(staked := OWN, isActive := true)],
               activations := map[0 := [Handle(1, 0), Handle(1, 0)]],
               deactivations := map[0 := [Handle(1, 0), Handle(1, 0)]])
    ensures Step(w, HelpAt(b)).st == Both(c, b)
  {
    var t := Step(w, HelpAt(b)).st;
    assert [] + [DelegatorEvent(1, 3)] == [DelegatorEvent(1, 3)];
    assert t.validators[1].delegators == map[2 := c.At(c.Started(b)), 3 := Helper(b, false)];
    assert t.validators == Both(c, b).validators;
    assert t.delegatorActivations == Ons(c, b) && t.delegatorDeactivations == Offs(c, b);
  }

  /** With the helper active, and the delegator under test not. */
  function Final(c: Case, b: nat): Validator
    requires 0 < b < MAX_UINT64
  {
    NewValidator(0, OWN, 100).(delegated := HELP, delegators := map[2 := c.At(false), 3 := Helper(b, true)])
  }

  /** After the helper's activation. */
  lemma BothOn(c: Case, b: nat)
    requires 0 < b < MAX_UINT64
    ensures var on, st := c.Started(b), Both(c, b).(height := b);
            var s1 := Switch(st, DelegatorEvent(1, 3), b, true);
            s1 == st.(validators := map[1 := Final(c, b).(
                                          delegated := WrapAdd(if on then c.staked else 0, HELP),
                                          delegators := map[2 := c.At(on), 3 := Helper(b, true)])],
                      totalStaked := WrapAdd(if on then c.staked else 0, HELP))
  {
    var st := Both(c, b).(height := b);
    var s1 := Switch(st, DelegatorEvent(1, 3), b, true);
    assert s1.validators[1].delegators == map[2 := c.At(c.Started(b)), 3 := Helper(b, true)];
  }

  lemma TakenBack(x: uint64)
    ensures WrapSub(WrapAdd(x, HELP), x) == HELP
  {
  }

  /** After the deactivation of the delegator under test, if that is due. */
  lemma BothOff(c: Case, b: nat, s1: State)
    requires 0 < b < MAX_UINT64 && b <= c.end && (c.Started(b) ==> c.end == b)
    requires var on := c.Started(b);
             && s1.validators == map[1 := Final(c, b).(delegated := WrapAdd(if on then c.staked else 0, HELP),
                                                       delegators := map[2 := c.At(on), 3 := Helper(b, true)])]
             && s1.totalStaked == WrapAdd(if on then c.staked else 0, HELP)
    ensures var s2 := if c.end == b then Switch(s1, DelegatorEvent(1, 2), b, false) else s1;
            s2 == s1.(validators := map[1 := Final(c, b)], totalStaked := HELP)
  {
    hide WrapAdd, WrapSub;
    NothingAdded();
    if c.Started(b) {
      TakenBack(c.staked);
      var s2 := Switch(s1, DelegatorEvent(1, 2), b, false);
      assert s2.validators[1].delegators == map[2 := c.At(false), 3 := Helper(b, true)];
    }
  }

  lemma NothingAdded()
    ensures WrapAdd(0, HELP) == HELP
  {
  }

  lemma BothEvents(c: Case, b: nat)
    requires 0 < b < MAX_UINT64 && c.start != b && b <= c.end && (c.Started(b) ==> c.end == b)
    ensures var s := ProcessEvents(Both(c, b).(height := b), b);
            && s.validators == map[1 := Final(c, b)] && s.totalStaked == HELP
            && s.height == b && s.totalSupply == 0 && s.maxSupply == MAX_UINT64
  {
    hide Switch, Final, WrapAdd;
    var st := Both(c, b).(height := b);
    SingleEvents(st, b);
    BothOn(c, b);
    var s1 := Switch(st, DelegatorEvent(1, 3), b, true).(delegatorActivations := st.delegatorActivations - {b});
    BothOff(c, b, s1);
    assert Queue(st.delegatorDeactivations, b) == if c.end == b then [DelegatorEvent(1, 2)] else [];
  }

  /** A delegation recorded before the block of an epoch that it is paid for and does not earn. */
  lemma EarlyIsUnfair(b: nat, c: Case)
    requires c.joined < b && c.joined <= c.start < c.end && b % EPOCH_LENGTH == 0 && c.staked > 0
    requires b <= c.end && c.start != b && (c.Started(b) ==> c.end == b)
    requires Touches(c.At(false), b / EPOCH_LENGTH) && !Earns(c.At(false), b / EPOCH_LENGTH)
    ensures var evs := Waited(c, b - 1) + [REGISTER] + [HelpAt(b)] + [NextBlock];
            !Fair(0, MAX_UINT64, evs, 1, 2, c.joined, c.start, c.end, c.staked)
  {
    hide Run, Step, AcceptBlock, ProcessEvents, DelegationReward, EarnedReward, Waiting, Both, SupplyAfterBlock;
    var e1 := Waited(c, b - 1);
    var e3 := e1 + [REGISTER] + [HelpAt(b)];
    WaitedIsWaiting(c, b - 1);
    RunSnoc(Start(), e1, REGISTER);
    Again(Run(Start(), e1), c, b);
    RunSnoc(Start(), e1 + [REGISTER], HelpAt(b));
    TheHelperJoins(Run(Start(), e1 + [REGISTER]), c, b);
    OneBlock(Start(), e3);
    BothHeight(c, b);
    BothEvents(c, b);
    RecordBlock(Both(c, b), ProcessEvents(Both(c, b).(height := b), b), Final(c, b));
    var v := Credit(Final(c, b), b / EPOCH_LENGTH);
    assert v.delegators[2] == c.At(false);
    OneRecordDiffers(v, c.At(false), b / EPOCH_LENGTH, HELP);
  }

  lemma BothHeight(c: Case, b: nat)
    requires 0 < b < MAX_UINT64
    ensures Both(c, b).height == b - 1
  {
  }

  // ---------------------------------------------------------------------------------------------
  // Main result

  /** An epoch that a delegation is paid for without earning it, and its block. */
  lemma SomethingUnearned(joined: nat, start: uint64, end: uint64) returns (b: nat)
    requires joined <= start < end && !PaidAsEarned(joined, start, end)
    ensures 0 < b <= end && b % EPOCH_LENGTH == 0
    ensures var d := Delegator(false, 1, start, end, joined); Touches(d, b / EPOCH_LENGTH) && !Earns(d, b / EPOCH_LENGTH)
    ensures joined < b ==> start != b && (joined < start <= b ==> end == b)
  {
    if end % EPOCH_LENGTH == 0 {
      b := end;
    } else if start >= EPOCH_LENGTH && start % EPOCH_LENGTH != 0 {
      b := start / EPOCH_LENGTH * EPOCH_LENGTH;
    } else {
      b := end / EPOCH_LENGTH * EPOCH_LENGTH;
    }
  }

  lemma UnfairRun(joined: nat, start: uint64, end: uint64, staked: uint64) returns (evs: seq<Event>)
    requires joined <= start < end && staked > 0 && !PaidAsEarned(joined, start, end)
    ensures !Fair(0, MAX_UINT64, evs, 1, 2, joined, start, end, staked)
  {
    hide Fair;
    var b := SomethingUnearned(joined, start, end);
    if joined < b {
      var c := Case(joined, start, end, staked);
      EarlyIsUnfair(b, c);
      evs := Waited(c, b - 1) + [REGISTER] + [HelpAt(b)] + [NextBlock];
    } else {
      LateIsUnfair(b, joined, start, end, staked);
      evs := Recorded(b, joined) + [DelegateStake(1, 2, start, end, staked)];
    }
  }

  /** Whatever run a delegation is part of, what is worked out for it is the shares of just those epochs at whose
      block it was active, if and only if its window ends within epoch 0, or it opens after the block at which the
      delegation was recorded, in epoch 0 or at the block of an epoch, and does not end at the block of one. */
  lemma PaidAsEarnedIff(joined: nat, start: uint64, end: uint64, staked: uint64)
    requires joined <= start < end && staked > 0
    ensures PaidAsEarned(joined, start, end)
            <==> forall totalSupply, maxSupply, evs, n, who ::
                   Fair(totalSupply, maxSupply, evs, n, who, joined, start, end, staked)
  {
    hide Fair;
    if PaidAsEarned(joined, start, end) {
      forall totalSupply, maxSupply, evs, n, who
        ensures Fair(totalSupply, maxSupply, evs, n, who, joined, start, end, staked)
      {
        PaidAsEarnedIsFair(totalSupply, maxSupply, evs, n, who, joined, start, end, staked);
      }
    } else {
      var evs := UnfairRun(joined, start, end, staked);
    }
  }
}
