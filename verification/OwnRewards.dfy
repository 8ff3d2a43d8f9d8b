/** How a portion is split, and what validators are paid of their own over every run. */
module OwnRewards {
  import opened Types
  import opened Sums
  import opened Emission
  import opened Delegations
  import opened Rewards
  import opened Balancer

  // ---------------------------------------------------------------------------------------------
  // The split of a portion

  /** The delegators' part is the fee rate's percentage of the portion, rounded down, and nothing without delegations. */
  lemma SplitIs(v: Validator, portion: uint64)
    ensures var part := DelegatorsPart(v, portion);
            && (v.delegated == 0 ==> part == 0)
            && (v.delegated > 0 ==> 100 * part <= portion * v.feeRate < 100 * (part + 1))
  {
    FloorBounds(portion * v.feeRate, 100);
  }

  /** A validator's portion is to the total as its stake is to the recorded stake, rounded down. */
  lemma PortionIs(totalStaked: uint64, v: Validator, total: uint64)
    requires totalStaked > 0 && v.isActive && (Stake(v) <= totalStaked || total <= totalStaked)
    ensures var portion := Portion(totalStaked, v, total);
            totalStaked * portion <= Stake(v) * total < totalStaked * (portion + 1)
  {
    PortionIsShare(totalStaked, v, total);
    assert Stake(v) * total == total * Stake(v);
    FloorIs(total * Stake(v), totalStaked);
  }

  /** A delegator's share of an epoch is to what was set aside as its stake is to the delegated stake, rounded down. */
  lemma EpochShareIs(v: Validator, d: Delegator, epoch: nat)
    requires epoch in v.epochRewards && epoch in v.epochDelegated
    requires 0 < v.epochDelegated[epoch] && (d.staked <= v.epochDelegated[epoch] || v.epochRewards[epoch] <= v.epochDelegated[epoch])
    ensures var share, whole := EpochShare(v, d, epoch), v.epochDelegated[epoch];
            whole * share <= v.epochRewards[epoch] * d.staked < whole * (share + 1)
  {
    hide EpochShare;
    ShareIsExact(v, d, epoch);
    FloorIs(v.epochRewards[epoch] * d.staked, v.epochDelegated[epoch]);
  }

  lemma ShareIsExact(v: Validator, d: Delegator, epoch: nat)
    requires epoch in v.epochRewards && epoch in v.epochDelegated
    requires 0 < v.epochDelegated[epoch] && (d.staked <= v.epochDelegated[epoch] || v.epochRewards[epoch] <= v.epochDelegated[epoch])
    ensures EpochShare(v, d, epoch) == v.epochRewards[epoch] * d.staked / v.epochDelegated[epoch]
  {
    if d.staked <= v.epochDelegated[epoch] {
      EpochShareIsShare(v, d, epoch);
    } else {
      assert v.epochRewards[epoch] * d.staked == d.staked * v.epochRewards[epoch];
      ShareInRange(v.epochRewards[epoch], d.staked, v.epochDelegated[epoch]);
    }
  }

  /** A validator without delegations keeps its whole portion, and nothing is set aside. */
  lemma AloneKeepsAll(v: Validator, totalStaked: uint64, total: uint64, epoch: nat)
    requires v.isActive && v.delegated == 0
    ensures var w := Credited(totalStaked, v, total, epoch);
            && w.stakedReward == WrapAdd(v.stakedReward, Portion(totalStaked, v, total))
            && w.delegatedReward == v.delegatedReward
            && epoch in w.epochRewards && w.epochRewards[epoch] == 0
            && epoch in w.epochDelegated && w.epochDelegated[epoch] == 0
  {
    hide Portion;
    SplitIs(v, Portion(totalStaked, v, total));
  }

  /** With delegations the two parts make up the portion: the delegators' the percentage rounded down. */
  lemma SharedIsSplit(v: Validator, totalStaked: uint64, total: uint64, epoch: nat)
    requires v.isActive && v.delegated > 0
    ensures var w, portion := Credited(totalStaked, v, total, epoch), Portion(totalStaked, v, total);
            && epoch in w.epochRewards && epoch in w.epochDelegated && w.epochDelegated[epoch] == v.delegated
            && var part := w.epochRewards[epoch];
               && 100 * part <= portion * v.feeRate < 100 * (part + 1)
               && part <= portion
               && w.stakedReward == WrapAdd(v.stakedReward, portion - part)
               && w.delegatedReward == WrapAdd(v.delegatedReward, part)
  {
    hide Portion, DelegatorsPart;
    SplitIs(v, Portion(totalStaked, v, total));
  }

  /** Who is not active is not credited. */
  lemma InactiveGetsNothing(v: Validator, totalStaked: uint64, total: uint64, epoch: nat)
    requires !v.isActive
    ensures Credited(totalStaked, v, total, epoch) == v
  {
  }

  // ---------------------------------------------------------------------------------------------
  // Nothing is set aside without delegations, over every run

  /** Each record has both halves, and set nothing aside when nothing was delegated. */
  ghost predicate Backed(v: Validator) {
    && v.epochRewards.Keys == v.epochDelegated.Keys
    && forall e | e in v.epochRewards :: v.epochDelegated[e] == 0 ==> v.epochRewards[e] == 0
  }

  ghost predicate AllBacked(st: State) {
    forall n | n in st.validators :: Backed(st.validators[n])
  }

  lemma CreditedBacked(v: Validator, totalStaked: uint64, total: uint64, epoch: nat)
    requires Backed(v)
    ensures Backed(Credited(totalStaked, v, total, epoch))
  {
    hide Portion, DelegatorsPart;
    if v.isActive {
      SplitIs(v, Portion(totalStaked, v, total));
    }
  }

  lemma BlockBacked(w: World)
    requires Invariant(w) && AllBacked(w.st)
    ensures AllBacked(AcceptBlock(w.st))
  {
    hide ProcessEvents, RewardsPerEpoch, AcceptBlock, Credited, Backed, MintedAmount;
    var b := w.st.height + 1;
    var next := w.st.(height := b);
    var s := ProcessEvents(next, b);
    assert AllCounted(next);
    ProcessEventsFrame(next, b);
    forall n | n in s.validators ensures Backed(s.validators[n]) {
      assert SameRecord(next.validators[n], s.validators[n]);
      SameBacked(next.validators[n], s.validators[n]);
    }
    BlockIsRewarded(w.st);
    forall n | n in s.validators ensures Backed(Credited(s.totalStaked, s.validators[n], RewardsPerEpoch(s), b / EPOCH_LENGTH)) {
      CreditedBacked(s.validators[n], s.totalStaked, RewardsPerEpoch(s), b / EPOCH_LENGTH);
    }
  }

  lemma SameBacked(v: Validator, w: Validator)
    requires Backed(v) && w.epochRewards == v.epochRewards && w.epochDelegated == v.epochDelegated
    ensures Backed(w)
  {
  }

  /** Stake, fee rate, own reward and records of epochs are as they were. */
  predicate Untouched(v: Validator, w: Validator) {
    && w.staked == v.staked && w.feeRate == v.feeRate && w.stakedReward == v.stakedReward
    && w.epochRewards == v.epochRewards && w.epochDelegated == v.epochDelegated
  }

  lemma DelegatorsTouchNothing(st: State, node: NodeId, who: Address, start: uint64, end: uint64, staked: uint64, n: NodeId)
    ensures var r := Delegate(st, node, who, start, end, staked);
            r.Ok? && n in r.value.validators ==> n in st.validators && Untouched(st.validators[n], r.value.validators[n])
    ensures var r := ClaimDelegator(st, node, who);
            r.Ok? && n in r.value.0.validators ==> n in st.validators && Untouched(st.validators[n], r.value.0.validators[n])
  {
    hide DelegationReward, Enqueue, WrapSub;
  }

  lemma LeavingTouchesNothing(st: State, node: NodeId, who: Address, n: NodeId)
    requires Undelegate(st, node, who).Ok? && n in Undelegate(st, node, who).value.0.validators
    ensures n in st.validators && Untouched(st.validators[n], Undelegate(st, node, who).value.0.validators[n])
  {
    UndelegateShape(st, node, who);
    if n != node {
      OtherKept(st.validators, Undelegate(st, node, who).value.0.validators, node, n);
    }
  }

  predicate PaysOwn(ev: Event, n: NodeId) {
    ev == WithdrawStake(n) || ev == ClaimReward(n)
  }

  /** Between blocks only registering a validator and paying it touch any of these. */
  lemma OtherUntouched(w: World, ev: Event, n: NodeId)
    requires !ev.NextBlock? && !(ev.RegisterStake? && ev.node == n) && !PaysOwn(ev, n)
    requires n in Step(w, ev).st.validators
    ensures n in w.st.validators && Untouched(w.st.validators[n], Step(w, ev).st.validators[n])
  {
    hide Delegate, Undelegate, ClaimDelegator;
    if ev.DelegateStake? {
      DelegatorsTouchNothing(w.st, ev.node, ev.who, ev.start, ev.end, ev.staked, n);
    } else if ev.ClaimShare? {
      DelegatorsTouchNothing(w.st, ev.node, ev.who, 0, 0, 0, n);
    } else if ev.UndelegateStake? && Allowed(w.st, ev) && Undelegate(w.st, ev.node, ev.who).Ok? {
      LeavingTouchesNothing(w.st, ev.node, ev.who, n);
    }
  }

  lemma StepBacked(w: World, ev: Event)
    requires Invariant(w) && AllBacked(w.st)
    ensures AllBacked(Step(w, ev).st)
  {
    hide Invariant, Backed, Step, AcceptBlock;
    if ev.NextBlock? {
      BlockBacked(w);
      BlockStepIs(w);
    } else {
      forall n | n in Step(w, ev).st.validators ensures Backed(Step(w, ev).st.validators[n]) {
        if PaysOwn(ev, n) {
          PaidOwn(w, ev, n);
          SameBacked(w.st.validators[n], Step(w, ev).st.validators[n]);
        } else if ev.RegisterStake? && ev.node == n {
          RegisteredBacked(w, ev);
        } else {
          OtherUntouched(w, ev, n);
          SameBacked(w.st.validators[n], Step(w, ev).st.validators[n]);
        }
      }
    }
  }

  lemma RegisteredBacked(w: World, ev: Event)
    requires ev.RegisterStake? && (ev.node in w.st.validators ==> Backed(w.st.validators[ev.node]))
    ensures ev.node in Step(w, ev).st.validators && Backed(Step(w, ev).st.validators[ev.node])
  {
    hide Register;
    RegisterShape(w.st, ev.node, ev.start, ev.end, ev.staked, ev.feeRate);
  }

  lemma {:induction false} RunBacked(w: World, evs: seq<Event>)
    requires Invariant(w) && AllBacked(w.st)
    ensures AllBacked(Run(w, evs).st)
    decreases |evs|
  {
    hide Invariant, AllBacked, Step;
    if evs != [] {
      RunKeepsInvariant(w, evs[..|evs| - 1]);
      RunBacked(w, evs[..|evs| - 1]);
      StepBacked(Run(w, evs[..|evs| - 1]), evs[|evs| - 1]);
    }
  }

  /** In every run, an epoch at which nothing was delegated to a validator set nothing aside for its delegators. */
  lemma {:induction false} NothingSetAsideAlone(totalSupply: uint64, maxSupply: uint64, evs: seq<Event>, n: NodeId, e: nat)
    requires totalSupply <= maxSupply
    requires var st := Run(NewWorld(totalSupply, maxSupply), evs).st; n in st.validators && e in st.validators[n].epochRewards
    ensures var v := Run(NewWorld(totalSupply, maxSupply), evs).st.validators[n];
            e in v.epochDelegated && (v.epochDelegated[e] == 0 ==> v.epochRewards[e] == 0)
  {
    hide Run, Invariant;
    var w := NewWorld(totalSupply, maxSupply);
    RunFromStart(totalSupply, maxSupply, []);
    StartIsRun(w);
    RunBacked(w, evs);
    assert Backed(Run(w, evs).st.validators[n]);
  }

  lemma StartIsRun(w: World)
    ensures Run(w, []) == w
  {
  }

  // ---------------------------------------------------------------------------------------------
  // What a validator earned itself since it was last paid

  /** A validator's own part of what the next block distributes: its portion, less the percentage of it, rounded
      down, that goes to its delegators if it has any. */
  ghost function OwnCredit(st: State, n: NodeId): int {
    var b := st.height + 1;
    var s := ProcessEvents(st.(height := b), b);
    if b % EPOCH_LENGTH != 0 || n !in s.validators || !s.validators[n].isActive then 0
    else
      var v := s.validators[n];
      var portion := Portion(s.totalStaked, v, RewardsPerEpoch(s));
      if v.delegated == 0 then portion else portion - portion * v.feeRate / 100
  }

  /** All own credits of validator `n` since its last payout, or since it was registered. */
  ghost function OwnSince(w: World, evs: seq<Event>, n: NodeId): int {
    if evs == [] then 0
    else
      var rest, ev := evs[..|evs| - 1], evs[|evs| - 1];
      if PaysOwn(ev, n) || n !in Run(w, evs).st.validators then 0
      else OwnSince(w, rest, n) + if ev.NextBlock? then OwnCredit(Run(w, rest).st, n) else 0
  }

  lemma CreditedOwn(v: Validator, totalStaked: uint64, total: uint64, epoch: nat, exact: bool)
    requires var w := Credited(totalStaked, v, total, epoch);
             exact ==> v.stakedReward + Portion(totalStaked, v, total) <= MAX_UINT64
    ensures var portion := Portion(totalStaked, v, total);
            var own := if !v.isActive then 0 else if v.delegated == 0 then portion else portion - portion * v.feeRate / 100;
            Agree(Credited(totalStaked, v, total, epoch).stakedReward, v.stakedReward + own, exact)
  {
    hide Agree, Portion;
    if v.isActive {
      var portion := Portion(totalStaked, v, total);
      WrapAgrees(v.stakedReward, portion - DelegatorsPart(v, portion), exact);
    } else {
      AgreeSame(v.stakedReward, exact);
    }
  }

  lemma BlockOwn(w: World, n: NodeId)
    requires Invariant(w) && n in AcceptBlock(w.st).validators
    ensures n in w.st.validators
    ensures Agree(AcceptBlock(w.st).validators[n].stakedReward, w.st.validators[n].stakedReward + OwnCredit(w.st, n),
                  Exact(Step(w, NextBlock)))
  {
    hide ProcessEvents, RewardsPerEpoch, Portion, Credited, Agree, BooksBalance, Scheduled;
    var b := w.st.height + 1;
    var next := w.st.(height := b);
    var s := ProcessEvents(next, b);
    SameOwn(w, n);
    BlockIsRewarded(w.st);
    if b % EPOCH_LENGTH == 0 {
      var exact := Exact(Step(w, NextBlock));
      if exact {
        OwnFits(w, n);
      }
      CreditedOwn(s.validators[n], s.totalStaked, RewardsPerEpoch(s), b / EPOCH_LENGTH, exact);
    } else {
      AgreeSame(w.st.validators[n].stakedReward, Exact(Step(w, NextBlock)));
    }
  }

  /** Working off the events of a block leaves registrations and own rewards alone. */
  lemma SameOwn(w: World, n: NodeId)
    requires Invariant(w)
    ensures var s := ProcessEvents(w.st.(height := w.st.height + 1), w.st.height + 1);
            && s.validators.Keys == w.st.validators.Keys == AcceptBlock(w.st).validators.Keys
            && s.height == w.st.height + 1
            && (n in s.validators ==> s.validators[n].stakedReward == w.st.validators[n].stakedReward)
  {
    hide ProcessEvents, RewardsPerEpoch, MintedAmount, AcceptBlock, Credited, Counted, OnSchedule, Wanted, BooksBalance;
    var next := w.st.(height := w.st.height + 1);
    assert AllCounted(next);
    ProcessEventsFrame(next, next.height);
    assert n in next.validators ==> SameRecord(next.validators[n], ProcessEvents(next, next.height).validators[n]);
    BlockIsRewarded(w.st);
  }

  /** While nothing wraps, a validator's own reward and its next portion fit together. */
  lemma OwnFits(w: World, n: NodeId)
    requires Invariant(w) && Exact(Step(w, NextBlock)) && (w.st.height + 1) % EPOCH_LENGTH == 0
    requires var s := ProcessEvents(w.st.(height := w.st.height + 1), w.st.height + 1); n in s.validators
    ensures var s := ProcessEvents(w.st.(height := w.st.height + 1), w.st.height + 1);
            s.validators[n].stakedReward + Portion(s.totalStaked, s.validators[n], RewardsPerEpoch(s)) <= MAX_UINT64
  {
    hide ProcessEvents, RewardsPerEpoch, Portion, AcceptBlock;
    var s := ProcessEvents(w.st.(height := w.st.height + 1), w.st.height + 1);
    EventsBooks(w);
    var x := w.(st := s);
    DistributedNonNegative(s, RewardsPerEpoch(s));
    SumAtLeast(s.validators, n, RewardWeight());
    SumAtLeast(s.validators, n, PortionWeight(s.totalStaked, RewardsPerEpoch(s)));
    AgreeWeaken(x.paid + Outstanding(x.st) + x.residue, x.minted, Exact(x), true);
  }

  lemma OtherOwn(w: World, ev: Event, n: NodeId)
    requires !ev.NextBlock? && !PaysOwn(ev, n) && n in Step(w, ev).st.validators
    ensures Step(w, ev).st.validators[n].stakedReward == if n in w.st.validators then w.st.validators[n].stakedReward else 0
    ensures Exact(Step(w, ev)) ==> Exact(w)
  {
    OtherExact(w, ev);
    if ev.RegisterStake? && ev.node == n {
      RegisterShape(w.st, n, ev.start, ev.end, ev.staked, ev.feeRate);
    } else {
      hide Step;
      OtherUntouched(w, ev, n);
    }
  }

  lemma OtherExact(w: World, ev: Event)
    requires !ev.NextBlock?
    ensures Exact(Step(w, ev)) ==> Exact(w)
  {
    hide Register, Delegate, Undelegate, ClaimDelegator;
  }

  lemma PaidOwn(w: World, ev: Event, n: NodeId)
    requires PaysOwn(ev, n) && (n in w.st.validators || n in Step(w, ev).st.validators)
    ensures n in w.st.validators && n in Step(w, ev).st.validators
    ensures var x, v := Step(w, ev), w.st.validators[n];
            && x.paid == w.paid + v.stakedReward
            && x.st.validators[n].stakedReward == 0
            && x.st.validators[n].epochRewards == v.epochRewards && x.st.validators[n].epochDelegated == v.epochDelegated
            && x.st.validators[n].feeRate == v.feeRate
            && x.st.validators[n].staked == (if ev.WithdrawStake? then 0 else v.staked)
            && x.st.validators - {n} == w.st.validators - {n}
            && (ev.WithdrawStake? ==> !x.st.validators[n].isActive)
  {
  }

  lemma AgreeChain(now: int, was: int, credit: int, since: int, before: bool, exact: bool)
    requires Agree(was, since, before) && Agree(now, was + credit, exact) && (exact ==> before)
    ensures Agree(now, since + credit, exact)
  {
  }

  lemma {:induction false} OwnIsOwed(w0: World, evs: seq<Event>, n: NodeId)
    requires Invariant(w0) && w0.st.validators == map[]
    requires n in Run(w0, evs).st.validators
    ensures Agree(Run(w0, evs).st.validators[n].stakedReward, OwnSince(w0, evs, n), Exact(Run(w0, evs)))
    decreases |evs|
  {
    hide Agree, AcceptBlock, OwnCredit, Invariant, Exact;
    var rest, ev := evs[..|evs| - 1], evs[|evs| - 1];
    var w := Run(w0, rest);
    RunKeepsInvariant(w0, rest);
    if PaysOwn(ev, n) {
      RunPays(w0, evs, n);
    } else if ev.NextBlock? {
      BlockStepIs(w);
      BlockOwn(w, n);
      OwnIsOwed(w0, rest, n);
      ExactBefore(w);
      AgreeChain(Run(w0, evs).st.validators[n].stakedReward, w.st.validators[n].stakedReward, OwnCredit(w.st, n),
                 OwnSince(w0, rest, n), Exact(w), Exact(Run(w0, evs)));
    } else {
      OtherOwn(w, ev, n);
      if n in w.st.validators {
        OwnIsOwed(w0, rest, n);
        AgreeWeaken(w.st.validators[n].stakedReward, OwnSince(w0, rest, n), Exact(w), Exact(Run(w0, evs)));
      } else {
        NeverThere(w0, rest, n);
        AgreeSame(0, Exact(Run(w0, evs)));
      }
    }
  }

  lemma BlockStepIs(w: World)
    ensures Step(w, NextBlock).st == AcceptBlock(w.st)
  {
    hide AcceptBlock, MintedAmount;
  }

  lemma ExactBefore(w: World)
    ensures Exact(Step(w, NextBlock)) ==> Exact(w)
  {
    hide AcceptBlock, RewardsPerEpoch, ProcessEvents, Distributed;
    var next := w.st.(height := w.st.height + 1);
    var s := ProcessEvents(next, next.height);
    DistributedNonNegative(s, RewardsPerEpoch(s));
  }

  lemma RunPays(w0: World, evs: seq<Event>, n: NodeId)
    requires evs != [] && PaysOwn(evs[|evs| - 1], n) && n in Run(w0, evs).st.validators
    ensures Agree(Run(w0, evs).st.validators[n].stakedReward, OwnSince(w0, evs, n), Exact(Run(w0, evs)))
  {
    var w, ev := Run(w0, evs[..|evs| - 1]), evs[|evs| - 1];
    PaidOwn(w, ev, n);
  }

  lemma NeverThere(w0: World, evs: seq<Event>, n: NodeId)
    requires n !in Run(w0, evs).st.validators
    ensures OwnSince(w0, evs, n) == 0
  {
  }

  /** In every run a validator that withdraws, or claims, is paid everything of its own that it was credited with since its
      last payout, and then nothing of its own is outstanding: exactly so while no counter has wrapped around. */
  lemma {:induction false} PaidEverythingOwn(totalSupply: uint64, maxSupply: uint64, evs: seq<Event>, n: NodeId, ev: Event)
    requires totalSupply <= maxSupply && PaysOwn(ev, n)
    requires n in Run(NewWorld(totalSupply, maxSupply), evs).st.validators
    ensures var w := Run(NewWorld(totalSupply, maxSupply), evs);
            var x := Step(w, ev);
            && Agree(x.paid - w.paid, OwnSince(NewWorld(totalSupply, maxSupply), evs, n), Exact(w))
            && n in x.st.validators && x.st.validators[n].stakedReward == 0
            && (ev.WithdrawStake? ==> !x.st.validators[n].isActive && x.st.validators[n].staked == 0)
  {
    hide Run, Step, Invariant, Exact, Agree, OwnSince;
    var w0 := NewWorld(totalSupply, maxSupply);
    RunFromStart(totalSupply, maxSupply, []);
    StartIsRun(w0);
    OwnIsOwed(w0, evs, n);
    PaidOwn(Run(w0, evs), ev, n);
  }
}
