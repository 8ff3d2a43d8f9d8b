/** Runs in which every delegation covers whole epochs: then what a validator holds for its delegators
    always covers what it owes them, and nobody's reward is cut. */
module Solvency {
  import opened Types
  import opened Sums
  import opened Emission
  import opened Delegations
  import opened Rewards
  import opened Balancer
  import opened Payouts

  // ---------------------------------------------------------------------------------------------
  // Invariant

  function DueTo(v: Validator, d: Delegator): nat {
    Due(v, d, d.start / EPOCH_LENGTH, d.end / EPOCH_LENGTH + 1)
  }

  ghost function DueWeight(v: Validator): (Address, Delegator) -> int {
    (who: Address, d: Delegator) => DueTo(v, d)
  }

  /** Everything that the validator owes to its present delegators. */
  ghost function Liabilities(v: Validator): int {
    Sum(v.delegators, DueWeight(v))
  }

  ghost function StakeOf(): (Address, Delegator) -> int {
    (who: Address, d: Delegator) => d.staked
  }

  /** The stake of all delegators of a validator, active or not. */
  ghost function AllStake(v: Validator): int {
    Sum(v.delegators, StakeOf())
  }

  /** What the delegator is paid for is what it earns. */
  predicate WholeEpochs(d: Delegator) {
    PaidAsEarned(d.joined, d.start, d.end)
  }

  ghost predicate Covered(v: Validator, exact: bool) {
    && (forall who | who in v.delegators :: WholeEpochs(v.delegators[who]))
    && AllStake(v) <= MAX_UINT64
    && (exact ==> Liabilities(v) <= v.delegatedReward)
  }

  ghost predicate AllCovered(st: State, exact: bool) {
    forall n | n in st.validators :: Covered(st.validators[n], exact)
  }

  /** A delegation is for epochs that it will earn, the validator's delegations stay within 64 bits, and no
      delegator claims before it leaves. */
  ghost predicate Careful(st: State, ev: Event) {
    && !ev.ClaimShare?
    && (ev.DelegateStake? ==>
      && PaidAsEarned(st.height, ev.start, ev.end)
      && (ev.node in st.validators ==> AllStake(st.validators[ev.node]) + ev.staked <= MAX_UINT64))
  }

  ghost predicate CarefulRun(w: World, evs: seq<Event>) {
    evs != [] ==>
      && CarefulRun(w, evs[..|evs| - 1])
      && Careful(Run(w, evs[..|evs| - 1]).st, evs[|evs| - 1])
  }

  // ---------------------------------------------------------------------------------------------
  // Liabilities

  lemma {:induction false} SumTransfer<K, V>(m: map<K, V>, f: (K, V) -> int, n: map<K, V>, g: (K, V) -> int)
    requires m.Keys == n.Keys && forall k | k in m :: f(k, m[k]) == g(k, n[k])
    ensures Sum(m, f) == Sum(n, g)
    decreases |m|
  {
    if m == map[] {
      assert n == map[];
    } else {
      var p :| p in m && Sum(m, f) == f(p, m[p]) + Sum(m - {p}, f);
      SumRemove(n, p, g);
      SumTransfer(m - {p}, f, n - {p}, g);
    }
  }

  lemma {:induction false} SumAtMost<K, V>(m: map<K, V>, f: (K, V) -> int, g: (K, V) -> int)
    requires forall k | k in m :: f(k, m[k]) <= g(k, m[k])
    ensures Sum(m, f) <= Sum(m, g)
    decreases |m|
  {
    if m != map[] {
      var p :| p in m && Sum(m, f) == f(p, m[p]) + Sum(m - {p}, f);
      SumRemove(m, p, g);
      SumAtMost(m - {p}, f, g);
    }
  }

  /** What is due depends on the records and on window and stake only. */
  lemma {:induction false} SameDue(v: Validator, d: Delegator, w: Validator, e: Delegator, from: nat, upto: nat)
    requires w.epochRewards == v.epochRewards && w.epochDelegated == v.epochDelegated && e.staked == d.staked
    ensures Due(w, e, from, upto) == Due(v, d, from, upto)
    decreases upto
  {
    if upto > from {
      SameDue(v, d, w, e, from, upto - 1);
    }
  }

  /** Delegators that differ in their activity only. */
  predicate SameDelegation(d: Delegator, e: Delegator) {
    e == d.(isActive := e.isActive)
  }

  /** Nothing that liabilities look at differs. */
  predicate SameTerms(v: Validator, w: Validator) {
    && w.epochRewards == v.epochRewards && w.epochDelegated == v.epochDelegated
    && w.delegatedReward == v.delegatedReward && w.delegators.Keys == v.delegators.Keys
    && forall who | who in v.delegators :: SameDelegation(v.delegators[who], w.delegators[who])
  }

  lemma SameTermsCovered(v: Validator, w: Validator, exact: bool)
    requires Covered(v, exact) && SameTerms(v, w)
    ensures Covered(w, exact)
  {
    forall who | who in v.delegators
      ensures DueTo(w, w.delegators[who]) == DueTo(v, v.delegators[who])
      ensures WholeEpochs(w.delegators[who]) && w.delegators[who].staked == v.delegators[who].staked
    {
      var d, e := v.delegators[who], w.delegators[who];
      assert SameDelegation(d, e);
      SameDue(v, d, w, e, d.start / EPOCH_LENGTH, d.end / EPOCH_LENGTH + 1);
    }
    SumTransfer(v.delegators, DueWeight(v), w.delegators, DueWeight(w));
    SumTransfer(v.delegators, StakeOf(), w.delegators, StakeOf());
  }

  // ---------------------------------------------------------------------------------------------
  // Joining and leaving

  lemma {:induction false} NothingRecorded(v: Validator, d: Delegator, from: nat, upto: nat)
    requires forall e | e in v.epochRewards :: !(from <= e < upto)
    ensures Due(v, d, from, upto) == 0
    decreases upto
  {
    if upto > from {
      NothingRecorded(v, d, from, upto - 1);
    }
  }

  lemma {:induction false} OthersDue(v: Validator, w: Validator, m: map<Address, Delegator>)
    requires w.epochRewards == v.epochRewards && w.epochDelegated == v.epochDelegated
    ensures Sum(m, DueWeight(w)) == Sum(m, DueWeight(v))
  {
    forall who | who in m ensures DueTo(w, m[who]) == DueTo(v, m[who]) {
      SameDue(v, m[who], w, m[who], m[who].start / EPOCH_LENGTH, m[who].end / EPOCH_LENGTH + 1);
    }
    SumSameWeights(m, DueWeight(w), DueWeight(v));
  }

  lemma JoinCovered(v: Validator, who: Address, d: Delegator, height: nat, exact: bool)
    requires Covered(v, exact) && who !in v.delegators && WholeEpochs(d) && d.joined == height && d.start < d.end
    requires forall e | e in v.epochRewards :: 0 < e && e * EPOCH_LENGTH <= height
    requires AllStake(v) + d.staked <= MAX_UINT64
    ensures Covered(v.(delegators := v.delegators[who := d]), exact)
  {
    var w := v.(delegators := v.delegators[who := d]);
    OthersDue(v, w, v.delegators);
    NothingRecorded(w, d, d.start / EPOCH_LENGTH, d.end / EPOCH_LENGTH + 1);
    SumChange(v.delegators, w.delegators, who, DueWeight(w));
    SumChange(v.delegators, w.delegators, who, StakeOf());
  }

  /** A delegator's reward is what is due to it, and the validator holds enough. */
  lemma RewardIsDue(v: Validator, who: Address)
    requires Covered(v, true) && who in v.delegators
    ensures DelegationReward(v, v.delegators[who]) == DueTo(v, v.delegators[who]) <= v.delegatedReward
  {
    hide Sum, Due, EpochShares, AllStake;
    var d := v.delegators[who];
    SumAtLeast(v.delegators, who, DueWeight(v));
    SharesAreDue(v, d, d.start / EPOCH_LENGTH, d.end / EPOCH_LENGTH + 1);
    SmallStays(DueTo(v, d));
  }

  lemma SmallStays(x: nat)
    requires x <= MAX_UINT64
    ensures x % TWO_TO_64 == x
  {
  }

  lemma LeaveCovered(v: Validator, who: Address, w: Validator, exact: bool)
    requires Covered(v, exact) && who in v.delegators
    requires var reward := Min(DelegationReward(v, v.delegators[who]), v.delegatedReward);
             w == v.(delegatedReward := v.delegatedReward - reward, delegators := v.delegators - {who},
                     paidOut := v.paidOut + reward)
    ensures Covered(w, exact)
  {
    if exact {
      RewardIsDue(v, who);
    }
    OthersDue(v, w, w.delegators);
    SumRemove(v.delegators, who, DueWeight(v));
    SumRemove(v.delegators, who, StakeOf());
  }

  // ---------------------------------------------------------------------------------------------
  // Distribution

  /** A new record adds its own share to what is due. */
  lemma {:induction false} RecordDue(v: Validator, w: Validator, d: Delegator, epoch: nat, from: nat, upto: nat)
    requires epoch !in v.epochRewards && epoch in w.epochRewards && epoch in w.epochDelegated
    requires w.epochRewards == v.epochRewards[epoch := w.epochRewards[epoch]]
    requires w.epochDelegated == v.epochDelegated[epoch := w.epochDelegated[epoch]]
    ensures Due(w, d, from, upto) == Due(v, d, from, upto) + if from <= epoch < upto then EpochShare(w, d, epoch) else 0
    decreases upto
  {
    if upto > from {
      RecordDue(v, w, d, epoch, from, upto - 1);
    }
  }

  /** At the block of an epoch, those paid for it are exactly those active. */
  lemma PaidIffActive(st: State, n: NodeId, who: Address, epoch: nat)
    requires Scheduled(st) && n in st.validators && who in st.validators[n].delegators
    requires WholeEpochs(st.validators[n].delegators[who]) && st.height == epoch * EPOCH_LENGTH && epoch > 0
    ensures Touches(st.validators[n].delegators[who], epoch) <==> st.validators[n].delegators[who].isActive
  {
    var d := st.validators[n].delegators[who];
    assert OnSchedule(st, n, who, d);
    TouchesIffEarns(d, epoch);
  }

  lemma CreditedLiabilities(st: State, n: NodeId, total: uint64, epoch: nat)
    requires Scheduled(st) && n in st.validators && st.height == epoch * EPOCH_LENGTH && epoch > 0
    requires st.validators[n].isActive && epoch !in st.validators[n].epochRewards
    requires forall who | who in st.validators[n].delegators :: WholeEpochs(st.validators[n].delegators[who])
    ensures var v := st.validators[n];
            var w := Credited(st.totalStaked, v, total, epoch);
            Liabilities(w) == Liabilities(v) + Sum(w.delegators, EpochShareWeight(w, epoch))
  {
    hide Portion, DelegatorsPart;
    var v := st.validators[n];
    var w := Credited(st.totalStaked, v, total, epoch);
    forall who | who in v.delegators
      ensures DueWeight(w)(who, v.delegators[who])
           == DueWeight(v)(who, v.delegators[who]) + EpochShareWeight(w, epoch)(who, v.delegators[who])
    {
      var d := v.delegators[who];
      PaidIffActive(st, n, who, epoch);
      RecordDue(v, w, d, epoch, d.start / EPOCH_LENGTH, d.end / EPOCH_LENGTH + 1);
    }
    SumSplit(v.delegators, DueWeight(w), DueWeight(v), EpochShareWeight(w, epoch));
  }

  lemma ActiveWithinAll(v: Validator)
    ensures ActiveStake(v) <= AllStake(v)
  {
    SumAtMost(v.delegators, ActiveWeight(), StakeOf());
  }

  /** While rewards stay within 64 bits, crediting adds the delegators' part. */
  lemma CreditedInFull(w: World, total: uint64, epoch: nat, n: NodeId)
    requires BooksBalance(w) && w.st.height == epoch * EPOCH_LENGTH && epoch > 0 && n in w.st.validators
    requires epoch !in w.st.validators[n].epochRewards && w.st.validators[n].isActive
    requires !w.overdrawn && w.minted + Distributed(w.st, total) < TWO_TO_64
    ensures var v := w.st.validators[n];
            var c := Credited(w.st.totalStaked, v, total, epoch);
            c.delegatedReward == v.delegatedReward + c.epochRewards[epoch]
  {
    hide Portion, DelegatorsPart, BooksBalance, Distributed;
    DistributeOne(w, total, epoch, n, true);
  }

  lemma CreditedCovered(w: World, total: uint64, epoch: nat, n: NodeId, exact: bool)
    requires Scheduled(w.st) && BooksBalance(w) && w.st.height == epoch * EPOCH_LENGTH && epoch > 0 && n in w.st.validators
    requires epoch !in w.st.validators[n].epochRewards && Covered(w.st.validators[n], Exact(w))
    requires exact ==> !w.overdrawn && w.minted + Distributed(w.st, total) < TWO_TO_64
    ensures Covered(Credited(w.st.totalStaked, w.st.validators[n], total, epoch), exact)
  {
    hide BooksBalance, Distributed, Portion, DelegatorsPart, Liabilities, AllStake, ActiveStake;
    var v := w.st.validators[n];
    DistributedNonNegative(w.st, total);
    CreditedStake(v, w.st.totalStaked, total, epoch);
    if v.isActive && exact {
      CreditedLiabilities(w.st, n, total, epoch);
      CreditedInFull(w, total, epoch, n);
      ActiveWithinAll(v);
      assert Counted(v);
      EpochIsSolvent(v, w.st.totalStaked, total, epoch);
    }
  }

  lemma CreditedStake(v: Validator, totalStaked: uint64, total: uint64, epoch: nat)
    ensures AllStake(Credited(totalStaked, v, total, epoch)) == AllStake(v)
  {
  }

  // ---------------------------------------------------------------------------------------------
  // Steps and runs

  lemma EventsCovered(st: State, exact: bool)
    requires Scheduled(st) && AllCovered(st, exact)
    ensures AllCovered(ProcessEvents(st.(height := st.height + 1), st.height + 1), exact)
  {
    hide ProcessEvents, Covered;
    var b := st.height + 1;
    var next := st.(height := b);
    var s := ProcessEvents(next, b);
    assert AllCounted(next);
    ProcessEventsFrame(next, b);
    forall n | n in s.validators ensures Covered(s.validators[n], exact) {
      assert SameRecord(next.validators[n], s.validators[n]);
      forall who | who in st.validators[n].delegators
        ensures SameDelegation(st.validators[n].delegators[who], s.validators[n].delegators[who])
      {
        ProcessEventsAt(next, b, n, who);
      }
      SameTermsCovered(st.validators[n], s.validators[n], exact);
    }
  }

  lemma RewardedCovered(w: World)
    requires Scheduled(w.st) && BooksBalance(w) && AllCovered(w.st, Exact(w))
    ensures var next := w.st.(height := w.st.height + 1);
            AllCovered(Rewarded(next), !w.overdrawn && w.minted + MintedAmount(next) < TWO_TO_64)
  {
    hide ProcessEvents, RewardsPerEpoch, Covered, BooksBalance, Scheduled, Credited;
    var b := w.st.height + 1;
    var s := ProcessEvents(w.st.(height := b), b);
    EventsCovered(w.st, Exact(w));
    BooksAndSchedule(w);
    if b % EPOCH_LENGTH == 0 {
      var total, epoch := RewardsPerEpoch(s), b / EPOCH_LENGTH;
      var exact := !w.overdrawn && w.minted + Distributed(s, total) < TWO_TO_64;
      forall n | n in s.validators
        ensures Covered(Credited(s.totalStaked, s.validators[n], total, epoch), exact)
      {
        CreditedCovered(w.(st := s), total, epoch, n, exact);
      }
    }
  }

  lemma BooksAndSchedule(w: World)
    requires Scheduled(w.st) && BooksBalance(w)
    ensures var b := w.st.height + 1;
            var s := ProcessEvents(w.st.(height := b), b);
            && BooksBalance(w.(st := s)) && s.height == b && Scheduled(s)
            && (forall n | n in s.validators :: b / EPOCH_LENGTH in s.validators[n].epochRewards ==> b % EPOCH_LENGTH != 0)
  {
    hide ProcessEvents, BooksBalance;
    EventsBooks(w);
    NextBlockKeepsScheduled(w.st);
  }

  lemma BlockCovered(w: World)
    requires Invariant(w) && AllCovered(w.st, Exact(w))
    ensures var x := Step(w, NextBlock); AllCovered(x.st, Exact(x))
  {
    hide Rewarded, MintedAmount, Covered;
    RewardedCovered(w);
    BlockIsRewarded(w.st);
  }

  lemma ReplaceCovered(st: State, node: NodeId, v: Validator, exact: bool, t: State)
    requires AllCovered(st, exact) && Covered(v, exact)
    requires t.validators == st.validators[node := v] || t.validators == st.validators - {node}
    ensures AllCovered(t, exact)
  {
  }

  lemma PayoutCovered(w: World, ev: Event)
    requires AllCovered(w.st, Exact(w))
    requires ev.RegisterStake? || ev.WithdrawStake? || ev.ClaimReward?
    ensures AllCovered(Step(w, ev).st, Exact(Step(w, ev)))
  {
    hide Covered;
    var exact, x := Exact(w), Step(w, ev);
    if ev.node in w.st.validators {
      SameTermsCovered(w.st.validators[ev.node], x.st.validators[ev.node], exact);
      ReplaceCovered(w.st, ev.node, x.st.validators[ev.node], exact, x.st);
    } else if ev.RegisterStake? {
      NobodyCovered(x.st.validators[ev.node], exact);
      ReplaceCovered(w.st, ev.node, x.st.validators[ev.node], exact, x.st);
    }
  }

  lemma NobodyCovered(v: Validator, exact: bool)
    requires v.delegators == map[]
    ensures Covered(v, exact)
  {
  }

  lemma DelegateCovered(w: World, ev: Event)
    requires Invariant(w) && AllCovered(w.st, Exact(w)) && ev.DelegateStake? && Careful(w.st, ev)
    ensures AllCovered(Step(w, ev).st, Exact(Step(w, ev)))
  {
    hide Covered, Scheduled;
    var exact := Exact(w);
    if Allowed(w.st, ev) && Delegate(w.st, ev.node, ev.who, ev.start, ev.end, ev.staked).Ok? {
      var v := w.st.validators[ev.node];
      assert EpochsAddUp(v, w.st.height, exact);
      var d := Delegator(false, ev.staked, ev.start, ev.end, w.st.height);
      JoinCovered(v, ev.who, d, w.st.height, exact);
      ReplaceCovered(w.st, ev.node, v.(delegators := v.delegators[ev.who := d]), exact, Step(w, ev).st);
    }
  }

  lemma UndelegateCovered(w: World, ev: Event)
    requires AllCovered(w.st, Exact(w)) && ev.UndelegateStake?
    ensures AllCovered(Step(w, ev).st, Exact(Step(w, ev)))
  {
    hide Covered, DelegationReward;
    var exact := Exact(w);
    if Allowed(w.st, ev) && Undelegate(w.st, ev.node, ev.who).Ok? {
      var v := w.st.validators[ev.node];
      var reward := Min(DelegationReward(v, v.delegators[ev.who]), v.delegatedReward);
      var x := v.(delegatedReward := v.delegatedReward - reward, delegators := v.delegators - {ev.who},
                  paidOut := v.paidOut + reward);
      LeaveCovered(v, ev.who, x, exact);
      ReplaceCovered(w.st, ev.node, x, exact, Step(w, ev).st);
    }
  }

  lemma CarefulNeverOverdraws(w: World, ev: Event)
    requires !ev.ClaimShare?
    ensures Step(w, ev).overdrawn == w.overdrawn
  {
    hide AcceptBlock, MintedAmount, DelegationReward;
  }

  lemma {:induction false} CarefulRunsAreCovered(w: World, evs: seq<Event>)
    requires Invariant(w) && AllCovered(w.st, Exact(w)) && CarefulRun(w, evs) && !w.overdrawn
    ensures Invariant(Run(w, evs)) && AllCovered(Run(w, evs).st, Exact(Run(w, evs))) && !Run(w, evs).overdrawn
    decreases |evs|
  {
    hide Invariant, AllCovered, Step, Exact;
    if evs != [] {
      var before, ev := Run(w, evs[..|evs| - 1]), evs[|evs| - 1];
      CarefulRunsAreCovered(w, evs[..|evs| - 1]);
      StepKeepsInvariant(before, ev);
      CarefulNeverOverdraws(before, ev);
      match ev
      case RegisterStake(_, _, _, _, _) => PayoutCovered(before, ev);
      case WithdrawStake(_) => PayoutCovered(before, ev);
      case ClaimReward(_) => PayoutCovered(before, ev);
      case DelegateStake(_, _, _, _, _) => DelegateCovered(before, ev);
      case UndelegateStake(_, _) => UndelegateCovered(before, ev);
      case NextBlock => BlockCovered(before);
    }
  }

  // ---------------------------------------------------------------------------------------------
  // Leaving one after another

  /** The delegators leave the validator in this order, and each is paid everything that is due to it. */
  predicate AllPaid(st: State, n: NodeId, order: seq<Address>)
    decreases |order|
  {
    order == [] ||
    match Undelegate(st, n, order[0])
    case Err(_) => false
    case Ok((t, reward)) =>
      && n in st.validators && order[0] in st.validators[n].delegators
      && reward == DueTo(st.validators[n], st.validators[n].delegators[order[0]])
      && AllPaid(t, n, order[1..])
  }

  ghost predicate ListsOnce(order: seq<Address>, delegators: set<Address>) {
    && (forall i, j | 0 <= i < j < |order| :: order[i] != order[j])
    && (forall who :: who in order <==> who in delegators)
  }

  lemma RestListsOnce(order: seq<Address>, delegators: set<Address>)
    requires order != [] && ListsOnce(order, delegators)
    ensures ListsOnce(order[1..], delegators - {order[0]}) && order[0] in delegators
  {
    assert order[0] in order;
    forall who ensures who in order[1..] <==> who in delegators - {order[0]} {
      if who in order[1..] {
        var i :| 0 <= i < |order[1..]| && order[1..][i] == who;
        assert order[i + 1] == who && who in order;
      }
    }
  }

  /** One delegator leaves: it is paid in full exactly if there is enough, and then as much less is owed and held. */
  lemma OneLeaves(v: Validator, who: Address)
    requires who in v.delegators
    ensures var due, reward := DueTo(v, v.delegators[who]), Min(DelegationReward(v, v.delegators[who]), v.delegatedReward);
            && (due <= v.delegatedReward ==> reward == due)
            && reward <= v.delegatedReward
  {
    hide Due, EpochShares;
    var d := v.delegators[who];
    SharesAreDue(v, d, d.start / EPOCH_LENGTH, d.end / EPOCH_LENGTH + 1);
    if DueTo(v, d) <= v.delegatedReward {
      SmallStays(DueTo(v, d));
    }
  }

  lemma LiabilitiesWithout(v: Validator, who: Address, w: Validator)
    requires who in v.delegators && w.delegators == v.delegators - {who}
    requires w.epochRewards == v.epochRewards && w.epochDelegated == v.epochDelegated
    ensures Liabilities(v) == DueTo(v, v.delegators[who]) + Liabilities(w)
    ensures Liabilities(w) >= 0
  {
    OthersDue(v, w, w.delegators);
    SumRemove(v.delegators, who, DueWeight(v));
    SumNonNegative(w.delegators, DueWeight(w));
  }

  /** Whatever the order in which all delegators of a validator leave, everybody is paid in full if and only if
      the validator holds what it owes all of them together. */
  lemma {:induction false} AllPaidIff(st: State, n: NodeId, order: seq<Address>)
    requires n in st.validators && order != [] && ListsOnce(order, st.validators[n].delegators.Keys)
    ensures AllPaid(st, n, order) <==> Liabilities(st.validators[n]) <= st.validators[n].delegatedReward
    decreases |order|
  {
    hide DelegationReward, DueTo, Liabilities;
    var v, who, rest := st.validators[n], order[0], order[1..];
    RestListsOnce(order, v.delegators.Keys);
    OneLeaves(v, who);
    var (t, reward) := Undelegate(st, n, who).value;
    var w := v.(delegatedReward := v.delegatedReward - reward, delegators := v.delegators - {who}, paidOut := v.paidOut + reward);
    LiabilitiesWithout(v, who, w);
    if rest == [] {
      NobodyIsOwed(w, rest);
    } else {
      assert rest[0] in w.delegators;
      assert t.validators[n] == w;
      AllPaidIff(t, n, rest);
    }
  }

  lemma NobodyIsOwed(w: Validator, rest: seq<Address>)
    requires rest == [] && ListsOnce(rest, w.delegators.Keys)
    ensures Liabilities(w) == 0
  {
    assert w.delegators == map[] by {
      forall who ensures who !in w.delegators {
        assert who !in rest;
      }
    }
    SumZero(w.delegators, DueWeight(w));
  }

  // ---------------------------------------------------------------------------------------------
  // Main results

  /** At any point of any run, as long as no counter has wrapped around: if all delegators of a validator leave, in
      whatever order, everybody is paid in full if and only if what was paid to delegators before, and what is
      due to those present, is at most what was ever set aside for delegators. */
  lemma {:induction false} PaidInFullIff(totalSupply: uint64, maxSupply: uint64, evs: seq<Event>, n: NodeId, order: seq<Address>)
    requires totalSupply <= maxSupply && Exact(Run(NewWorld(totalSupply, maxSupply), evs))
    requires var st := Run(NewWorld(totalSupply, maxSupply), evs).st;
             n in st.validators && order != [] && ListsOnce(order, st.validators[n].delegators.Keys)
    ensures var st := Run(NewWorld(totalSupply, maxSupply), evs).st;
            var v := st.validators[n];
            AllPaid(st, n, order) <==> v.paidOut + Liabilities(v) <= SetAside(v)
  {
    hide Run, AllPaid, Liabilities, SetAside, ListsOnce, Exact;
    RewardsAreConserved(totalSupply, maxSupply, evs, n);
    AllPaidIff(Run(NewWorld(totalSupply, maxSupply), evs).st, n, order);
  }

  /** In every run without claims whose delegations are for epochs that they earn, and while fewer than 2^64 units
      were minted, a validator holds at least what it owes all its delegators together, so every one that leaves is
      paid in full whatever the order they leave in, and in full means what it earned. */
  lemma {:induction false} NobodyIsCut(totalSupply: uint64, maxSupply: uint64, evs: seq<Event>, n: NodeId, who: Address)
    requires totalSupply <= maxSupply && CarefulRun(NewWorld(totalSupply, maxSupply), evs)
    requires Run(NewWorld(totalSupply, maxSupply), evs).minted < TWO_TO_64
    requires var st := Run(NewWorld(totalSupply, maxSupply), evs).st;
             n in st.validators && who in st.validators[n].delegators
    ensures var st := Run(NewWorld(totalSupply, maxSupply), evs).st;
            var v := st.validators[n];
            && Liabilities(v) <= v.delegatedReward
            && Undelegate(st, n, who).Ok?
            && Undelegate(st, n, who).value.1 == EarnedReward(v, v.delegators[who]) == DueTo(v, v.delegators[who])
  {
    hide Run, CarefulRun, Covered, Liabilities, Due, EarnedReward, Undelegate;
    var w0 := NewWorld(totalSupply, maxSupply);
    RunFromStart(totalSupply, maxSupply, []);
    RunOfNothing(w0);
    CarefulRunsAreCovered(w0, evs);
    var w := Run(w0, evs);
    assert EpochsAddUp(w.st.validators[n], w.st.height, Exact(w));
    PaidInFull(w.st, n, who);
  }

  /** Leaving a validator that holds enough. */
  lemma PaidInFull(st: State, n: NodeId, who: Address)
    requires n in st.validators && who in st.validators[n].delegators && Covered(st.validators[n], true)
    requires 0 !in st.validators[n].epochRewards
    ensures var v := st.validators[n];
            && Liabilities(v) <= v.delegatedReward
            && Undelegate(st, n, who).Ok?
            && Undelegate(st, n, who).value.1 == EarnedReward(v, v.delegators[who]) == DueTo(v, v.delegators[who])
  {
    hide Liabilities, Due, Earned, DelegationReward;
    var v := st.validators[n];
    RewardIsDue(v, who);
    EarnedIsPaid(v, v.delegators[who]);
  }

  lemma RunOfNothing(w: World)
    ensures Run(w, []) == w
  {
  }
}
