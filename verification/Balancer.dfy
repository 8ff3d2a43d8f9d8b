/** Runs of the emission balancer under the guards of the staking actions, with the rewards paid,
    minted and lost along the way. */
module Balancer {
  import opened Types
  import opened Sums
  import opened Emission
  import opened Delegations
  import opened Rewards

  /** A balancer with its history: rewards paid out, rewards minted (before any wrap), rewards that were still
      outstanding when their validator was removed, and whether a claim was ever paid more than was held. */
  datatype World = World(st: State, paid: nat, minted: int, residue: nat, overdrawn: bool)

  datatype Event =
    | RegisterStake(node: NodeId, start: uint64, end: uint64, staked: uint64, feeRate: FeeRate)
    | WithdrawStake(node: NodeId)
    | ClaimReward(node: NodeId)
    | DelegateStake(node: NodeId, who: Address, start: uint64, end: uint64, staked: uint64)
    | UndelegateStake(node: NodeId, who: Address)
    | ClaimShare(node: NodeId, who: Address)
    | NextBlock

  /** The checks that the staking actions make before they call the balancer. */
  predicate Allowed(st: State, ev: Event) {
    match ev
    case DelegateStake(_, _, start, end, _) => st.height <= start < end
    case UndelegateStake(node, who) =>
      node in st.validators && who in st.validators[node].delegators ==>
        st.validators[node].delegators[who].end <= st.height
    case ClaimShare(node, who) =>
      node in st.validators && who in st.validators[node].delegators ==>
        st.validators[node].delegators[who].start <= st.height
    case _ => true
  }

  function Dropped(st: State, t: State, node: NodeId, reward: uint64): nat {
    if node in st.validators && node !in t.validators && reward <= st.validators[node].delegatedReward
    then st.validators[node].stakedReward + st.validators[node].delegatedReward - reward else 0
  }

  ghost function Step(w: World, ev: Event): World {
    if !Allowed(w.st, ev) then w
    else
      match ev
      case RegisterStake(node, start, end, staked, feeRate) =>
        w.(st := Register(w.st, node, start, end, staked, feeRate))
      case WithdrawStake(node) => (
        match Withdraw(w.st, node)
        case Ok((t, reward)) => w.(st := t, paid := w.paid + reward)
        case Err(_) => w
      )
      case ClaimReward(node) => (
        match ClaimValidator(w.st, node)
        case Ok((t, reward)) => w.(st := t, paid := w.paid + reward)
        case Err(_) => w
      )
      case DelegateStake(node, who, start, end, staked) => (
        match Delegate(w.st, node, who, start, end, staked)
        case Ok(t) => w.(st := t)
        case Err(_) => w
      )
      case UndelegateStake(node, who) => (
        match Undelegate(w.st, node, who)
        case Ok((t, reward)) => w.(st := t, paid := w.paid + reward, residue := w.residue + Dropped(w.st, t, node, reward))
        case Err(_) => w
      )
      case ClaimShare(node, who) => (
        match ClaimDelegator(w.st, node, who)
        case Ok((t, reward)) =>
          w.(st := t, paid := w.paid + reward,
             overdrawn := w.overdrawn || reward > w.st.validators[node].delegatedReward)
        case Err(_) => w
      )
      case NextBlock =>
        w.(st := AcceptBlock(w.st), minted := w.minted + MintedAmount(w.st.(height := w.st.height + 1)))
  }

  ghost function Run(w: World, evs: seq<Event>): World {
    if evs == [] then w else Step(Run(w, evs[..|evs| - 1]), evs[|evs| - 1])
  }

  function NewState(totalSupply: uint64, maxSupply: uint64): State {
    State(0, totalSupply, maxSupply, 0, map[], map[], 0, map[], map[], map[], map[])
  }

  function NewWorld(totalSupply: uint64, maxSupply: uint64): World {
    World(NewState(totalSupply, maxSupply), 0, 0, 0, false)
  }

  // ---------------------------------------------------------------------------------------------
  // Outstanding rewards

  ghost function RewardWeight(): (NodeId, Validator) -> int {
    (n: NodeId, v: Validator) => v.stakedReward + v.delegatedReward
  }

  /** Rewards credited to validators and their delegators and not yet paid. */
  ghost function Outstanding(st: State): int {
    Sum(st.validators, RewardWeight())
  }

  ghost function EpochWeight(): (nat, uint64) -> int {
    (e: nat, r: uint64) => r
  }

  /** Rewards ever set aside for the delegators of a validator. */
  ghost function SetAside(v: Validator): int {
    Sum(v.epochRewards, EpochWeight())
  }

  /** Equal or, once 64-bit counters may have wrapped around, equal modulo 2^64. */
  predicate Agree(x: int, y: int, exact: bool) {
    if exact then x == y else (x - y) % TWO_TO_64 == 0
  }

  lemma AgreeSame(x: int, exact: bool)
    ensures Agree(x, x, exact)
  {
  }

  lemma AgreeAdd(x: int, y: int, a: int, b: int, exact: bool)
    requires Agree(x, y, exact) && Agree(a, b, exact)
    ensures Agree(x + a, y + b, exact) && Agree(x - a, y - b, exact)
  {
  }

  lemma AgreeWeaken(x: int, y: int, before: bool, exact: bool)
    requires Agree(x, y, before) && (exact ==> before)
    ensures Agree(x, y, exact) && (exact ==> x == y)
  {
  }

  lemma WrapAgrees(a: uint64, b: uint64, exact: bool)
    requires exact ==> a + b <= MAX_UINT64
    ensures Agree(WrapAdd(a, b), a + b, exact)
  {
  }

  /** The entry at `k` gains `d`. */
  ghost predicate Gains<K, V>(m: map<K, V>, n: map<K, V>, w: (K, V) -> int, d: (K, V) -> int, exact: bool, k: K) {
    Agree(At(n, k, w), At(m, k, w) + At(m, k, d), exact)
  }

  lemma GainsWithout<K, V>(m: map<K, V>, n: map<K, V>, w: (K, V) -> int, d: (K, V) -> int, exact: bool, p: K, k: K)
    requires Gains(m, n, w, d, exact, k) && k != p
    ensures Gains(m - {p}, n - {p}, w, d, exact, k)
  {
  }

  /** When every entry gains `d`, so does the sum. */
  lemma {:induction false} SumAgrees<K, V>(m: map<K, V>, n: map<K, V>, w: (K, V) -> int, d: (K, V) -> int, exact: bool)
    requires m.Keys == n.Keys
    requires forall k | k in m :: Gains(m, n, w, d, exact, k)
    ensures Agree(Sum(n, w), Sum(m, w) + Sum(m, d), exact)
    decreases |m|
  {
    hide Agree, Sum, At, Gains;
    if m == map[] {
      SumZero(m, w);
      SumZero(n, w);
      SumZero(m, d);
      AgreeSame(0, exact);
    } else {
      var p :| p in m;
      SumRemove(m, p, w);
      SumRemove(n, p, w);
      SumRemove(m, p, d);
      forall k | k in m - {p} ensures Gains(m - {p}, n - {p}, w, d, exact, k) {
        GainsWithout(m, n, w, d, exact, p, k);
      }
      SumAgrees(m - {p}, n - {p}, w, d, exact);
      GainsAdd(m, n, w, d, exact, p);
    }
  }

  lemma GainsAdd<K, V>(m: map<K, V>, n: map<K, V>, w: (K, V) -> int, d: (K, V) -> int, exact: bool, p: K)
    requires Gains(m, n, w, d, exact, p)
    requires Agree(Sum(n - {p}, w), Sum(m - {p}, w) + Sum(m - {p}, d), exact)
    ensures Agree(At(n, p, w) + Sum(n - {p}, w), At(m, p, w) + Sum(m - {p}, w) + At(m, p, d) + Sum(m - {p}, d), exact)
  {
    hide Sum, At, Agree;
    AgreeAdd(At(n, p, w), At(m, p, w) + At(m, p, d), Sum(n - {p}, w), Sum(m - {p}, w) + Sum(m - {p}, d), exact);
  }

  /** Rewards of past epochs only, none of them epoch 0, and each accounted for: still there or paid. */
  ghost predicate EpochsAddUp(v: Validator, height: nat, exact: bool) {
    && (forall e | e in v.epochRewards :: 0 < e && e * EPOCH_LENGTH <= height)
    && Agree(SetAside(v), v.delegatedReward + v.paidOut, exact)
  }

  /** No counter can have wrapped around: fewer than 2^64 units were minted, and no claim exceeded what was held. */
  predicate Exact(w: World) {
    w.minted < TWO_TO_64 && !w.overdrawn
  }

  /** Nothing is lost or made up: exactly so while no counter has wrapped around. */
  ghost predicate BooksBalance(w: World) {
    && 0 <= w.minted
    && Agree(w.paid + Outstanding(w.st) + w.residue, w.minted, Exact(w))
    && (forall n | n in w.st.validators :: EpochsAddUp(w.st.validators[n], w.st.height, Exact(w)))
  }

  ghost predicate Invariant(w: World) {
    Scheduled(w.st) && BooksBalance(w) && w.st.totalSupply <= w.st.maxSupply
  }

  // ---------------------------------------------------------------------------------------------
  // One validator changes

  /** Replacing or adding one validator moves the outstanding rewards by the difference. */
  lemma OneValidator(st: State, t: State, node: NodeId)
    requires t.validators - {node} == st.validators - {node}
    ensures Outstanding(t) == Outstanding(st) - At(st.validators, node, RewardWeight()) + At(t.validators, node, RewardWeight())
  {
    SumChange(st.validators, t.validators, node, RewardWeight());
  }

  lemma OneValidatorBooks(w: World, x: World, node: NodeId)
    requires BooksBalance(w) && x.st.validators - {node} == w.st.validators - {node}
    requires x.minted == w.minted && x.overdrawn == w.overdrawn && x.st.height == w.st.height
    requires x.paid + x.residue + At(x.st.validators, node, RewardWeight())
          == w.paid + w.residue + At(w.st.validators, node, RewardWeight())
    requires node in x.st.validators ==> EpochsAddUp(x.st.validators[node], x.st.height, Exact(x))
    ensures BooksBalance(x)
  {
    OneValidator(w.st, x.st, node);
    forall n | n in x.st.validators
      ensures EpochsAddUp(x.st.validators[n], x.st.height, Exact(x))
    {
      if n != node {
        assert n in x.st.validators - {node} && (x.st.validators - {node})[n] == x.st.validators[n];
        assert n in w.st.validators - {node} && (w.st.validators - {node})[n] == w.st.validators[n];
        assert EpochsAddUp(w.st.validators[n], w.st.height, Exact(w));
      }
    }
  }

  lemma RegisterBooks(w: World, ev: Event)
    requires BooksBalance(w) && ev.RegisterStake?
    ensures BooksBalance(Step(w, ev))
  {
    var x := Step(w, ev);
    assert ev.node in w.st.validators ==> EpochsAddUp(w.st.validators[ev.node], w.st.height, Exact(w));
    OneValidatorBooks(w, x, ev.node);
  }

  lemma PayoutBooks(w: World, ev: Event)
    requires BooksBalance(w) && (ev.WithdrawStake? || ev.ClaimReward?)
    ensures BooksBalance(Step(w, ev))
  {
    var x := Step(w, ev);
    if ev.node in w.st.validators {
      assert EpochsAddUp(w.st.validators[ev.node], w.st.height, Exact(w));
      OneValidatorBooks(w, x, ev.node);
    }
  }

  lemma DelegateBooks(w: World, ev: Event)
    requires BooksBalance(w) && ev.DelegateStake?
    ensures BooksBalance(Step(w, ev))
  {
    var x := Step(w, ev);
    if ev.node in w.st.validators {
      assert EpochsAddUp(w.st.validators[ev.node], w.st.height, Exact(w));
      OneValidatorBooks(w, x, ev.node);
    }
  }

  lemma UndelegateBooks(w: World, ev: Event)
    requires BooksBalance(w) && ev.UndelegateStake?
    ensures BooksBalance(Step(w, ev))
  {
    var x := Step(w, ev);
    if Allowed(w.st, ev) && Undelegate(w.st, ev.node, ev.who).Ok? {
      UndelegateShape(w.st, ev.node, ev.who);
      assert EpochsAddUp(w.st.validators[ev.node], w.st.height, Exact(w));
      OneValidatorBooks(w, x, ev.node);
    }
  }

  /** A claim takes off what it pays, wrapping around when it pays more than is held. */
  lemma ClaimBooks(w: World, ev: Event)
    requires BooksBalance(w) && ev.ClaimShare?
    ensures BooksBalance(Step(w, ev))
  {
    hide DelegationReward, Agree, Outstanding;
    var x := Step(w, ev);
    if Allowed(w.st, ev) && ClaimDelegator(w.st, ev.node, ev.who).Ok? {
      var v, u := w.st.validators[ev.node], x.st.validators[ev.node];
      var reward := DelegationReward(v, v.delegators[ev.who]);
      OneValidator(w.st, x.st, ev.node);
      assert EpochsAddUp(v, w.st.height, Exact(w));
      ClaimAgrees(v.delegatedReward, reward, v.paidOut, SetAside(v), Exact(w), Exact(x));
      ClaimedAgrees(w.paid + w.residue, Outstanding(w.st), v.delegatedReward, reward, w.minted, Exact(w), Exact(x));
      forall n | n in x.st.validators ensures EpochsAddUp(x.st.validators[n], x.st.height, Exact(x)) {
        assert EpochsAddUp(w.st.validators[n], w.st.height, Exact(w));
        AgreeWeaken(SetAside(w.st.validators[n]), w.st.validators[n].delegatedReward + w.st.validators[n].paidOut, Exact(w), Exact(x));
      }
      assert Outstanding(x.st) == Outstanding(w.st) - v.delegatedReward + WrapSub(v.delegatedReward, reward);
    }
  }

  lemma ClaimAgrees(held: uint64, reward: uint64, paidOut: nat, aside: int, before: bool, exact: bool)
    requires Agree(aside, held + paidOut, before) && (exact ==> before && reward <= held)
    ensures Agree(aside, WrapSub(held, reward) + (paidOut + reward), exact)
  {
  }

  lemma ClaimedAgrees(gone: int, outstanding: int, held: uint64, reward: uint64, minted: int, before: bool, exact: bool)
    requires Agree(gone + outstanding, minted, before) && (exact ==> before && reward <= held)
    ensures Agree(gone + reward + (outstanding - held + WrapSub(held, reward)), minted, exact)
  {
  }

  // ---------------------------------------------------------------------------------------------
  // Blocks

  lemma DistributedNonNegative(st: State, total: uint64)
    ensures Distributed(st, total) >= 0
  {
    SumNonNegative(st.validators, PortionWeight(st.totalStaked, total));
  }

  /** Crediting one validator; exactly so while its rewards stay within 64 bits. The epoch is new to it. */
  lemma CreditedOne(v: Validator, totalStaked: uint64, total: uint64, epoch: nat, exact: bool)
    requires exact ==> v.stakedReward + v.delegatedReward + Portion(totalStaked, v, total) <= MAX_UINT64
    requires EpochsAddUp(v, epoch * EPOCH_LENGTH, exact) && epoch > 0 && epoch !in v.epochRewards
    ensures var w := Credited(totalStaked, v, total, epoch);
            && EpochsAddUp(w, epoch * EPOCH_LENGTH, exact)
            && Agree(w.stakedReward + w.delegatedReward,
                     v.stakedReward + v.delegatedReward + Portion(totalStaked, v, total), exact)
  {
    if v.isActive {
      hide Agree, Portion, DelegatorsPart;
      var w, portion := Credited(totalStaked, v, total, epoch), Portion(totalStaked, v, total);
      var part := DelegatorsPart(v, portion);
      WrapAgrees(v.stakedReward, portion - part, exact);
      WrapAgrees(v.delegatedReward, part, exact);
      AgreeAdd(w.stakedReward, v.stakedReward + (portion - part), w.delegatedReward, v.delegatedReward + part, exact);
      SumChange(v.epochRewards, w.epochRewards, epoch, EpochWeight());
      SetAsideAgrees(SetAside(v), v.delegatedReward, v.paidOut, part, w.delegatedReward, exact);
    }
  }

  /** Setting `part` aside and adding it to what is there. */
  lemma SetAsideAgrees(aside: int, was: int, paidOut: int, part: int, now: int, exact: bool)
    requires Agree(aside, was + paidOut, exact) && Agree(now, was + part, exact)
    ensures Agree(aside + part, now + paidOut, exact)
  {
  }

  lemma DistributeOne(w: World, total: uint64, epoch: nat, n: NodeId, exact: bool)
    requires BooksBalance(w) && w.st.height == epoch * EPOCH_LENGTH && epoch > 0 && n in w.st.validators
    requires epoch !in w.st.validators[n].epochRewards
    requires exact ==> !w.overdrawn && w.minted + Distributed(w.st, total) < TWO_TO_64
    ensures var v, t := w.st.validators[n], Distribute(w.st, total, epoch).validators[n];
            && EpochsAddUp(t, w.st.height, exact)
            && Agree(t.stakedReward + t.delegatedReward,
                     v.stakedReward + v.delegatedReward + Portion(w.st.totalStaked, v, total), exact)
  {
    hide Agree, Portion, Credited;
    var v, before := w.st.validators[n], Exact(w);
    DistributedNonNegative(w.st, total);
    SumAtLeast(w.st.validators, n, RewardWeight());
    SumAtLeast(w.st.validators, n, PortionWeight(w.st.totalStaked, total));
    AgreeWeaken(w.paid + Outstanding(w.st) + w.residue, w.minted, before, exact);
    AgreeWeaken(SetAside(v), v.delegatedReward + v.paidOut, before, exact);
    CreditedOne(v, w.st.totalStaked, total, epoch, exact);
  }

  /** A distribution adds what it distributes to the outstanding rewards. */
  lemma DistributeOutstanding(w: World, total: uint64, epoch: nat, exact: bool)
    requires BooksBalance(w) && w.st.height == epoch * EPOCH_LENGTH && epoch > 0
    requires forall n | n in w.st.validators :: epoch !in w.st.validators[n].epochRewards
    requires exact ==> !w.overdrawn && w.minted + Distributed(w.st, total) < TWO_TO_64
    ensures Agree(Outstanding(Distribute(w.st, total, epoch)), Outstanding(w.st) + Distributed(w.st, total), exact)
  {
    hide Agree, Portion, Credited, EpochsAddUp;
    var st, t := w.st, Distribute(w.st, total, epoch);
    forall n | n in st.validators
      ensures Gains(st.validators, t.validators, RewardWeight(), PortionWeight(st.totalStaked, total), exact, n)
    {
      DistributeOne(w, total, epoch, n, exact);
    }
    SumAgrees(st.validators, t.validators, RewardWeight(), PortionWeight(st.totalStaked, total), exact);
  }

  lemma DistributeBooks(w: World, total: uint64, epoch: nat)
    requires BooksBalance(w) && w.st.height == epoch * EPOCH_LENGTH && epoch > 0
    requires forall n | n in w.st.validators :: epoch !in w.st.validators[n].epochRewards
    ensures BooksBalance(w.(st := Distribute(w.st, total, epoch), minted := w.minted + Distributed(w.st, total)))
  {
    hide Agree, Credited, EpochsAddUp, Outstanding, Distributed;
    var st, t := w.st, Distribute(w.st, total, epoch);
    var minted := w.minted + Distributed(st, total);
    DistributedNonNegative(st, total);
    var exact := !w.overdrawn && minted < TWO_TO_64;
    forall n | n in st.validators ensures EpochsAddUp(t.validators[n], t.height, exact) {
      DistributeOne(w, total, epoch, n, exact);
    }
    DistributeOutstanding(w, total, epoch, exact);
    AgreeWeaken(w.paid + Outstanding(st) + w.residue, w.minted, Exact(w), exact);
    MintedAgrees(w.paid + w.residue, Outstanding(st), Outstanding(t), w.minted, Distributed(st, total), exact);
  }

  lemma MintedAgrees(gone: int, was: int, now: int, minted: int, more: int, exact: bool)
    requires Agree(gone + was, minted, exact) && Agree(now, was + more, exact)
    ensures Agree(gone + now, minted + more, exact)
  {
  }

  /** A validator's records after events that leave them alone. */
  lemma EventsKeepRecords(v: Validator, w: Validator, height: nat, exact: bool)
    requires EpochsAddUp(v, height, exact) && SameRecord(v, w)
    ensures EpochsAddUp(w, height + 1, exact)
    ensures (height + 1) / EPOCH_LENGTH in w.epochRewards ==> (height + 1) % EPOCH_LENGTH != 0
  {
    hide Agree;
  }

  /** Working off the events of the next block pays and credits nothing. */
  lemma EventsBooks(w: World)
    requires BooksBalance(w) && AllCounted(w.st)
    ensures var b := w.st.height + 1;
            var s := ProcessEvents(w.st.(height := b), b);
            BooksBalance(w.(st := s)) && s.height == b
            && (forall n | n in s.validators :: b / EPOCH_LENGTH in s.validators[n].epochRewards ==> b % EPOCH_LENGTH != 0)
  {
    hide ProcessEvents, EpochsAddUp, Agree;
    var b := w.st.height + 1;
    var st := w.st.(height := b);
    var s := ProcessEvents(st, b);
    assert AllCounted(st);
    ProcessEventsFrame(st, b);
    forall n | n in s.validators
      ensures SameRecord(w.st.validators[n], s.validators[n])
      ensures EpochsAddUp(s.validators[n], b, Exact(w))
      ensures b / EPOCH_LENGTH in s.validators[n].epochRewards ==> b % EPOCH_LENGTH != 0
    {
      assert SameRecord(st.validators[n], s.validators[n]);
      EventsKeepRecords(w.st.validators[n], s.validators[n], w.st.height, Exact(w));
    }
    SumEqual(w.st.validators, s.validators, RewardWeight());
  }

  lemma RewardedBooks(w: World)
    requires BooksBalance(w) && AllCounted(w.st)
    ensures var next := w.st.(height := w.st.height + 1);
            BooksBalance(w.(st := Rewarded(next), minted := w.minted + MintedAmount(next)))
  {
    hide ProcessEvents, RewardsPerEpoch;
    var b := w.st.height + 1;
    EventsBooks(w);
    if b % EPOCH_LENGTH == 0 {
      var s := ProcessEvents(w.st.(height := b), b);
      DistributeBooks(w.(st := s), RewardsPerEpoch(s), b / EPOCH_LENGTH);
    }
  }

  /** The books do not look at the recorded total supply. */
  lemma SupplyOutsideBooks(w: World, supply: uint64)
    requires BooksBalance(w)
    ensures BooksBalance(w.(st := w.st.(totalSupply := supply)))
  {
  }

  lemma BlockBooks(w: World)
    requires BooksBalance(w) && AllCounted(w.st)
    ensures BooksBalance(Step(w, NextBlock))
  {
    hide Rewarded, MintedAmount;
    var next := w.st.(height := w.st.height + 1);
    RewardedBooks(w);
    SupplyOutsideBooks(w.(st := Rewarded(next), minted := w.minted + MintedAmount(next)), AcceptBlock(w.st).totalSupply);
  }

  /** Distributing rewards leaves the recorded supply alone until it is added. */
  lemma RewardedKeepsSupply(st: State)
    requires AllCounted(st)
    ensures Rewarded(st).totalSupply == st.totalSupply && Rewarded(st).maxSupply == st.maxSupply
  {
    hide ProcessEvents, RewardsPerEpoch;
    ProcessEventsFrame(st, st.height);
  }

  lemma BlockKeepsCap(st: State)
    requires st.totalSupply <= st.maxSupply && AllCounted(st)
    ensures AcceptBlock(st).totalSupply <= AcceptBlock(st).maxSupply
  {
    hide Rewarded, MintedAmount;
    var next := st.(height := st.height + 1);
    assert AllCounted(next);
    RewardedKeepsSupply(next);
    SupplyStaysCapped(st.totalSupply, st.maxSupply, MintedAmount(next) % TWO_TO_64);
  }

  // ---------------------------------------------------------------------------------------------
  // Runs

  lemma StepKeepsScheduled(w: World, ev: Event)
    requires Scheduled(w.st)
    ensures Scheduled(Step(w, ev).st)
  {
    if Allowed(w.st, ev) {
      match ev
      case RegisterStake(node, start, end, staked, feeRate) =>
        RegisterKeepsScheduled(w.st, node, start, end, staked, feeRate);
      case WithdrawStake(node) =>
        if node in w.st.validators {
          OwnFieldsKeepScheduled(w.st, node, Withdraw(w.st, node).value.0.validators[node]);
        }
      case ClaimReward(node) =>
        if node in w.st.validators {
          OwnFieldsKeepScheduled(w.st, node, ClaimValidator(w.st, node).value.0.validators[node]);
        }
      case DelegateStake(node, who, start, end, staked) =>
        if Delegate(w.st, node, who, start, end, staked).Ok? {
          DelegateKeepsScheduled(w.st, node, who, start, end, staked);
        }
      case UndelegateStake(node, who) =>
        if Undelegate(w.st, node, who).Ok? {
          UndelegateKeepsScheduled(w.st, node, who);
        }
      case ClaimShare(node, who) =>
        if ClaimDelegator(w.st, node, who).Ok? {
          OwnFieldsKeepScheduled(w.st, node, ClaimDelegator(w.st, node, who).value.0.validators[node]);
        }
      case NextBlock =>
        BlockKeepsScheduled(w.st);
    }
  }

  lemma StepKeepsInvariant(w: World, ev: Event)
    requires Invariant(w)
    ensures Invariant(Step(w, ev))
  {
    StepKeepsScheduled(w, ev);
    match ev
    case RegisterStake(_, _, _, _, _) => RegisterBooks(w, ev);
    case WithdrawStake(_) => PayoutBooks(w, ev);
    case ClaimReward(_) => PayoutBooks(w, ev);
    case DelegateStake(_, _, _, _, _) => DelegateBooks(w, ev);
    case UndelegateStake(_, _) =>
      UndelegateBooks(w, ev);
      if Undelegate(w.st, ev.node, ev.who).Ok? {
        UndelegateShape(w.st, ev.node, ev.who);
      }
    case ClaimShare(_, _) => ClaimBooks(w, ev);
    case NextBlock =>
      BlockBooks(w);
      BlockKeepsCap(w.st);
  }

  lemma {:induction false} RunKeepsInvariant(w: World, evs: seq<Event>)
    requires Invariant(w)
    ensures Invariant(Run(w, evs))
    decreases |evs|
  {
    if evs != [] {
      RunKeepsInvariant(w, evs[..|evs| - 1]);
      StepKeepsInvariant(Run(w, evs[..|evs| - 1]), evs[|evs| - 1]);
    }
  }

  lemma {:induction false} RunFromStart(totalSupply: uint64, maxSupply: uint64, evs: seq<Event>)
    requires totalSupply <= maxSupply
    ensures Invariant(Run(NewWorld(totalSupply, maxSupply), evs))
  {
    var w := NewWorld(totalSupply, maxSupply);
    assert AllCounted(w.st) && AllOnSchedule(w.st) && AllWanted(w.st);
    assert Outstanding(w.st) == 0;
    RunKeepsInvariant(w, evs);
  }

  // ---------------------------------------------------------------------------------------------
  // Main results

  /** Rewards are conserved: paid, outstanding, or dropped with a removed validator. Per validator, what
      was ever set aside for delegators is still there or was paid to them. Both hold exactly while fewer
      than 2^64 units were ever minted and no claim was paid more than was held, and modulo 2^64 for ever. */
  lemma {:induction false} RewardsAreConserved(totalSupply: uint64, maxSupply: uint64, evs: seq<Event>, n: NodeId)
    requires totalSupply <= maxSupply
    ensures var w := Run(NewWorld(totalSupply, maxSupply), evs);
            var exact := Exact(w);
            && Agree(w.paid + Outstanding(w.st) + w.residue, w.minted, exact)
            && (n in w.st.validators ==>
                  Agree(SetAside(w.st.validators[n]), w.st.validators[n].delegatedReward + w.st.validators[n].paidOut, exact))
  {
    hide Run, Agree, Scheduled, Outstanding;
    RunFromStart(totalSupply, maxSupply, evs);
    var w := Run(NewWorld(totalSupply, maxSupply), evs);
    assert n in w.st.validators ==> EpochsAddUp(w.st.validators[n], w.st.height, Exact(w));
  }

  /** The delegator is active exactly while the chain is inside its window, unless the window opened at
      the very block at which the delegation was recorded: then it never is. While it is active its
      deactivation is queued, and the validator's delegated amount is the stake of its active delegators. */
  ghost predicate FollowsWindow(st: State, n: NodeId, who: Address)
    requires n in st.validators && who in st.validators[n].delegators
  {
    var v := st.validators[n];
    var d := v.delegators[who];
    && (d.isActive <==> d.start <= st.height < d.end && d.joined < d.start)
    && (d.isActive ==> DelegatorEvent(n, who) in Queue(st.delegatorDeactivations, d.end))
    && v.delegated == ActiveStake(v) % TWO_TO_64
    && (ActiveStake(v) <= MAX_UINT64 ==> v.delegated == ActiveStake(v))
  }

  lemma CountedExactly(v: Validator)
    requires Counted(v)
    ensures ActiveStake(v) <= MAX_UINT64 ==> v.delegated == ActiveStake(v)
  {
    SumNonNegative(v.delegators, ActiveWeight());
  }

  lemma ScheduledFollows(st: State, n: NodeId, who: Address)
    requires Scheduled(st) && n in st.validators && who in st.validators[n].delegators
    ensures FollowsWindow(st, n, who)
  {
    hide ActiveStake, Queue;
    assert OnSchedule(st, n, who, st.validators[n].delegators[who]) && Counted(st.validators[n]);
    CountedExactly(st.validators[n]);
  }

  /** A block changes nothing but the recorded total supply after its rewards. */
  lemma BlockIsRewarded(st: State)
    ensures var s := Rewarded(st.(height := st.height + 1));
            AcceptBlock(st) == s.(totalSupply := AcceptBlock(st).totalSupply)
  {
    hide Rewarded, MintedAmount, WithMinted;
    var next := st.(height := st.height + 1);
    MintedShape(Rewarded(next), MintedAmount(next) % TWO_TO_64);
  }

  lemma MintedShape(s: State, minted: uint64)
    ensures WithMinted(s, minted) == s.(totalSupply := WithMinted(s, minted).totalSupply)
  {
  }

  lemma RewardedIsSolvent(w: World, n: NodeId)
    requires Invariant(w)
    requires var t := Rewarded(w.st.(height := w.st.height + 1));
             && t.height % EPOCH_LENGTH == 0 && n in t.validators
             && t.validators[n].isActive && ActiveStake(t.validators[n]) <= MAX_UINT64
    ensures var t := Rewarded(w.st.(height := w.st.height + 1));
            var v, epoch := t.validators[n], t.height / EPOCH_LENGTH;
            && epoch in v.epochRewards
            && Sum(v.delegators, EpochShareWeight(v, epoch)) <= v.epochRewards[epoch]
  {
    hide ProcessEvents, RewardsPerEpoch;
    var b := w.st.height + 1;
    var s := ProcessEvents(w.st.(height := b), b);
    EventsBooks(w);
    NextBlockKeepsScheduled(w.st);
    assert Counted(s.validators[n]);
    EpochIsSolvent(s.validators[n], s.totalStaked, RewardsPerEpoch(s), b / EPOCH_LENGTH);
  }

  lemma EpochBlockIsSolvent(w: World, n: NodeId)
    requires Invariant(w) && n in AcceptBlock(w.st).validators
    requires var st := AcceptBlock(w.st);
             st.height % EPOCH_LENGTH == 0 && st.validators[n].isActive && ActiveStake(st.validators[n]) <= MAX_UINT64
    ensures var st := AcceptBlock(w.st);
            var v, epoch := st.validators[n], st.height / EPOCH_LENGTH;
            && epoch in v.epochRewards
            && Sum(v.delegators, EpochShareWeight(v, epoch)) <= v.epochRewards[epoch]
  {
    hide Rewarded;
    BlockIsRewarded(w.st);
    RewardedIsSolvent(w, n);
  }

  /** In every run, every delegator of every validator follows its window. */
  lemma {:induction false} DelegatorsFollowTheirWindow(totalSupply: uint64, maxSupply: uint64, evs: seq<Event>, n: NodeId, who: Address)
    requires totalSupply <= maxSupply
    requires var st := Run(NewWorld(totalSupply, maxSupply), evs).st;
             n in st.validators && who in st.validators[n].delegators
    ensures FollowsWindow(Run(NewWorld(totalSupply, maxSupply), evs).st, n, who)
  {
    RunFromStart(totalSupply, maxSupply, evs);
    ScheduledFollows(Run(NewWorld(totalSupply, maxSupply), evs).st, n, who);
  }

  /** At every block of every run the recorded total supply is within the maximum. */
  lemma {:induction false} SupplyWithinMaximum(totalSupply: uint64, maxSupply: uint64, evs: seq<Event>)
    requires totalSupply <= maxSupply
    ensures var st := Run(NewWorld(totalSupply, maxSupply), evs).st;
            st.totalSupply <= st.maxSupply
  {
    RunFromStart(totalSupply, maxSupply, evs);
  }

  /** After every block that ends an epoch, the shares of that epoch, over the delegators active in it,
      stay within what the epoch set aside for them. */
  lemma {:induction false} EpochsAreSolvent(totalSupply: uint64, maxSupply: uint64, evs: seq<Event>, n: NodeId)
    requires totalSupply <= maxSupply
    requires var st := Run(NewWorld(totalSupply, maxSupply), evs + [NextBlock]).st;
             && st.height % EPOCH_LENGTH == 0 && n in st.validators
             && st.validators[n].isActive && ActiveStake(st.validators[n]) <= MAX_UINT64
    ensures var st := Run(NewWorld(totalSupply, maxSupply), evs + [NextBlock]).st;
            var v, epoch := st.validators[n], st.height / EPOCH_LENGTH;
            && epoch in v.epochRewards
            && Sum(v.delegators, EpochShareWeight(v, epoch)) <= v.epochRewards[epoch]
  {
    var w := Run(NewWorld(totalSupply, maxSupply), evs);
    assert (evs + [NextBlock])[..|evs|] == evs;
    RunFromStart(totalSupply, maxSupply, evs);
    EpochBlockIsSolvent(w, n);
  }

  /** At the end of every epoch of every run, more is minted than the rewards of the epoch exactly when the stake
      that is counted but not recorded outweighs what rounding takes away. */
  lemma {:induction false} EpochOverpaysIff(totalSupply: uint64, maxSupply: uint64, evs: seq<Event>)
    requires totalSupply <= maxSupply
    requires (Run(NewWorld(totalSupply, maxSupply), evs).st.height + 1) % EPOCH_LENGTH == 0
    ensures var st := Run(NewWorld(totalSupply, maxSupply), evs).st;
            var next := st.(height := st.height + 1);
            var s := ProcessEvents(next, next.height);
            var total := RewardsPerEpoch(s);
            MintedAmount(next) > total
            <==> s.totalStaked > 0 && total * (ActiveTotal(s) - s.totalStaked) > Remainders(s, total)
  {
    hide Run, ProcessEvents, RewardsPerEpoch, ActiveTotal, Remainders, MintedAmount;
    RunFromStart(totalSupply, maxSupply, evs);
    OverpaysNow(Run(NewWorld(totalSupply, maxSupply), evs));
  }

  lemma OverpaysNow(w: World)
    requires Invariant(w) && (w.st.height + 1) % EPOCH_LENGTH == 0
    ensures var next := w.st.(height := w.st.height + 1);
            var s := ProcessEvents(next, next.height);
            var total := RewardsPerEpoch(s);
            MintedAmount(next) > total
            <==> s.totalStaked > 0 && total * (ActiveTotal(s) - s.totalStaked) > Remainders(s, total)
  {
    hide ProcessEvents, RewardsPerEpoch, ActiveTotal, Remainders, Distributed;
    var next := w.st.(height := w.st.height + 1);
    assert AllCounted(next);
    ProcessEventsFrame(next, next.height);
    EpochExceedsIff(ProcessEvents(next, next.height));
  }
}
