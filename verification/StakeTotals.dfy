/** The recorded total stake over every run under all guards of the staking actions: what it adds up, and
    what it misses. */
module StakeTotals {
  import opened Types
  import opened Sums
  import opened Emission
  import opened Delegations
  import opened Rewards
  import opened Balancer
  import A = Actions

  // ---------------------------------------------------------------------------------------------
  // Guarded runs

  /** A balancer with the end blocks of the stakes that the ledger has on record; `ended` adds up what the
      validators whose stake ended had staked and delegated to them at their end block. */
  datatype Guarded = Guarded(w: World, ends: map<NodeId, nat>, ended: int)

  /** All checks that the actions and their decoders make on the balancer's height and on the ledger's stake records. */
  predicate Admits(g: Guarded, ev: Event) {
    var st := g.w.st;
    && Allowed(st, ev)
    && match ev {
         case RegisterStake(node, start, end, staked, feeRate) =>
           && node !in g.ends
           && A.MIN_VALIDATOR_STAKE <= staked <= A.MAX_VALIDATOR_STAKE
           && start != 0 && st.height <= start <= end && A.MIN_STAKE_DURATION <= end - start <= A.MAX_STAKE_DURATION
           && A.MIN_DELEGATION_FEE <= feeRate
         case WithdrawStake(node) => node in g.ends && g.ends[node] <= st.height
         case ClaimReward(node) => node in g.ends && g.ends[node] <= st.height
         case DelegateStake(node, _, start, _, staked) => node in g.ends && start != 0 && A.MIN_DELEGATOR_STAKE <= staked
         case UndelegateStake(_, _) => true
         case ClaimShare(_, _) => true
         case NextBlock => true
       }
  }

  ghost function EndingWeight(ends: map<NodeId, nat>, b: nat): (NodeId, Validator) -> int {
    (n: NodeId, v: Validator) => if n in ends && ends[n] == b then Stake(v) else 0
  }

  /** Stake, own and delegated, of the validators whose stake ends at block `b`. */
  ghost function Ending(g: Guarded, b: nat): int {
    Sum(g.w.st.validators, EndingWeight(g.ends, b))
  }

  ghost function GuardedStep(g: Guarded, ev: Event): Guarded {
    if !Admits(g, ev) then g
    else
      var x := Step(g.w, ev);
      match ev
      case RegisterStake(node, _, end, _, _) => g.(w := x, ends := g.ends[node := end])
      case WithdrawStake(node) => g.(w := x, ends := if node in g.w.st.validators then g.ends - {node} else g.ends)
      case NextBlock => g.(w := x, ended := g.ended + Ending(g, g.w.st.height + 1))
      case ClaimReward(_) => g.(w := x)
      case DelegateStake(_, _, _, _, _) => g.(w := x)
      case UndelegateStake(_, _) => g.(w := x)
      case ClaimShare(_, _) => g.(w := x)
  }

  ghost function GuardedRun(g: Guarded, evs: seq<Event>): Guarded {
    if evs == [] then g else GuardedStep(GuardedRun(g, evs[..|evs| - 1]), evs[|evs| - 1])
  }

  function NewGuarded(totalSupply: uint64, maxSupply: uint64): Guarded {
    Guarded(NewWorld(totalSupply, maxSupply), map[], 0)
  }

  // ---------------------------------------------------------------------------------------------
  // Invariant

  /** The record that a handle names is registered, and it is the one the handle points to. */
  predicate PointsToRegistered(st: State, h: Handle) {
    h.node in st.validators && st.validators[h.node].ref == h.ref
  }

  /** Until its end block a validator on record is registered and active, and its deactivation is queued. */
  predicate Serving(g: Guarded, n: NodeId)
    requires n in g.ends
  {
    var st := g.w.st;
    st.height < g.ends[n] ==>
      && n in st.validators && st.validators[n].isActive
      && Handle(n, st.validators[n].ref) in Queue(st.deactivations, g.ends[n])
  }

  /** A queued activation is of a validator that serves beyond that block. */
  predicate ActivationKnown(g: Guarded, h: Handle, k: nat) {
    PointsToRegistered(g.w.st, h) && h.node in g.ends && k < g.ends[h.node]
  }

  /** A queued deactivation is of a validator whose stake ends at that block. */
  predicate DeactivationKnown(g: Guarded, h: Handle, k: nat) {
    PointsToRegistered(g.w.st, h) && h.node in g.ends && k == g.ends[h.node]
  }

  ghost predicate EventsKnown(g: Guarded) {
    && (forall n | n in g.ends :: Serving(g, n))
    && (forall k: nat, h | k > g.w.st.height && h in Queue(g.w.st.activations, k) :: ActivationKnown(g, h, k))
    && (forall k: nat, h | k > g.w.st.height && h in Queue(g.w.st.deactivations, k) :: DeactivationKnown(g, h, k))
  }

  ghost function DelegatedWeight(): (NodeId, Validator) -> int {
    (n: NodeId, v: Validator) => v.delegated
  }

  ghost function AllDelegated(st: State): int {
    Sum(st.validators, DelegatedWeight())
  }

  /** What is recorded, apart from delegated stake. */
  ghost function Gap(st: State): int {
    st.totalStaked - AllDelegated(st)
  }

  /** The recorded total is the stake of active delegations less everything that ever ended, in 64 bits. */
  ghost predicate TotalLaw(g: Guarded) {
    Agree(Gap(g.w.st) + g.ended, 0, false)
  }

  ghost predicate GuardedInvariant(g: Guarded) {
    Invariant(g.w) && EventsKnown(g) && TotalLaw(g)
  }

  // ---------------------------------------------------------------------------------------------
  // Validator events of a block

  /** Activations of validators that are active change nothing. */
  lemma {:induction false} ActivationsChangeNothing(st: State, hs: seq<Handle>)
    requires forall h | h in hs :: PointsToRegistered(st, h) && st.validators[h.node].isActive
    ensures ActivateAll(st, hs) == st
    decreases |hs|
  {
    if hs != [] {
      assert hs[|hs| - 1] in hs;
      ActivationsChangeNothing(st, hs[..|hs| - 1]);
    }
  }

  /** The validators that a queue names. */
  ghost predicate Hit(hs: seq<Handle>, n: NodeId) {
    exists h :: h in hs && h.node == n
  }

  ghost function HitWeight(hs: seq<Handle>): (NodeId, Validator) -> int {
    (n: NodeId, v: Validator) => if Hit(hs, n) then Stake(v) else 0
  }

  /** One validator more in the queue adds its stake, once. */
  lemma HitSnoc(m: map<NodeId, Validator>, rest: seq<Handle>, h: Handle)
    requires h.node in m
    ensures Sum(m, HitWeight(rest + [h])) == Sum(m, HitWeight(rest)) + if Hit(rest, h.node) then 0 else Stake(m[h.node])
  {
    var f, g := HitWeight(rest), HitWeight(rest + [h]);
    forall n | n in m ensures Hit(rest + [h], n) <==> Hit(rest, n) || n == h.node {
      HitSnocIff(rest, h, n);
    }
    SumRemove(m, h.node, f);
    SumRemove(m, h.node, g);
    SumSameWeights(m - {h.node}, f, g);
  }

  /** Each validator named is inactive, and its stake is taken off the total, once. */
  ghost predicate AfterHits(st: State, t: State, hs: seq<Handle>) {
    && t == st.(validators := t.validators, totalStaked := t.totalStaked)
    && t.validators.Keys == st.validators.Keys
    && (forall n | n in st.validators ::
          t.validators[n] == st.validators[n].(isActive := st.validators[n].isActive && !Hit(hs, n)))
    && Agree(t.totalStaked + Sum(st.validators, HitWeight(hs)), st.totalStaked, false)
  }

  lemma NoHits(st: State)
    ensures AfterHits(st, st, [])
  {
    SumZero(st.validators, HitWeight([]));
  }

  /** What deactivating the validators of a queue does, however often it names them. */
  lemma {:induction false} Deactivated(st: State, hs: seq<Handle>)
    requires forall h | h in hs :: PointsToRegistered(st, h) && st.validators[h.node].isActive
    ensures AfterHits(st, DeactivateAll(st, hs), hs)
    decreases |hs|
  {
    hide AfterHits, Deactivate;
    if hs == [] {
      NoHits(st);
    } else {
      var rest, h := hs[..|hs| - 1], hs[|hs| - 1];
      assert hs == rest + [h] && h in hs;
      Deactivated(st, rest);
      DeactivateOne(st, DeactivateAll(st, rest), rest, h);
    }
  }

  lemma HitSnocIff(rest: seq<Handle>, h: Handle, n: NodeId)
    ensures Hit(rest + [h], n) <==> Hit(rest, n) || n == h.node
  {
    assert h in rest + [h];
    if Hit(rest, n) {
      var i :| i in rest && i.node == n;
      assert i in rest + [h];
    }
  }

  lemma DeactivateOne(st: State, s: State, rest: seq<Handle>, h: Handle)
    requires PointsToRegistered(st, h) && st.validators[h.node].isActive && AfterHits(st, s, rest)
    ensures AfterHits(st, Deactivate(s, h), rest + [h])
  {
    hide Sum, HitWeight, Hit, Agree;
    forall n ensures Hit(rest + [h], n) <==> Hit(rest, n) || n == h.node {
      HitSnocIff(rest, h, n);
    }
    HitSnoc(st.validators, rest, h);
    if !Hit(rest, h.node) {
      TakeOff(s.totalStaked, Stake(st.validators[h.node]), Sum(st.validators, HitWeight(rest)), st.totalStaked);
    }
  }

  lemma TakeOff(total: uint64, stake: uint64, hit: int, was: int)
    requires Agree(total + hit, was, false)
    ensures Agree(WrapSub(total, stake) + (hit + stake), was, false)
  {
  }

  /** Activating and deactivating a registered validator, whatever it is, moves the recorded total exactly as the stake
      of all active validators moves, in 64 bits. */
  lemma EventsMoveAlike(st: State, h: Handle, on: bool)
    requires PointsToRegistered(st, h)
    ensures var t := if on then Activate(st, h) else Deactivate(st, h);
            && PointsToRegistered(t, h) && t.validators[h.node] == st.validators[h.node].(isActive := on)
            && t.validators - {h.node} == st.validators - {h.node}
            && Agree(t.totalStaked - ActiveTotal(t), st.totalStaked - ActiveTotal(st), false)
  {
    hide Sum, Agree, WrapAdd, WrapSub;
    var t, v := if on then Activate(st, h) else Deactivate(st, h), st.validators[h.node];
    SumChange(st.validators, t.validators, h.node, StakeWeight());
    if v.isActive == on {
      AgreeSame(st.totalStaked - ActiveTotal(st), false);
    } else {
      MovedAlike(st.totalStaked, Stake(v), on, ActiveTotal(st));
    }
  }

  lemma MovedAlike(total: uint64, stake: uint64, on: bool, all: int)
    ensures Agree((if on then WrapAdd(total, stake) else WrapSub(total, stake)) - (all + if on then stake as int else -(stake as int)),
                  total - all, false)
  {
  }

  // ---------------------------------------------------------------------------------------------
  // Delegator events of a block

  /** Switching a delegator moves total and delegated amount alike. */
  lemma SwitchKeepsGap(st: State, e: DelegatorEvent, b: nat, on: bool)
    ensures Agree(Gap(Switch(st, e, b, on)), Gap(st), false)
  {
    var t := Switch(st, e, b, on);
    if e.node in st.validators && Fires(st.validators[e.node], e.delegator, b, on) {
      var v := st.validators[e.node];
      SumChange(st.validators, t.validators, e.node, DelegatedWeight());
      SwitchedAlike(st.totalStaked, v.delegated, v.delegators[e.delegator].staked, on, AllDelegated(st));
    }
  }

  lemma SwitchedAlike(total: uint64, delegated: uint64, staked: uint64, on: bool, all: int)
    ensures var t := if on then WrapAdd(total, staked) else WrapSub(total, staked);
            var d := if on then WrapAdd(delegated, staked) else WrapSub(delegated, staked);
            Agree(t - (all - delegated + d), total - all, false)
  {
  }

  lemma {:induction false} SwitchAllKeepsGap(st: State, es: seq<DelegatorEvent>, b: nat, on: bool)
    ensures Agree(Gap(SwitchAll(st, es, b, on)), Gap(st), false)
    decreases |es|
  {
    hide Agree, Gap, Switch;
    if es == [] {
      AgreeSame(Gap(st), false);
    } else {
      var u := SwitchAll(st, es[..|es| - 1], b, on);
      SwitchAllKeepsGap(st, es[..|es| - 1], b, on);
      SwitchKeepsGap(u, es[|es| - 1], b, on);
      AgreeTransitive(Gap(Switch(u, es[|es| - 1], b, on)), Gap(u), Gap(st));
    }
  }

  lemma AgreeTransitive(x: int, y: int, z: int)
    requires Agree(x, y, false) && Agree(y, z, false)
    ensures Agree(x, z, false)
  {
  }

  lemma DelegatorEventsKeepGap(st: State, b: nat)
    ensures Agree(Gap(AfterDelegatorEvents(st, b)), Gap(st), false)
  {
    hide Agree, AllDelegated;
    var on := Queue(st.delegatorActivations, b);
    var s1 := SwitchAll(st, on, b, true).(delegatorActivations := st.delegatorActivations - {b});
    SwitchAllKeepsGap(st, on, b, true);
    SwitchingFrame(st, on, b, true);
    SameGap(SwitchAll(st, on, b, true), s1);
    var off := Queue(s1.delegatorDeactivations, b);
    SwitchAllKeepsGap(s1, off, b, false);
    SameGap(SwitchAll(s1, off, b, false), AfterDelegatorEvents(st, b));
    AgreeTransitive(Gap(AfterDelegatorEvents(st, b)), Gap(s1), Gap(st));
  }

  lemma SameGap(s: State, t: State)
    requires t.validators == s.validators && t.totalStaked == s.totalStaked
    ensures Gap(t) == Gap(s)
  {
  }

  // ---------------------------------------------------------------------------------------------
  // Blocks

  lemma QueuesOfBlock(g: Guarded)
    requires EventsKnown(g)
    ensures var st, b := g.w.st, g.w.st.height + 1;
            && (forall h | h in Queue(st.activations, b) :: PointsToRegistered(st, h) && st.validators[h.node].isActive)
            && (forall h | h in Queue(st.deactivations, b) :: PointsToRegistered(st, h) && st.validators[h.node].isActive)
            && (forall n | n in st.validators :: Hit(Queue(st.deactivations, b), n) <==> n in g.ends && g.ends[n] == b)
  {
    var st, b := g.w.st, g.w.st.height + 1;
    forall h | h in Queue(st.activations, b)
      ensures PointsToRegistered(st, h) && st.validators[h.node].isActive
    {
      assert ActivationKnown(g, h, b) && Serving(g, h.node);
    }
    forall h | h in Queue(st.deactivations, b)
      ensures PointsToRegistered(st, h) && st.validators[h.node].isActive && g.ends[h.node] == b && h.node in g.ends
    {
      assert DeactivationKnown(g, h, b) && Serving(g, h.node);
    }
    forall n | n in g.ends && g.ends[n] == b ensures Hit(Queue(st.deactivations, b), n) {
      assert Serving(g, n);
      assert Handle(n, st.validators[n].ref) in Queue(st.deactivations, b);
    }
  }

  /** The activation events of the next block change nothing, in any state with the invariant. */
  lemma NoActivationCounts(g: Guarded)
    requires EventsKnown(g)
    ensures var b := g.w.st.height + 1;
            ActivateAll(g.w.st.(height := b), Queue(g.w.st.activations, b)) == g.w.st.(height := b)
  {
    QueuesOfBlock(g);
    ActivationsChangeNothing(g.w.st.(height := g.w.st.height + 1), Queue(g.w.st.activations, g.w.st.height + 1));
  }

  /** The validator events of the next block are its deactivations. */
  lemma EventsAreDeactivations(g: Guarded)
    requires EventsKnown(g)
    ensures var st, b := g.w.st, g.w.st.height + 1;
            var s1 := st.(height := b, activations := st.activations - {b});
            var hs := Queue(st.deactivations, b);
            && AfterHits(s1, DeactivateAll(s1, hs), hs)
            && AfterValidatorEvents(st.(height := b), b) == DeactivateAll(s1, hs).(deactivations := st.deactivations - {b})
  {
    hide AfterHits, Hit;
    QueuesOfBlock(g);
    NoActivationCounts(g);
    Deactivated(g.w.st.(height := g.w.st.height + 1, activations := g.w.st.activations - {g.w.st.height + 1}),
                Queue(g.w.st.deactivations, g.w.st.height + 1));
    DeactivationsKeepQueues(g.w.st.(height := g.w.st.height + 1, activations := g.w.st.activations - {g.w.st.height + 1}),
                            Queue(g.w.st.deactivations, g.w.st.height + 1));
  }

  lemma {:induction false} DeactivationsKeepQueues(st: State, hs: seq<Handle>)
    ensures DeactivateAll(st, hs).deactivations == st.deactivations
    decreases |hs|
  {
    if hs != [] {
      DeactivationsKeepQueues(st, hs[..|hs| - 1]);
    }
  }

  lemma HitsAreEndings(g: Guarded)
    requires EventsKnown(g)
    ensures var st, b := g.w.st, g.w.st.height + 1;
            && (forall n | n in st.validators :: Hit(Queue(st.deactivations, b), n) <==> n in g.ends && g.ends[n] == b)
            && Sum(st.validators, HitWeight(Queue(st.deactivations, b))) == Ending(g, b)
  {
    var st, b := g.w.st, g.w.st.height + 1;
    QueuesOfBlock(g);
    SumSameWeights(st.validators, HitWeight(Queue(st.deactivations, b)), EndingWeight(g.ends, b));
  }

  /** What the validator events of the next block do. */
  lemma ValidatorEventsOfBlock(g: Guarded)
    requires EventsKnown(g)
    ensures var st, b := g.w.st, g.w.st.height + 1;
            var t := AfterValidatorEvents(st.(height := b), b);
            && t.validators.Keys == st.validators.Keys
            && (forall n | n in st.validators ::
                  t.validators[n] == st.validators[n].(isActive := st.validators[n].isActive && !(n in g.ends && g.ends[n] == b)))
            && Agree(Gap(t) + Ending(g, b), Gap(st), false)
  {
    hide Agree, Hit, HitWeight, Ending, EventsKnown, AfterValidatorEvents, DeactivateAll, Sum;
    var st, b := g.w.st, g.w.st.height + 1;
    EventsAreDeactivations(g);
    HitsAreEndings(g);
    var t := AfterValidatorEvents(st.(height := b), b);
    SumEqual(st.validators, t.validators, DelegatedWeight());
    GapAfter(t.totalStaked, Ending(g, b), st.totalStaked, AllDelegated(st));
  }

  lemma GapAfter(total: int, ending: int, was: int, all: int)
    requires Agree(total + ending, was, false)
    ensures Agree(total - all + ending, was - all, false)
  {
  }

  /** Distribution and minting leave activity, delegated amounts, total and queues of validators alone. */
  lemma AfterEventsOnly(st: State, b: nat)
    requires b == st.height + 1 && AllCounted(st)
    ensures var s, t := ProcessEvents(st.(height := b), b), AcceptBlock(st);
            && t.totalStaked == s.totalStaked && t.height == b
            && t.activations == st.activations - {b} && t.deactivations == st.deactivations - {b}
            && t.validators.Keys == s.validators.Keys
            && (forall n | n in s.validators ::
                  && t.validators[n].isActive == s.validators[n].isActive && t.validators[n].ref == s.validators[n].ref
                  && t.validators[n].delegated == s.validators[n].delegated && t.validators[n].staked == s.validators[n].staked)
  {
    hide ProcessEvents, MintedAmount, RewardsPerEpoch;
    assert AllCounted(st.(height := b));
    ProcessEventsFrame(st.(height := b), b);
    BlockIsRewarded(st);
  }

  lemma DelegatorEventsKeepValidators(s: State, b: nat)
    requires AllCounted(s)
    ensures var t := AfterDelegatorEvents(s, b);
            && t.validators.Keys == s.validators.Keys
            && (forall n | n in s.validators ::
                  t.validators[n].isActive == s.validators[n].isActive && t.validators[n].ref == s.validators[n].ref)
  {
    SwitchAllKeeps(s, Queue(s.delegatorActivations, b), b, true);
    var s1 := SwitchAll(s, Queue(s.delegatorActivations, b), b, true).(delegatorActivations := s.delegatorActivations - {b});
    assert AllCounted(s1);
    SwitchAllKeeps(s1, Queue(s1.delegatorDeactivations, b), b, false);
    forall n | n in s.validators
      ensures AfterDelegatorEvents(s, b).validators[n].isActive == s.validators[n].isActive
           && AfterDelegatorEvents(s, b).validators[n].ref == s.validators[n].ref
    {
      assert SameBut(s.validators[n], s1.validators[n]);
    }
  }

  /** The next block: activity ends exactly for those whose stake ends. */
  lemma BlockShape(g: Guarded)
    requires Invariant(g.w) && EventsKnown(g)
    ensures var st, t, b := g.w.st, AcceptBlock(g.w.st), g.w.st.height + 1;
            && t.height == b
            && t.activations == st.activations - {b} && t.deactivations == st.deactivations - {b}
            && t.validators.Keys == st.validators.Keys
            && (forall n | n in st.validators ::
                  && t.validators[n].ref == st.validators[n].ref
                  && t.validators[n].isActive == (st.validators[n].isActive && !(n in g.ends && g.ends[n] == b)))
  {
    hide AfterValidatorEvents, AfterDelegatorEvents, AcceptBlock, Gap, Ending;
    var st, b := g.w.st, g.w.st.height + 1;
    ValidatorEventsOfBlock(g);
    assert AllCounted(st.(height := b));
    ValidatorEventsKeepCounted(st.(height := b), b);
    DelegatorEventsKeepValidators(AfterValidatorEvents(st.(height := b), b), b);
    AfterEventsOnly(st, b);
  }

  lemma FlagKeepsCounted(v: Validator, active: bool)
    requires Counted(v)
    ensures Counted(v.(isActive := active))
  {
  }

  lemma ValidatorEventsKeepCounted(st: State, b: nat)
    requires AllCounted(st)
    ensures AllCounted(AfterValidatorEvents(st, b))
  {
    hide AfterValidatorEvents, Counted;
    var s := AfterValidatorEvents(st, b);
    ValidatorEventsKeep(st, b);
    forall n | n in s.validators ensures Counted(s.validators[n]) {
      FlagKeepsCounted(st.validators[n], s.validators[n].isActive);
    }
  }

  /** What is recorded apart from delegated stake loses exactly the stake that ends. */
  lemma BlockTotals(g: Guarded)
    requires Invariant(g.w) && EventsKnown(g)
    ensures Agree(Gap(AcceptBlock(g.w.st)) + Ending(g, g.w.st.height + 1), Gap(g.w.st), false)
  {
    hide Agree, AfterValidatorEvents, AfterDelegatorEvents, AcceptBlock, Ending, Gap, EventsKnown;
    var st, b := g.w.st, g.w.st.height + 1;
    var s := AfterValidatorEvents(st.(height := b), b);
    ValidatorEventsOfBlock(g);
    DelegatorEventsKeepGap(s, b);
    SameGapAfterEvents(st, b);
    AgreeSame(Ending(g, b), false);
    AgreeAdd(Gap(AfterDelegatorEvents(s, b)), Gap(s), Ending(g, b), Ending(g, b), false);
    AgreeTransitive(Gap(AcceptBlock(st)) + Ending(g, b), Gap(s) + Ending(g, b), Gap(st));
  }

  lemma SameGapAfterEvents(st: State, b: nat)
    requires b == st.height + 1 && AllCounted(st)
    ensures Gap(AcceptBlock(st)) == Gap(ProcessEvents(st.(height := b), b))
  {
    hide AcceptBlock, ProcessEvents;
    AfterEventsOnly(st, b);
    SumEqual(ProcessEvents(st.(height := b), b).validators, AcceptBlock(st).validators, DelegatedWeight());
  }

  lemma BlockKeepsKnown(g: Guarded)
    requires Invariant(g.w) && EventsKnown(g)
    ensures EventsKnown(GuardedStep(g, NextBlock))
  {
    hide AcceptBlock, Invariant;
    var h := GuardedStep(g, NextBlock);
    var st, t, b := g.w.st, AcceptBlock(g.w.st), g.w.st.height + 1;
    BlockShape(g);
    forall n | n in h.ends ensures Serving(h, n) {
      assert Serving(g, n);
    }
    forall k: nat, e | k > b && e in Queue(t.activations, k) ensures ActivationKnown(h, e, k) {
      assert ActivationKnown(g, e, k);
    }
    forall k: nat, e | k > b && e in Queue(t.deactivations, k) ensures DeactivationKnown(h, e, k) {
      assert DeactivationKnown(g, e, k);
    }
  }

  lemma BlockKeepsTotal(g: Guarded)
    requires Invariant(g.w) && EventsKnown(g) && TotalLaw(g)
    ensures TotalLaw(GuardedStep(g, NextBlock))
  {
    hide AcceptBlock, Agree, Gap, Ending, Invariant, EventsKnown;
    var b := g.w.st.height + 1;
    BlockTotals(g);
    EndedAgrees(Gap(AcceptBlock(g.w.st)), Ending(g, b), Gap(g.w.st), g.ended);
  }

  lemma EndedAgrees(now: int, ending: int, was: int, ended: int)
    requires Agree(now + ending, was, false) && Agree(was + ended, 0, false)
    ensures Agree(now + (ended + ending), 0, false)
  {
  }

  // ---------------------------------------------------------------------------------------------
  // Other events

  lemma RegisterKeepsServing(g: Guarded, ev: Event, n: NodeId)
    requires EventsKnown(g) && ev.RegisterStake? && Admits(g, ev) && n in GuardedStep(g, ev).ends
    ensures Serving(GuardedStep(g, ev), n)
  {
    if n != ev.node {
      assert Serving(g, n);
    }
  }

  lemma RegisterKeepsActivations(g: Guarded, ev: Event, h: Handle, k: nat)
    requires EventsKnown(g) && ev.RegisterStake? && Admits(g, ev)
    requires k > g.w.st.height && h in Queue(GuardedStep(g, ev).w.st.activations, k)
    ensures ActivationKnown(GuardedStep(g, ev), h, k)
  {
    if h in Queue(g.w.st.activations, k) {
      assert ActivationKnown(g, h, k);
    }
  }

  lemma RegisterKeepsDeactivations(g: Guarded, ev: Event, h: Handle, k: nat)
    requires EventsKnown(g) && ev.RegisterStake? && Admits(g, ev)
    requires k > g.w.st.height && h in Queue(GuardedStep(g, ev).w.st.deactivations, k)
    ensures DeactivationKnown(GuardedStep(g, ev), h, k)
  {
    if h in Queue(g.w.st.deactivations, k) {
      assert DeactivationKnown(g, h, k);
    }
  }

  lemma RegisterKeepsTotal(g: Guarded, ev: Event)
    requires TotalLaw(g) && ev.RegisterStake? && Admits(g, ev)
    ensures TotalLaw(GuardedStep(g, ev))
  {
    hide Agree;
    SumChange(g.w.st.validators, GuardedStep(g, ev).w.st.validators, ev.node, DelegatedWeight());
  }

  lemma RegisterKeeps(g: Guarded, ev: Event)
    requires EventsKnown(g) && TotalLaw(g) && ev.RegisterStake? && Admits(g, ev)
    ensures EventsKnown(GuardedStep(g, ev)) && TotalLaw(GuardedStep(g, ev))
  {
    hide TotalLaw, Serving, ActivationKnown, DeactivationKnown, Admits;
    var h := GuardedStep(g, ev);
    RegisterKeepsTotal(g, ev);
    assert h.w.st.height == g.w.st.height;
    forall n | n in h.ends ensures Serving(h, n) {
      RegisterKeepsServing(g, ev, n);
    }
    forall k: nat, e | k > h.w.st.height && e in Queue(h.w.st.activations, k) ensures ActivationKnown(h, e, k) {
      RegisterKeepsActivations(g, ev, e, k);
    }
    forall k: nat, e | k > h.w.st.height && e in Queue(h.w.st.deactivations, k) ensures DeactivationKnown(h, e, k) {
      RegisterKeepsDeactivations(g, ev, e, k);
    }
  }

  /** Any validator whose record changes keeps its identity, its delegated amount and, if it serves, its activity. */
  lemma OneValidatorKeeps(g: Guarded, h: Guarded, node: NodeId)
    requires EventsKnown(g) && TotalLaw(g) && h.ended == g.ended
    requires h.ends == g.ends || (h.ends == g.ends - {node} && (node in g.ends ==> g.ends[node] <= g.w.st.height))
    requires h.w.st == g.w.st.(validators := h.w.st.validators, retired := h.w.st.retired,
                               delegatorActivations := h.w.st.delegatorActivations,
                               delegatorDeactivations := h.w.st.delegatorDeactivations)
    requires h.w.st.validators - {node} == g.w.st.validators - {node} && node in g.w.st.validators
    requires node in h.w.st.validators ==>
               && h.w.st.validators[node].ref == g.w.st.validators[node].ref
               && h.w.st.validators[node].delegated == g.w.st.validators[node].delegated
    requires node !in h.w.st.validators ==> g.w.st.validators[node].delegated == 0 && !g.w.st.validators[node].isActive
    requires node in g.ends && g.w.st.height < g.ends[node] && node in h.w.st.validators ==>
               h.w.st.validators[node].isActive == g.w.st.validators[node].isActive
    ensures EventsKnown(h) && TotalLaw(h)
  {
    var st, t := g.w.st, h.w.st;
    SumChange(st.validators, t.validators, node, DelegatedWeight());
    forall n | n in h.ends ensures Serving(h, n) {
      assert Serving(g, n);
      if n != node {
        OtherKept(st.validators, t.validators, node, n);
      }
    }
    forall k: nat, e | k > t.height && e in Queue(t.activations, k) ensures ActivationKnown(h, e, k) {
      assert ActivationKnown(g, e, k) && Serving(g, e.node);
      if e.node != node {
        OtherKept(st.validators, t.validators, node, e.node);
      }
    }
    forall k: nat, e | k > t.height && e in Queue(t.deactivations, k) ensures DeactivationKnown(h, e, k) {
      assert DeactivationKnown(g, e, k) && Serving(g, e.node);
      if e.node != node {
        OtherKept(st.validators, t.validators, node, e.node);
      }
    }
  }

  lemma PayoutKeeps(g: Guarded, ev: Event)
    requires EventsKnown(g) && TotalLaw(g) && Admits(g, ev)
    requires ev.WithdrawStake? || ev.ClaimReward? || ev.DelegateStake? || ev.ClaimShare?
    ensures EventsKnown(GuardedStep(g, ev)) && TotalLaw(GuardedStep(g, ev))
  {
    hide EventsKnown, TotalLaw;
    if ev.node in g.w.st.validators && GuardedStep(g, ev) != g {
      OneValidatorKeeps(g, GuardedStep(g, ev), ev.node);
    }
  }

  lemma UndelegateKeeps(g: Guarded, ev: Event)
    requires Invariant(g.w) && EventsKnown(g) && TotalLaw(g) && Admits(g, ev) && ev.UndelegateStake?
    ensures EventsKnown(GuardedStep(g, ev)) && TotalLaw(GuardedStep(g, ev))
  {
    hide EventsKnown, TotalLaw, DelegationReward;
    var st := g.w.st;
    if Undelegate(st, ev.node, ev.who).Ok? {
      var v := st.validators[ev.node];
      assert Counted(v) && OnSchedule(st, ev.node, ev.who, v.delegators[ev.who]);
      UndelegateShape(st, ev.node, ev.who);
      if ev.node !in Undelegate(st, ev.node, ev.who).value.0.validators {
        NobodyLeft(v, ev.who);
      }
      OneValidatorKeeps(g, GuardedStep(g, ev), ev.node);
    }
  }

  lemma NobodyLeft(v: Validator, who: Address)
    requires Counted(v) && who in v.delegators && v.delegators - {who} == map[] && !v.delegators[who].isActive
    ensures v.delegated == 0
  {
    SumRemove(v.delegators, who, ActiveWeight());
  }

  lemma StepKeepsGuarded(g: Guarded, ev: Event)
    requires GuardedInvariant(g)
    ensures GuardedInvariant(GuardedStep(g, ev))
  {
    hide Invariant, EventsKnown, TotalLaw, Step;
    if Admits(g, ev) {
      StepKeepsInvariant(g.w, ev);
      match ev
      case RegisterStake(_, _, _, _, _) => RegisterKeeps(g, ev);
      case WithdrawStake(_) => PayoutKeeps(g, ev);
      case ClaimReward(_) => PayoutKeeps(g, ev);
      case DelegateStake(_, _, _, _, _) => PayoutKeeps(g, ev);
      case UndelegateStake(_, _) => UndelegateKeeps(g, ev);
      case ClaimShare(_, _) => PayoutKeeps(g, ev);
      case NextBlock =>
        BlockKeepsKnown(g);
        BlockKeepsTotal(g);
    }
  }

  lemma {:induction false} RunKeepsGuarded(g: Guarded, evs: seq<Event>)
    requires GuardedInvariant(g)
    ensures GuardedInvariant(GuardedRun(g, evs))
    decreases |evs|
  {
    hide GuardedInvariant;
    if evs != [] {
      RunKeepsGuarded(g, evs[..|evs| - 1]);
      StepKeepsGuarded(GuardedRun(g, evs[..|evs| - 1]), evs[|evs| - 1]);
    }
  }

  lemma NewIsGuarded(totalSupply: uint64, maxSupply: uint64)
    requires totalSupply <= maxSupply
    ensures GuardedInvariant(NewGuarded(totalSupply, maxSupply))
  {
    var w := NewWorld(totalSupply, maxSupply);
    RunFromStart(totalSupply, maxSupply, []);
    assert Run(w, []) == w;
  }

  // ---------------------------------------------------------------------------------------------
  // Main results

  /** Over every guarded run the recorded total is, in 64 bits, the delegated amounts of all validators less
      the stake, own and delegated, of every validator whose end block has come. Validators' own stake is
      never added, but it is taken off when it ends. */
  lemma {:induction false} RecordedTotal(totalSupply: uint64, maxSupply: uint64, evs: seq<Event>)
    requires totalSupply <= maxSupply
    ensures var g := GuardedRun(NewGuarded(totalSupply, maxSupply), evs);
            g.w.st.totalStaked == (AllDelegated(g.w.st) - g.ended) % TWO_TO_64
  {
    hide GuardedRun, AllDelegated;
    NewIsGuarded(totalSupply, maxSupply);
    RunKeepsGuarded(NewGuarded(totalSupply, maxSupply), evs);
    var g := GuardedRun(NewGuarded(totalSupply, maxSupply), evs);
    Represents(g.w.st.totalStaked, AllDelegated(g.w.st), g.ended);
  }

  lemma Represents(total: uint64, all: int, ended: int)
    requires Agree(total - all + ended, 0, false)
    ensures total == (all - ended) % TWO_TO_64
  {
  }

  // ---------------------------------------------------------------------------------------------
  // Stake that counts without being recorded

  ghost function OwnWeight(): (NodeId, Validator) -> int {
    (n: NodeId, v: Validator) => if v.isActive then v.staked else 0
  }

  /** The own stake of all active validators. */
  ghost function OwnStake(st: State): int {
    Sum(st.validators, OwnWeight())
  }

  ghost function IdleWeight(): (NodeId, Validator) -> int {
    (n: NodeId, v: Validator) => if v.isActive then 0 else v.delegated
  }

  /** What is delegated to validators that are not active. */
  ghost function Idle(st: State): int {
    Sum(st.validators, IdleWeight())
  }

  /** Every validator's stake, own and delegated, fits into 64 bits, and so does what the recorded total stands for. */
  ghost predicate InRange(g: Guarded) {
    && (forall n | n in g.w.st.validators :: g.w.st.validators[n].staked + g.w.st.validators[n].delegated <= MAX_UINT64)
    && 0 <= AllDelegated(g.w.st) - g.ended <= MAX_UINT64
  }

  /** Active stake, counted twice over: by validators, and as own and delegated stake. */
  lemma {:induction false} ActiveTotalIs(m: map<NodeId, Validator>, exact: bool)
    requires exact ==> forall n | n in m :: m[n].staked + m[n].delegated <= MAX_UINT64
    ensures Agree(Sum(m, StakeWeight()) + Sum(m, IdleWeight()), Sum(m, OwnWeight()) + Sum(m, DelegatedWeight()), exact)
    decreases |m|
  {
    hide Agree, Sum, Stake;
    if m == map[] {
      SumZero(m, StakeWeight());
      SumZero(m, IdleWeight());
      SumZero(m, OwnWeight());
      SumZero(m, DelegatedWeight());
      AgreeSame(0, exact);
    } else {
      var p :| p in m;
      SumRemove(m, p, StakeWeight());
      SumRemove(m, p, IdleWeight());
      SumRemove(m, p, OwnWeight());
      SumRemove(m, p, DelegatedWeight());
      ActiveTotalIs(m - {p}, exact);
      OneActive(m, p, exact);
      var rest := m - {p};
      AgreeAdd(At(m, p, StakeWeight()) + At(m, p, IdleWeight()), At(m, p, OwnWeight()) + At(m, p, DelegatedWeight()),
               Sum(rest, StakeWeight()) + Sum(rest, IdleWeight()), Sum(rest, OwnWeight()) + Sum(rest, DelegatedWeight()), exact);
    }
  }

  lemma OneActive(m: map<NodeId, Validator>, p: NodeId, exact: bool)
    requires p in m && (exact ==> m[p].staked + m[p].delegated <= MAX_UINT64)
    ensures Agree(At(m, p, StakeWeight()) + At(m, p, IdleWeight()), At(m, p, OwnWeight()) + At(m, p, DelegatedWeight()), exact)
  {
    hide Agree;
    WrapAgrees(m[p].staked, m[p].delegated, exact);
    AgreeSame(m[p].delegated, exact);
  }

  /** Over every guarded run, the stake that counts exceeds the recorded total by active validators' own stake and all
      stake that ever ended, less what is delegated to validators that are not active: exactly so while in range. */
  lemma {:induction false} UncountedStake(totalSupply: uint64, maxSupply: uint64, evs: seq<Event>)
    requires totalSupply <= maxSupply
    ensures var g := GuardedRun(NewGuarded(totalSupply, maxSupply), evs);
            var st := g.w.st;
            Agree(ActiveTotal(st) - st.totalStaked, OwnStake(st) - Idle(st) + g.ended, InRange(g))
  {
    hide GuardedRun, Agree, AllDelegated, OwnStake, Idle, ActiveTotal, Sum;
    var g := GuardedRun(NewGuarded(totalSupply, maxSupply), evs);
    RecordedTotal(totalSupply, maxSupply, evs);
    UncountedIn(g);
  }

  lemma UncountedIn(g: Guarded)
    requires g.w.st.totalStaked == (AllDelegated(g.w.st) - g.ended) % TWO_TO_64
    ensures Agree(ActiveTotal(g.w.st) - g.w.st.totalStaked, OwnStake(g.w.st) - Idle(g.w.st) + g.ended, InRange(g))
  {
    hide Agree, Sum;
    var st := g.w.st;
    ActiveTotalIs(st.validators, InRange(g));
    Difference(ActiveTotal(st), Idle(st), OwnStake(st), AllDelegated(st), g.ended, st.totalStaked, InRange(g));
  }

  lemma Difference(active: int, idle: int, own: int, all: int, ended: int, total: int, exact: bool)
    requires Agree(active + idle, own + all, exact) && total == (all - ended) % TWO_TO_64
    requires exact ==> 0 <= all - ended <= MAX_UINT64
    ensures Agree(active - total, own - idle + ended, exact)
  {
  }

  /** At the end of every epoch of every guarded run, while in range: more is minted than the rewards of the epoch
      exactly when own and ended stake, less what is delegated to inactive validators, outweigh the rounding. */
  lemma {:induction false} EpochOverpaysOnStake(totalSupply: uint64, maxSupply: uint64, evs: seq<Event>)
    requires totalSupply <= maxSupply
    requires var st := GuardedRun(NewGuarded(totalSupply, maxSupply), evs).w.st; (st.height + 1) % EPOCH_LENGTH == 0
    requires InRange(GuardedRun(NewGuarded(totalSupply, maxSupply), evs + [NextBlock]))
    ensures var st := GuardedRun(NewGuarded(totalSupply, maxSupply), evs).w.st;
            var h := GuardedRun(NewGuarded(totalSupply, maxSupply), evs + [NextBlock]);
            var next := st.(height := st.height + 1);
            var s := ProcessEvents(next, next.height);
            var total := RewardsPerEpoch(s);
            MintedAmount(next) > total
            <==> s.totalStaked > 0 && total * (OwnStake(h.w.st) - Idle(h.w.st) + h.ended) > Remainders(s, total)
  {
    hide GuardedRun, ProcessEvents, RewardsPerEpoch, ActiveTotal, Remainders, Distributed;
    hide OwnStake, Idle, AcceptBlock, Ending, InRange, Invariant;
    var g := GuardedRun(NewGuarded(totalSupply, maxSupply), evs);
    NewIsGuarded(totalSupply, maxSupply);
    RunKeepsGuarded(NewGuarded(totalSupply, maxSupply), evs);
    GuardedSnoc(NewGuarded(totalSupply, maxSupply), evs, NextBlock);
    UncountedStake(totalSupply, maxSupply, evs + [NextBlock]);
    OverpaysNow(g.w);
    SameActiveTotal(g.w);
  }

  lemma GuardedSnoc(g: Guarded, evs: seq<Event>, ev: Event)
    ensures GuardedRun(g, evs + [ev]) == GuardedStep(GuardedRun(g, evs), ev)
  {
    assert (evs + [ev])[..|evs|] == evs;
  }

  lemma SameActiveTotal(w: World)
    requires Invariant(w)
    ensures var s, t := ProcessEvents(w.st.(height := w.st.height + 1), w.st.height + 1), AcceptBlock(w.st);
            ActiveTotal(t) == ActiveTotal(s) && t.totalStaked == s.totalStaked
  {
    hide ProcessEvents, AcceptBlock;
    AfterEventsOnly(w.st, w.st.height + 1);
    SumEqual(ProcessEvents(w.st.(height := w.st.height + 1), w.st.height + 1).validators, AcceptBlock(w.st).validators, StakeWeight());
  }

  /** In every guarded run a validator on record stays active from its registration until its end block, and the
      activation events of the next block never change anything. */
  lemma {:induction false} ActivationsNeverCount(totalSupply: uint64, maxSupply: uint64, evs: seq<Event>, n: NodeId)
    requires totalSupply <= maxSupply
    ensures var g := GuardedRun(NewGuarded(totalSupply, maxSupply), evs);
            var next := g.w.st.(height := g.w.st.height + 1);
            && (n in g.ends && g.w.st.height < g.ends[n] ==> n in g.w.st.validators && g.w.st.validators[n].isActive)
            && ActivateAll(next, Queue(next.activations, next.height)) == next
  {
    hide GuardedRun;
    NewIsGuarded(totalSupply, maxSupply);
    RunKeepsGuarded(NewGuarded(totalSupply, maxSupply), evs);
    var g := GuardedRun(NewGuarded(totalSupply, maxSupply), evs);
    NoActivationCounts(g);
    assert n in g.ends ==> Serving(g, n);
  }

  /** Registering, for the first time or again, makes the stake count when rewards are shared out, together with
      what is delegated already, but the recorded total does not change. */
  lemma RegistrationIsNotCounted(st: State, node: NodeId, start: uint64, end: uint64, staked: uint64, feeRate: FeeRate)
    ensures var t := Register(st, node, start, end, staked, feeRate);
            var delegated := if node in st.validators then st.validators[node].delegated else 0;
            && t.totalStaked == st.totalStaked
            && ActiveTotal(t) == ActiveTotal(st) - At(st.validators, node, StakeWeight()) + WrapAdd(staked, delegated)
  {
    var t := Register(st, node, start, end, staked, feeRate);
    SumChange(st.validators, t.validators, node, StakeWeight());
  }
}
