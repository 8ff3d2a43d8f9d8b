/** The delegator event queues over every run: who is active when, and what validators add up. */
module Delegations {
  import opened Types
  import opened Sums
  import opened Emission

  ghost function ActiveWeight(): (Address, Delegator) -> int {
    (who: Address, d: Delegator) => if d.isActive then d.staked else 0
  }

  /** The stake of all active delegators of a validator. */
  ghost function ActiveStake(v: Validator): int {
    Sum(v.delegators, ActiveWeight())
  }

  /** A validator's delegated amount is the stake of its active delegators, as 64 bits hold it. */
  ghost predicate Counted(v: Validator) {
    v.delegated == ActiveStake(v) % TWO_TO_64
  }

  ghost predicate AllCounted(st: State) {
    forall n | n in st.validators :: Counted(st.validators[n])
  }

  /** The delegator is active exactly inside its window; a window that opened at the very block at which
      the delegation was recorded is missed. Events still to come are queued. */
  predicate OnSchedule(st: State, n: NodeId, who: Address, d: Delegator) {
    && d.joined <= st.height && d.joined <= d.start < d.end
    && (d.isActive <==> d.start <= st.height < d.end && d.joined < d.start)
    && (st.height < d.start ==> DelegatorEvent(n, who) in Queue(st.delegatorActivations, d.start))
    && (st.height < d.end ==> DelegatorEvent(n, who) in Queue(st.delegatorDeactivations, d.end))
  }

  ghost predicate AllOnSchedule(st: State) {
    forall n, who | n in st.validators && who in st.validators[n].delegators ::
      OnSchedule(st, n, who, st.validators[n].delegators[who])
  }

  /** A queued activation still to come belongs to a recorded delegation that starts then. */
  predicate Wanted(st: State, e: DelegatorEvent, k: nat) {
    && e.node in st.validators && e.delegator in st.validators[e.node].delegators
    && st.validators[e.node].delegators[e.delegator].start == k
  }

  ghost predicate AllWanted(st: State) {
    forall k: nat, e | k > st.height && e in Queue(st.delegatorActivations, k) :: Wanted(st, e, k)
  }

  ghost predicate Scheduled(st: State) {
    AllCounted(st) && AllOnSchedule(st) && AllWanted(st)
  }

  // ---------------------------------------------------------------------------------------------
  // Validator events leave delegations alone

  /** Only activity flags of validators, the total stake and unregistered records differ. */
  ghost predicate FlagsOnly(s: State, t: State) {
    && t == s.(validators := t.validators, retired := t.retired, totalStaked := t.totalStaked)
    && t.validators.Keys == s.validators.Keys
    && forall n | n in s.validators :: t.validators[n] == s.validators[n].(isActive := t.validators[n].isActive)
  }

  lemma {:induction false} ActivateAllFlagsOnly(st: State, hs: seq<Handle>)
    ensures FlagsOnly(st, ActivateAll(st, hs))
    decreases |hs|
  {
    if hs != [] {
      ActivateAllFlagsOnly(st, hs[..|hs| - 1]);
    }
  }

  lemma {:induction false} DeactivateAllFlagsOnly(st: State, hs: seq<Handle>)
    ensures FlagsOnly(st, DeactivateAll(st, hs))
    decreases |hs|
  {
    if hs != [] {
      DeactivateAllFlagsOnly(st, hs[..|hs| - 1]);
    }
  }

  // ---------------------------------------------------------------------------------------------
  // Delegator events

  /** Only delegators' activity flags and the delegated amount differ. */
  predicate SameBut(v: Validator, w: Validator) {
    && w == v.(delegators := w.delegators, delegated := w.delegated)
    && w.delegators.Keys == v.delegators.Keys
  }

  ghost predicate DelegatorFlagsOnly(s: State, t: State) {
    && t == s.(validators := t.validators, totalStaked := t.totalStaked)
    && t.validators.Keys == s.validators.Keys
    && forall n | n in s.validators :: SameBut(s.validators[n], t.validators[n])
  }

  lemma FlagsOnlyTransitive(s: State, t: State, u: State)
    requires DelegatorFlagsOnly(s, t) && DelegatorFlagsOnly(t, u)
    ensures DelegatorFlagsOnly(s, u)
  {
    forall n | n in s.validators ensures SameBut(s.validators[n], u.validators[n]) {
      assert SameBut(s.validators[n], t.validators[n]) && SameBut(t.validators[n], u.validators[n]);
    }
  }

  lemma WrappedSum(delegated: uint64, all: int, staked: uint64, on: bool)
    requires delegated == all % TWO_TO_64
    ensures (if on then WrapAdd(delegated, staked) else WrapSub(delegated, staked))
         == (if on then all + staked else all - staked) % TWO_TO_64
  {
  }

  lemma SwitchedCounted(v: Validator, who: Address, on: bool)
    requires Counted(v) && who in v.delegators && v.delegators[who].isActive != on
    ensures Counted(Switched(v, who, on))
  {
    hide WrapAdd, WrapSub, Sum;
    SumChange(v.delegators, Switched(v, who, on).delegators, who, ActiveWeight());
    WrappedSum(v.delegated, ActiveStake(v), v.delegators[who].staked, on);
  }

  /** Replacing one validator by another counted one. */
  lemma ReplaceCounted(st: State, node: NodeId, w: Validator, t: State)
    requires AllCounted(st) && Counted(w) && t.validators == st.validators[node := w]
    ensures AllCounted(t)
  {
  }

  lemma SwitchFlags(st: State, e: DelegatorEvent, b: nat, on: bool)
    ensures DelegatorFlagsOnly(st, Switch(st, e, b, on))
  {
    var t := Switch(st, e, b, on);
    forall n | n in st.validators ensures n in t.validators && SameBut(st.validators[n], t.validators[n]) {
    }
  }

  lemma SwitchCounted(st: State, e: DelegatorEvent, b: nat, on: bool)
    requires AllCounted(st)
    ensures AllCounted(Switch(st, e, b, on))
  {
    if e.node in st.validators && Fires(st.validators[e.node], e.delegator, b, on) {
      SwitchedCounted(st.validators[e.node], e.delegator, on);
      ReplaceCounted(st, e.node, Switched(st.validators[e.node], e.delegator, on), Switch(st, e, b, on));
    }
  }

  lemma {:induction false} SwitchAllKeeps(st: State, es: seq<DelegatorEvent>, b: nat, on: bool)
    requires AllCounted(st)
    ensures DelegatorFlagsOnly(st, SwitchAll(st, es, b, on)) && AllCounted(SwitchAll(st, es, b, on))
    decreases |es|
  {
    if es != [] {
      SwitchAllKeeps(st, es[..|es| - 1], b, on);
      var u := SwitchAll(st, es[..|es| - 1], b, on);
      SwitchFlags(u, es[|es| - 1], b, on);
      SwitchCounted(u, es[|es| - 1], b, on);
      FlagsOnlyTransitive(st, u, Switch(u, es[|es| - 1], b, on));
    }
  }

  lemma SwitchAt(st: State, e: DelegatorEvent, b: nat, on: bool, n: NodeId, who: Address)
    requires n in st.validators && who in st.validators[n].delegators
    ensures var t, d := Switch(st, e, b, on), st.validators[n].delegators[who];
            && n in t.validators && who in t.validators[n].delegators
            && t.validators[n].delegators[who]
               == if e == DelegatorEvent(n, who) && Applies(d, b, on) then d.(isActive := on) else d
  {
    hide Applies, WrapAdd, WrapSub;
    if e.node == n && Fires(st.validators[n], e.delegator, b, on) {
      assert Switch(st, e, b, on).validators[n] == Switched(st.validators[n], e.delegator, on);
    } else {
      assert Switch(st, e, b, on).validators[n] == st.validators[n];
    }
  }

  /** Events switch exactly the delegators that they name and that the block is right for. */
  lemma {:induction false} SwitchAllAt(st: State, es: seq<DelegatorEvent>, b: nat, on: bool, n: NodeId, who: Address)
    requires n in st.validators && who in st.validators[n].delegators
    ensures var t, d := SwitchAll(st, es, b, on), st.validators[n].delegators[who];
            && n in t.validators && who in t.validators[n].delegators
            && t.validators[n].delegators[who]
               == if DelegatorEvent(n, who) in es && Applies(d, b, on) then d.(isActive := on) else d
    decreases |es|
  {
    if es != [] {
      var rest, e := es[..|es| - 1], es[|es| - 1];
      SwitchAllAt(st, rest, b, on, n, who);
      SwitchAt(SwitchAll(st, rest, b, on), e, b, on, n, who);
      assert es == rest + [e];
    }
  }

  /** Switching delegators leaves the queues alone. */
  lemma {:induction false} SwitchingFrame(st: State, es: seq<DelegatorEvent>, b: nat, on: bool)
    ensures var t := SwitchAll(st, es, b, on); t == st.(validators := t.validators, totalStaked := t.totalStaked)
    decreases |es|
  {
    if es != [] {
      SwitchingFrame(st, es[..|es| - 1], b, on);
    }
  }

  /** What one block does to one delegator. */
  function AfterBlock(st: State, n: NodeId, who: Address, d: Delegator, b: nat): Delegator {
    var d1 := if DelegatorEvent(n, who) in Queue(st.delegatorActivations, b) && Applies(d, b, true)
              then d.(isActive := true) else d;
    if DelegatorEvent(n, who) in Queue(st.delegatorDeactivations, b) && Applies(d, b, false)
    then d1.(isActive := false) else d1
  }

  lemma ValidatorEventsKeep(st: State, b: nat)
    ensures FlagsOnly(st.(activations := st.activations - {b}, deactivations := st.deactivations - {b}),
                      AfterValidatorEvents(st, b))
  {
    var s1 := ActivateAll(st, Queue(st.activations, b)).(activations := st.activations - {b});
    ActivateAllFlagsOnly(st, Queue(st.activations, b));
    DeactivateAllFlagsOnly(s1, Queue(st.deactivations, b));
    var s2 := AfterValidatorEvents(st, b);
    forall n | n in st.validators
      ensures s2.validators[n] == st.validators[n].(isActive := s2.validators[n].isActive)
    {
      assert s1.validators[n] == st.validators[n].(isActive := s1.validators[n].isActive);
    }
  }

  /** A validator may differ in its own activity and in its delegators' activity, in nothing else. */
  predicate SameRecord(v: Validator, w: Validator) {
    && w == v.(isActive := w.isActive, delegators := w.delegators, delegated := w.delegated)
    && w.delegators.Keys == v.delegators.Keys
  }

  /** Working off a block clears its queues and otherwise changes flags and sums only. */
  ghost predicate BlockFrame(st: State, t: State, b: nat) {
    && t == st.(validators := t.validators, retired := t.retired, totalStaked := t.totalStaked,
                activations := st.activations - {b}, deactivations := st.deactivations - {b},
                delegatorActivations := st.delegatorActivations - {b},
                delegatorDeactivations := st.delegatorDeactivations - {b})
    && t.validators.Keys == st.validators.Keys
    && forall n | n in st.validators :: SameRecord(st.validators[n], t.validators[n])
  }

  lemma ProcessEventsFrame(st: State, b: nat)
    requires AllCounted(st)
    ensures AllCounted(ProcessEvents(st, b)) && BlockFrame(st, ProcessEvents(st, b), b)
  {
    var s2 := AfterValidatorEvents(st, b);
    ValidatorEventsKeep(st, b);
    forall n | n in s2.validators ensures Counted(s2.validators[n]) {
      assert Counted(st.validators[n]) && s2.validators[n].delegators == st.validators[n].delegators;
    }
    SwitchAllKeeps(s2, Queue(s2.delegatorActivations, b), b, true);
    var s3 := SwitchAll(s2, Queue(s2.delegatorActivations, b), b, true)
              .(delegatorActivations := s2.delegatorActivations - {b});
    assert AllCounted(s3);
    SwitchAllKeeps(s3, Queue(s3.delegatorDeactivations, b), b, false);
    var t := ProcessEvents(st, b);
    forall n | n in st.validators ensures SameRecord(st.validators[n], t.validators[n]) {
      assert SameBut(s2.validators[n], s3.validators[n]) && SameBut(s3.validators[n], t.validators[n]);
    }
  }

  lemma ProcessEventsAt(st: State, b: nat, n: NodeId, who: Address)
    requires n in st.validators && who in st.validators[n].delegators
    ensures var t := ProcessEvents(st, b);
            && n in t.validators && who in t.validators[n].delegators
            && t.validators[n].delegators[who] == AfterBlock(st, n, who, st.validators[n].delegators[who], b)
  {
    var s2 := AfterValidatorEvents(st, b);
    ValidatorEventsKeep(st, b);
    assert s2.validators[n].delegators == st.validators[n].delegators;
    SwitchAllAt(s2, Queue(s2.delegatorActivations, b), b, true, n, who);
    var s3 := SwitchAll(s2, Queue(s2.delegatorActivations, b), b, true)
              .(delegatorActivations := s2.delegatorActivations - {b});
    SwitchAllAt(s3, Queue(s3.delegatorDeactivations, b), b, false, n, who);
    SwitchingFrame(s2, Queue(s2.delegatorActivations, b), b, true);
  }

  // ---------------------------------------------------------------------------------------------
  // Every event keeps the schedule

  lemma DistributeKeepsScheduled(st: State, total: uint64, epoch: nat)
    requires Scheduled(st)
    ensures Scheduled(Distribute(st, total, epoch))
  {
    var t := Distribute(st, total, epoch);
    forall n | n in t.validators ensures Counted(t.validators[n]) {
      assert Counted(st.validators[n]);
    }
    forall n, who | n in t.validators && who in t.validators[n].delegators
      ensures OnSchedule(t, n, who, t.validators[n].delegators[who])
    {
      assert OnSchedule(st, n, who, st.validators[n].delegators[who]);
    }
    forall k: nat, e | k > t.height && e in Queue(t.delegatorActivations, k)
      ensures Wanted(t, e, k)
    {
      assert Wanted(st, e, k);
    }
  }

  /** A delegator on schedule is on schedule after the next block. */
  lemma NextBlockOnSchedule(st: State, n: NodeId, who: Address)
    requires Scheduled(st) && n in st.validators && who in st.validators[n].delegators
    ensures var b := st.height + 1;
            var s, d := st.(height := b), st.validators[n].delegators[who];
            OnSchedule(st.(height := b, delegatorActivations := st.delegatorActivations - {b},
                           delegatorDeactivations := st.delegatorDeactivations - {b}),
                       n, who, AfterBlock(s, n, who, d, b))
  {
    var b, d, e := st.height + 1, st.validators[n].delegators[who], DelegatorEvent(n, who);
    assert OnSchedule(st, n, who, d);
    assert e in Queue(st.delegatorActivations, b) ==> Wanted(st, e, b);
  }

  /** A delegation that is wanted stays so when the events of the next block are worked off. */
  lemma NextBlockKeepsWanted(st: State, e: DelegatorEvent, k: nat)
    requires AllCounted(st) && Wanted(st, e, k)
    ensures Wanted(ProcessEvents(st.(height := st.height + 1), st.height + 1), e, k)
  {
    hide ProcessEvents, Counted;
    var s := st.(height := st.height + 1);
    assert AllCounted(s);
    ProcessEventsFrame(s, s.height);
    assert SameRecord(s.validators[e.node], ProcessEvents(s, s.height).validators[e.node]);
    ProcessEventsAt(s, s.height, e.node, e.delegator);
  }

  /** Moving to the next block and working off its events. */
  lemma NextBlockKeepsScheduled(st: State)
    requires Scheduled(st)
    ensures Scheduled(ProcessEvents(st.(height := st.height + 1), st.height + 1))
  {
    hide ProcessEvents, AfterBlock, Counted, Wanted;
    var b := st.height + 1;
    var s := st.(height := b);
    assert AllCounted(s);
    ProcessEventsFrame(s, b);
    var t := ProcessEvents(s, b);
    forall n, who | n in t.validators && who in t.validators[n].delegators
      ensures OnSchedule(t, n, who, t.validators[n].delegators[who])
    {
      assert SameRecord(s.validators[n], t.validators[n]);
      NextBlockOnSchedule(st, n, who);
      ProcessEventsAt(s, b, n, who);
    }
    forall k: nat, e | k > t.height && e in Queue(t.delegatorActivations, k)
      ensures Wanted(t, e, k)
    {
      assert Wanted(st, e, k);
      NextBlockKeepsWanted(st, e, k);
    }
  }

  lemma RewardedKeepsScheduled(st: State)
    requires Scheduled(st)
    ensures Scheduled(Rewarded(st.(height := st.height + 1)))
  {
    hide ProcessEvents, RewardsPerEpoch;
    NextBlockKeepsScheduled(st);
    var next := st.(height := st.height + 1);
    var s := ProcessEvents(next, next.height);
    if next.height % EPOCH_LENGTH == 0 {
      DistributeKeepsScheduled(s, RewardsPerEpoch(s), next.height / EPOCH_LENGTH);
    }
  }

  lemma BlockKeepsScheduled(st: State)
    requires Scheduled(st)
    ensures Scheduled(AcceptBlock(st))
  {
    hide Rewarded, MintedAmount;
    var next := st.(height := st.height + 1);
    RewardedKeepsScheduled(st);
    MintedKeepsScheduled(Rewarded(next), MintedAmount(next) % TWO_TO_64);
  }

  lemma MintedKeepsScheduled(st: State, minted: uint64)
    requires Scheduled(st)
    ensures Scheduled(WithMinted(st, minted))
  {
    SupplyIsIrrelevant(st, WithMinted(st, minted).totalSupply);
  }

  lemma SupplyIsIrrelevant(st: State, supply: uint64)
    ensures Scheduled(st) <==> Scheduled(st.(totalSupply := supply))
  {
    var t := st.(totalSupply := supply);
    assert AllCounted(st) <==> AllCounted(t);
    assert AllOnSchedule(st) <==> AllOnSchedule(t);
    assert forall k: nat, e :: Wanted(st, e, k) == Wanted(t, e, k);
    assert AllWanted(st) <==> AllWanted(t);
  }

  /** Registering gives a node its new stake and fee rate and makes it active. What it had before, rewards, delegators and
      records, stays, or is nothing; one activation is queued at the start block and one deactivation at the end block,
      both for this very record. */
  lemma RegisterShape(st: State, node: NodeId, start: uint64, end: uint64, staked: uint64, feeRate: FeeRate)
    ensures var t := Register(st, node, start, end, staked, feeRate);
            && node in t.validators && t.validators - {node} == st.validators - {node}
            && t.totalStaked == st.totalStaked && t.totalSupply == st.totalSupply
            && t.delegatorActivations == st.delegatorActivations && t.delegatorDeactivations == st.delegatorDeactivations
    ensures var v := Register(st, node, start, end, staked, feeRate).validators[node];
            && v.isActive && v.staked == staked && v.feeRate == feeRate
            && if node in st.validators
               then v == st.validators[node].(isActive := true, staked := staked, feeRate := feeRate)
               else v.ref == st.nextRef && v.stakedReward == v.delegated == v.delegatedReward == v.paidOut == 0
                    && v.delegators == map[] && v.epochRewards == map[] && v.epochDelegated == map[]
    ensures var t := Register(st, node, start, end, staked, feeRate);
            var h := Handle(node, t.validators[node].ref);
            && (forall b: nat :: Queue(t.activations, b) == Queue(st.activations, b) + if b == start then [h] else [])
            && (forall b: nat :: Queue(t.deactivations, b) == Queue(st.deactivations, b) + if b == end then [h] else [])
  {
  }

  lemma RegisterKeepsScheduled(st: State, node: NodeId, start: uint64, end: uint64, staked: uint64, feeRate: FeeRate)
    requires Scheduled(st)
    ensures Scheduled(Register(st, node, start, end, staked, feeRate))
  {
    var t := Register(st, node, start, end, staked, feeRate);
    forall n | n in t.validators ensures Counted(t.validators[n]) {
      assert n in st.validators ==> Counted(st.validators[n]);
    }
    forall n, who | n in t.validators && who in t.validators[n].delegators
      ensures OnSchedule(t, n, who, t.validators[n].delegators[who])
    {
      assert OnSchedule(st, n, who, st.validators[n].delegators[who]);
    }
    forall k: nat, e | k > t.height && e in Queue(t.delegatorActivations, k)
      ensures Wanted(t, e, k)
    {
      assert Wanted(st, e, k);
    }
  }

  /** Changing only a validator's own stake, reward or activity. */
  lemma OwnFieldsKeepScheduled(st: State, node: NodeId, w: Validator)
    requires Scheduled(st) && node in st.validators
    requires w.delegators == st.validators[node].delegators && w.delegated == st.validators[node].delegated
    ensures Scheduled(st.(validators := st.validators[node := w]))
  {
    var t := st.(validators := st.validators[node := w]);
    forall n | n in t.validators ensures Counted(t.validators[n]) {
      assert Counted(st.validators[n]);
    }
    forall n, who | n in t.validators && who in t.validators[n].delegators
      ensures OnSchedule(t, n, who, t.validators[n].delegators[who])
    {
      assert OnSchedule(st, n, who, st.validators[n].delegators[who]);
    }
    forall k: nat, e | k > t.height && e in Queue(t.delegatorActivations, k)
      ensures Wanted(t, e, k)
    {
      assert Wanted(st, e, k);
    }
  }

  lemma DelegateKeepsCounted(st: State, node: NodeId, who: Address, start: uint64, end: uint64, staked: uint64)
    requires AllCounted(st) && Delegate(st, node, who, start, end, staked).Ok?
    ensures AllCounted(Delegate(st, node, who, start, end, staked).value)
  {
    var t, v := Delegate(st, node, who, start, end, staked).value, st.validators[node];
    var w := t.validators[node];
    assert Counted(v);
    SumChange(v.delegators, w.delegators, who, ActiveWeight());
    ReplaceCounted(st, node, w, t);
  }

  /** A new delegation is on schedule, and the others stay so. */
  lemma DelegateOnSchedule(st: State, node: NodeId, who: Address, start: uint64, end: uint64, staked: uint64,
                           n: NodeId, x: Address)
    requires AllOnSchedule(st) && st.height <= start < end && Delegate(st, node, who, start, end, staked).Ok?
    requires var t := Delegate(st, node, who, start, end, staked).value;
             n in t.validators && x in t.validators[n].delegators
    ensures var t := Delegate(st, node, who, start, end, staked).value;
            OnSchedule(t, n, x, t.validators[n].delegators[x])
  {
    if n != node || x != who {
      assert OnSchedule(st, n, x, st.validators[n].delegators[x]);
    }
  }

  lemma DelegateKeepsWanted(st: State, node: NodeId, who: Address, start: uint64, end: uint64, staked: uint64,
                            e: DelegatorEvent, k: nat)
    requires AllWanted(st) && Delegate(st, node, who, start, end, staked).Ok?
    requires k > st.height && e in Queue(Delegate(st, node, who, start, end, staked).value.delegatorActivations, k)
    ensures Wanted(Delegate(st, node, who, start, end, staked).value, e, k)
  {
    if e in Queue(st.delegatorActivations, k) {
      assert Wanted(st, e, k);
    }
  }

  lemma {:induction false} DelegateKeepsScheduled(st: State, node: NodeId, who: Address, start: uint64, end: uint64, staked: uint64)
    requires Scheduled(st) && st.height <= start < end
    requires Delegate(st, node, who, start, end, staked).Ok?
    ensures Scheduled(Delegate(st, node, who, start, end, staked).value)
  {
    hide OnSchedule, Wanted;
    var t := Delegate(st, node, who, start, end, staked).value;
    DelegateKeepsCounted(st, node, who, start, end, staked);
    forall n, x | n in t.validators && x in t.validators[n].delegators
      ensures OnSchedule(t, n, x, t.validators[n].delegators[x])
    {
      DelegateOnSchedule(st, node, who, start, end, staked, n, x);
    }
    forall k: nat, e | k > t.height && e in Queue(t.delegatorActivations, k)
      ensures Wanted(t, e, k)
    {
      DelegateKeepsWanted(st, node, who, start, end, staked, e, k);
    }
  }

  /** The validator after a delegator that is not active leaves. */
  lemma LeaveKeepsCounted(v: Validator, who: Address, w: Validator)
    requires Counted(v) && who in v.delegators && !v.delegators[who].isActive
    requires w.delegators == v.delegators - {who} && w.delegated == v.delegated
    ensures Counted(w)
  {
    SumRemove(v.delegators, who, ActiveWeight());
  }

  /** What undelegating does to the registered validators: one of them loses a delegator, and is removed exactly if it is
      inactive, has no stake, and this was its last delegator. */
  lemma UndelegateShape(st: State, node: NodeId, who: Address)
    requires Undelegate(st, node, who).Ok?
    ensures var (t, reward) := Undelegate(st, node, who).value;
            var v := st.validators[node];
            && t == st.(validators := t.validators, retired := t.retired)
            && t.validators - {node} == st.validators - {node}
            && (node in t.validators <==> v.isActive || v.staked > 0 || v.delegators - {who} != map[])
            && (node in t.validators ==>
                  t.validators[node] == v.(delegators := v.delegators - {who}, delegatedReward := v.delegatedReward - reward,
                                           paidOut := v.paidOut + reward))
  {
  }

  lemma UndelegateKeepsCounted(st: State, node: NodeId, who: Address)
    requires AllCounted(st) && Undelegate(st, node, who).Ok? && !st.validators[node].delegators[who].isActive
    ensures AllCounted(Undelegate(st, node, who).value.0)
  {
    var t, v := Undelegate(st, node, who).value.0, st.validators[node];
    UndelegateShape(st, node, who);
    assert Counted(v);
    forall n | n in t.validators ensures Counted(t.validators[n]) {
      if n == node {
        LeaveKeepsCounted(v, who, t.validators[n]);
      } else {
        OtherKept(st.validators, t.validators, node, n);
        assert Counted(st.validators[n]);
      }
    }
  }

  lemma OtherKept(m: map<NodeId, Validator>, k: map<NodeId, Validator>, node: NodeId, n: NodeId)
    requires m - {node} == k - {node} && n != node
    ensures n in m <==> n in k
    ensures n in m ==> m[n] == k[n]
  {
    assert n in m <==> n in m - {node};
    assert n in k <==> n in k - {node};
    assert n in m - {node} ==> (m - {node})[n] == m[n] && (k - {node})[n] == k[n];
  }

  lemma {:induction false} UndelegateKeepsScheduled(st: State, node: NodeId, who: Address)
    requires Scheduled(st) && Undelegate(st, node, who).Ok?
    requires st.validators[node].delegators[who].end <= st.height
    ensures Scheduled(Undelegate(st, node, who).value.0)
  {
    var t, v := Undelegate(st, node, who).value.0, st.validators[node];
    assert OnSchedule(st, node, who, v.delegators[who]);
    UndelegateKeepsCounted(st, node, who);
    UndelegateShape(st, node, who);
    forall n, x | n in t.validators && x in t.validators[n].delegators
      ensures OnSchedule(t, n, x, t.validators[n].delegators[x])
    {
      if n != node {
        OtherKept(st.validators, t.validators, node, n);
      }
      assert OnSchedule(st, n, x, st.validators[n].delegators[x]);
    }
    forall k: nat, e | k > t.height && e in Queue(t.delegatorActivations, k)
      ensures Wanted(t, e, k)
    {
      assert Wanted(st, e, k);
      if e.node == node {
        assert e.delegator in v.delegators - {who};
      } else {
        OtherKept(st.validators, t.validators, node, e.node);
      }
    }
  }
}
