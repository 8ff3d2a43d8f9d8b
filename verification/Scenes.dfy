/** Blocks worked out for states with a single validator, from which concrete runs are put together. */
module Scenes {
  import opened Types
  import opened Sums
  import opened Emission
  import opened Delegations
  import opened Rewards
  import opened Balancer

  function Blocks(k: nat): seq<Event> {
    if k == 0 then [] else Blocks(k - 1) + [NextBlock]
  }

  /** A balancer with validator 1 and nothing else; `starts` and `ends` are the queued validator events, `ons`
      and `offs` the queued delegator events. */
  function Scene(height: nat, supply: uint64, cap: uint64, total: uint64, v: Validator,
                 starts: map<nat, seq<Handle>>, ends: map<nat, seq<Handle>>,
                 ons: map<nat, seq<DelegatorEvent>>, offs: map<nat, seq<DelegatorEvent>>): State
  {
    State(height, supply, cap, total, map[1 := v], map[], 1, starts, ends, ons, offs)
  }

  lemma NothingMinted(s: State)
    ensures WithMinted(s, 0) == s
  {
  }

  lemma NoValidatorEvents(st: State, b: nat)
    requires b !in st.activations && b !in st.deactivations
    ensures AfterValidatorEvents(st, b) == st
  {
    assert st.activations - {b} == st.activations && st.deactivations - {b} == st.deactivations;
  }

  /** At most one delegator event, or none. */
  function SwitchFirst(st: State, es: seq<DelegatorEvent>, b: nat, on: bool): State {
    if es == [] then st else Switch(st, es[0], b, on)
  }

  lemma SwitchSingle(st: State, es: seq<DelegatorEvent>, b: nat, on: bool)
    requires |es| <= 1
    ensures SwitchAll(st, es, b, on) == SwitchFirst(st, es, b, on)
  {
    if es != [] {
      assert es[..0] == [];
      assert SwitchAll(st, es, b, on) == Switch(SwitchAll(st, [], b, on), es[0], b, on);
    }
  }

  /** A block with at most one delegator joining in and at most one dropping out. */
  lemma SingleEvents(st: State, b: nat)
    requires b !in st.activations && b !in st.deactivations
    requires |Queue(st.delegatorActivations, b)| <= 1 && |Queue(st.delegatorDeactivations, b)| <= 1
    ensures var s1 := SwitchFirst(st, Queue(st.delegatorActivations, b), b, true)
                      .(delegatorActivations := st.delegatorActivations - {b});
            ProcessEvents(st, b) == SwitchFirst(s1, Queue(st.delegatorDeactivations, b), b, false)
                                    .(delegatorDeactivations := st.delegatorDeactivations - {b})
  {
    hide Switch;
    NoValidatorEvents(st, b);
    var on := Queue(st.delegatorActivations, b);
    var s1 := SwitchAll(st, on, b, true).(delegatorActivations := st.delegatorActivations - {b});
    SwitchSingle(st, on, b, true);
    SwitchingFrame(st, on, b, true);
    var off := Queue(s1.delegatorDeactivations, b);
    SwitchSingle(s1, off, b, false);
    SwitchingFrame(s1, off, b, false);
  }

  /** Nothing is queued for block `b`. */
  predicate Eventless(st: State, b: nat) {
    && b !in st.activations && b !in st.deactivations
    && b !in st.delegatorActivations && b !in st.delegatorDeactivations
  }

  lemma NoEvents(st: State, b: nat)
    requires Eventless(st, b)
    ensures ProcessEvents(st, b) == st
  {
    SingleEvents(st, b);
    assert st.delegatorActivations - {b} == st.delegatorActivations;
    assert st.delegatorDeactivations - {b} == st.delegatorDeactivations;
  }

  /** A block that ends no epoch only works off its events. */
  lemma PlainBlock(st: State)
    requires (st.height + 1) % EPOCH_LENGTH != 0
    ensures AcceptBlock(st) == ProcessEvents(st.(height := st.height + 1), st.height + 1)
  {
    hide ProcessEvents, RewardsPerEpoch, WithMinted;
    NothingMinted(ProcessEvents(st.(height := st.height + 1), st.height + 1));
  }

  /** A block that ends no epoch and has one delegator event queued. */
  lemma SwitchBlock(st: State, v: Validator, who: Address, on: bool)
    requires var b := st.height + 1;
             && b % EPOCH_LENGTH != 0 && b !in st.activations && b !in st.deactivations
             && Queue(st.delegatorActivations, b) == (if on then [DelegatorEvent(1, who)] else [])
             && Queue(st.delegatorDeactivations, b) == (if on then [] else [DelegatorEvent(1, who)])
             && st.validators == map[1 := v]
    ensures var b := st.height + 1;
            var s := Switch(st.(height := b), DelegatorEvent(1, who), b, on);
            AcceptBlock(st) == s.(delegatorActivations := st.delegatorActivations - {b},
                                  delegatorDeactivations := st.delegatorDeactivations - {b})
  {
    hide AcceptBlock, ProcessEvents, Switch;
    var b := st.height + 1;
    PlainBlock(st);
    SingleEvents(st.(height := b), b);
    SwitchQueues(st.(height := b), DelegatorEvent(1, who), b, on);
    if !on {
      SwitchQueuesAlone(st.(height := b), st.delegatorActivations - {b}, DelegatorEvent(1, who), b);
    }
  }

  /** What the event does when it fires. */
  lemma Fired(st: State, v: Validator, who: Address, b: nat, on: bool)
    requires st.validators == map[1 := v] && Fires(v, who, b, on)
    ensures Switch(st, DelegatorEvent(1, who), b, on)
         == st.(validators := map[1 := Switched(v, who, on)],
                totalStaked := if on then WrapAdd(st.totalStaked, v.delegators[who].staked)
                               else WrapSub(st.totalStaked, v.delegators[who].staked))
  {
    hide Switched, WrapAdd, WrapSub;
  }

  lemma SwitchQueues(st: State, e: DelegatorEvent, b: nat, on: bool)
    ensures var t := Switch(st, e, b, on);
            t == st.(validators := t.validators, totalStaked := t.totalStaked)
  {
  }

  lemma SwitchQueuesAlone(st: State, ons: map<nat, seq<DelegatorEvent>>, e: DelegatorEvent, b: nat)
    ensures Switch(st.(delegatorActivations := ons), e, b, false) == Switch(st, e, b, false).(delegatorActivations := ons)
  {
  }

  /** Without active validators that is all that any block does. */
  lemma InertBlock(st: State)
    requires var s := ProcessEvents(st.(height := st.height + 1), st.height + 1);
             s.height == st.height + 1 && forall n | n in s.validators :: !s.validators[n].isActive
    ensures AcceptBlock(st) == ProcessEvents(st.(height := st.height + 1), st.height + 1)
  {
    hide ProcessEvents, RewardsPerEpoch, WithMinted;
    var b := st.height + 1;
    var s := ProcessEvents(st.(height := b), b);
    NothingMinted(s);
    if b % EPOCH_LENGTH == 0 {
      assert Distribute(s, RewardsPerEpoch(s), b / EPOCH_LENGTH).validators == s.validators;
      SumZero(s.validators, PortionWeight(s.totalStaked, RewardsPerEpoch(s)));
    }
  }

  lemma SumOfOne<K, V>(m: map<K, V>, k: K, w: (K, V) -> int)
    requires m.Keys == {k}
    ensures Sum(m, w) == w(k, m[k])
  {
    SumRemove(m, k, w);
    assert m - {k} == map[];
  }

  /** The block that ends an epoch, once its events are worked off as `s` says. */
  lemma EpochBlock(st: State, s: State, v: Validator)
    requires (st.height + 1) % EPOCH_LENGTH == 0
    requires s == ProcessEvents(st.(height := st.height + 1), st.height + 1) && s.height == st.height + 1
    requires s.validators == map[1 := v]
    ensures var total := RewardsPerEpoch(s);
            var minted := Portion(s.totalStaked, v, total);
            && MintedAmount(st.(height := st.height + 1)) == minted
            && AcceptBlock(st) == s.(validators := map[1 := Credited(s.totalStaked, v, total, s.height / EPOCH_LENGTH)],
                                     totalSupply := SupplyAfterBlock(s.totalSupply, s.maxSupply, minted))
  {
    hide ProcessEvents, RewardsPerEpoch, Portion, Credited, SupplyAfterBlock;
    var total := RewardsPerEpoch(s);
    SumOfOne(s.validators, 1, PortionWeight(s.totalStaked, total));
    assert Distribute(s, total, s.height / EPOCH_LENGTH).validators
        == map[1 := Credited(s.totalStaked, v, total, s.height / EPOCH_LENGTH)];
  }

  /** With a fee rate and amounts that leave 64 bits alone, crediting in closed form. */
  lemma CreditedIs(totalStaked: uint64, v: Validator, total: uint64, epoch: nat, portion: uint64, part: uint64)
    requires v.isActive && v.delegated > 0 && Portion(totalStaked, v, total) == portion
    requires portion * v.feeRate / 100 == part <= portion
    requires v.stakedReward + portion - part <= MAX_UINT64 && v.delegatedReward + part <= MAX_UINT64
    ensures Credited(totalStaked, v, total, epoch)
         == v.(stakedReward := v.stakedReward + portion - part, delegatedReward := v.delegatedReward + part,
               epochRewards := v.epochRewards[epoch := part], epochDelegated := v.epochDelegated[epoch := v.delegated])
  {
    hide Portion;
  }
}
