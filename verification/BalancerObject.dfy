/** The emission balancer as the object it is: fields and maps updated in place, queues and validators
    worked through in loops, each method proved to do what the state machine says. */
module BalancerObject {
  import opened Types
  import opened Sums
  import opened Emission
  import opened Delegations
  import opened Rewards

  class EmissionBalancer {
    var height: nat
    var totalSupply: uint64
    var maxSupply: uint64
    var totalStaked: uint64
    var validators: map<NodeId, Validator>
    var retired: map<Ref, Validator>
    var nextRef: Ref
    var activationEvents: map<nat, seq<Handle>>
    var deactivationEvents: map<nat, seq<Handle>>
    var delegatorActivationEvents: map<nat, seq<DelegatorEvent>>
    var delegatorDeactivationEvents: map<nat, seq<DelegatorEvent>>

    /** The abstract state that the fields stand for. */
    ghost function Value(): State
      reads this
    {
      State(height, totalSupply, maxSupply, totalStaked, validators, retired, nextRef, activationEvents,
            deactivationEvents, delegatorActivationEvents, delegatorDeactivationEvents)
    }

    constructor (supply: uint64, cap: uint64)
      ensures Value() == State(0, supply, cap, 0, map[], map[], 0, map[], map[], map[], map[])
    {
      height, totalSupply, maxSupply, totalStaked := 0, supply, cap, 0;
      validators, retired, nextRef := map[], map[], 0;
      activationEvents, deactivationEvents := map[], map[];
      delegatorActivationEvents, delegatorDeactivationEvents := map[], map[];
    }

    method RegisterValidatorStake(node: NodeId, start: uint64, end: uint64, staked: uint64, feeRate: FeeRate)
      modifies this
      ensures Value() == Register(old(Value()), node, start, end, staked, feeRate)
    {
      var v: Validator;
      if node in validators {
        v := validators[node].(staked := staked, feeRate := feeRate);
      } else {
        v := NewValidator(nextRef, staked, feeRate);
        nextRef := nextRef + 1;
      }
      v := v.(isActive := true);
      validators := validators[node := v];
      activationEvents := activationEvents[start := Queue(activationEvents, start) + [Handle(node, v.ref)]];
      deactivationEvents := deactivationEvents[end := Queue(deactivationEvents, end) + [Handle(node, v.ref)]];
    }

    method WithdrawValidatorStake(node: NodeId) returns (r: Result<uint64, EmissionError>)
      modifies this
      ensures match Withdraw(old(Value()), node)
              case Ok((t, reward)) => r == Ok(reward) && Value() == t
              case Err(e) => r == Err(e) && Value() == old(Value())
    {
      if node !in validators {
        return Err(ValidatorNotFound);
      }
      var rewardAmount := validators[node].stakedReward;
      validators := validators[node := validators[node].(stakedReward := 0)];
      validators := validators[node := validators[node].(isActive := false, staked := 0)];
      assert validators == old(validators)[node := old(validators)[node].(stakedReward := 0, isActive := false, staked := 0)];
      return Ok(rewardAmount);
    }

    method DelegateUserStake(node: NodeId, who: Address, start: uint64, end: uint64, staked: uint64)
      returns (r: Result<(), EmissionError>)
      modifies this
      ensures match Delegate(old(Value()), node, who, start, end, staked)
              case Ok(t) => r == Ok(()) && Value() == t
              case Err(e) => r == Err(e) && Value() == old(Value())
    {
      if node !in validators {
        return Err(ValidatorNotFound);
      }
      var v := validators[node];
      if who in v.delegators {
        return Err(DelegatorAlreadyStaked);
      }
      validators := validators[node := v.(delegators := v.delegators[who := Delegator(false, staked, start, end, height)])];
      var e := DelegatorEvent(node, who);
      delegatorActivationEvents := delegatorActivationEvents[start := Queue(delegatorActivationEvents, start) + [e]];
      delegatorDeactivationEvents := delegatorDeactivationEvents[end := Queue(delegatorDeactivationEvents, end) + [e]];
      return Ok(());
    }

    /** Add up a delegator's share of every epoch of its window. */
    method CalculateUserDelegationRewards(node: NodeId, who: Address) returns (r: Result<uint64, EmissionError>)
      ensures node !in validators ==> r == Err(ValidatorNotFound)
      ensures node in validators && who !in validators[node].delegators ==> r == Err(DelegatorNotFound)
      ensures node in validators && who in validators[node].delegators ==>
                r == Ok(DelegationReward(validators[node], validators[node].delegators[who]))
    {
      if node !in validators {
        return Err(ValidatorNotFound);
      }
      var v := validators[node];
      if who !in v.delegators {
        return Err(DelegatorNotFound);
      }
      var d := v.delegators[who];
      var startEpoch, endEpoch := d.start / EPOCH_LENGTH, d.end / EPOCH_LENGTH;
      var totalReward: uint64 := 0;
      var epoch := startEpoch;
      while epoch <= endEpoch
        invariant startEpoch <= epoch
        invariant epoch <= endEpoch + 1 || epoch == startEpoch
        invariant totalReward == EpochShares(v, d, startEpoch, epoch)
      {
        totalReward := WrapAdd(totalReward, EpochShare(v, d, epoch));
        epoch := epoch + 1;
      }
      if startEpoch > endEpoch {
        assert EpochShares(v, d, startEpoch, endEpoch + 1) == 0;
      }
      return Ok(totalReward);
    }

    /** Claim as a validator, with the empty address, or as one of its delegators. */
    method ClaimStakingRewards(node: NodeId, actor: Address) returns (r: Result<uint64, EmissionError>)
      modifies this
      ensures match if actor == EMPTY_ADDRESS then ClaimValidator(old(Value()), node) else ClaimDelegator(old(Value()), node, actor)
              case Ok((t, reward)) => r == Ok(reward) && Value() == t
              case Err(e) => r == Err(e) && Value() == old(Value())
    {
      if node !in validators {
        return Err(ValidatorNotFound);
      }
      var rewardAmount: uint64 := 0;
      if actor == EMPTY_ADDRESS {
        rewardAmount := validators[node].stakedReward;
        validators := validators[node := validators[node].(stakedReward := 0)];
      } else {
        var calculated := CalculateUserDelegationRewards(node, actor);
        if calculated.Err? {
          return Err(calculated.error);
        }
        rewardAmount := calculated.value;
        var v := validators[node];
        validators := validators[node := v.(delegatedReward := WrapSub(v.delegatedReward, rewardAmount),
                                            paidOut := v.paidOut + rewardAmount)];
      }
      return Ok(rewardAmount);
    }

    method UndelegateUserStake(node: NodeId, who: Address) returns (r: Result<uint64, EmissionError>)
      modifies this
      ensures match Undelegate(old(Value()), node, who)
              case Ok((t, reward)) => r == Ok(reward) && Value() == t
              case Err(e) => r == Err(e) && Value() == old(Value())
    {
      if node !in validators {
        return Err(ValidatorNotFound);
      }
      if who !in validators[node].delegators {
        return Err(DelegatorNotFound);
      }
      var calculated := CalculateUserDelegationRewards(node, who);
      var rewardAmount := calculated.value;
      var v := validators[node];
      if rewardAmount > v.delegatedReward {
        rewardAmount := v.delegatedReward;
      }
      v := v.(delegatedReward := v.delegatedReward - rewardAmount, paidOut := v.paidOut + rewardAmount);
      v := v.(delegators := v.delegators - {who});
      if !v.isActive && v.staked == 0 && v.delegators == map[] {
        validators := validators - {node};
        retired := retired[v.ref := v];
      } else {
        validators := validators[node := v];
      }
      return Ok(rewardAmount);
    }

    method ActivateValidator(h: Handle)
      modifies this
      ensures Value() == Activate(old(Value()), h)
    {
      if h.node in validators && validators[h.node].ref == h.ref {
        var v := validators[h.node];
        if !v.isActive {
          validators := validators[h.node := v.(isActive := true)];
          totalStaked := WrapAdd(totalStaked, WrapAdd(v.staked, v.delegated));
        }
      } else if h.ref in retired {
        var v := retired[h.ref];
        if !v.isActive {
          retired := retired[h.ref := v.(isActive := true)];
          totalStaked := WrapAdd(totalStaked, WrapAdd(v.staked, v.delegated));
        }
      }
    }

    method DeactivateValidator(h: Handle)
      modifies this
      ensures Value() == Deactivate(old(Value()), h)
    {
      if h.node in validators && validators[h.node].ref == h.ref {
        var v := validators[h.node];
        if v.isActive {
          validators := validators[h.node := v.(isActive := false)];
          totalStaked := WrapSub(totalStaked, WrapAdd(v.staked, v.delegated));
        }
      } else if h.ref in retired {
        var v := retired[h.ref];
        if v.isActive {
          retired := retired[h.ref := v.(isActive := false)];
          totalStaked := WrapSub(totalStaked, WrapAdd(v.staked, v.delegated));
        }
      }
    }

    method SwitchOn(e: DelegatorEvent, b: nat)
      modifies this
      ensures Value() == Switch(old(Value()), e, b, true)
    {
      if e.node in validators && e.delegator in validators[e.node].delegators {
        var v := validators[e.node];
        var d := v.delegators[e.delegator];
        if b >= d.start && b < d.end && !d.isActive {
          validators := validators[e.node := v.(delegators := v.delegators[e.delegator := d.(isActive := true)],
                                                delegated := WrapAdd(v.delegated, d.staked))];
          totalStaked := WrapAdd(totalStaked, d.staked);
        }
      }
    }

    method SwitchOff(e: DelegatorEvent, b: nat)
      modifies this
      ensures Value() == Switch(old(Value()), e, b, false)
    {
      if e.node in validators && e.delegator in validators[e.node].delegators {
        var v := validators[e.node];
        var d := v.delegators[e.delegator];
        if b >= d.end && d.isActive {
          validators := validators[e.node := v.(delegators := v.delegators[e.delegator := d.(isActive := false)],
                                                delegated := WrapSub(v.delegated, d.staked))];
          totalStaked := WrapSub(totalStaked, d.staked);
        }
      }
    }

    method ProcessValidatorEvents(b: nat)
      modifies this
      ensures Value() == AfterValidatorEvents(old(Value()), b)
    {
      ghost var st := Value();
      var hs := Queue(activationEvents, b);
      for i := 0 to |hs|
        invariant Value() == ActivateAll(st, hs[..i])
      {
        assert hs[..i + 1][..i] == hs[..i];
        ActivateValidator(hs[i]);
      }
      assert hs[..|hs|] == hs;
      ActivateAllKeepsQueues(st, hs);
      activationEvents := activationEvents - {b};
      ghost var s1 := Value();
      hs := Queue(deactivationEvents, b);
      for i := 0 to |hs|
        invariant Value() == DeactivateAll(s1, hs[..i])
      {
        assert hs[..i + 1][..i] == hs[..i];
        DeactivateValidator(hs[i]);
      }
      assert hs[..|hs|] == hs;
      DeactivateAllKeepsQueues(s1, hs);
      deactivationEvents := deactivationEvents - {b};
    }

    method ProcessDelegatorEvents(b: nat)
      modifies this
      ensures Value() == AfterDelegatorEvents(old(Value()), b)
    {
      ghost var st := Value();
      var es := Queue(delegatorActivationEvents, b);
      for i := 0 to |es|
        invariant Value() == SwitchAll(st, es[..i], b, true)
      {
        assert es[..i + 1][..i] == es[..i];
        SwitchOn(es[i], b);
      }
      assert es[..|es|] == es;
      SwitchingFrame(st, es, b, true);
      delegatorActivationEvents := delegatorActivationEvents - {b};
      ghost var s1 := Value();
      es := Queue(delegatorDeactivationEvents, b);
      for i := 0 to |es|
        invariant Value() == SwitchAll(s1, es[..i], b, false)
      {
        assert es[..i + 1][..i] == es[..i];
        SwitchOff(es[i], b);
      }
      assert es[..|es|] == es;
      SwitchingFrame(s1, es, b, false);
      delegatorDeactivationEvents := delegatorDeactivationEvents - {b};
    }

    method ProcessBlockEvents(b: nat)
      modifies this
      ensures Value() == ProcessEvents(old(Value()), b)
    {
      ProcessValidatorEvents(b);
      ProcessDelegatorEvents(b);
    }

    method CreditValidator(n: NodeId, total: uint64, epochNumber: nat) returns (amount: uint64)
      requires n in validators
      modifies this
      ensures Value() == old(Value()).(validators :=
                old(validators)[n := Credited(old(totalStaked), old(validators)[n], total, epochNumber)])
      ensures amount == Portion(old(totalStaked), old(validators)[n], total)
    {
      var v := validators[n];
      if !v.isActive {
        assert validators[n := v] == validators;
        return 0;
      }
      var validatorStake := WrapAdd(v.staked, v.delegated);
      amount := if totalStaked > 0 then (validatorStake * total / totalStaked) % TWO_TO_64 else 0;
      var part := DelegatorsPart(v, amount);
      v := v.(stakedReward := WrapAdd(v.stakedReward, amount - part));
      v := v.(epochRewards := v.epochRewards[epochNumber := part], epochDelegated := v.epochDelegated[epochNumber := v.delegated]);
      v := v.(delegatedReward := WrapAdd(v.delegatedReward, part));
      validators := validators[n := v];
    }

    /** Visit the validators in an arbitrary order; the outcome does not depend on it. */
    method DistributeRewards(total: uint64) returns (distributed: uint64)
      modifies this
      ensures Value() == Distribute(old(Value()), total, old(height) / EPOCH_LENGTH)
      ensures distributed == Distributed(old(Value()), total) % TWO_TO_64
    {
      ghost var st := Value();
      var epochNumber := height / EPOCH_LENGTH;
      var pending := validators.Keys;
      ghost var order: seq<NodeId> := [];
      distributed := 0;
      while pending != {}
        invariant Distinct(order) && (forall n :: n in order <==> n in st.validators && n !in pending)
        invariant pending <= st.validators.Keys
        invariant (Value(), distributed) == PayInOrder(st, order, total, epochNumber)
        decreases pending
      {
        var n :| n in pending;
        PayPrefix(st, order, total, epochNumber);
        PaySnoc(st, order, n, total, epochNumber);
        var amount := CreditValidator(n, total, epochNumber);
        distributed := WrapAdd(distributed, amount);
        pending := pending - {n};
        order := order + [n];
      }
      AnyOrderSameRewards(st, order, total, epochNumber);
    }

    method GetRewardsPerEpoch() returns (r: uint64)
      ensures r == RewardsPerEpoch(Value())
      ensures totalSupply <= maxSupply ==> WrapAdd(totalSupply, r) <= maxSupply && r <= totalStaked
    {
      var n := |validators|;
      var raw := if n <= BASE_VALIDATORS then totalStaked * (EPOCH_LENGTH * 3) / (4 * SECONDS_PER_YEAR)
                 else totalStaked * 25 * (EPOCH_LENGTH * 3) / (n * SECONDS_PER_YEAR);
      r := raw % TWO_TO_64;
      if WrapAdd(totalSupply, r) > maxSupply {
        r := WrapSub(maxSupply, totalSupply);
      }
      if totalSupply <= maxSupply {
        RewardsAreBounded(Value());
      }
    }

    method DistributeEpoch() returns (minted: uint64)
      modifies this
      ensures minted == Distributed(old(Value()), RewardsPerEpoch(old(Value()))) % TWO_TO_64
      ensures Value() == Distribute(old(Value()), RewardsPerEpoch(old(Value())), old(height) / EPOCH_LENGTH)
                         .(totalSupply := WrapAdd(old(totalSupply), minted))
    {
      var total := GetRewardsPerEpoch();
      minted := DistributeRewards(total);
      totalSupply := WrapAdd(totalSupply, minted);
    }

    method MintNewNAI() returns (minted: uint64)
      modifies this
      ensures minted == MintedAmount(old(Value())) % TWO_TO_64
      ensures var s := Rewarded(old(Value()));
              Value() == s.(totalSupply := WrapAdd(s.totalSupply, minted))
    {
      ghost var st := Value();
      EventsKeepHeight(st, height);
      ProcessBlockEvents(height);
      if height % EPOCH_LENGTH == 0 {
        minted := DistributeEpoch();
      } else {
        minted := 0;
      }
    }

    method AddToTotalSupply(amount: uint64)
      modifies this
      ensures Value() == old(Value()).(totalSupply := CappedSupply(old(totalSupply), old(maxSupply), amount))
    {
      var capped := amount;
      if WrapAdd(totalSupply, capped) > maxSupply {
        capped := WrapSub(maxSupply, totalSupply);
      }
      totalSupply := WrapAdd(totalSupply, capped);
    }

    /** Mint for the current height; the controller then adds what was minted to the supply. */
    method MintAndAdd() returns (minted: uint64)
      modifies this
      ensures minted == MintedAmount(old(Value())) % TWO_TO_64
      ensures Value() == WithMinted(Rewarded(old(Value())), minted)
    {
      ghost var s := Rewarded(Value());
      minted := MintNewNAI();
      if minted > 0 {
        AddToTotalSupply(minted);
      }
      assert Value() == WithMinted(s, minted);
    }

    /** What the controller does with the balancer when the next block is accepted. */
    method Accepted()
      modifies this
      ensures Value() == AcceptBlock(old(Value()))
    {
      height := height + 1;
      var _ := MintAndAdd();
    }
  }

  lemma {:induction false} ActivateAllKeepsQueues(st: State, hs: seq<Handle>)
    ensures var t := ActivateAll(st, hs);
            t == st.(validators := t.validators, retired := t.retired, totalStaked := t.totalStaked)
    decreases |hs|
  {
    if hs != [] {
      ActivateAllKeepsQueues(st, hs[..|hs| - 1]);
    }
  }

  lemma {:induction false} DeactivateAllKeepsQueues(st: State, hs: seq<Handle>)
    ensures var t := DeactivateAll(st, hs);
            t == st.(validators := t.validators, retired := t.retired, totalStaked := t.totalStaked)
    decreases |hs|
  {
    if hs != [] {
      DeactivateAllKeepsQueues(st, hs[..|hs| - 1]);
    }
  }

  lemma EventsKeepHeight(st: State, b: nat)
    ensures ProcessEvents(st, b).height == st.height
  {
    var s1 := ActivateAll(st, Queue(st.activations, b)).(activations := st.activations - {b});
    ActivateAllKeepsQueues(st, Queue(st.activations, b));
    DeactivateAllKeepsQueues(s1, Queue(s1.deactivations, b));
    var s2 := AfterValidatorEvents(st, b);
    var s3 := SwitchAll(s2, Queue(s2.delegatorActivations, b), b, true)
              .(delegatorActivations := s2.delegatorActivations - {b});
    SwitchingFrame(s2, Queue(s2.delegatorActivations, b), b, true);
    SwitchingFrame(s3, Queue(s3.delegatorDeactivations, b), b, false);
  }
}
