/** What delegators are paid when they leave: for which epochs, and when what was set aside is enough. */
module Payouts {
  import opened Types
  import opened Sums
  import opened Emission
  import opened Delegations
  import opened Rewards
  import opened Balancer

  // ---------------------------------------------------------------------------------------------
  // Which epochs are paid

  /** The delegator is paid for the epoch. */
  predicate Touches(d: Delegator, epoch: nat) {
    d.start / EPOCH_LENGTH <= epoch <= d.end / EPOCH_LENGTH
  }

  /** The shares of epochs `from` up to, not including, `upto`, without wrapping. */
  function Due(v: Validator, d: Delegator, from: nat, upto: nat): nat
    decreases upto
  {
    if upto <= from then 0 else Due(v, d, from, upto - 1) + EpochShare(v, d, upto - 1)
  }

  lemma {:induction false} SharesAreDue(v: Validator, d: Delegator, from: nat, upto: nat)
    ensures EpochShares(v, d, from, upto) == Due(v, d, from, upto) % TWO_TO_64
    decreases upto
  {
    if upto > from {
      SharesAreDue(v, d, from, upto - 1);
      WrapAddMod(Due(v, d, from, upto - 1), EpochShare(v, d, upto - 1));
    }
  }

  function Claims(node: NodeId, who: Address, k: nat): seq<Event> {
    if k == 0 then [] else Claims(node, who, k - 1) + [ClaimShare(node, who)]
  }

  /** Nothing that a claim is worked out from has changed. */
  ghost predicate SameClaim(w: World, x: World, node: NodeId, who: Address) {
    && node in w.st.validators && node in x.st.validators
    && who in w.st.validators[node].delegators && x.st.height == w.st.height
    && var v, u := w.st.validators[node], x.st.validators[node];
       u.delegators == v.delegators && u.epochRewards == v.epochRewards && u.epochDelegated == v.epochDelegated
  }

  lemma {:induction false} SameShares(v: Validator, u: Validator, d: Delegator, from: nat, upto: nat)
    requires u.epochRewards == v.epochRewards && u.epochDelegated == v.epochDelegated
    ensures EpochShares(u, d, from, upto) == EpochShares(v, d, from, upto)
    decreases upto
  {
    if upto > from {
      SameShares(v, u, d, from, upto - 1);
    }
  }

  lemma OneMoreClaim(w: World, x: World, node: NodeId, who: Address)
    requires SameClaim(w, x, node, who) && w.st.validators[node].delegators[who].start <= w.st.height
    ensures var y, v := Step(x, ClaimShare(node, who)), w.st.validators[node];
            SameClaim(w, y, node, who) && y.paid == x.paid + DelegationReward(v, v.delegators[who])
  {
    hide EpochShares;
    var v, u := w.st.validators[node], x.st.validators[node];
    var d := v.delegators[who];
    SameShares(v, u, d, d.start / EPOCH_LENGTH, d.end / EPOCH_LENGTH + 1);
  }

  /** Claiming uses nothing up: however often a delegator claims in a row, each claim pays the shares of all its epochs
      once more. */
  lemma {:induction false} ClaimsRepeat(w: World, node: NodeId, who: Address, k: nat)
    requires node in w.st.validators && who in w.st.validators[node].delegators
    requires w.st.validators[node].delegators[who].start <= w.st.height
    ensures var v := w.st.validators[node];
            var d := v.delegators[who];
            var due := Due(v, d, d.start / EPOCH_LENGTH, d.end / EPOCH_LENGTH + 1) % TWO_TO_64;
            Run(w, Claims(node, who, k)).paid == w.paid + k * due
    ensures SameClaim(w, Run(w, Claims(node, who, k)), node, who)
    decreases k
  {
    hide Step, Due, EpochShares;
    var d := w.st.validators[node].delegators[who];
    SharesAreDue(w.st.validators[node], d, d.start / EPOCH_LENGTH, d.end / EPOCH_LENGTH + 1);
    if k > 0 {
      var before := Claims(node, who, k - 1);
      ClaimsRepeat(w, node, who, k - 1);
      OneMoreClaim(w, Run(w, before), node, who);
      assert Claims(node, who, k)[..|before|] == before;
      assert k * DelegationReward(w.st.validators[node], d)
          == (k - 1) * DelegationReward(w.st.validators[node], d) + DelegationReward(w.st.validators[node], d);
    }
  }

  /** The delegator is active at the block that distributes the epoch. */
  predicate Earns(d: Delegator, epoch: nat) {
    d.joined < d.start && d.start <= epoch * EPOCH_LENGTH < d.end
  }

  /** In every run, being active at the block of an epoch and earning that epoch are the same. */
  lemma {:induction false} EarnsIffActive(totalSupply: uint64, maxSupply: uint64, evs: seq<Event>, n: NodeId, who: Address, epoch: nat)
    requires totalSupply <= maxSupply
    requires var st := Run(NewWorld(totalSupply, maxSupply), evs).st;
             n in st.validators && who in st.validators[n].delegators && st.height == epoch * EPOCH_LENGTH
    ensures var d := Run(NewWorld(totalSupply, maxSupply), evs).st.validators[n].delegators[who];
            d.isActive <==> Earns(d, epoch)
  {
    hide Run;
    DelegatorsFollowTheirWindow(totalSupply, maxSupply, evs, n, who);
  }

  /** The shares of the earned epochs before `upto`. */
  function Earned(v: Validator, d: Delegator, upto: nat): nat {
    if upto == 0 then 0
    else Earned(v, d, upto - 1) + if Earns(d, upto - 1) then EpochShare(v, d, upto - 1) else 0
  }

  /** What a delegator would get if it were paid for the epochs it earned; no later epoch is among them. */
  function EarnedReward(v: Validator, d: Delegator): uint64 {
    Earned(v, d, d.end / EPOCH_LENGTH + 1) % TWO_TO_64
  }

  /** The window ends within epoch 0, for which nothing is ever distributed; or it opens after the block at which
      it was recorded, not in the middle of a later epoch, and does not end at the block of an epoch. */
  predicate PaidAsEarned(joined: nat, start: nat, end: nat) {
    || end < EPOCH_LENGTH
    || (joined < start && (start < EPOCH_LENGTH || start % EPOCH_LENGTH == 0) && end % EPOCH_LENGTH != 0)
  }

  lemma TouchesIffEarns(d: Delegator, epoch: nat)
    requires PaidAsEarned(d.joined, d.start, d.end) && epoch > 0
    ensures Touches(d, epoch) <==> Earns(d, epoch)
  {
  }

  lemma {:induction false} EarnedIsDue(v: Validator, d: Delegator, upto: nat)
    requires PaidAsEarned(d.joined, d.start, d.end) && upto <= d.end / EPOCH_LENGTH + 1 && 0 !in v.epochRewards
    ensures Earned(v, d, upto) == Due(v, d, d.start / EPOCH_LENGTH, upto)
    decreases upto
  {
    if upto > 0 {
      EarnedIsDue(v, d, upto - 1);
      if upto > 1 {
        TouchesIffEarns(d, upto - 1);
      }
    }
  }

  lemma EarnedIsPaid(v: Validator, d: Delegator)
    requires PaidAsEarned(d.joined, d.start, d.end) && 0 !in v.epochRewards
    ensures DelegationReward(v, d) == EarnedReward(v, d)
  {
    SharesAreDue(v, d, d.start / EPOCH_LENGTH, d.end / EPOCH_LENGTH + 1);
    EarnedIsDue(v, d, d.end / EPOCH_LENGTH + 1);
  }

  /** The only record of the validator is one of epoch `e`, with a reward as large as the delegated amount. */
  predicate OneRecord(v: Validator, e: nat, amount: uint64) {
    amount > 0 && v.epochRewards == map[e := amount] && v.epochDelegated == map[e := amount]
  }

  lemma OneShare(v: Validator, d: Delegator, e: nat, amount: uint64, epoch: nat)
    requires OneRecord(v, e, amount)
    ensures EpochShare(v, d, epoch) == if epoch == e then d.staked else 0
  {
    if epoch == e {
      FullShare(v, d, e);
    }
  }

  lemma {:induction false} OneRecordDue(v: Validator, d: Delegator, e: nat, amount: uint64, from: nat, upto: nat)
    requires OneRecord(v, e, amount)
    ensures Due(v, d, from, upto) == if from <= e < upto then d.staked else 0
    ensures Earned(v, d, upto) == if e < upto && Earns(d, e) then d.staked else 0
    decreases upto
  {
    if upto > 0 {
      OneShare(v, d, e, amount, upto - 1);
      OneRecordDue(v, d, e, amount, from, upto - 1);
    }
  }

  /** A single record of an epoch that is paid without being earned. */
  lemma OneRecordDiffers(v: Validator, d: Delegator, e: nat, amount: uint64)
    requires OneRecord(v, e, amount) && d.staked > 0 && Touches(d, e) && !Earns(d, e)
    ensures DelegationReward(v, d) != EarnedReward(v, d)
  {
    hide EpochShares, Due, Earned;
    var first, last := d.start / EPOCH_LENGTH, d.end / EPOCH_LENGTH;
    SharesAreDue(v, d, first, last + 1);
    OneRecordDue(v, d, e, amount, first, last + 1);
  }

  // ---------------------------------------------------------------------------------------------
  // One epoch: set aside and owed

  ghost function OwedWeight(v: Validator, epoch: nat): (Address, Delegator) -> int {
    (who: Address, d: Delegator) => if Touches(d, epoch) then EpochShare(v, d, epoch) else 0
  }

  /** What a record would owe the delegators present who are paid for its epoch, if it had set aside `reward`. */
  ghost function Owed(v: Validator, epoch: nat, reward: uint64): int {
    Sum(v.delegators, OwedWeight(v.(epochRewards := v.epochRewards[epoch := reward]), epoch))
  }

  ghost function TouchingWeight(epoch: nat): (Address, Delegator) -> int {
    (who: Address, d: Delegator) => if Touches(d, epoch) then d.staked else 0
  }

  /** The stake of the delegators present who are paid for the epoch. */
  ghost function TouchingStake(v: Validator, epoch: nat): int {
    Sum(v.delegators, TouchingWeight(epoch))
  }

  /** Shares of a record whose delegated amount covers all who are paid for the epoch. */
  lemma OwedAreShares(v: Validator, epoch: nat, reward: uint64)
    requires epoch in v.epochDelegated && 0 < v.epochDelegated[epoch]
    requires TouchingStake(v, epoch) <= v.epochDelegated[epoch]
    ensures Owed(v, epoch, reward) == Sum(v.delegators, ShareWeight(TouchingWeight(epoch), reward, v.epochDelegated[epoch]))
  {
    var w, whole := v.(epochRewards := v.epochRewards[epoch := reward]), v.epochDelegated[epoch];
    var f, g := OwedWeight(w, epoch), ShareWeight(TouchingWeight(epoch), reward, whole);
    forall who | who in v.delegators ensures f(who, v.delegators[who]) == g(who, v.delegators[who]) {
      var d := v.delegators[who];
      SumAtLeast(v.delegators, who, TouchingWeight(epoch));
      if Touches(d, epoch) {
        EpochShareIsShare(w, d, epoch);
      } else {
        NothingOfNothing(reward, whole);
      }
    }
    SumSameWeights(v.delegators, f, g);
  }

  lemma FullShare(v: Validator, d: Delegator, epoch: nat)
    requires epoch in v.epochDelegated && 0 < v.epochDelegated[epoch]
    requires epoch in v.epochRewards && v.epochRewards[epoch] == v.epochDelegated[epoch]
    ensures EpochShare(v, d, epoch) == d.staked
  {
    DivisionUndoes(d.staked, v.epochDelegated[epoch]);
    assert d.staked * v.epochDelegated[epoch] == v.epochRewards[epoch] * d.staked;
  }

  /** Out of as much as was delegated, everybody who is paid gets its own stake. */
  lemma OwedInFull(v: Validator, epoch: nat)
    requires epoch in v.epochDelegated && 0 < v.epochDelegated[epoch]
    ensures Owed(v, epoch, v.epochDelegated[epoch]) == TouchingStake(v, epoch)
  {
    var whole := v.epochDelegated[epoch];
    var w := v.(epochRewards := v.epochRewards[epoch := whole]);
    var f, g := OwedWeight(w, epoch), TouchingWeight(epoch);
    forall who | who in v.delegators ensures f(who, v.delegators[who]) == g(who, v.delegators[who]) {
      FullShare(w, v.delegators[who], epoch);
    }
    SumSameWeights(v.delegators, f, g);
  }

  /** Whatever a record set aside is enough for all delegators now present who are paid from it, exactly when
      nothing was delegated then or the delegated amount covers their stake. */
  lemma RecordSufficesIff(v: Validator, epoch: nat)
    requires epoch in v.epochDelegated
    ensures (forall reward: uint64 :: Owed(v, epoch, reward) <= reward)
            <==> (v.epochDelegated[epoch] == 0 || TouchingStake(v, epoch) <= v.epochDelegated[epoch])
  {
    hide Sum, TouchingWeight, OwedWeight;
    var whole := v.epochDelegated[epoch];
    if whole == 0 {
      forall reward: uint64 ensures Owed(v, epoch, reward) <= reward {
        NothingOwed(v, epoch, reward);
      }
    } else if TouchingStake(v, epoch) <= whole {
      forall reward: uint64 ensures Owed(v, epoch, reward) <= reward {
        OwedAreShares(v, epoch, reward);
        SharesTotal(v.delegators, TouchingWeight(epoch), reward, whole);
      }
    } else {
      OwedInFull(v, epoch);
    }
  }

  lemma NothingOwed(v: Validator, epoch: nat, reward: uint64)
    requires epoch in v.epochDelegated && v.epochDelegated[epoch] == 0
    ensures Owed(v, epoch, reward) == 0
  {
    SumZero(v.delegators, OwedWeight(v.(epochRewards := v.epochRewards[epoch := reward]), epoch));
  }
}
