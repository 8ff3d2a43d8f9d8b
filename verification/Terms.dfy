/** The stake and the fee rate of a validator over every run: those it last registered with. */
module Terms {
  import opened Types
  import opened Emission
  import opened Delegations
  import opened Rewards
  import opened Balancer
  import opened OwnRewards

  datatype Terms = Terms(staked: uint64, feeRate: FeeRate)

  /** Stake and fee rate of the last registration of the node, the stake taken away if it withdrew since then. */
  function LastTerms(evs: seq<Event>, n: NodeId): Option<Terms> {
    if evs == [] then None
    else
      var before := LastTerms(evs[..|evs| - 1], n);
      match evs[|evs| - 1]
      case RegisterStake(node, _, _, staked, feeRate) => if node == n then Some(Terms(staked, feeRate)) else before
      case WithdrawStake(node) => if node == n && before.Some? then Some(before.value.(staked := 0)) else before
      case _ => before
  }

  predicate SameTerms(v: Validator, w: Validator) {
    w.staked == v.staked && w.feeRate == v.feeRate
  }

  lemma BlockKeepsTerms(w: World, n: NodeId)
    requires Invariant(w) && n in AcceptBlock(w.st).validators
    ensures n in w.st.validators && SameTerms(w.st.validators[n], AcceptBlock(w.st).validators[n])
  {
    hide ProcessEvents, RewardsPerEpoch, MintedAmount, AcceptBlock, Counted, OnSchedule, Wanted, BooksBalance, Portion,
      DelegatorsPart;
    var next := w.st.(height := w.st.height + 1);
    assert AllCounted(next);
    ProcessEventsFrame(next, next.height);
    assert n in next.validators ==> SameRecord(next.validators[n], ProcessEvents(next, next.height).validators[n]);
    BlockIsRewarded(w.st);
  }

  lemma OthersKeepTerms(w: World, ev: Event, n: NodeId)
    requires Invariant(w) && n in Step(w, ev).st.validators
    requires !(ev.RegisterStake? && ev.node == n) && !(ev.WithdrawStake? && ev.node == n)
    ensures n in w.st.validators && SameTerms(w.st.validators[n], Step(w, ev).st.validators[n])
  {
    hide Invariant, Step, AcceptBlock;
    if ev.NextBlock? {
      BlockStepIs(w);
      BlockKeepsTerms(w, n);
    } else if PaysOwn(ev, n) {
      PaidOwn(w, ev, n);
    } else {
      OtherUntouched(w, ev, n);
    }
  }

  lemma {:induction false} RunHasLastTerms(w0: World, evs: seq<Event>, n: NodeId)
    requires Invariant(w0) && w0.st.validators == map[] && n in Run(w0, evs).st.validators
    ensures var v := Run(w0, evs).st.validators[n];
            LastTerms(evs, n) == Some(Terms(v.staked, v.feeRate))
    decreases |evs|
  {
    hide Invariant, Step;
    var rest, ev := evs[..|evs| - 1], evs[|evs| - 1];
    var w := Run(w0, rest);
    RunKeepsInvariant(w0, rest);
    if ev.RegisterStake? && ev.node == n {
      RegisteredTerms(w, ev);
    } else if ev.WithdrawStake? && ev.node == n {
      PaidOwn(w, ev, n);
      RunHasLastTerms(w0, rest, n);
    } else {
      OthersKeepTerms(w, ev, n);
      RunHasLastTerms(w0, rest, n);
    }
  }

  lemma RegisteredTerms(w: World, ev: Event)
    requires ev.RegisterStake?
    ensures var st := Step(w, ev).st;
            ev.node in st.validators && st.validators[ev.node].staked == ev.staked && st.validators[ev.node].feeRate == ev.feeRate
  {
  }

  /** In every run each validator has the fee rate it last registered with, and the stake it last registered with unless
      it withdrew since then. */
  lemma {:induction false} CurrentTerms(totalSupply: uint64, maxSupply: uint64, evs: seq<Event>, n: NodeId)
    requires totalSupply <= maxSupply && n in Run(NewWorld(totalSupply, maxSupply), evs).st.validators
    ensures var v := Run(NewWorld(totalSupply, maxSupply), evs).st.validators[n];
            LastTerms(evs, n) == Some(Terms(v.staked, v.feeRate))
  {
    hide Run, Invariant;
    var w := NewWorld(totalSupply, maxSupply);
    RunFromStart(totalSupply, maxSupply, []);
    StartIsRun(w);
    RunHasLastTerms(w, evs, n);
  }
}
