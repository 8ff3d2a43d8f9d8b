/** Declared state keys, and why actions with disjoint keys can run in any order. */
module Parallel {
  import opened Types
  import opened Ledger
  import opened Actions

  /** The keys that an asset action declares before it runs. */
  function StateKeys(ctx: Context, act: Action): set<Key>
    requires IsAssetAction(act)
  {
    match act
    case Transfer(to, asset, _, _) => {BalanceKey(ctx.actor, asset), BalanceKey(to, asset)}
    case CreateAsset(_, _, _) => {AssetKey(Created(ctx.tx))}
    case MintAsset(to, asset, _) => {AssetKey(asset), BalanceKey(to, asset)}
    case BurnAsset(asset, _) => {AssetKey(asset), BalanceKey(ctx.actor, asset)}
    case ExportAsset(_, asset, _, isReturn, _, _, _, _, _, destination) =>
      if isReturn then {AssetKey(asset), BalanceKey(ctx.actor, asset)}
      else {AssetKey(asset), LoanKey(asset, destination), BalanceKey(ctx.actor, asset)}
    case ImportAsset(fill, source, t) =>
      var a := AssetIn(source, t);
      (if t.isReturn then {AssetKey(a), LoanKey(a, source), BalanceKey(t.to, a)} else {AssetKey(a), BalanceKey(t.to, a)})
      + (if t.reward > 0 then {BalanceKey(ctx.actor, a)} else {})
      + (if fill && t.swapIn > 0
         then {BalanceKey(ctx.actor, t.assetOut), BalanceKey(ctx.actor, a), BalanceKey(t.to, t.assetOut)} else {})
  }

  predicate Same(s: Store, t: Store, k: Key) {
    (k in s <==> k in t) && (k in s && k in t ==> s[k] == t[k])
  }

  predicate Agree(s: Store, t: Store, keys: set<Key>) {
    forall k | k in keys :: Same(s, t, k)
  }

  predicate Within(ops: Ops, keys: set<Key>) {
    match ops
    case Do(op, next) => op.Key() in keys && Within(next, keys)
    case _ => true
  }

  /** Operations within `keys` leave every other key alone. */
  lemma {:induction false} WithinFrame(s: Store, ops: Ops, keys: set<Key>, k: Key)
    requires Within(ops, keys) && k !in keys && Apply(s, ops).Ok?
    ensures Same(Apply(s, ops).value, s, k)
    decreases ops
  {
    if ops.Do? {
      WithinFrame(ApplyOp(s, ops.op).value, ops.next, keys, k);
    }
  }

  /** Operations within `keys` look at no other key. */
  lemma {:induction false} WithinLocal(s: Store, t: Store, ops: Ops, keys: set<Key>)
    requires Within(ops, keys) && Agree(s, t, keys)
    ensures var p, q := Apply(s, ops), Apply(t, ops);
            && (p.Ok? <==> q.Ok?)
            && (p.Ok? && q.Ok? ==> Agree(p.value, q.value, keys))
            && (p.Err? && q.Err? ==> p.error == q.error)
    decreases ops
  {
    if ops.Do? {
      var p, q := ApplyOp(s, ops.op), ApplyOp(t, ops.op);
      assert Same(s, t, ops.op.Key());
      if p.Ok? && q.Ok? {
        WithinLocal(p.value, q.value, ops.next, keys);
      }
    }
  }

  lemma {:induction false} ThenWithin(ops: Ops, next: Ops, keys: set<Key>)
    requires Within(ops, keys) && Within(next, keys)
    ensures Within(Then(ops, next), keys)
    decreases ops
  {
    if ops.Do? {
      ThenWithin(ops.next, next, keys);
    }
  }

  lemma ImportWithin(s: Store, ctx: Context, act: Action)
    requires act.ImportAsset?
    ensures Within(Plan(s, ctx, act), StateKeys(ctx, act))
  {
    var keys := StateKeys(ctx, act);
    var settle, swap := SettlePlan(s, ctx, act.source, act.transfer), SwapPlan(ctx, act.fill, act.source, act.transfer);
    if swap.Do? {
      assert Within(swap.next.next, keys);
    }
    assert Within(swap, keys);
    if settle.Do? {
      assert Within(settle.next.next, keys);
    }
    assert Within(settle, keys);
    ThenWithin(settle, swap, keys);
  }

  /** Every operation of an asset action is on a declared key. */
  lemma PlanWithin(s: Store, ctx: Context, act: Action)
    requires IsAssetAction(act)
    ensures Within(Plan(s, ctx, act), StateKeys(ctx, act))
  {
    var plan := Plan(s, ctx, act);
    if act.ImportAsset? {
      ImportWithin(s, ctx, act);
    } else if plan.Do? && plan.next.Do? {
      assert Within(plan.next.next, StateKeys(ctx, act));
    }
  }

  /** The checks of an asset action read declared keys only. */
  lemma PlanLocal(s: Store, t: Store, ctx: Context, act: Action)
    requires IsAssetAction(act) && Agree(s, t, StateKeys(ctx, act))
    ensures Plan(s, ctx, act) == Plan(t, ctx, act)
    ensures ReceiptOf(s, ctx, act) == ReceiptOf(t, ctx, act)
  {
    if act.ImportAsset? {
      assert Same(s, t, AssetKey(AssetIn(act.source, act.transfer)));
    } else if act.MintAsset? || act.BurnAsset? || act.ExportAsset? {
      assert Same(s, t, AssetKey(act.asset));
    }
  }

  /** An asset action changes declared keys only. */
  lemma ExecuteFrame(s: Store, ctx: Context, act: Action, k: Key)
    requires IsAssetAction(act) && k !in StateKeys(ctx, act)
    ensures Same(Execute(s, ctx, act).store, s, k)
  {
    PlanWithin(s, ctx, act);
    if Apply(s, Plan(s, ctx, act)).Ok? {
      WithinFrame(s, Plan(s, ctx, act), StateKeys(ctx, act), k);
    }
  }

  /** What an asset action does and returns depends on declared keys only. */
  lemma ExecuteLocal(s: Store, t: Store, ctx: Context, act: Action)
    requires IsAssetAction(act) && Agree(s, t, StateKeys(ctx, act))
    ensures Execute(s, ctx, act).result == Execute(t, ctx, act).result
    ensures Agree(Execute(s, ctx, act).store, Execute(t, ctx, act).store, StateKeys(ctx, act))
  {
    PlanWithin(s, ctx, act);
    PlanLocal(s, t, ctx, act);
    WithinLocal(s, t, Plan(s, ctx, act), StateKeys(ctx, act));
  }

  // ---------------------------------------------------------------------------------------------
  // Blocks

  datatype Job = Job(ctx: Context, act: Action) {
    function Keys(): set<Key> {
      if IsAssetAction(act) then StateKeys(ctx, act) else {}
    }

    function On(s: Store): Outcome {
      Execute(s, ctx, act)
    }
  }

  predicate AssetJobs(jobs: seq<Job>) {
    forall i | 0 <= i < |jobs| :: IsAssetAction(jobs[i].act)
  }

  predicate Disjoint(jobs: seq<Job>) {
    forall i, j | 0 <= i < j < |jobs| :: jobs[i].Keys() !! jobs[j].Keys()
  }

  function RunBlock(s: Store, jobs: seq<Job>): Store {
    if jobs == [] then s else jobs[|jobs| - 1].On(RunBlock(s, jobs[..|jobs| - 1])).store
  }

  /** Keys that no job declares keep their value. */
  lemma {:induction false} BlockFrame(s: Store, jobs: seq<Job>, k: Key)
    requires AssetJobs(jobs)
    requires forall i | 0 <= i < |jobs| :: k !in jobs[i].Keys()
    ensures Same(RunBlock(s, jobs), s, k)
    decreases |jobs|
  {
    if jobs != [] {
      var n := |jobs| - 1;
      BlockFrame(s, jobs[..n], k);
      ExecuteFrame(RunBlock(s, jobs[..n]), jobs[n].ctx, jobs[n].act, k);
    }
  }

  /** In a block with pairwise disjoint keys, every job returns what it would return running alone
      on the starting state, and leaves its keys as it would leave them running alone. */
  lemma {:induction false} JobsRunAsIfAlone(s: Store, jobs: seq<Job>, i: nat)
    requires AssetJobs(jobs) && Disjoint(jobs) && i < |jobs|
    ensures jobs[i].On(RunBlock(s, jobs[..i])).result == jobs[i].On(s).result
    ensures Agree(RunBlock(s, jobs), jobs[i].On(s).store, jobs[i].Keys())
    decreases |jobs|
  {
    hide Execute, StateKeys;
    var n := |jobs| - 1;
    var before, last := jobs[..n], jobs[n];
    var u := RunBlock(s, before);
    if i == n {
      forall k | k in last.Keys() ensures Same(u, s, k) {
        BlockFrame(s, before, k);
      }
      ExecuteLocal(u, s, last.ctx, last.act);
    } else {
      JobsRunAsIfAlone(s, before, i);
      assert before[..i] == jobs[..i];
      forall k | k in jobs[i].Keys() ensures Same(RunBlock(s, jobs), jobs[i].On(s).store, k) {
        assert Same(u, before[i].On(s).store, k);
        ExecuteFrame(u, last.ctx, last.act, k);
      }
    }
  }

  /** Any two orders of the same jobs with pairwise disjoint keys end in the same state. */
  lemma AnyOrderSameState(s: Store, jobs: seq<Job>, others: seq<Job>)
    requires AssetJobs(jobs) && Disjoint(jobs) && AssetJobs(others) && Disjoint(others)
    requires forall j: Job :: j in jobs <==> j in others
    ensures RunBlock(s, jobs) == RunBlock(s, others)
  {
    var p, q := RunBlock(s, jobs), RunBlock(s, others);
    forall k: Key ensures Same(p, q, k) {
      if i :| 0 <= i < |jobs| && k in jobs[i].Keys() {
        assert jobs[i] in others;
        var j :| 0 <= j < |others| && others[j] == jobs[i];
        JobsRunAsIfAlone(s, jobs, i);
        JobsRunAsIfAlone(s, others, j);
        assert Same(p, jobs[i].On(s).store, k) && Same(q, jobs[i].On(s).store, k);
      } else {
        forall j | 0 <= j < |others| ensures k !in others[j].Keys() {
          assert others[j] in jobs;
        }
        BlockFrame(s, jobs, k);
        BlockFrame(s, others, k);
      }
    }
    assert forall k: Key :: k in p ==> Same(p, q, k);
    assert forall k: Key :: k in q ==> Same(p, q, k);
  }

  lemma BlockSnoc(s: Store, jobs: seq<Job>, last: Job)
    ensures RunBlock(s, jobs + [last]) == last.On(RunBlock(s, jobs)).store
  {
    assert (jobs + [last])[..|jobs|] == jobs;
  }

  lemma BlockOfTwo(s: Store, a: Job, b: Job)
    ensures RunBlock(s, [a]) == a.On(s).store
    ensures RunBlock(s, [a, b]) == b.On(a.On(s).store).store
  {
    assert RunBlock(s, []) == s;
    BlockSnoc(s, [], a);
    BlockSnoc(s, [a], b);
    assert [] + [a] == [a] && [a] + [b] == [a, b];
  }

  /** Two asset actions with disjoint keys commute: same final state, same results and messages. */
  lemma DisjointActionsCommute(s: Store, a: Job, b: Job)
    requires IsAssetAction(a.act) && IsAssetAction(b.act) && a.Keys() !! b.Keys()
    ensures b.On(a.On(s).store).store == a.On(b.On(s).store).store
    ensures a.On(b.On(s).store).result == a.On(s).result
    ensures b.On(a.On(s).store).result == b.On(s).result
  {
    hide RunBlock, Execute, StateKeys;
    BlockOfTwo(s, a, b);
    BlockOfTwo(s, b, a);
    assert [a, b][..1] == [a] && [b, a][..1] == [b];
    JobsRunAsIfAlone(s, [a, b], 1);
    JobsRunAsIfAlone(s, [b, a], 1);
    AnyOrderSameState(s, [a, b], [b, a]);
  }
}
