/** Distribution of rewards: bounds on rounded shares, and independence of the iteration order. */
module Rewards {
  import opened Types
  import opened Sums
  import opened Emission
  import opened Delegations

  // ---------------------------------------------------------------------------------------------
  // Rounded shares

  /** The part `w` of `whole` in an amount, rounded down. */
  ghost function ShareWeight<K, V>(w: (K, V) -> int, amount: nat, whole: int): (K, V) -> int
  {
    (k: K, v: V) => if whole > 0 then amount * w(k, v) / whole else 0
  }

  lemma FloorBounds(x: int, d: int)
    requires d > 0
    ensures x - d < d * (x / d) <= x
  {
  }

  lemma CancelFactor(d: int, x: int, y: int)
    requires d > 0
    ensures d * x <= d * y ==> x <= y
    ensures d * x > d * y ==> x > y
  {
  }

  lemma DivisionUndoes(x: int, d: int)
    requires d > 0
    ensures x * d / d == x
  {
    var q := x * d / d;
    FloorBounds(x * d, d);
    CancelFactor(d, q, x);
    assert d * (x - 1) == d * x - d;
    CancelFactor(d, q, x - 1);
  }

  lemma QuotientBound(x: int, d: int, bound: int)
    requires d > 0 && 0 <= x <= d * bound
    ensures 0 <= x / d <= bound
  {
    FloorBounds(x, d);
    CancelFactor(d, x / d, bound);
    assert d * (x / d) > -d == d * -1;
    CancelFactor(d, x / d, -1);
  }

  lemma ProductsGrow(a: nat, x: int, y: int)
    requires x <= y
    ensures a * x <= a * y
  {
  }

  /** A part no larger than the whole gets a share no larger than the amount. */
  lemma ShareInRange(part: nat, amount: nat, whole: int)
    requires whole > 0 && part <= whole
    ensures 0 <= amount * part / whole <= amount
  {
    ProductsGrow(amount, 0, part);
    ProductsGrow(amount, part, whole);
    assert amount * whole == whole * amount;
    QuotientBound(amount * part, whole, amount);
  }

  lemma NothingOfNothing(amount: int, whole: int)
    requires whole > 0
    ensures amount * 0 / whole == 0 && amount * 0 % whole == 0
  {
  }

  /** One more part: `f` is its share, `rest` and `x` are shares and parts so far. */
  lemma OneMoreShare(whole: int, amount: int, part: int, x: int, f: int, rest: int, n: int)
    requires whole > 0 && f == amount * part / whole
    requires amount * x - whole * n <= whole * rest <= amount * x
    ensures amount * (part + x) - whole * (n + 1) < whole * (f + rest) <= amount * (part + x)
  {
    FloorBounds(amount * part, whole);
    assert whole * (f + rest) == whole * f + whole * rest;
    assert amount * (part + x) == amount * part + amount * x;
    assert whole * (n + 1) == whole * n + whole;
  }

  /** Rounded shares of an amount lose less than one unit each and never gain. */
  lemma {:induction false} SharesBounds<K, V>(m: map<K, V>, w: (K, V) -> int, amount: nat, whole: int)
    requires whole > 0
    ensures amount * Sum(m, w) - whole * |m| <= whole * Sum(m, ShareWeight(w, amount, whole)) <= amount * Sum(m, w)
    ensures m != map[] ==> whole * Sum(m, ShareWeight(w, amount, whole)) > amount * Sum(m, w) - whole * |m|
    decreases |m|
  {
    var f := ShareWeight(w, amount, whole);
    if m == map[] {
      assert Sum(m, w) == 0 == Sum(m, f) && |m| == 0;
    } else {
      var p :| p in m && Sum(m, w) == w(p, m[p]) + Sum(m - {p}, w);
      var rest := m - {p};
      SumRemove(m, p, f);
      SharesBounds(rest, w, amount, whole);
      var part, x, share, y, n := w(p, m[p]), Sum(rest, w), f(p, m[p]), Sum(rest, f), |rest|;
      OneMoreShare(whole, amount, part, x, share, y, n);
      assert Sum(m, w) == part + x && Sum(m, f) == share + y && |m| == n + 1;
    }
  }

  lemma SharesCancel(whole: int, amount: int, parts: int, shares: int, n: int)
    requires whole > 0 && amount >= 0
    requires whole * shares <= amount * parts
    ensures parts <= whole ==> shares <= amount
    ensures parts == whole && whole * shares > amount * parts - whole * n ==> shares > amount - n
  {
    if parts <= whole {
      assert amount * parts <= amount * whole == whole * amount;
      CancelFactor(whole, shares, amount);
    }
    if parts == whole {
      assert amount * parts - whole * n == whole * (amount - n);
      CancelFactor(whole, shares, amount - n);
    }
  }

  /** Rounded shares of parts that do not exceed the whole add up to at most the amount, and when
      the parts make up the whole less than one unit per part is lost. */
  lemma {:induction false} SharesTotal<K, V>(m: map<K, V>, w: (K, V) -> int, amount: nat, whole: int)
    requires whole > 0
    ensures var shares := Sum(m, ShareWeight(w, amount, whole));
            && (Sum(m, w) <= whole ==> shares <= amount)
            && (Sum(m, w) == whole && m != map[] ==> shares > amount - |m|)
  {
    SharesBounds(m, w, amount, whole);
    SharesCancel(whole, amount, Sum(m, w), Sum(m, ShareWeight(w, amount, whole)), |m|);
  }

  // ---------------------------------------------------------------------------------------------
  // Validators' portions

  ghost function StakeWeight(): (NodeId, Validator) -> int {
    (n: NodeId, v: Validator) => if v.isActive then Stake(v) else 0
  }

  /** The stake, own and delegated, of all active validators. */
  ghost function ActiveTotal(st: State): int {
    Sum(st.validators, StakeWeight())
  }

  lemma PortionIsShare(totalStaked: uint64, v: Validator, total: uint64)
    requires totalStaked > 0 && v.isActive && (Stake(v) <= totalStaked || total <= totalStaked)
    ensures Portion(totalStaked, v, total) == total * Stake(v) / totalStaked
  {
    assert Stake(v) * total == total * Stake(v);
    if Stake(v) <= totalStaked {
      ShareInRange(Stake(v), total, totalStaked);
    } else {
      ShareInRange(total, Stake(v), totalStaked);
    }
  }

  /** Where no product leaves 64 bits, portions are plain rounded shares. */
  lemma PortionsAreShares(st: State, total: uint64)
    requires 0 < st.totalStaked && (ActiveTotal(st) <= st.totalStaked || total <= st.totalStaked)
    ensures Distributed(st, total) == Sum(st.validators, ShareWeight(StakeWeight(), total, st.totalStaked))
  {
    var f, g := PortionWeight(st.totalStaked, total), ShareWeight(StakeWeight(), total, st.totalStaked);
    forall n | n in st.validators ensures f(n, st.validators[n]) == g(n, st.validators[n]) {
      var v := st.validators[n];
      SumAtLeast(st.validators, n, StakeWeight());
      if v.isActive {
        PortionIsShare(st.totalStaked, v, total);
      } else {
        NothingOfNothing(total, st.totalStaked);
      }
    }
    SumSameWeights(st.validators, f, g);
  }

  /** Out of a total as large as the recorded stake, every active validator gets its stake. */
  lemma WholePortion(t: uint64, v: Validator)
    requires t > 0
    ensures Portion(t, v, t) == if v.isActive then Stake(v) else 0
  {
    DivisionUndoes(Stake(v), t);
  }

  lemma {:induction false} SumSameWeights<K, V>(m: map<K, V>, f: (K, V) -> int, g: (K, V) -> int)
    requires forall k | k in m :: f(k, m[k]) == g(k, m[k])
    ensures Sum(m, f) == Sum(m, g)
    decreases |m|
  {
    if m != map[] {
      var p :| p in m && Sum(m, f) == f(p, m[p]) + Sum(m - {p}, f);
      SumRemove(m, p, g);
      SumSameWeights(m - {p}, f, g);
    }
  }

  /** No total is ever exceeded exactly when no stake is recorded as total or the recorded total
      covers the stake of all active validators. */
  lemma NeverExceedsIff(st: State)
    ensures (forall total: uint64 :: Distributed(st, total) <= total)
            <==> (st.totalStaked == 0 || ActiveTotal(st) <= st.totalStaked)
  {
    var t := st.totalStaked;
    if t == 0 {
      forall total: uint64 ensures Distributed(st, total) <= total {
        SumZero(st.validators, PortionWeight(t, total));
      }
    } else if ActiveTotal(st) <= t {
      forall total: uint64 ensures Distributed(st, total) <= total {
        PortionsAreShares(st, total);
        SharesTotal(st.validators, StakeWeight(), total, t);
      }
    } else {
      var f, g := PortionWeight(t, t), StakeWeight();
      forall n | n in st.validators ensures f(n, st.validators[n]) == g(n, st.validators[n]) {
        WholePortion(t, st.validators[n]);
      }
      SumSameWeights(st.validators, f, g);
      assert Distributed(st, t) > t;
    }
  }

  /** The validators that take part in a distribution. */
  ghost function ActiveOnly(st: State): map<NodeId, Validator> {
    map n | n in st.validators && st.validators[n].isActive :: st.validators[n]
  }

  /** Leaving out entries without weight. */
  lemma {:induction false} SumWithout<K, V>(m: map<K, V>, n: map<K, V>, w: (K, V) -> int)
    requires n.Keys <= m.Keys && forall k | k in n :: n[k] == m[k]
    requires forall k | k in m && k !in n :: w(k, m[k]) == 0
    ensures Sum(n, w) == Sum(m, w)
    decreases |m|
  {
    if m == map[] {
      assert n == map[];
    } else {
      var p :| p in m && Sum(m, w) == w(p, m[p]) + Sum(m - {p}, w);
      SumRemove(n, p, w);
      SumWithout(m - {p}, n - {p}, w);
    }
  }

  /** What rounding down takes away, times the whole. */
  ghost function RemainderWeight<K, V>(w: (K, V) -> int, amount: nat, whole: int): (K, V) -> int
  {
    (k: K, v: V) => if whole > 0 then amount * w(k, v) % whole else 0
  }

  /** Only active validators have stake, shares and remainders. */
  lemma ActiveSums(st: State, w: (NodeId, Validator) -> int)
    requires forall n | n in st.validators && !st.validators[n].isActive :: w(n, st.validators[n]) == 0
    ensures Sum(ActiveOnly(st), w) == Sum(st.validators, w)
  {
    SumWithout(st.validators, ActiveOnly(st), w);
  }

  lemma NoWeightNoShare<K, V>(w: (K, V) -> int, amount: nat, whole: int, k: K, v: V)
    requires w(k, v) == 0
    ensures ShareWeight(w, amount, whole)(k, v) == 0 && RemainderWeight(w, amount, whole)(k, v) == 0
  {
    if whole > 0 {
      NothingOfNothing(amount, whole);
    }
  }

  lemma NoStakeNoShare(st: State, total: uint64)
    ensures var f := ShareWeight<NodeId, Validator>(StakeWeight(), total, st.totalStaked);
            var g := RemainderWeight<NodeId, Validator>(StakeWeight(), total, st.totalStaked);
            forall n | n in st.validators && !st.validators[n].isActive ::
              f(n, st.validators[n]) == 0 && g(n, st.validators[n]) == 0
  {
    forall n | n in st.validators && !st.validators[n].isActive
      ensures ShareWeight<NodeId, Validator>(StakeWeight(), total, st.totalStaked)(n, st.validators[n]) == 0
           && RemainderWeight<NodeId, Validator>(StakeWeight(), total, st.totalStaked)(n, st.validators[n]) == 0
    {
      NoWeightNoShare(StakeWeight(), total, st.totalStaked, n, st.validators[n]);
    }
  }

  /** When the recorded total is exactly the active stake, less than one unit per active validator stays
      undistributed, however many inactive ones there are. */
  lemma LittleIsLost(st: State, total: uint64)
    requires 0 < st.totalStaked && ActiveTotal(st) == st.totalStaked
    ensures total - |ActiveOnly(st)| < Distributed(st, total) <= total
  {
    hide Sum;
    PortionsAreShares(st, total);
    NoStakeNoShare(st, total);
    InactiveHaveNoStake(st);
    ActiveSums(st, StakeWeight());
    ActiveSums(st, ShareWeight<NodeId, Validator>(StakeWeight(), total, st.totalStaked));
    EmptySum(ActiveOnly(st), StakeWeight());
    SharesTotal(ActiveOnly(st), StakeWeight(), total, st.totalStaked);
  }

  lemma InactiveHaveNoStake(st: State)
    ensures forall n | n in st.validators && !st.validators[n].isActive :: StakeWeight()(n, st.validators[n]) == 0
  {
  }

  lemma EmptySum<K, V>(m: map<K, V>, w: (K, V) -> int)
    ensures m == map[] ==> Sum(m, w) == 0
  {
  }

  // ---------------------------------------------------------------------------------------------
  // The total that an epoch really distributes

  /** The rewards before they are cut off are a small part of the recorded stake. */
  lemma RewardsBelowStake(staked: uint64, n: nat)
    requires n > BASE_VALIDATORS
    ensures 0 <= staked * 25 * (EPOCH_LENGTH * 3) / (n * SECONDS_PER_YEAR) <= staked
  {
    var d := n * SECONDS_PER_YEAR;
    assert d >= 750;
    ProductsGrow(staked, 750, d);
    assert staked * d == d * staked;
    QuotientBound(staked * 750, d, staked);
  }

  lemma CutOff(supply: uint64, cap: uint64, r: uint64)
    requires supply <= cap
    ensures var x := if WrapAdd(supply, r) > cap then WrapSub(cap, supply) else r;
            WrapAdd(supply, x) <= cap && x <= r
  {
  }

  /** The rewards of an epoch never lift the supply above the maximum, and never exceed the recorded stake. */
  lemma RewardsAreBounded(st: State)
    requires st.totalSupply <= st.maxSupply
    ensures WrapAdd(st.totalSupply, RewardsPerEpoch(st)) <= st.maxSupply
    ensures RewardsPerEpoch(st) <= st.totalStaked
  {
    hide WrapAdd, WrapSub;
    var n, s := |st.validators|, st.totalStaked;
    if n > BASE_VALIDATORS {
      RewardsBelowStake(s, n);
      var r: uint64 := s * 25 * (EPOCH_LENGTH * 3) / (n * SECONDS_PER_YEAR);
      CutOff(st.totalSupply, st.maxSupply, r);
    } else {
      var r: uint64 := s * (EPOCH_LENGTH * 3) / (4 * SECONDS_PER_YEAR);
      CutOff(st.totalSupply, st.maxSupply, r);
    }
  }

  /** `r` is what 25% a year of the recorded stake come to in the thirty seconds of an epoch, rounded down, and spread
      thinner above `BASE_VALIDATORS` validators. */
  predicate IsYield(st: State, r: nat) {
    var d := (if |st.validators| > BASE_VALIDATORS then |st.validators| else BASE_VALIDATORS) * SECONDS_PER_YEAR;
    d * r <= st.totalStaked * (25 * EPOCH_LENGTH * 3) < d * (r + 1)
  }

  lemma YieldIsUnique(st: State, x: nat, y: nat)
    requires IsYield(st, x) && IsYield(st, y)
    ensures x == y
  {
    var d := (if |st.validators| > BASE_VALIDATORS then |st.validators| else BASE_VALIDATORS) * SECONDS_PER_YEAR;
    CancelFactor(d, y + 1, x);
    CancelFactor(d, x + 1, y);
  }

  lemma FloorIs(x: int, d: int)
    requires d > 0
    ensures d * (x / d) <= x < d * (x / d + 1)
  {
  }

  lemma FewValidatorsYield(st: State)
    requires |st.validators| <= BASE_VALIDATORS
    ensures IsYield(st, st.totalStaked * (EPOCH_LENGTH * 3) / (4 * SECONDS_PER_YEAR))
    ensures st.totalStaked * (EPOCH_LENGTH * 3) / (4 * SECONDS_PER_YEAR) <= st.totalStaked
  {
  }

  lemma FloorIsYield(st: State, d: nat, r: nat)
    requires |st.validators| > BASE_VALIDATORS && d == |st.validators| * SECONDS_PER_YEAR
    requires d * r <= st.totalStaked * 25 * (EPOCH_LENGTH * 3) < d * (r + 1)
    ensures IsYield(st, r)
  {
  }

  lemma ManyValidatorsYield(st: State)
    requires |st.validators| > BASE_VALIDATORS
    ensures var raw := st.totalStaked * 25 * (EPOCH_LENGTH * 3) / (|st.validators| * SECONDS_PER_YEAR);
            0 <= raw <= st.totalStaked && IsYield(st, raw)
  {
    hide IsYield;
    var x, d := st.totalStaked * 25 * (EPOCH_LENGTH * 3), |st.validators| * SECONDS_PER_YEAR;
    RewardsBelowStake(st.totalStaked, |st.validators|);
    FloorIs(x, d);
    FloorIsYield(st, d, x / d);
  }

  lemma CutOffAt(supply: uint64, cap: uint64, r: uint64)
    requires supply <= cap
    ensures (if WrapAdd(supply, r) > cap then WrapSub(cap, supply) else r)
         == if cap < supply + r <= MAX_UINT64 then cap - supply else r
  {
  }

  /** The rewards are what the rounded ratio comes to, cut off. */
  lemma RewardsAreCutOff(st: State, raw: uint64)
    requires var n := |st.validators|;
             raw == if n <= BASE_VALIDATORS then st.totalStaked * (EPOCH_LENGTH * 3) / (4 * SECONDS_PER_YEAR)
                    else st.totalStaked * 25 * (EPOCH_LENGTH * 3) / (n * SECONDS_PER_YEAR)
    ensures RewardsPerEpoch(st)
         == if WrapAdd(st.totalSupply, raw) > st.maxSupply then WrapSub(st.maxSupply, st.totalSupply) else raw
  {
    hide WrapAdd, WrapSub;
  }

  /** The rewards of an epoch are that yield, or what is left to the maximum supply if the yield would exceed it
      without leaving 64 bits. */
  lemma RewardsAreTheYield(st: State, r: nat)
    requires st.totalSupply <= st.maxSupply && IsYield(st, r)
    ensures RewardsPerEpoch(st) == if st.maxSupply < st.totalSupply + r <= MAX_UINT64 then st.maxSupply - st.totalSupply else r
  {
    hide IsYield, RewardsPerEpoch, WrapAdd, WrapSub;
    var n, s := |st.validators|, st.totalStaked;
    var raw: uint64;
    if n > BASE_VALIDATORS {
      ManyValidatorsYield(st);
      raw := s * 25 * (EPOCH_LENGTH * 3) / (n * SECONDS_PER_YEAR);
    } else {
      FewValidatorsYield(st);
      raw := s * (EPOCH_LENGTH * 3) / (4 * SECONDS_PER_YEAR);
    }
    RewardsAreCutOff(st, raw);
    YieldIsUnique(st, r, raw);
    CutOffAt(st.totalSupply, st.maxSupply, raw);
  }

  ghost function Remainders(st: State, total: uint64): int {
    Sum(st.validators, RemainderWeight(StakeWeight(), total, st.totalStaked))
  }

  /** One more part: `f` is its share, `r` its remainder; `rest` and `rests` are those so far. */
  lemma OneMoreRemainder(whole: int, amount: int, part: int, x: int, f: int, r: int, rest: int, rests: int)
    requires whole * f + r == amount * part && whole * rest + rests == amount * x
    ensures whole * (f + rest) + (r + rests) == amount * (part + x)
  {
  }

  /** A rounded share and its remainder make up the product. */
  lemma ShareAndRemainder<K, V>(w: (K, V) -> int, amount: nat, whole: int, k: K, v: V)
    requires whole > 0
    ensures whole * ShareWeight(w, amount, whole)(k, v) + RemainderWeight(w, amount, whole)(k, v) == amount * w(k, v)
  {
    var x := amount * w(k, v);
    assert whole * (x / whole) + x % whole == x;
  }

  /** Rounded shares and remainders make up the whole product. */
  lemma {:induction false} SharesAndRemainders<K, V>(m: map<K, V>, w: (K, V) -> int, amount: nat, whole: int)
    requires whole > 0
    ensures whole * Sum(m, ShareWeight(w, amount, whole)) + Sum(m, RemainderWeight(w, amount, whole)) == amount * Sum(m, w)
    decreases |m|
  {
    hide ShareWeight, RemainderWeight;
    var f, g := ShareWeight(w, amount, whole), RemainderWeight(w, amount, whole);
    if m == map[] {
      assert Sum(m, w) == 0 && Sum(m, f) == 0 && Sum(m, g) == 0;
    } else {
      var p :| p in m && Sum(m, w) == w(p, m[p]) + Sum(m - {p}, w);
      var rest := m - {p};
      SumRemove(m, p, f);
      SumRemove(m, p, g);
      SharesAndRemainders(rest, w, amount, whole);
      ShareAndRemainder(w, amount, whole, p, m[p]);
      OneMoreRemainder(whole, amount, w(p, m[p]), Sum(rest, w), f(p, m[p]), g(p, m[p]), Sum(rest, f), Sum(rest, g));
    }
  }

  lemma ProductExceeds(whole: int, shares: int, amount: int, rests: int, parts: int)
    requires whole > 0 && whole * shares + rests == amount * parts
    ensures shares > amount <==> amount * (parts - whole) > rests
  {
    assert amount * (parts - whole) == amount * parts - amount * whole;
    assert whole * amount == amount * whole;
    if shares > amount {
      assert whole * shares > whole * amount;
    } else {
      assert whole * shares <= whole * amount;
    }
  }

  /** A total within the recorded stake is exceeded exactly when the stake that is counted but not recorded
      outweighs what rounding takes away, which is less than the recorded stake for each active validator. */
  lemma ExceedsIff(st: State, total: uint64)
    requires total <= st.totalStaked
    ensures Distributed(st, total) > total
            <==> st.totalStaked > 0 && total * (ActiveTotal(st) - st.totalStaked) > Remainders(st, total)
    ensures 0 <= Remainders(st, total)
    ensures st.totalStaked > 0 && ActiveOnly(st) != map[] ==>
              Remainders(st, total) < st.totalStaked * |ActiveOnly(st)|
  {
    var s, w := st.totalStaked, StakeWeight();
    if s == 0 {
      SumZero(st.validators, PortionWeight(s, total));
      SumZero(st.validators, RemainderWeight(w, total, s));
    } else {
      PortionsAreShares(st, total);
      SharesAndRemainders(st.validators, w, total, s);
      ProductExceeds(s, Distributed(st, total), total, Remainders(st, total), ActiveTotal(st));
      RemaindersAreSmall(st, total);
    }
  }

  lemma RemaindersAreSmall(st: State, total: uint64)
    requires st.totalStaked > 0
    ensures 0 <= Remainders(st, total)
    ensures ActiveOnly(st) != map[] ==> Remainders(st, total) < st.totalStaked * |ActiveOnly(st)|
  {
    hide Sum;
    var w := StakeWeight();
    NoStakeNoShare(st, total);
    ActiveSums(st, RemainderWeight<NodeId, Validator>(w, total, st.totalStaked));
    RemaindersBelow(ActiveOnly(st), w, total, st.totalStaked);
  }

  lemma RemaindersBelow<K, V>(m: map<K, V>, w: (K, V) -> int, amount: nat, whole: int)
    requires whole > 0
    ensures var rests := Sum(m, RemainderWeight(w, amount, whole));
            0 <= rests && (m != map[] ==> rests < whole * |m|)
  {
    hide Sum;
    SumNonNegative(m, RemainderWeight(w, amount, whole));
    SumBelow(m, RemainderWeight(w, amount, whole), whole);
  }

  lemma {:induction false} SumBelow<K, V>(m: map<K, V>, w: (K, V) -> int, bound: int)
    requires forall k | k in m :: w(k, m[k]) < bound
    ensures Sum(m, w) <= bound * |m| && (m != map[] ==> Sum(m, w) < bound * |m|)
    decreases |m|
  {
    if m != map[] {
      var p :| p in m && Sum(m, w) == w(p, m[p]) + Sum(m - {p}, w);
      SumBelow(m - {p}, w, bound);
      assert |m| == |m - {p}| + 1;
      assert bound * |m| == bound * |m - {p}| + bound;
    }
  }

  /** At an epoch's end more than its rewards is distributed under exactly that condition. */
  lemma EpochExceedsIff(st: State)
    requires st.totalSupply <= st.maxSupply
    ensures var total := RewardsPerEpoch(st);
            Distributed(st, total) > total
            <==> st.totalStaked > 0 && total * (ActiveTotal(st) - st.totalStaked) > Remainders(st, total)
  {
    hide RewardsPerEpoch, Distributed, ActiveTotal, Remainders;
    RewardsAreBounded(st);
    ExceedsIff(st, RewardsPerEpoch(st));
  }

  // ---------------------------------------------------------------------------------------------
  // Delegators' shares

  ghost function EpochShareWeight(v: Validator, epoch: nat): (Address, Delegator) -> int {
    (who: Address, d: Delegator) => if d.isActive then EpochShare(v, d, epoch) else 0
  }

  lemma EpochShareIsShare(v: Validator, d: Delegator, epoch: nat)
    requires epoch in v.epochRewards && epoch in v.epochDelegated
    requires 0 < v.epochDelegated[epoch] && d.staked <= v.epochDelegated[epoch]
    ensures EpochShare(v, d, epoch) == v.epochRewards[epoch] * d.staked / v.epochDelegated[epoch]
  {
    ShareInRange(d.staked, v.epochRewards[epoch], v.epochDelegated[epoch]);
  }

  /** A record that was made from all active stake pays its active delegators at most its reward. */
  lemma {:induction false} RecordIsSolvent(w: Validator, epoch: nat)
    requires epoch in w.epochRewards && epoch in w.epochDelegated
    requires w.epochDelegated[epoch] == ActiveStake(w)
    ensures Sum(w.delegators, EpochShareWeight(w, epoch)) <= w.epochRewards[epoch]
  {
    var reward, whole := w.epochRewards[epoch], w.epochDelegated[epoch];
    var f, g := EpochShareWeight(w, epoch), ShareWeight(ActiveWeight(), reward, whole);
    if whole == 0 {
      SumZero(w.delegators, f);
    } else {
      forall who | who in w.delegators ensures f(who, w.delegators[who]) == g(who, w.delegators[who]) {
        var d := w.delegators[who];
        SumAtLeast(w.delegators, who, ActiveWeight());
        if d.isActive {
          EpochShareIsShare(w, d, epoch);
        } else {
          NothingOfNothing(reward, whole);
        }
      }
      SumSameWeights(w.delegators, f, g);
      SharesTotal(w.delegators, ActiveWeight(), reward, whole);
    }
  }

  /** The shares of one epoch, over all delegators active when it was distributed, never exceed the
      reward that the epoch set aside for them. */
  lemma EpochIsSolvent(v: Validator, totalStaked: uint64, total: uint64, epoch: nat)
    requires v.isActive && Counted(v) && ActiveStake(v) <= MAX_UINT64
    ensures var w := Credited(totalStaked, v, total, epoch);
            && w.delegators == v.delegators
            && Sum(w.delegators, EpochShareWeight(w, epoch)) <= w.epochRewards[epoch]
  {
    SumNonNegative(v.delegators, ActiveWeight());
    RecordIsSolvent(Credited(totalStaked, v, total, epoch), epoch);
  }

  // ---------------------------------------------------------------------------------------------
  // Order of iteration

  /** Credit the validators one after another in a given order, adding up what is distributed. */
  function PayInOrder(st: State, order: seq<NodeId>, total: uint64, epoch: nat): (State, uint64) {
    if order == [] then (st, 0)
    else
      var (s, sum) := PayInOrder(st, order[..|order| - 1], total, epoch);
      var n := order[|order| - 1];
      if n in s.validators then
        (s.(validators := s.validators[n := Credited(s.totalStaked, s.validators[n], total, epoch)]),
         WrapAdd(sum, Portion(s.totalStaked, s.validators[n], total)))
      else (s, sum)
  }

  predicate Distinct(order: seq<NodeId>) {
    forall i, j | 0 <= i < j < |order| :: order[i] != order[j]
  }

  ghost function Part(st: State, order: seq<NodeId>): map<NodeId, Validator> {
    map n | n in st.validators && n in order :: st.validators[n]
  }

  lemma WrapAddMod(x: int, y: uint64)
    ensures WrapAdd(x % TWO_TO_64, y) == (x + y) % TWO_TO_64
  {
  }

  /** After part of the validators, those are credited and the others are as before. */
  lemma {:induction false} PayPrefix(st: State, order: seq<NodeId>, total: uint64, epoch: nat)
    requires Distinct(order)
    ensures var s := PayInOrder(st, order, total, epoch).0;
            && s == st.(validators := s.validators) && s.validators.Keys == st.validators.Keys
            && (forall n | n in st.validators ::
                  s.validators[n] == if n in order then Credited(st.totalStaked, st.validators[n], total, epoch)
                                     else st.validators[n])
    decreases |order|
  {
    hide Credited, Portion, WrapAdd;
    if order != [] {
      var rest, n := order[..|order| - 1], order[|order| - 1];
      PayPrefix(st, rest, total, epoch);
      assert order == rest + [n];
      assert n !in rest;
    }
  }

  lemma PartSnoc(st: State, rest: seq<NodeId>, n: NodeId, w: (NodeId, Validator) -> int)
    requires n !in rest
    ensures Sum(Part(st, rest + [n]), w) == Sum(Part(st, rest), w) + At(st.validators, n, w)
  {
    assert Part(st, rest) == Part(st, rest + [n]) - {n};
    SumRemove(Part(st, rest + [n]), n, w);
  }

  /** One more validator in the order. */
  lemma PaySnoc(st: State, rest: seq<NodeId>, n: NodeId, total: uint64, epoch: nat)
    ensures var (s, sum) := PayInOrder(st, rest, total, epoch);
            n in s.validators ==>
              PayInOrder(st, rest + [n], total, epoch)
              == (s.(validators := s.validators[n := Credited(s.totalStaked, s.validators[n], total, epoch)]),
                  WrapAdd(sum, Portion(s.totalStaked, s.validators[n], total)))
  {
    assert (rest + [n])[..|rest|] == rest;
  }

  lemma PayStep(st: State, rest: seq<NodeId>, n: NodeId, total: uint64, epoch: nat)
    requires Distinct(rest) && n !in rest
    ensures PayInOrder(st, rest + [n], total, epoch).1
         == WrapAdd(PayInOrder(st, rest, total, epoch).1,
                    if n in st.validators then Portion(st.totalStaked, st.validators[n], total) else 0)
  {
    PayPrefix(st, rest, total, epoch);
    assert (rest + [n])[..|rest|] == rest;
  }

  lemma {:induction false} PayPrefixSum(st: State, order: seq<NodeId>, total: uint64, epoch: nat)
    requires Distinct(order)
    ensures PayInOrder(st, order, total, epoch).1
         == Sum(Part(st, order), PortionWeight(st.totalStaked, total)) % TWO_TO_64
    decreases |order|
  {
    hide Sum, Portion, Credited, WrapAdd;
    var w := PortionWeight(st.totalStaked, total);
    if order == [] {
      assert Part(st, order) == map[];
      EmptySum(Part(st, order), w);
    } else {
      var rest, n := order[..|order| - 1], order[|order| - 1];
      assert order == rest + [n];
      assert n !in rest;
      PayPrefixSum(st, rest, total, epoch);
      PayStep(st, rest, n, total, epoch);
      PartSnoc(st, rest, n, w);
      PortionAt(st, n, total);
      var p: uint64 := if n in st.validators then Portion(st.totalStaked, st.validators[n], total) else 0;
      WrapAddMod(Sum(Part(st, rest), w), p);
    }
  }

  lemma PortionAt(st: State, n: NodeId, total: uint64)
    ensures At(st.validators, n, PortionWeight(st.totalStaked, total))
         == if n in st.validators then Portion(st.totalStaked, st.validators[n], total) else 0
  {
  }

  /** Whatever order the validators are visited in, rewards end up the same, and so does their sum. */
  lemma AnyOrderSameRewards(st: State, order: seq<NodeId>, total: uint64, epoch: nat)
    requires Distinct(order) && forall n :: n in order <==> n in st.validators
    ensures PayInOrder(st, order, total, epoch) == (Distribute(st, total, epoch), Distributed(st, total) % TWO_TO_64)
  {
    PayPrefix(st, order, total, epoch);
    PayPrefixSum(st, order, total, epoch);
    assert Part(st, order) == st.validators;
    assert PayInOrder(st, order, total, epoch).0.validators == Distribute(st, total, epoch).validators;
  }

  // ---------------------------------------------------------------------------------------------
  // Total supply

  /** Whatever is minted, the recorded total supply stays within the maximum. */
  lemma SupplyStaysCapped(supply: uint64, maxSupply: uint64, minted: uint64)
    requires supply <= maxSupply
    ensures SupplyAfterBlock(supply, maxSupply, minted) <= maxSupply
  {
  }

  /** A block adds what it mints twice, in 64 bits and up to the maximum; so it adds exactly what it mints
      only if that is nothing or fills up the maximum without wrapping. */
  lemma SupplyCountsTwice(supply: uint64, maxSupply: uint64, minted: uint64)
    requires supply <= maxSupply
    ensures SupplyAfterBlock(supply, maxSupply, minted)
         == if minted == 0 then supply else Min((supply + 2 * minted) % TWO_TO_64, maxSupply)
    ensures SupplyAfterBlock(supply, maxSupply, minted) == supply + minted
            <==> (minted == 0 || (supply + minted == maxSupply && supply + 2 * minted <= MAX_UINT64))
  {
  }
}
