/** Batch verification of signatures: a counter-driven collector that must be as good as verifying
    every signature on its own. */
module Batching {
  import opened Types

  function Flatten<T>(batches: seq<seq<T>>): seq<T> {
    if batches == [] then [] else Flatten(batches[..|batches| - 1]) + batches[|batches| - 1]
  }

  lemma FlattenSnoc<T>(batches: seq<seq<T>>, b: seq<T>)
    ensures Flatten(batches + [b]) == Flatten(batches) + b
  {
    assert (batches + [b])[..|batches|] == batches;
  }

  lemma {:induction false} FlattenMembers<T>(batches: seq<seq<T>>, x: T)
    ensures x in Flatten(batches) <==> exists i :: 0 <= i < |batches| && x in batches[i]
    decreases |batches|
  {
    if batches != [] {
      var n := |batches| - 1;
      FlattenMembers(batches[..n], x);
      if i :| 0 <= i < n && x in batches[..n][i] {
        assert x in batches[i];
      }
      if i :| 0 <= i < |batches| && x in batches[i] && x !in batches[n] {
        assert x in batches[..n][i];
      }
    }
  }

  /** A batch verifies when all its signatures do. */
  ghost predicate Verifies<T>(batch: seq<T>, good: T -> bool) {
    forall x | x in batch :: good(x)
  }

  /** The batches handed out for `items`: full ones in order, then what is left, which is no larger; a full last batch
      may be handed out once more. */
  ghost predicate Covers<T>(batches: seq<seq<T>>, items: seq<T>, size: nat) {
    && (forall i | 0 <= i < |batches| - 1 :: |batches[i]| == size)
    && (batches != [] ==> |batches[|batches| - 1]| <= size)
    && (|| Flatten(batches) == items
        || (|batches| >= 2 && batches[|batches| - 1] == batches[|batches| - 2]
            && Flatten(batches[..|batches| - 1]) == items))
  }

  /** Covering batches all verify exactly when every signature does. */
  lemma CoversIsFaithful<T(!new)>(batches: seq<seq<T>>, items: seq<T>, size: nat, good: T -> bool)
    requires Covers(batches, items, size)
    ensures (forall i | 0 <= i < |batches| :: Verifies(batches[i], good)) <==> Verifies(items, good)
  {
    var n := |batches| - 1;
    var used := if Flatten(batches) == items then batches else batches[..n];
    if forall i | 0 <= i < |batches| :: Verifies(batches[i], good) {
      forall x | x in items ensures good(x) {
        FlattenMembers(used, x);
        var i :| 0 <= i < |used| && x in used[i];
        assert Verifies(batches[i], good);
      }
    }
    if Verifies(items, good) {
      forall i | 0 <= i < |batches| ensures Verifies(batches[i], good) {
        var j := if i < |used| then i else i - 1;
        forall x | x in batches[i] ensures good(x) {
          assert x in used[j];
          FlattenMembers(used, x);
        }
      }
    }
  }

  class Batch<T> {
    const batchSize: nat
    const total: nat
    var counter: nat
    var totalCounter: nat
    var batch: Option<seq<T>>

    ghost var added: seq<T>
    ghost var handedOut: seq<seq<T>>

    /** Signatures added but not yet handed out. */
    ghost function Pending(): seq<T>
      reads this
    {
      if counter == 0 || batch.None? then [] else batch.value
    }

    ghost predicate Valid()
      reads this
    {
      && 0 < batchSize
      && totalCounter == |added|
      && counter < batchSize
      && (batch.None? ==> added == [])
      && Flatten(handedOut) + Pending() == added
      && |Pending()| == counter
      && (forall i | 0 <= i < |handedOut| :: |handedOut[i]| == batchSize)
      // with nothing pending, the current batch is a new one, or the last one handed out when all are in
      && (counter == 0 && batch.Some? ==>
            if totalCounter < total then batch.value == []
            else handedOut != [] && batch.value == handedOut[|handedOut| - 1])
    }

    constructor (size: nat, count: nat)
      requires 0 < size
      ensures Valid() && batchSize == size && total == count && added == [] && handedOut == []
    {
      batchSize, total, counter, totalCounter, batch := size, count, 0, 0, None;
      added, handedOut := [], [];
    }

    method Add(x: T) returns (out: Option<seq<T>>)
      requires Valid() && |added| < total
      modifies this
      ensures Valid() && added == old(added) + [x]
      ensures handedOut == old(handedOut) + (if out.Some? then [out.value] else [])
      // a batch is handed out exactly when it is full, and then it is all that was pending
      ensures out.Some? <==> |old(Pending())| + 1 == batchSize
      ensures if out.Some? then out.value == old(Pending()) + [x] && Pending() == [] else Pending() == old(Pending()) + [x]
    {
      hide Flatten;
      ghost var pending, before := Pending(), handedOut;
      if batch.None? {
        batch := Some([]);
      }
      assert batch.value == pending;
      batch := Some(batch.value + [x]);
      counter := counter + 1;
      totalCounter := totalCounter + 1;
      assert Flatten(before) + batch.value == added + [x];
      added := added + [x];
      if counter == batchSize {
        var last := batch.value;
        counter := 0;
        handedOut := handedOut + [last];
        FlattenSnoc(before, last);
        assert Flatten(handedOut) + [] == added;
        if totalCounter < total {
          batch := Some([]);
        }
        return Some(last);
      }
      assert before + [] == before;
      return None;
    }

    method Done() returns (out: Option<seq<T>>)
      requires Valid()
      ensures out.None? ==> added == []
      ensures Covers(handedOut + (if out.Some? then [out.value] else []), added, batchSize)
    {
      if batch.None? {
        assert Flatten(handedOut) == added;
        assert handedOut + [] == handedOut;
        return None;
      }
      FlattenSnoc(handedOut, batch.value);
      assert (handedOut + [batch.value])[..|handedOut|] == handedOut;
      return batch;
    }
  }

  function BatchSize(count: nat, cores: nat, minBatchSize: nat): (size: nat)
    requires cores > 0
    ensures minBatchSize <= size && cores * size + cores > count
    ensures size == minBatchSize || cores * size <= count
  {
    assert cores * (count / cores) <= count < cores * (count / cores) + cores;
    assert count / cores <= minBatchSize ==> cores * (count / cores) <= cores * minBatchSize;
    if count / cores >= minBatchSize then count / cores else minBatchSize
  }

  /** Collect up to `count` signatures into batches. Whatever the numbers, the batches cover exactly the
      signatures, none is too large, and together they verify exactly when every signature does. */
  method Collect<T>(items: seq<T>, count: nat, cores: nat, minBatchSize: nat) returns (batches: seq<seq<T>>)
    requires cores > 0 && minBatchSize > 0 && |items| <= count
    ensures Covers(batches, items, BatchSize(count, cores, minBatchSize))
  {
    hide BatchSize, Covers, Flatten;
    var collector := new Batch<T>(BatchSize(count, cores, minBatchSize), count);
    batches := [];
    for i := 0 to |items|
      invariant collector.Valid() && fresh(collector)
      invariant collector.total == count && collector.batchSize == BatchSize(count, cores, minBatchSize)
      invariant collector.added == items[..i]
      invariant collector.handedOut == batches
    {
      assert items[..i + 1] == items[..i] + [items[i]];
      var out := collector.Add(items[i]);
      if out.Some? {
        batches := batches + [out.value];
      } else {
        assert batches + [] == batches;
      }
    }
    var last := collector.Done();
    if last.Some? {
      batches := batches + [last.value];
    } else {
      assert batches + [] == batches;
    }
    assert items[..|items|] == items;
  }
}
