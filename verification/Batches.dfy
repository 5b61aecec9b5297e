// Publishing a list in batches of a limited size.
module Batches {

  /** A connection: which batches the broker has taken, and how many publishing calls were made. `refuses` tells which
      of the calls fail. */
  class Client<T> {
    var sent: seq<seq<T>>
    var calls: nat
    const refuses: nat -> bool

    constructor (refuses: nat -> bool)
      ensures this.refuses == refuses && sent == [] && calls == 0
    {
      this.refuses := refuses;
      sent, calls := [], 0;
    }

    method PublishJSONMessage(batch: seq<T>) returns (ok: bool)
      modifies this
      ensures calls == old(calls) + 1 && ok == !refuses(old(calls))
      ensures sent == if ok then old(sent) + [batch] else old(sent)
    {
      ok := !refuses(calls);
      calls := calls + 1;
      if ok {
        sent := sent + [batch];
      }
    }
  }

  function Min(a: int, b: int): int { if a <= b then a else b }

  /** The batches from `start` on. */
  function BatchesFrom<T>(tuple: seq<T>, size: nat, start: nat): seq<seq<T>>
    requires size > 0
    decreases |tuple| - start
  {
    if start >= |tuple| then [] else [tuple[start..Min(start + size, |tuple|)]] + BatchesFrom(tuple, size, start + size)
  }

  /** A batch size that is not positive means one batch. */
  function EffectiveSize(batchSize: int, length: nat): nat { if batchSize <= 0 then length else batchSize }

  function BatchesOf<T>(tuple: seq<T>, batchSize: int): seq<seq<T>> {
    if tuple == [] then [] else BatchesFrom(tuple, EffectiveSize(batchSize, |tuple|), 0)
  }

  /** The first `k` batches serialized and were accepted. */
  ghost predicate AllTaken<T(!new)>(batches: seq<seq<T>>, serializes: seq<T> -> bool, refuses: nat -> bool, calls: nat,
                                    k: nat)
    requires k <= |batches|
  {
    forall i :: 0 <= i < k ==> serializes(batches[i]) && !refuses(calls + i)
  }

  /** They went out and the next one, if there is one, failed to serialize or was refused. */
  ghost predicate StoppedAfter<T(!new)>(batches: seq<seq<T>>, serializes: seq<T> -> bool, refuses: nat -> bool,
                                        calls: nat, k: nat) {
    && k <= |batches| && AllTaken(batches, serializes, refuses, calls, k)
    && (k < |batches| ==> !serializes(batches[k]) || refuses(calls + k))
  }

  lemma OneMoreTaken<T(!new)>(batches: seq<seq<T>>, serializes: seq<T> -> bool, refuses: nat -> bool, calls: nat,
                              k: nat)
    requires k < |batches| && AllTaken(batches, serializes, refuses, calls, k) && serializes(batches[k])
        && !refuses(calls + k)
    ensures AllTaken(batches, serializes, refuses, calls, k + 1)
  {
  }

  lemma BatchesStep<T>(tuple: seq<T>, size: nat, start: nat)
    requires size > 0 && start < |tuple|
    ensures BatchesFrom(tuple, size, start)
         == [tuple[start..Min(start + size, |tuple|)]] + BatchesFrom(tuple, size, start + size)
  {
  }

  method PublishJSONBatches<T(!new)>(client: Client<T>, tuple: seq<T>, batchSize: int, serializes: seq<T> -> bool)
    returns (ok: bool, ghost k: nat)
    modifies client
    ensures StoppedAfter(BatchesOf(tuple, batchSize), serializes, client.refuses, old(client.calls), k)
    ensures client.sent == old(client.sent) + BatchesOf(tuple, batchSize)[..k]
    ensures ok <==> k == |BatchesOf(tuple, batchSize)|
  {
    k := 0;
    if |tuple| == 0 {
      return true, 0;
    }
    var size := batchSize;
    if size <= 0 {
      size := |tuple|;
    }
    ghost var batches, calls := BatchesOf(tuple, batchSize), client.calls;
    assert batches[0..] == batches && batches == BatchesFrom(tuple, size, 0);
    assert AllTaken(batches, serializes, client.refuses, calls, 0);
    var start := 0;
    hide AllTaken, BatchesOf;
    while start < |tuple|
      invariant 0 <= start && k <= |batches| && client.calls == calls + k
      invariant batches[k..] == BatchesFrom(tuple, size, start)
      invariant AllTaken(batches, serializes, client.refuses, calls, k)
      invariant client.sent == old(client.sent) + batches[..k]
      decreases |tuple| - start
    {
      var end := start + size;
      if end > |tuple| {
        end := |tuple|;
      }
      var batch := tuple[start..end];
      BatchesStep(tuple, size, start);
      NextBatch(batches, k, batch, BatchesFrom(tuple, size, start + size));
      hide BatchesFrom;
      if !serializes(batch) {
        return false, k;
      }
      var accepted := client.PublishJSONMessage(batch);
      if !accepted {
        return false, k;
      }
      OneMoreTaken(batches, serializes, client.refuses, calls, k);
      k := k + 1;
      start := start + size;
    }
    return true, k;
  }

  lemma NextBatch<T>(batches: seq<seq<T>>, k: nat, batch: seq<T>, rest: seq<seq<T>>)
    requires k <= |batches| && batches[k..] == [batch] + rest
    ensures k < |batches| && batches[k] == batch && batches[k + 1..] == rest
        && batches[..k + 1] == batches[..k] + [batch]
  {
    assert batches[k..][0] == batch && batches[k..][1..] == rest;
  }

  // ---------------------------------------------------------------- what the batches are

  function Flatten<T>(batches: seq<seq<T>>): seq<T> { if batches == [] then [] else batches[0] + Flatten(batches[1..]) }

  /** Batch `i` holds the elements from `i * size` on, as many as fit, and the batches reach to the end. */
  lemma {:induction false} BatchAt<T>(tuple: seq<T>, size: nat, start: nat, i: nat)
    requires size > 0 && i < |BatchesFrom(tuple, size, start)|
    ensures start + i * size < |tuple|
    ensures BatchesFrom(tuple, size, start)[i] == tuple[start + i * size..Min(start + i * size + size, |tuple|)]
    decreases i
  {
    if i > 0 {
      BatchAt(tuple, size, start + size, i - 1);
      Shifted(size, i);
    }
  }

  lemma Shifted(size: nat, i: nat)
    requires i > 0
    ensures size + (i - 1) * size == i * size
  {
  }

  lemma {:induction false} BatchCount<T>(tuple: seq<T>, size: nat, start: nat)
    requires size > 0
    ensures var n := |BatchesFrom(tuple, size, start)|;
      if start >= |tuple| then n == 0 else (n - 1) * size < |tuple| - start <= n * size
    decreases |tuple| - start
  {
    if start < |tuple| {
      BatchCount(tuple, size, start + size);
      var n := |BatchesFrom(tuple, size, start)|;
      if n > 1 {
        Shifted(size, n);
        Shifted(size, n - 1);
      }
    }
  }

  lemma CeilingIsTheCount(n: nat, length: nat, size: nat)
    requires size > 0 && length > 0 && (n - 1) * size < length <= n * size
    ensures n == (length + size - 1) / size
  {
    var q := (length + size - 1) / size;
    if q < n {
      Larger(q, n - 1, size);
    } else if q > n {
      Larger(n + 1, q, size);
    }
  }

  lemma Larger(a: int, b: int, size: nat)
    requires a <= b
    ensures a * size <= b * size
  {
    assert b * size - a * size == (b - a) * size;
  }

  lemma BatchIsFull<T>(tuple: seq<T>, size: nat, i: nat)
    requires size > 0 && i < |BatchesFrom(tuple, size, 0)|
    ensures i < |BatchesFrom(tuple, size, 0)| - 1 ==> |BatchesFrom(tuple, size, 0)[i]| == size
    ensures 0 < |BatchesFrom(tuple, size, 0)[i]| <= size
  {
    BatchAt(tuple, size, 0, i);
    Shifted(size, i + 1);
    if i < |BatchesFrom(tuple, size, 0)| - 1 {
      BatchAt(tuple, size, 0, i + 1);
    }
    hide BatchesFrom;
  }

  lemma OneBatch<T>(tuple: seq<T>)
    requires tuple != []
    ensures BatchesFrom(tuple, |tuple|, 0) == [tuple]
  {
    assert BatchesFrom(tuple, |tuple|, |tuple|) == [] && tuple[0..|tuple|] == tuple;
  }

  /** As many batches as the length divided by the size, rounded up; all but the last are full, and the last one is not
      empty. */
  lemma BatchSizes<T>(tuple: seq<T>, batchSize: int)
    requires tuple != []
    ensures batchSize <= 0 ==> BatchesOf(tuple, batchSize) == [tuple]
    ensures batchSize > 0 ==> var batches := BatchesOf(tuple, batchSize);
      && |batches| == (|tuple| + batchSize - 1) / batchSize
      && (forall i :: 0 <= i < |batches| - 1 ==> |batches[i]| == batchSize)
      && 0 < |batches[|batches| - 1]| <= batchSize
  {
    if batchSize <= 0 {
      OneBatch(tuple);
    } else {
      var batches := BatchesOf(tuple, batchSize);
      BatchCount(tuple, batchSize, 0);
      CeilingIsTheCount(|batches|, |tuple|, batchSize);
      hide BatchesFrom;
      forall i | 0 <= i < |batches| - 1 ensures |batches[i]| == batchSize {
        BatchIsFull(tuple, batchSize, i);
      }
      BatchIsFull(tuple, batchSize, |batches| - 1);
    }
  }

  lemma {:induction false} BatchesConcatenate<T>(tuple: seq<T>, size: nat, start: nat)
    requires size > 0 && start <= |tuple|
    ensures Flatten(BatchesFrom(tuple, size, start)) == tuple[start..]
    decreases |tuple| - start
  {
    if start < |tuple| {
      if start + size <= |tuple| {
        BatchesConcatenate(tuple, size, start + size);
      }
      assert BatchesFrom(tuple, size, start)[1..] == BatchesFrom(tuple, size, start + size);
    }
  }

  /** The batches are the input, in order. */
  lemma BatchesAreTheInput<T>(tuple: seq<T>, batchSize: int)
    ensures Flatten(BatchesOf(tuple, batchSize)) == tuple
  {
    if tuple != [] {
      BatchesConcatenate(tuple, EffectiveSize(batchSize, |tuple|), 0);
      assert tuple[0..] == tuple;
    }
  }

  lemma {:induction false} FlattenConcat<T>(a: seq<seq<T>>, b: seq<seq<T>>)
    ensures Flatten(a + b) == Flatten(a) + Flatten(b)
  {
    if a == [] {
      assert a + b == b;
    } else {
      FlattenConcat(a[1..], b);
      assert (a + b)[1..] == a[1..] + b && (a + b)[0] == a[0];
      assert Flatten(a + b) == a[0] + Flatten(a[1..] + b);
      hide Flatten;
      assert a[0] + (Flatten(a[1..]) + Flatten(b)) == (a[0] + Flatten(a[1..])) + Flatten(b);
    }
  }

  /** Wherever publishing stops, what went out is a prefix of the input made of whole batches. */
  lemma WholeBatchPrefixIsSent<T>(tuple: seq<T>, batchSize: int, k: nat)
    requires k <= |BatchesOf(tuple, batchSize)|
    ensures Flatten(BatchesOf(tuple, batchSize)[..k]) <= tuple
    ensures batchSize > 0 ==> |Flatten(BatchesOf(tuple, batchSize)[..k])| == Min(k * batchSize, |tuple|)
  {
    var batches := BatchesOf(tuple, batchSize);
    assert batches == batches[..k] + batches[k..];
    FlattenConcat(batches[..k], batches[k..]);
    BatchesAreTheInput(tuple, batchSize);
    if batchSize > 0 && tuple != [] {
      PrefixLength(tuple, batchSize, k);
    }
  }

  lemma {:induction false} PrefixLength<T>(tuple: seq<T>, size: nat, k: nat)
    requires size > 0 && k <= |BatchesFrom(tuple, size, 0)|
    ensures |Flatten(BatchesFrom(tuple, size, 0)[..k])| == Min(k * size, |tuple|)
    decreases k
  {
    var batches := BatchesFrom(tuple, size, 0);
    if k > 0 {
      PrefixLength(tuple, size, k - 1);
      BatchAt(tuple, size, 0, k - 1);
      assert batches[..k] == batches[..k - 1] + [batches[k - 1]];
      FlattenConcat(batches[..k - 1], [batches[k - 1]]);
      assert Flatten([batches[k - 1]]) == batches[k - 1];
      Shifted(size, k);
    }
  }
}
