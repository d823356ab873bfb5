/**
 * Fixed-size batching, as the sync job steps over `range(0, len(xs), BATCH_SIZE)`
 * and takes `xs[i:i + BATCH_SIZE]` for every read and every write.
 */
module Batching {

  /** BATCH_SIZE of the sync job. */
  const BatchSize: nat := 100

  function Min(a: int, b: int): int { if a <= b then a else b }

  /** Ceiling of `n / d`. */
  function CeilDiv(n: nat, d: nat): nat
    requires d > 0
  {
    (n + d - 1) / d
  }

  /** The batches the job visits when its loop index starts at `i`. */
  function BatchesFrom<T>(s: seq<T>, i: nat): seq<seq<T>>
    decreases |s| - i
  {
    if i >= |s| then [] else [s[i..Min(i + BatchSize, |s|)]] + BatchesFrom(s, i + BatchSize)
  }

  /** All batches of `s`, in order. */
  function Batches<T>(s: seq<T>): seq<seq<T>>
  {
    BatchesFrom(s, 0)
  }

  /** Concatenation of a sequence of batches. */
  function Flatten<T>(bs: seq<seq<T>>): seq<T>
  {
    if bs == [] then [] else bs[0] + Flatten(bs[1..])
  }

  lemma {:induction false} BatchesFromFacts<T>(s: seq<T>, i: nat)
    requires i <= |s|
    ensures Flatten(BatchesFrom(s, i)) == s[i..]
    ensures |BatchesFrom(s, i)| == CeilDiv(|s| - i, BatchSize)
    ensures forall b :: b in BatchesFrom(s, i) ==> 0 < |b| <= BatchSize
    decreases |s| - i
  {
    if i < |s| {
      var j := Min(i + BatchSize, |s|);
      var tail := BatchesFrom(s, i + BatchSize);
      assert BatchesFrom(s, i) == [s[i..j]] + tail;
      if i + BatchSize <= |s| {
        BatchesFromFacts(s, i + BatchSize);
        assert s[i..] == s[i..j] + s[i + BatchSize..];
      } else {
        assert tail == [];
      }
      assert ([s[i..j]] + tail)[1..] == tail;
    }
  }

  /**
   * The batches of `s` cover `s` exactly, in order and without overlap; there are
   * ceil(|s| / 100) of them and each holds between 1 and 100 elements.
   */
  lemma BatchesPartition<T>(s: seq<T>)
    ensures Flatten(Batches(s)) == s
    ensures |Batches(s)| == CeilDiv(|s|, BatchSize)
    ensures forall b :: b in Batches(s) ==> 0 < |b| <= BatchSize
  {
    BatchesFromFacts(s, 0);
  }

  /** Flattening one more batch appends it. */
  lemma FlattenSnoc<T>(bs: seq<seq<T>>, j: nat)
    requires j < |bs|
    ensures Flatten(bs[..j + 1]) == Flatten(bs[..j]) + bs[j]
  {
    assert bs[..j + 1] == bs[..j] + [bs[j]];
    FlattenAppend(bs[..j], [bs[j]]);
    assert Flatten([bs[j]]) == bs[j] + Flatten([]);
  }

  /** Flattening distributes over concatenation. */
  lemma {:induction false} FlattenAppend<T>(a: seq<seq<T>>, b: seq<seq<T>>)
    ensures Flatten(a + b) == Flatten(a) + Flatten(b)
  {
    if a != [] {
      assert (a + b)[1..] == a[1..] + b;
      FlattenAppend(a[1..], b);
    } else {
      assert a + b == b;
    }
  }

  /** An element of one batch is an element of the flattened sequence. */
  lemma {:induction false} InFlatten<T>(bs: seq<seq<T>>, j: nat, x: T)
    requires j < |bs| && x in bs[j]
    ensures x in Flatten(bs)
    decreases j
  {
    if j > 0 {
      InFlatten(bs[1..], j - 1, x);
    }
  }
}
