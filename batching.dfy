/**
 * Partition of a request list into consecutive batches no larger than
 * the store's per-call cap (`dynamodbMaxItemsPerBatch`). `Batches` is the
 * reference definition: chunks taken from the front in order. The
 * index-arithmetic loops of the write path are proved equal to it.
 */
module Batching {

  /** The store's cap on requests per batch write. */
  const MaxItemsPerBatch: nat := 25

  /** The concatenation of a list of batches, in order. */
  function Flatten<T>(bs: seq<seq<T>>): seq<T> {
    if bs == [] then [] else Flatten(bs[..|bs| - 1]) + bs[|bs| - 1]
  }

  /** Consecutive chunks of `s`, each full except possibly the last. */
  function Batches<T>(s: seq<T>): (bs: seq<seq<T>>)
    ensures |bs| == (|s| + MaxItemsPerBatch - 1) / MaxItemsPerBatch
    ensures forall i | 0 <= i < |bs| :: 0 < |bs[i]| <= MaxItemsPerBatch
    decreases |s|
  {
    if |s| <= MaxItemsPerBatch then (if s == [] then [] else [s])
    else [s[..MaxItemsPerBatch]] + Batches(s[MaxItemsPerBatch..])
  }

  lemma {:induction false} FlattenAppend<T>(a: seq<seq<T>>, b: seq<seq<T>>)
    ensures Flatten(a + b) == Flatten(a) + Flatten(b)
    decreases |b|
  {
    if b == [] {
      assert a + b == a;
    } else {
      var init, last := b[..|b| - 1], b[|b| - 1];
      assert (a + b)[..|a + b| - 1] == a + init && (a + b)[|a + b| - 1] == last;
      assert Flatten(a + b) == Flatten(a + init) + last;
      FlattenAppend(a, init);
      assert Flatten(b) == Flatten(init) + last;
    }
  }

  /** No request is dropped, duplicated or reordered by batching. */
  lemma {:induction false} FlattenBatches<T>(s: seq<T>)
    ensures Flatten(Batches(s)) == s
    decreases |s|
  {
    if |s| <= MaxItemsPerBatch {
      if s != [] {
        assert Flatten([s]) == Flatten([]) + s;
      }
    } else {
      var head, tail := s[..MaxItemsPerBatch], s[MaxItemsPerBatch..];
      FlattenBatches(tail);
      FlattenAppend([head], Batches(tail));
      assert Flatten([head]) == Flatten([]) + head;
      assert head + tail == s;
    }
  }

  /**
   * Appending one batch's worth of requests to a list whose length is a
   * multiple of the cap appends exactly one batch: the step the batching
   * loops take on each round.
   */
  lemma {:induction false} BatchesAppend<T>(a: seq<T>, b: seq<T>)
    requires |a| % MaxItemsPerBatch == 0
    requires 0 < |b| <= MaxItemsPerBatch
    ensures Batches(a + b) == Batches(a) + [b]
    decreases |a|
  {
    if a == [] {
      assert a + b == b;
    } else {
      var s := a + b;
      assert |a| >= MaxItemsPerBatch;
      assert s[..MaxItemsPerBatch] == a[..MaxItemsPerBatch];
      assert s[MaxItemsPerBatch..] == a[MaxItemsPerBatch..] + b;
      BatchesAppend(a[MaxItemsPerBatch..], b);
      if |a| == MaxItemsPerBatch {
        assert a[MaxItemsPerBatch..] == [];
        assert Batches(a) == [a];
      }
    }
  }

  /**
   * One round of a batching loop: the next chunk of the request list,
   * taken at a batch boundary, is the next batch.
   */
  lemma BatchStep<T>(all: seq<T>, start: nat, chunk: seq<T>)
    requires start % MaxItemsPerBatch == 0 && start + |chunk| <= |all|
    requires 0 < |chunk| <= MaxItemsPerBatch && chunk == all[start..start + |chunk|]
    ensures Batches(all[..start]) + [chunk] == Batches(all[..start + |chunk|])
  {
    assert all[..start] + chunk == all[..start + |chunk|];
    BatchesAppend(all[..start], chunk);
  }

  /** Batch boundaries at 0, 25 and 26 items. */
  lemma BatchesAtBoundaries<T>(s: seq<T>)
    ensures |s| == 0 ==> Batches(s) == []
    ensures |s| == MaxItemsPerBatch ==> Batches(s) == [s]
    ensures |s| == MaxItemsPerBatch + 1 ==> Batches(s) == [s[..MaxItemsPerBatch], [s[MaxItemsPerBatch]]]
  {
    if |s| == MaxItemsPerBatch + 1 {
      assert s[MaxItemsPerBatch..] == [s[MaxItemsPerBatch]];
    }
  }
}
