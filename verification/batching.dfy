/** `_batch` (sem_analysis.py): consecutive chunks of a list. */
module Batching {

  /** The number of records the classification sends in one request. */
  const ChunkSize: nat := 15

  function Min(a: int, b: int): int {
    if a <= b then a else b
  }

  /**
   * `_batch(items, size)`: the slices `items[i:i+size]` for `i` in `range(0, len(items), size)`.
   * A size of 0 makes `range` raise, so it is excluded.
   * Every chunk is non-empty and holds at most `size` items; all but the last hold exactly `size`.
   */
  function Batch<T>(items: seq<T>, size: nat): (chunks: seq<seq<T>>)
    requires size > 0
    ensures forall k :: 0 <= k < |chunks| ==> 0 < |chunks[k]| <= size
    ensures forall k :: 0 <= k < |chunks| - 1 ==> |chunks[k]| == size
    decreases |items|
  {
    if items == [] then []
    else if |items| <= size then [items]
    else [items[..size]] + Batch(items[size..], size)
  }

  /** The items of the chunks, in order. */
  function Flatten<T>(chunks: seq<seq<T>>): seq<T> {
    if chunks == [] then [] else chunks[0] + Flatten(chunks[1..])
  }

  /** Flattening one more chunk appends its items. */
  lemma {:induction false} FlattenSnoc<T>(chunks: seq<seq<T>>, last: seq<T>)
    ensures Flatten(chunks + [last]) == Flatten(chunks) + last
  {
    if chunks != [] {
      assert (chunks + [last])[1..] == chunks[1..] + [last];
      FlattenSnoc(chunks[1..], last);
    } else {
      assert [] + [last] == [last];
      assert [last][1..] == [];
    }
  }

  /** `FlattenSnoc` for a list of chunks given element by element. */
  lemma FlattenExtended<T>(all: seq<seq<T>>, chunks: seq<seq<T>>, last: seq<T>)
    requires |all| == |chunks| + 1 && all[|chunks|] == last
    requires forall i :: 0 <= i < |chunks| ==> all[i] == chunks[i]
    ensures Flatten(all) == Flatten(chunks) + last
  {
    assert all == chunks + [last];
    FlattenSnoc(chunks, last);
  }

  lemma MulSucc(j: int, size: int)
    ensures (j + 1) * size == j * size + size
  {
  }

  /** Chunk `k` is the slice of at most `size` items starting at `k * size`. */
  lemma {:induction false} BatchChunk<T>(items: seq<T>, size: nat, k: nat)
    requires size > 0 && k < |Batch(items, size)|
    ensures k * size < |items|
    ensures Batch(items, size)[k] == items[k * size..Min((k + 1) * size, |items|)]
    decreases |items|
  {
    MulSucc(k, size);
    if k > 0 {
      var rest := items[size..];
      var j := k - 1;
      assert Batch(items, size) == [items[..size]] + Batch(rest, size);
      BatchChunk(rest, size, j);
      MulSucc(j, size);
      var lo, hi := j * size, Min((j + 1) * size, |rest|);
      assert lo + size == k * size && hi + size == Min((k + 1) * size, |items|);
      SliceShift(items, size, lo, hi);
    }
  }

  lemma SliceShift<T>(items: seq<T>, size: nat, lo: nat, hi: nat)
    requires size <= |items| && lo <= hi <= |items| - size
    ensures items[size..][lo..hi] == items[lo + size..hi + size]
  {
  }

  /** The chunks reach the end of the list: with the lemma above, there are `ceil(|items| / size)`. */
  lemma {:induction false} BatchCovers<T>(items: seq<T>, size: nat)
    requires size > 0
    ensures |items| <= |Batch(items, size)| * size
    decreases |items|
  {
    if |items| > size {
      BatchCovers(items[size..], size);
      MulSucc(|Batch(items[size..], size)|, size);
    } else {
      MulSucc(0, size);
    }
  }

  /** Round trip: concatenating the chunks gives the list back. */
  lemma {:induction false} BatchFlatten<T>(items: seq<T>, size: nat)
    requires size > 0
    ensures Flatten(Batch(items, size)) == items
    decreases |items|
  {
    if |items| > size {
      BatchFlatten(items[size..], size);
      assert items == items[..size] + items[size..];
    }
  }
}
