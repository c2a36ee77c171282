/** Splitting the candidate texts into embedding batches (`chunk`). */
module Batching {
  import opened Arith

  /** The concatenation of a list of chunks, joined from the front. */
  function Flatten<T>(chunks: seq<seq<T>>): seq<T>
    decreases |chunks|
  {
    if |chunks| == 0 then []
    else Flatten(chunks[..|chunks| - 1]) + chunks[|chunks| - 1]
  }

  /** The slices `arr[i .. i + size]` for i = 0, size, 2 * size, …, with the
      end of each slice clamped to the length of `arr` as `Array.slice` does.
      An empty input gives no chunks at any size; on a non-empty input a size
      of zero or less never ends the loop in the source, so it is not
      admitted there. */
  method Chunk<T>(arr: seq<T>, size: int) returns (out: seq<seq<T>>)
    requires size > 0 || |arr| == 0
    ensures Flatten(out) == arr
    ensures forall k :: 0 <= k < |out| ==> 0 < |out[k]| <= size
    ensures forall k :: 0 <= k < |out| - 1 ==> |out[k]| == size
  {
    out := [];
    var i := 0;
    while i < |arr|
      invariant 0 <= i
      invariant Flatten(out) == arr[..Min(i, |arr|)]
      invariant forall k :: 0 <= k < |out| ==> 0 < |out[k]| <= size
      invariant forall k :: 0 <= k < |out| - 1 ==> |out[k]| == size
      invariant i < |arr| ==> forall k :: 0 <= k < |out| ==> |out[k]| == size
      invariant |arr| == 0 ==> |out| == 0
      decreases |arr| - i
    {
      var part := arr[i..Min(i + size, |arr|)];
      ghost var before := out;
      out := out + [part];
      assert out[..|out| - 1] == before;
      assert arr[..Min(i + size, |arr|)] == arr[..i] + part;
      i := i + size;
    }
  }

  /** A prefix of the chunk list flattens to a prefix of the whole. */
  lemma {:induction false} FlattenPrefix<T>(chunks: seq<seq<T>>, j: nat)
    requires j <= |chunks|
    ensures Flatten(chunks[..j]) <= Flatten(chunks)
    decreases |chunks| - j
  {
    if j < |chunks| {
      var c := chunks[..j + 1];
      assert c[..j] == chunks[..j];
      assert Flatten(c) == Flatten(chunks[..j]) + chunks[j];
      FlattenPrefix(chunks, j + 1);
    } else {
      assert chunks[..j] == chunks;
    }
  }

  /** One more chunk extends the flattened prefix by that chunk. */
  lemma {:induction false} FlattenStep<T>(chunks: seq<seq<T>>, j: nat)
    requires j < |chunks|
    ensures Flatten(chunks[..j + 1]) == Flatten(chunks[..j]) + chunks[j]
  {
    assert chunks[..j + 1][..j] == chunks[..j];
  }
}
