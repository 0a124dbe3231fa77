/**
  Splitting an array into consecutive chunks.
 */
module Chunk {

  function Min(a: int, b: int): int {
    if a <= b then a else b
  }

  /** A slice that stops at the end of the array. */
  function Slice<T>(arr: seq<T>, start: nat, end: nat): seq<T>
    requires start <= |arr| && start <= end
  {
    arr[start..Min(end, |arr|)]
  }

  /** Whether a chunk begins at an index; a remainder by zero is not a number, which counts as none. */
  predicate StartsChunk(index: nat, chunkSize: nat) {
    chunkSize == 0 || index % chunkSize == 0
  }

  /** The accumulated chunks once the first `n` elements have been visited. */
  function ChunksUpTo<T>(arr: seq<T>, chunkSize: nat, n: nat): seq<seq<T>>
    requires n <= |arr|
  {
    if n == 0 then []
    else
      var prevVal := ChunksUpTo(arr, chunkSize, n - 1);
      if StartsChunk(n - 1, chunkSize) then prevVal + [Slice(arr, n - 1, n - 1 + chunkSize)] else prevVal
  }

  function ChunksOf<T>(arr: seq<T>, chunkSize: nat): seq<seq<T>> {
    ChunksUpTo(arr, chunkSize, |arr|)
  }

  function Concat<T>(chunks: seq<seq<T>>): seq<T> {
    if chunks == [] then [] else Concat(chunks[..|chunks| - 1]) + chunks[|chunks| - 1]
  }

  /** Number of chunks that begin before an index. */
  function Started(n: nat, chunkSize: nat): nat
    requires chunkSize > 0
  {
    (n + chunkSize - 1) / chunkSize
  }

  lemma StartedStep(n: nat, chunkSize: nat)
    requires chunkSize > 0 && n > 0
    ensures StartsChunk(n - 1, chunkSize)
      ==> Started(n, chunkSize) == Started(n - 1, chunkSize) + 1 && Started(n - 1, chunkSize) * chunkSize == n - 1
    ensures !StartsChunk(n - 1, chunkSize) ==> Started(n, chunkSize) == Started(n - 1, chunkSize)
  {
    hide Started;
    var q, m := (n - 1) / chunkSize, (n - 1) % chunkSize;
    assert n - 1 == q * chunkSize + m;
    StartedAt(n - 1, chunkSize, q, m);
    if m + 1 < chunkSize {
      StartedAt(n, chunkSize, q, m + 1);
    } else {
      assert (q + 1) * chunkSize == q * chunkSize + chunkSize;
      StartedAt(n, chunkSize, q + 1, 0);
    }
  }

  lemma StartedAt(n: nat, chunkSize: nat, q: nat, m: nat)
    requires m < chunkSize && n == q * chunkSize + m
    ensures Started(n, chunkSize) == if m == 0 then q else q + 1
  {
    assert (q + 1) * chunkSize == q * chunkSize + chunkSize;
    if m == 0 {
      Quotient(n + chunkSize - 1, chunkSize, q, chunkSize - 1);
    } else {
      Quotient(n + chunkSize - 1, chunkSize, q + 1, m - 1);
    }
  }

  lemma Quotient(n: nat, d: nat, q: nat, m: nat)
    requires d > 0 && n == q * d + m && m < d
    ensures n / d == q
  {
    var p := n / d;
    assert n == p * d + n % d;
    assert p < q ==> (p + 1) * d <= q * d;
    assert q < p ==> (q + 1) * d <= p * d;
  }

  /** Every chunk begins at its multiple of the chunk size and ends there or at the end of the array. */
  lemma {:induction false} ChunksShape<T>(arr: seq<T>, chunkSize: nat, n: nat)
    requires chunkSize > 0 && n <= |arr|
    ensures |ChunksUpTo(arr, chunkSize, n)| == Started(n, chunkSize)
    ensures forall j :: 0 <= j < Started(n, chunkSize) ==>
      0 <= j * chunkSize < n
      && ChunksUpTo(arr, chunkSize, n)[j] == arr[j * chunkSize..Min(j * chunkSize + chunkSize, |arr|)]
  {
    if n > 0 {
      ChunksShape(arr, chunkSize, n - 1);
      StartedStep(n, chunkSize);
    } else {
      Quotient(chunkSize - 1, chunkSize, 0, chunkSize - 1);
    }
  }

  lemma JoinSlices<T>(arr: seq<T>, a: nat, b: nat)
    requires a <= b <= |arr|
    ensures arr[..a] + arr[a..b] == arr[..b]
  {
  }

  /** The index at which chunk `j` begins. */
  function Cut(j: nat, chunkSize: nat): nat {
    j * chunkSize
  }

  /** The chunks are the slices between consecutive cuts. */
  ghost predicate IsCut<T>(arr: seq<T>, chunkSize: nat, chunks: seq<seq<T>>) {
    forall j :: 0 <= j < |chunks| ==>
      Cut(j, chunkSize) < |arr| && chunks[j] == arr[Cut(j, chunkSize)..Min(Cut(j, chunkSize) + chunkSize, |arr|)]
  }

  /** Cutting at the multiples of the chunk size and joining again gives the array up to the last cut. */
  lemma {:induction false} ConcatOfCuts<T>(arr: seq<T>, chunkSize: nat, chunks: seq<seq<T>>)
    requires chunkSize > 0 && IsCut(arr, chunkSize, chunks)
    ensures Concat(chunks) == arr[..Min(Cut(|chunks|, chunkSize), |arr|)]
  {
    hide Cut;
    if chunks != [] {
      var last := |chunks| - 1;
      ConcatOfCuts(arr, chunkSize, chunks[..last]);
      NextCut(last, chunkSize);
      JoinSlices(arr, Cut(last, chunkSize), Min(Cut(last, chunkSize) + chunkSize, |arr|));
    } else {
      NoCut(chunkSize);
    }
  }

  lemma NextCut(j: nat, chunkSize: nat)
    ensures Cut(j + 1, chunkSize) == Cut(j, chunkSize) + chunkSize
  {
  }

  lemma NoCut(chunkSize: nat)
    ensures Cut(0, chunkSize) == 0
  {
  }

  lemma StartedCoversAll(n: nat, chunkSize: nat)
    requires chunkSize > 0
    ensures n <= Started(n, chunkSize) * chunkSize < n + chunkSize
  {
    var q := Started(n, chunkSize);
    assert n + chunkSize - 1 == q * chunkSize + (n + chunkSize - 1) % chunkSize;
  }

  /** With no chunk size, every element starts an empty chunk. */
  lemma {:induction false} NoSizeNoContent<T>(arr: seq<T>, n: nat)
    requires n <= |arr|
    ensures |ChunksUpTo(arr, 0, n)| == n && Concat(ChunksUpTo(arr, 0, n)) == []
  {
    if n > 0 {
      NoSizeNoContent(arr, n - 1);
      var chunks := ChunksUpTo(arr, 0, n);
      assert chunks[..n - 1] == ChunksUpTo(arr, 0, n - 1);
    }
  }

  /** Joining the chunks gives back the array if and only if the chunk size is positive or there is nothing to split. */
  lemma ConcatOfChunksIff<T>(arr: seq<T>, chunkSize: nat)
    ensures Concat(ChunksOf(arr, chunkSize)) == arr <==> chunkSize > 0 || arr == []
  {
    if chunkSize > 0 {
      ChunksShape(arr, chunkSize, |arr|);
      ConcatOfCuts(arr, chunkSize, ChunksOf(arr, chunkSize));
      StartedCoversAll(|arr|, chunkSize);
    } else {
      NoSizeNoContent(arr, |arr|);
    }
  }

  /** There are ceil(n / size) chunks; all but the last are full, and the last is not empty. */
  lemma ChunkSizes<T>(arr: seq<T>, chunkSize: nat)
    requires chunkSize > 0
    ensures var chunks := ChunksOf(arr, chunkSize);
      && |chunks| == (|arr| + chunkSize - 1) / chunkSize
      && (forall j :: 0 <= j < |chunks| - 1 ==> |chunks[j]| == chunkSize)
      && (chunks != [] ==> 0 < |chunks[|chunks| - 1]| <= chunkSize)
  {
    var chunks := ChunksOf(arr, chunkSize);
    ChunksShape(arr, chunkSize, |arr|);
    forall j | 0 <= j < |chunks| - 1 ensures |chunks[j]| == chunkSize {
      assert (j + 1) * chunkSize == j * chunkSize + chunkSize;
      assert (j + 1) * chunkSize < |arr|;
    }
  }

  /** Chunks of two arrays of the same length stay aligned: equal positions hold equal indices. */
  lemma ChunksAlign<S, T>(a: seq<S>, b: seq<T>, chunkSize: nat)
    requires chunkSize > 0 && |a| == |b|
    ensures |ChunksOf(a, chunkSize)| == |ChunksOf(b, chunkSize)|
    ensures forall j, k :: 0 <= j < |ChunksOf(a, chunkSize)| && 0 <= k < |ChunksOf(a, chunkSize)[j]| ==>
      && k < |ChunksOf(b, chunkSize)[j]|
      && 0 <= j * chunkSize + k < |a|
      && ChunksOf(a, chunkSize)[j][k] == a[j * chunkSize + k]
      && ChunksOf(b, chunkSize)[j][k] == b[j * chunkSize + k]
  {
    ChunksShape(a, chunkSize, |a|);
    ChunksShape(b, chunkSize, |b|);
  }
}
