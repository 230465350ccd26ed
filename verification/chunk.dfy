/** The fixed-size chunking comprehension of `chunk_transactions`: consecutive slices of `n` rows. */
module Chunk {
  import opened Wrappers

  datatype ChunkError = ZeroStep   // a range with step 0 raises ValueError

  function Min(a: int, b: int): int { if a <= b then a else b }

  /** How many chunk starts there are for a positive step n: the ceiling of len / n. */
  function StepCount(len: nat, n: nat): nat
    requires n > 0
  {
    (len + n - 1) / n
  }

  /** `DEFAULT_N_MTXS`: the default chunk size. */
  const DefaultChunkSize: int := 5

  /**
   * The slices of `n` consecutive rows that `chunk_transactions` builds: the k-th starts at row k * n;
   * a negative step gives an empty range and a zero step raises.
   */
  function Chunks<T>(rows: seq<T>, n: int := DefaultChunkSize): (r: Result<seq<seq<T>>, ChunkError>)
    ensures r.Err? <==> n == 0
    ensures n < 0 ==> r == Ok([])
    ensures n > 0 ==> r.Ok? && |r.value| == StepCount(|rows|, n)
  {
    if n == 0 then Err(ZeroStep)
    else if n < 0 then Ok([])
    else
      var count := StepCount(|rows|, n);
      Ok(seq(count, k requires 0 <= k < count =>
        StartInRange(|rows|, n, k);
        rows[k * n .. Min(k * n + n, |rows|)]))
  }

  /** Every chunk index below the count starts inside the rows. */
  lemma StartInRange(len: nat, n: nat, k: int)
    requires n > 0 && 0 <= k < StepCount(len, n)
    ensures 0 <= k * n < len
  {
    var count := StepCount(len, n);
    assert count * n <= len + n - 1;
    MulMono(k, count - 1, n);
    assert (count - 1) * n == count * n - n;
  }

  lemma MulMono(a: int, b: int, n: nat)
    requires 0 <= a <= b
    ensures 0 <= a * n <= b * n
  {
    assert b * n - a * n == (b - a) * n;
  }

  /** The rows of a list of chunks, in order. */
  function Flatten<T>(chunks: seq<seq<T>>): seq<T>
  {
    if chunks == [] then [] else Flatten(chunks[..|chunks| - 1]) + chunks[|chunks| - 1]
  }

  /** Concatenating the chunks in order gives back the rows. */
  lemma ChunksConcatenate<T>(rows: seq<T>, n: int)
    requires n > 0
    ensures Flatten(Chunks(rows, n).value) == rows
  {
    var chunks := Chunks(rows, n).value;
    var count := |chunks|;
    PrefixFlatten(rows, n, count);
    assert chunks[..count] == chunks;
    CountCovers(|rows|, n);
    assert Min(count * n, |rows|) == |rows|;
  }

  /** The chunk count is the ceiling of len / n: the least count whose chunks reach the end. */
  lemma ChunkCountIsCeiling(len: nat, n: int)
    requires n > 0
    ensures StepCount(len, n) * n >= len
    ensures StepCount(len, n) == 0 || (StepCount(len, n) - 1) * n < len
  {
    CountCovers(len, n);
    if StepCount(len, n) > 0 {
      StartInRange(len, n, StepCount(len, n) - 1);
    }
  }

  /** The chunks reach the end of the rows. */
  lemma CountCovers(len: nat, n: nat)
    requires n > 0
    ensures StepCount(len, n) * n >= len
  {
    var q, r := (len + n - 1) / n, (len + n - 1) % n;
    assert q * n + r == len + n - 1;
    assert r < n;
  }

  lemma {:induction false} PrefixFlatten<T>(rows: seq<T>, n: int, j: nat)
    requires n > 0 && j <= |Chunks(rows, n).value|
    ensures j * n >= 0
    ensures Flatten(Chunks(rows, n).value[..j]) == rows[..Min(j * n, |rows|)]
  {
    var chunks := Chunks(rows, n).value;
    if j == 0 {
      assert chunks[..0] == [];
    } else {
      PrefixFlatten(rows, n, j - 1);
      StartInRange(|rows|, n, j - 1);
      assert chunks[..j][..j - 1] == chunks[..j - 1];
      assert (j - 1) * n + n == j * n;
      assert chunks[j - 1] == rows[(j - 1) * n .. Min(j * n, |rows|)];
      assert rows[..(j - 1) * n] + rows[(j - 1) * n .. Min(j * n, |rows|)] == rows[..Min(j * n, |rows|)];
    }
  }

  /** Every chunk but the last holds exactly n rows; the last holds between 1 and n. */
  lemma ChunkSizes<T>(rows: seq<T>, n: int)
    requires n > 0
    ensures var chunks := Chunks(rows, n).value;
      (forall k :: 0 <= k < |chunks| - 1 ==> |chunks[k]| == n) &&
      (|chunks| > 0 ==> 1 <= |chunks[|chunks| - 1]| <= n)
  {
    var chunks := Chunks(rows, n).value;
    var count := |chunks|;
    forall k | 0 <= k < count - 1
      ensures |chunks[k]| == n
    {
      StartInRange(|rows|, n, k + 1);
      assert (k + 1) * n == k * n + n;
    }
    if count > 0 {
      StartInRange(|rows|, n, count - 1);
    }
  }

  /** No chunk is empty, and there are no chunks exactly when there are no rows. */
  lemma NoEmptyChunk<T>(rows: seq<T>, n: int)
    requires n > 0
    ensures forall k :: 0 <= k < |Chunks(rows, n).value| ==> |Chunks(rows, n).value[k]| >= 1
    ensures Chunks(rows, n).value == [] <==> rows == []
  {
    var chunks := Chunks(rows, n).value;
    forall k | 0 <= k < |chunks|
      ensures |chunks[k]| >= 1
    {
      StartInRange(|rows|, n, k);
    }
    if rows != [] {
      assert StepCount(|rows|, n) >= 1;
    }
  }
}
