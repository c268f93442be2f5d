/**
 * The pieces of randomize_playlist_unified that do not touch the tool's
 * state: CPython's in-place Fisher-Yates shuffle, driven by a sequence of
 * random draws, and the split of the track ids into batches of 100.
 */
module Randomize {
  import opened Pagination

  /** `TIDAL_BATCH_SIZE` */
  const BatchSize: nat := 100

  /** The k-th random draw; draws not supplied are 0. */
  function Draw(draws: seq<nat>, k: int): nat {
    if 0 <= k < |draws| then draws[k] else 0
  }

  /** `randbelow(i + 1)` for position i of a list of length n. */
  function Pick(draws: seq<nat>, n: int, i: nat): (j: nat)
    ensures j <= i
  {
    Draw(draws, n - 1 - i) % (i + 1)
  }

  function Swap<T>(s: seq<T>, i: nat, j: nat): (r: seq<T>)
    requires i < |s| && j < |s|
    ensures |r| == |s|
  {
    s[i := s[j]][j := s[i]]
  }

  lemma SwapPermutes<T>(s: seq<T>, i: nat, j: nat)
    requires i < |s| && j < |s|
    ensures multiset(Swap(s, i, j)) == multiset(s)
  {
  }

  /**
   * `for i in reversed(range(1, n)): j = randbelow(i + 1); x[i], x[j] = x[j], x[i]`,
   * from position i down; the draw for position i is number n - 1 - i.
   */
  function ShuffleDown<T>(s: seq<T>, i: int, draws: seq<nat>): seq<T>
    decreases i
  {
    if i <= 0 || i >= |s| then s
    else ShuffleDown(Swap(s, i, Pick(draws, |s|, i)), i - 1, draws)
  }

  function Shuffled<T>(s: seq<T>, draws: seq<nat>): seq<T> {
    ShuffleDown(s, |s| - 1, draws)
  }

  /** Shuffling only rearranges: every element stays, as often as before. */
  lemma {:induction false} ShuffleDownPermutes<T>(s: seq<T>, i: int, draws: seq<nat>)
    ensures |ShuffleDown(s, i, draws)| == |s|
    ensures multiset(ShuffleDown(s, i, draws)) == multiset(s)
    decreases i
  {
    if 0 < i < |s| {
      SwapPermutes(s, i, Pick(draws, |s|, i));
      ShuffleDownPermutes(Swap(s, i, Pick(draws, |s|, i)), i - 1, draws);
    }
  }

  lemma ShuffledPermutes<T>(s: seq<T>, draws: seq<nat>)
    ensures |Shuffled(s, draws)| == |s| && multiset(Shuffled(s, draws)) == multiset(s)
  {
    ShuffleDownPermutes(s, |s| - 1, draws);
  }

  /** random.shuffle on the list, in place. */
  method Shuffle<T>(a: array<T>, draws: seq<nat>)
    modifies a
    ensures a[..] == Shuffled(old(a[..]), draws)
  {
    var i := a.Length - 1;
    while i >= 1
      invariant i < a.Length
      invariant ShuffleDown(a[..], i, draws) == Shuffled(old(a[..]), draws)
      decreases i
    {
      var j := Pick(draws, a.Length, i);
      ghost var before := a[..];
      assert ShuffleDown(before, i, draws) == ShuffleDown(Swap(before, i, j), i - 1, draws);
      a[i], a[j] := a[j], a[i];
      SwapIsArraySwap(before, a[..], i, j);
      i := i - 1;
    }
  }

  lemma SwapIsArraySwap<T>(before: seq<T>, after: seq<T>, i: nat, j: nat)
    requires i < |before| && j < |before| && |after| == |before|
    requires after[i] == before[j] && after[j] == before[i]
    requires forall k :: 0 <= k < |before| && k != i && k != j ==> after[k] == before[k]
    ensures after == Swap(before, i, j)
  {
  }

  /** `[ids[i:i+100] for i in range(0, len(ids), 100)]` */
  function Batches<T>(ids: seq<T>): (bs: seq<seq<T>>)
    decreases |ids|
  {
    if |ids| == 0 then [] else [ids[..Min(BatchSize, |ids|)]] + Batches(ids[Min(BatchSize, |ids|)..])
  }

  function Flatten<T>(bs: seq<seq<T>>): seq<T> {
    if |bs| == 0 then [] else bs[0] + Flatten(bs[1..])
  }

  /**
   * There are ceil(n / 100) batches, each of 1 to 100 ids, batch k is
   * `ids[100k : 100k + 100]`, and together they are the ids in order.
   */
  lemma {:induction false} BatchesCoverIds<T>(ids: seq<T>)
    ensures |Batches(ids)| == CeilDiv(|ids|, BatchSize)
    ensures forall k :: 0 <= k < |Batches(ids)| ==> 1 <= |Batches(ids)[k]| <= BatchSize
    ensures Flatten(Batches(ids)) == ids
    decreases |ids|
  {
    if |ids| > 0 {
      var m := Min(BatchSize, |ids|);
      var rest := ids[m..];
      BatchesCoverIds(rest);
      assert ids == ids[..m] + rest;
      assert Batches(ids)[1..] == Batches(rest);
      if |ids| > BatchSize {
        assert |ids| + BatchSize - 1 == (|rest| + BatchSize - 1) + BatchSize;
      }
    }
  }

  lemma {:induction false} BatchAt<T>(ids: seq<T>, k: nat)
    requires k < |Batches(ids)|
    ensures BatchSize * k < |ids|
    ensures Batches(ids)[k] == ids[BatchSize * k .. Min(BatchSize * k + BatchSize, |ids|)]
    decreases |ids|
  {
    var m := Min(BatchSize, |ids|);
    if k > 0 {
      var rest := ids[m..];
      assert Batches(ids)[k] == Batches(rest)[k - 1];
      BatchAt(rest, k - 1);
      assert BatchSize * k == m + BatchSize * (k - 1);
    }
  }

  /** 137 ids go out as a batch of 100 and a batch of 37. */
  lemma OneHundredThirtySevenIds<T>(ids: seq<T>)
    requires |ids| == 137
    ensures |Batches(ids)| == 2 && |Batches(ids)[0]| == 100 && |Batches(ids)[1]| == 37
  {
    BatchesCoverIds(ids);
    BatchAt(ids, 0);
    BatchAt(ids, 1);
  }
}
