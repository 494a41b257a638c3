/**
 * `shuffle(arr)`: an in-place Fisher–Yates pass. For `i` from the last
 * index down to 1 it swaps `arr[i]` with `arr[j]`, where
 * `j = Math.floor(Math.random() * (i + 1))` is some index in `[0, i]`.
 */
module Shuffle {

  /** `[s[i], s[j]] = [s[j], s[i]]` on a sequence value. */
  function Swap<T>(s: seq<T>, i: int, j: int): (r: seq<T>)
    requires 0 <= i < |s| && 0 <= j < |s|
    ensures |r| == |s|
  {
    s[i := s[j]][j := s[i]]
  }

  /** A swap exchanges the two entries, leaves the others alone and keeps the multiset of entries. */
  lemma SwapSpec<T>(s: seq<T>, i: int, j: int)
    requires 0 <= i < |s| && 0 <= j < |s|
    ensures Swap(s, i, j)[i] == s[j] && Swap(s, i, j)[j] == s[i]
    ensures forall k :: 0 <= k < |s| && k != i && k != j ==> Swap(s, i, j)[k] == s[k]
    ensures multiset(Swap(s, i, j)) == multiset(s)
  {
  }

  /** How many swaps a pass over `n` elements makes: one for each `i` in `[1, n-1]`. */
  function Steps(n: nat): nat {
    if n == 0 then 0 else n - 1
  }

  /** `js` is a possible record of random picks: the `k`-th pick, made for `i = n-1-k`, lies in `[0, i]`. */
  predicate ValidPicks(n: nat, js: seq<int>) {
    |js| <= Steps(n) && forall k :: 0 <= k < |js| ==> 0 <= js[k] <= n - 1 - k
  }

  /** The array contents after the swaps recorded in `js`, the `k`-th swapping positions `n-1-k` and `js[k]`. */
  function Run<T>(s: seq<T>, js: seq<int>): (r: seq<T>)
    requires ValidPicks(|s|, js)
    ensures |r| == |s|
  {
    if js == [] then s
    else
      var prev := js[..|js| - 1];
      assert ValidPicks(|s|, prev);
      Swap(Run(s, prev), |s| - |js|, js[|js| - 1])
  }

  /** One more pick extends the run by one swap. */
  lemma {:induction false} RunStep<T>(s: seq<T>, js: seq<int>, j: int)
    requires ValidPicks(|s|, js) && |js| < Steps(|s|) && 0 <= j <= |s| - 1 - |js|
    ensures ValidPicks(|s|, js + [j])
    ensures Run(s, js + [j]) == Swap(Run(s, js), |s| - 1 - |js|, j)
  {
  }

  /** Whatever the random picks, the shuffled contents are a permutation of the original ones. */
  lemma {:induction false} RunPermutes<T>(s: seq<T>, js: seq<int>)
    requires ValidPicks(|s|, js)
    ensures multiset(Run(s, js)) == multiset(s)
  {
    if js != [] {
      var prev := js[..|js| - 1];
      assert ValidPicks(|s|, prev);
      RunPermutes(s, prev);
      SwapSpec(Run(s, prev), |s| - |js|, js[|js| - 1]);
    }
  }

  /**
   * `shuffle(arr)`. `Math.random` is modelled as a nondeterministic pick in
   * `[0, i]`; the ghost result records the picks made, so the final contents
   * are `Run` of the original contents and those picks.
   */
  method ShuffleInPlace<T>(a: array<T>) returns (ghost js: seq<int>)
    modifies a
    ensures ValidPicks(a.Length, js) && |js| == Steps(a.Length)
    ensures a[..] == Run(old(a[..]), js)
    ensures multiset(a[..]) == multiset(old(a[..]))
  {
    js := [];
    var i := a.Length - 1;
    while i > 0
      invariant -1 <= i < a.Length && (a.Length > 0 ==> 0 <= i)
      invariant |js| == a.Length - 1 - i
      invariant ValidPicks(a.Length, js)
      invariant a[..] == Run(old(a[..]), js)
    {
      var j :| 0 <= j <= i;
      ghost var before := a[..];
      a[i], a[j] := a[j], a[i];
      assert a[..] == Swap(before, i, j);
      RunStep(old(a[..]), js, j);
      js := js + [j];
      i := i - 1;
    }
    RunPermutes(old(a[..]), js);
  }
}
