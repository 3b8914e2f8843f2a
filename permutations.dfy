/** The shuffles used by the training code (`random.shuffle`,
    `np.random.shuffle`), which both run the Fisher-Yates pass, and facts
    about reordering sequences. The random generator is injected as `draw`:
    `draw(i)` is the position in `0..i` drawn for position `i`. */
module Permutations {

  function Swap<T>(s: seq<T>, i: nat, j: nat): seq<T>
    requires i < |s| && j < |s|
  {
    s[i := s[j]][j := s[i]]
  }

  /** A Fisher-Yates pass over positions `k - 1` down to `1` of `s`. */
  function ShuffleFrom<T>(s: seq<T>, k: nat, draw: nat -> nat): (r: seq<T>)
    requires k <= |s|
    requires forall i :: draw(i) <= i
    ensures |r| == |s|
    decreases k
  {
    if k <= 1 then s
    else ShuffleFrom(Swap(s, k - 1, draw(k - 1)), k - 1, draw)
  }

  /** A Fisher-Yates pass only reorders: every element is kept, as often as before. */
  lemma {:induction false} ShuffleFromPermutes<T>(s: seq<T>, k: nat, draw: nat -> nat)
    requires k <= |s|
    requires forall i :: draw(i) <= i
    ensures multiset(ShuffleFrom(s, k, draw)) == multiset(s)
    decreases k
  {
    if k > 1 {
      var j := draw(k - 1);
      SwapPermutes(s, k - 1, j);
      ShuffleFromPermutes(Swap(s, k - 1, j), k - 1, draw);
    }
  }

  lemma SwapPermutes<T>(s: seq<T>, i: nat, j: nat)
    requires i < |s| && j < |s|
    ensures multiset(Swap(s, i, j)) == multiset(s)
  {
    var t := s[i := s[j]];
    assert multiset(t) == multiset(s) - multiset{s[i]} + multiset{s[j]};
    assert multiset(t[j := s[i]]) == multiset(t) - multiset{t[j]} + multiset{s[i]};
  }

  /** The order `random.shuffle(s)` leaves `s` in, given the draws. */
  function Shuffled<T>(s: seq<T>, draw: nat -> nat): (r: seq<T>)
    requires forall i :: draw(i) <= i
    ensures |r| == |s|
  {
    ShuffleFrom(s, |s|, draw)
  }

  /** `random.shuffle` yields a permutation of its input. */
  lemma ShuffledPermutes<T>(s: seq<T>, draw: nat -> nat)
    requires forall i :: draw(i) <= i
    ensures multiset(Shuffled(s, draw)) == multiset(s)
  {
    ShuffleFromPermutes(s, |s|, draw);
  }

  /** `random.shuffle(a)`: in place, for i from len(a) - 1 down to 1, swap
      `a[i]` with `a[draw(i)]`. */
  method Shuffle<T>(a: array<T>, draw: nat -> nat)
    requires forall i :: draw(i) <= i
    modifies a
    ensures a[..] == Shuffled(old(a[..]), draw)
  {
    ghost var goal := Shuffled(a[..], draw);
    var i := a.Length;
    while i > 1
      invariant 0 <= i <= a.Length
      invariant ShuffleFrom(a[..], i, draw) == goal
      decreases i
    {
      ghost var before := a[..];
      var j := draw(i - 1);
      var t := a[i - 1];
      a[i - 1] := a[j];
      a[j] := t;
      assert a[..] == Swap(before, i - 1, j);
      i := i - 1;
    }
  }

  /** `[f(x) for x in s]`. */
  function Map<A, B>(f: A -> B, s: seq<A>): seq<B>
  {
    seq(|s|, i requires 0 <= i < |s| => f(s[i]))
  }

  lemma MapConcat<A, B>(f: A -> B, s: seq<A>, t: seq<A>)
    ensures Map(f, s + t) == Map(f, s) + Map(f, t)
  {
    assert forall i :: 0 <= i < |s + t| ==> Map(f, s + t)[i] == (Map(f, s) + Map(f, t))[i];
  }

  /** Reordering a sequence reorders its image the same way: equal multisets
      have images with equal multisets. */
  lemma {:induction false} MapPermutation<A, B>(f: A -> B, s: seq<A>, t: seq<A>)
    requires multiset(s) == multiset(t)
    ensures multiset(Map(f, s)) == multiset(Map(f, t))
    decreases |s|
  {
    if s == [] {
      assert |t| == |multiset(t)| == 0;
    } else {
      var x := s[0];
      assert x in multiset(t);
      var k :| 0 <= k < |t| && t[k] == x;
      var t1, t2 := t[..k], t[k + 1..];
      var t' := t1 + t2;
      assert t == t1 + [x] + t2;
      assert s == [x] + s[1..];
      assert multiset(s[1..]) == multiset(s) - multiset{x};
      assert multiset(t') == multiset(t) - multiset{x};
      MapPermutation(f, s[1..], t');
      MapConcat(f, [x], s[1..]);
      MapConcat(f, t1 + [x], t2);
      MapConcat(f, t1, [x]);
      MapConcat(f, t1, t2);
      assert Map(f, [x]) == [f(x)];
      assert multiset(Map(f, s)) == multiset{f(x)} + multiset(Map(f, s[1..]));
      assert multiset(Map(f, t)) == multiset(Map(f, t1)) + multiset{f(x)} + multiset(Map(f, t2));
    }
  }

  /** `list(zip(a, b))` for lists of equal length. */
  function Zip<A, B>(a: seq<A>, b: seq<B>): seq<(A, B)>
    requires |a| == |b|
  {
    seq(|a|, i requires 0 <= i < |a| => (a[i], b[i]))
  }

  /** `range(n)`. */
  function Range(n: nat): seq<nat>
  {
    seq(n, i => i)
  }

  /** `s[idx]` for a list of indices: numpy fancy indexing, or
      `[s[i] for i in idx]`. */
  function Gather<T>(s: seq<T>, idx: seq<nat>): seq<T>
    requires forall k :: 0 <= k < |idx| ==> idx[k] < |s|
  {
    seq(|idx|, k requires 0 <= k < |idx| => s[idx[k]])
  }

  /** `idx` lists every index below `n` exactly once. */
  ghost predicate IsPermutation(idx: seq<nat>, n: nat)
  {
    multiset(idx) == multiset(Range(n))
  }

  lemma PermutationBounds(idx: seq<nat>, n: nat)
    requires IsPermutation(idx, n)
    ensures |idx| == n
    ensures forall k :: 0 <= k < |idx| ==> idx[k] < n
  {
    assert |idx| == |multiset(idx)| == |multiset(Range(n))| == n;
    forall k | 0 <= k < |idx|
      ensures idx[k] < n
    {
      assert idx[k] in multiset(Range(n));
    }
  }

  /** Reindexing by a permutation keeps every element, as often as before. */
  lemma GatherPermutation<T>(s: seq<T>, idx: seq<nat>)
    requires IsPermutation(idx, |s|)
    ensures forall k :: 0 <= k < |idx| ==> idx[k] < |s|
    ensures multiset(Gather(s, idx)) == multiset(s)
  {
    PermutationBounds(idx, |s|);
    if |s| > 0 {
      var f := (i: nat) => if i < |s| then s[i] else s[0];
      assert Gather(s, idx) == Map(f, idx);
      assert Map(f, Range(|s|)) == s;
      MapPermutation(f, idx, Range(|s|));
    }
  }

  /** Shuffling `range(n)` yields a permutation of it. */
  lemma ShuffledRangeIsPermutation(n: nat, draw: nat -> nat)
    requires forall i :: draw(i) <= i
    ensures IsPermutation(Shuffled(Range(n), draw), n)
  {
    ShuffledPermutes(Range(n), draw);
  }
}
