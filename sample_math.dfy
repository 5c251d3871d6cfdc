/**
 * Definitions over sequences of samples shared by the two statistics
 * classes: sums, minimum and maximum, the count-bounded window of the most
 * recent samples, sorting, and the lower median.  Sample values are exact
 * reals.
 */
module SampleMath {

  // ---------------------------------------------------------------------------
  // Sum, minimum, maximum, mean
  // ---------------------------------------------------------------------------

  /** The sum of the samples, accumulated in arrival order. */
  function Sum(s: seq<real>): real
    decreases |s|
  {
    if s == [] then 0.0 else Sum(s[..|s| - 1]) + s[|s| - 1]
  }

  lemma SumAppend(s: seq<real>, x: real)
    ensures Sum(s + [x]) == Sum(s) + x
  {
    assert (s + [x])[..|s|] == s;
  }

  /** Removing the oldest sample takes its value off the sum. */
  lemma {:induction false} SumDropFirst(s: seq<real>)
    requires s != []
    ensures Sum(s[1..]) == Sum(s) - s[0]
    decreases |s|
  {
    if |s| == 1 {
      assert s[1..] == [];
    } else {
      var init := s[..|s| - 1];
      SumDropFirst(init);
      assert s[1..] == init[1..] + [s[|s| - 1]];
      SumAppend(init[1..], s[|s| - 1]);
    }
  }

  function Min(a: real, b: real): real { if a <= b then a else b }
  function Max(a: real, b: real): real { if a >= b then a else b }

  /** The smallest sample, folded in arrival order as the source does: the first sample, then Min with each next one. */
  function SeqMin(s: seq<real>): (m: real)
    requires s != []
    ensures m in s
    ensures forall i :: 0 <= i < |s| ==> m <= s[i]
    decreases |s|
  {
    if |s| == 1 then s[0] else Min(SeqMin(s[..|s| - 1]), s[|s| - 1])
  }

  /** The largest sample, folded like SeqMin. */
  function SeqMax(s: seq<real>): (m: real)
    requires s != []
    ensures m in s
    ensures forall i :: 0 <= i < |s| ==> s[i] <= m
    decreases |s|
  {
    if |s| == 1 then s[0] else Max(SeqMax(s[..|s| - 1]), s[|s| - 1])
  }

  /** The minimum is the only sample at or below every sample. */
  lemma SeqMinUnique(s: seq<real>, m: real)
    requires m in s && forall i :: 0 <= i < |s| ==> m <= s[i]
    ensures m == SeqMin(s)
  {
  }

  /** The maximum is the only sample at or above every sample. */
  lemma SeqMaxUnique(s: seq<real>, m: real)
    requires m in s && forall i :: 0 <= i < |s| ==> s[i] <= m
    ensures m == SeqMax(s)
  {
  }

  lemma SeqMinMaxAppend(s: seq<real>, x: real)
    requires s != []
    ensures SeqMin(s + [x]) == Min(SeqMin(s), x) && SeqMax(s + [x]) == Max(SeqMax(s), x)
  {
    assert (s + [x])[..|s|] == s;
  }

  /**
   * Folding one more sample into running extremes that start at 0 for no
   * samples: the first sample sets both, later ones go through Min and Max.
   */
  lemma ExtremesStep(h: seq<real>, countAll: int, minAll: real, maxAll: real, n: real)
    requires countAll == |h|
    requires h == [] ==> minAll == 0.0 && maxAll == 0.0
    requires h != [] ==> minAll == SeqMin(h) && maxAll == SeqMax(h)
    ensures SeqMin(h + [n]) == if countAll + 1 == 1 then n else Min(minAll, n)
    ensures SeqMax(h + [n]) == if countAll + 1 == 1 then n else Max(maxAll, n)
  {
    if h != [] {
      SeqMinMaxAppend(h, n);
    } else {
      assert h + [n] == [n];
    }
  }

  /** The mean of the samples, 0 for no samples. */
  function Mean(s: seq<real>): real {
    if s == [] then 0.0 else Sum(s) / (|s| as real)
  }

  // ---------------------------------------------------------------------------
  // The count-bounded window
  // ---------------------------------------------------------------------------

  /** How many of `n` samples a window of capacity `maxCount` holds. */
  function WindowSize(n: nat, maxCount: int): (k: nat)
    ensures k <= n && (maxCount <= 0 ==> k == 0) && (maxCount > 0 ==> k <= maxCount)
    ensures maxCount > 0 ==> (k == n || k == maxCount)
  {
    if maxCount <= 0 then 0 else if n < maxCount then n else maxCount
  }

  /** The last WindowSize(|h|, maxCount) samples of `h`, in arrival order. */
  function Window(h: seq<real>, maxCount: int): (w: seq<real>)
    ensures |w| == WindowSize(|h|, maxCount)
    ensures forall i :: 0 <= i < |w| ==> w[i] == h[|h| - |w| + i]
  {
    var k := WindowSize(|h|, maxCount);
    seq(k, i requires 0 <= i < k => h[|h| - k + i])
  }

  /**
   * One arrival: if the window is full its oldest sample is dropped before
   * the new one is appended.
   */
  lemma WindowStep(h: seq<real>, x: real, maxCount: int)
    requires maxCount > 0
    ensures var w := Window(h, maxCount);
            Window(h + [x], maxCount) == (if |w| >= maxCount then w[1..] else w) + [x]
  {
    var w := Window(h, maxCount);
    var w' := if |w| >= maxCount then w[1..] else w;
    var h' := h + [x];
    assert Window(h', maxCount) == h'[|h'| - WindowSize(|h'|, maxCount)..];
    assert |Window(h', maxCount)| == |w' + [x]|;
    forall i | 0 <= i < |w' + [x]|
      ensures Window(h', maxCount)[i] == (w' + [x])[i]
    {
    }
  }

  // ---------------------------------------------------------------------------
  // Sorting
  // ---------------------------------------------------------------------------

  predicate Sorted(s: seq<real>) {
    forall i, j :: 0 <= i < j < |s| ==> s[i] <= s[j]
  }

  /** Insert `x` into an ascending sequence, before the first element not smaller than it. */
  function Insert(s: seq<real>, x: real): (r: seq<real>)
    requires Sorted(s)
    ensures |r| == |s| + 1 && r[0] == (if s == [] || x <= s[0] then x else s[0])
    ensures Sorted(r)
    decreases |s|
  {
    if s == [] then [x]
    else if x <= s[0] then [x] + s
    else
      assert s == [s[0]] + s[1..];
      [s[0]] + Insert(s[1..], x)
  }

  /** Insert adds exactly `x`. */
  lemma {:induction false} InsertPermutes(s: seq<real>, x: real)
    requires Sorted(s)
    ensures multiset(Insert(s, x)) == multiset(s) + multiset{x}
    decreases |s|
  {
    if s != [] && x > s[0] {
      assert s == [s[0]] + s[1..];
      InsertPermutes(s[1..], x);
    }
  }

  /** The samples in ascending order (insertion sort). */
  function SortSeq(s: seq<real>): (r: seq<real>)
    ensures |r| == |s| && Sorted(r)
    decreases |s|
  {
    if s == [] then [] else Insert(SortSeq(s[..|s| - 1]), s[|s| - 1])
  }

  /** SortSeq rearranges its input: it is a permutation of the samples. */
  lemma {:induction false} SortSeqPermutes(s: seq<real>)
    ensures multiset(SortSeq(s)) == multiset(s)
    decreases |s|
  {
    if s != [] {
      SortSeqPermutes(s[..|s| - 1]);
      InsertPermutes(SortSeq(s[..|s| - 1]), s[|s| - 1]);
      assert s == s[..|s| - 1] + [s[|s| - 1]];
    }
  }

  /** A sequence has exactly one ascending arrangement: any sort of `a` agrees with SortSeq. */
  lemma {:induction false} SortedUnique(a: seq<real>, b: seq<real>)
    requires Sorted(a) && Sorted(b) && multiset(a) == multiset(b)
    ensures a == b
    decreases |a|
  {
    if a == [] {
      assert |b| == |multiset(b)| == 0;
    } else {
      SortedSameHead(a, b);
      DropHead(a);
      DropHead(b);
      SortedUnique(a[1..], b[1..]);
      assert a == [a[0]] + a[1..] && b == [b[0]] + b[1..];
    }
  }

  /** Two ascending arrangements of the same samples start with the same (least) sample. */
  lemma SortedSameHead(a: seq<real>, b: seq<real>)
    requires Sorted(a) && Sorted(b) && multiset(a) == multiset(b) && a != []
    ensures b != [] && a[0] == b[0]
  {
    assert |b| == |multiset(b)| == |multiset(a)| > 0;
    assert a[0] in multiset(b) && b[0] in multiset(a);
    var i :| 0 <= i < |b| && b[i] == a[0];
    var j :| 0 <= j < |a| && a[j] == b[0];
    assert b[0] <= b[i] && a[0] <= a[j];
  }

  /** Dropping the head of an ascending sequence keeps it ascending and removes one copy of the head. */
  lemma DropHead(a: seq<real>)
    requires Sorted(a) && a != []
    ensures Sorted(a[1..]) && multiset(a[1..]) == multiset(a) - multiset{a[0]}
  {
    assert a == [a[0]] + a[1..];
  }

  lemma SortOfSorted(s: seq<real>)
    requires Sorted(s)
    ensures SortSeq(s) == s
  {
    SortSeqPermutes(s);
    SortedUnique(SortSeq(s), s);
  }

  lemma SortPermutationInvariant(a: seq<real>, b: seq<real>)
    requires multiset(a) == multiset(b)
    ensures SortSeq(a) == SortSeq(b)
  {
    SortSeqPermutes(a);
    SortSeqPermutes(b);
    SortedUnique(SortSeq(a), SortSeq(b));
  }

  // ---------------------------------------------------------------------------
  // The lower median
  // ---------------------------------------------------------------------------

  /** The element at index (|s|-1)/2 of the sorted samples, 0 for no samples. */
  function MedianOf(s: seq<real>): real {
    if s == [] then 0.0 else SortSeq(s)[(|s| - 1) / 2]
  }

  /** The number of samples below `x`. */
  function CountLt(s: seq<real>, x: real): nat
    decreases |s|
  {
    if s == [] then 0 else (if s[0] < x then 1 else 0) + CountLt(s[1..], x)
  }

  /** The number of samples at most `x`. */
  function CountLe(s: seq<real>, x: real): nat
    decreases |s|
  {
    if s == [] then 0 else (if s[0] <= x then 1 else 0) + CountLe(s[1..], x)
  }

  lemma {:induction false} CountAppend(a: seq<real>, b: seq<real>, x: real)
    ensures CountLt(a + b, x) == CountLt(a, x) + CountLt(b, x)
    ensures CountLe(a + b, x) == CountLe(a, x) + CountLe(b, x)
    decreases |a|
  {
    if a == [] {
      assert a + b == b;
    } else {
      assert (a + b)[0] == a[0] && (a + b)[1..] == a[1..] + b;
      CountAppend(a[1..], b, x);
    }
  }

  /** Taking out the element at index `j`. */
  lemma CountRemove(b: seq<real>, j: nat, x: real)
    requires j < |b|
    ensures CountLt(b, x) == CountLt(b[..j] + b[j + 1..], x) + (if b[j] < x then 1 else 0)
    ensures CountLe(b, x) == CountLe(b[..j] + b[j + 1..], x) + (if b[j] <= x then 1 else 0)
  {
    assert b == b[..j] + ([b[j]] + b[j + 1..]);
    CountAppend(b[..j], [b[j]] + b[j + 1..], x);
    CountAppend(b[..j], b[j + 1..], x);
    assert ([b[j]] + b[j + 1..])[1..] == b[j + 1..];
  }

  /** Deleting index `j` of `b` deletes one occurrence of b[j] from its multiset. */
  lemma MultisetRemove(b: seq<real>, j: nat)
    requires j < |b|
    ensures multiset(b[..j] + b[j + 1..]) == multiset(b) - multiset{b[j]}
  {
    assert b == b[..j] + [b[j]] + b[j + 1..];
  }

  /** Matching the head of `a` with index `j` of `b` leaves equal multisets behind. */
  lemma PermutationRemoveHead(a: seq<real>, b: seq<real>, j: nat)
    requires multiset(a) == multiset(b) && a != [] && j < |b| && b[j] == a[0]
    ensures multiset(a[1..]) == multiset(b[..j] + b[j + 1..])
  {
    MultisetRemove(b, j);
    assert a == [a[0]] + a[1..];
    assert multiset(a[1..]) == multiset(a) - multiset{a[0]};
  }

  /** The counts depend only on the multiset of samples. */
  lemma {:induction false} CountPermutation(a: seq<real>, b: seq<real>, x: real)
    requires multiset(a) == multiset(b)
    ensures CountLt(a, x) == CountLt(b, x) && CountLe(a, x) == CountLe(b, x)
    decreases |a|
  {
    if a == [] {
      assert |b| == |multiset(b)| == 0;
      assert b == [];
    } else {
      assert a[0] in multiset(b);
      var j := IndexOf(b, a[0]);
      PermutationRemoveHead(a, b, j);
      CountPermutation(a[1..], b[..j] + b[j + 1..], x);
      CountRemove(b, j, x);
    }
  }

  lemma IndexOf(b: seq<real>, v: real) returns (j: nat)
    requires v in multiset(b)
    ensures j < |b| && b[j] == v
  {
    j :| 0 <= j < |b| && b[j] == v;
  }

  lemma {:induction false} CountBounds(s: seq<real>, x: real)
    ensures CountLt(s, x) <= CountLe(s, x) <= |s|
    ensures (forall i :: 0 <= i < |s| ==> x <= s[i]) ==> CountLt(s, x) == 0
    ensures (forall i :: 0 <= i < |s| ==> s[i] <= x) ==> CountLe(s, x) == |s|
    decreases |s|
  {
    if s != [] {
      CountBounds(s[1..], x);
      assert forall i :: 1 <= i < |s| ==> s[1..][i - 1] == s[i];
    }
  }

  /** In an ascending sequence, fewer than k+1 elements lie below r[k] and more than k lie at or below it. */
  lemma SortedRank(r: seq<real>, k: nat)
    requires Sorted(r) && k < |r|
    ensures CountLt(r, r[k]) <= k < CountLe(r, r[k])
  {
    SortedRankBelow(r, k);
    SortedRankAtOrBelow(r, k);
  }

  lemma SortedRankBelow(r: seq<real>, k: nat)
    requires Sorted(r) && k < |r|
    ensures CountLt(r, r[k]) <= k
  {
    var x := r[k];
    var lo, hi := r[..k], r[k..];
    assert r == lo + hi;
    assert forall i :: 0 <= i < |hi| ==> x <= hi[i];
    CountAppend(lo, hi, x);
    CountBounds(lo, x);
    CountBounds(hi, x);
  }

  lemma SortedRankAtOrBelow(r: seq<real>, k: nat)
    requires Sorted(r) && k < |r|
    ensures k < CountLe(r, r[k])
  {
    var x := r[k];
    var lo, hi := r[..k + 1], r[k + 1..];
    assert r == lo + hi;
    assert forall i :: 0 <= i < |lo| ==> lo[i] <= x;
    CountAppend(lo, hi, x);
    CountBounds(lo, x);
    CountBounds(hi, x);
  }

  /**
   * The lower median is a sample with at most (|s|-1)/2 samples below it
   * and more than (|s|-1)/2 at or below it.
   */
  lemma MedianRank(s: seq<real>)
    requires s != []
    ensures MedianOf(s) in s
    ensures CountLt(s, MedianOf(s)) <= (|s| - 1) / 2 < CountLe(s, MedianOf(s))
  {
    var r := SortSeq(s);
    var k := (|s| - 1) / 2;
    SortSeqPermutes(s);
    assert r[k] in multiset(s);
    SortedRank(r, k);
    CountPermutation(r, s, r[k]);
  }

  lemma {:induction false} CountMonotone(s: seq<real>, x: real, y: real)
    requires x < y
    ensures CountLe(s, x) <= CountLt(s, y)
    decreases |s|
  {
    if s != [] {
      CountMonotone(s[1..], x, y);
    }
  }

  /** ... and the only sample with that rank property. */
  lemma MedianUnique(s: seq<real>, m: real)
    requires m in s && CountLt(s, m) <= (|s| - 1) / 2 < CountLe(s, m)
    ensures m == MedianOf(s)
  {
    MedianRank(s);
    var med := MedianOf(s);
    if m < med {
      CountMonotone(s, m, med);
    } else if med < m {
      CountMonotone(s, med, m);
    }
  }

  /** The median does not depend on the order in which the samples arrived. */
  lemma MedianPermutationInvariant(a: seq<real>, b: seq<real>)
    requires multiset(a) == multiset(b)
    ensures MedianOf(a) == MedianOf(b)
  {
    assert |a| == |multiset(a)| == |multiset(b)| == |b|;
    SortPermutationInvariant(a, b);
  }

  lemma {:induction false} SumBounds(s: seq<real>, lo: real, hi: real)
    requires forall i :: 0 <= i < |s| ==> lo <= s[i] <= hi
    ensures (|s| as real) * lo <= Sum(s) <= (|s| as real) * hi
    decreases |s|
  {
    if s != [] {
      var init := s[..|s| - 1];
      assert forall i :: 0 <= i < |init| ==> init[i] == s[i];
      SumBounds(init, lo, hi);
      var k := |init| as real;
      assert (|s| as real) * lo == k * lo + lo && (|s| as real) * hi == k * hi + hi;
    }
  }

  lemma Cancel(x: real, y: real, k: real)
    requires k > 0.0 && k * x <= k * y
    ensures x <= y
  {
  }

  /** Dividing a total that lies between k * lo and k * hi by k > 0 lands between lo and hi. */
  lemma DivideBounds(lo: real, hi: real, total: real, k: real)
    requires k > 0.0 && k * lo <= total <= k * hi
    ensures lo <= total / k <= hi
  {
    var m := total / k;
    assert k * m == total;
    Cancel(lo, m, k);
    Cancel(m, hi, k);
  }

  /** The mean of some samples lies between their minimum and maximum. */
  lemma MeanBetweenExtremes(s: seq<real>)
    requires s != []
    ensures SeqMin(s) <= Mean(s) <= SeqMax(s)
  {
    SumBounds(s, SeqMin(s), SeqMax(s));
    DivideBounds(SeqMin(s), SeqMax(s), Sum(s), |s| as real);
  }
}
