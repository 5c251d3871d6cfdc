/**
 * The statistics classes driven the way their unit tests drive them, with
 * the values those tests expect proved as postconditions.
 */
module StatScenarios {
  import opened Wrappers
  import opened SampleMath
  import opened StatAvg
  import opened StatPctileMean

  /** The samples a, a+1, ..., a+k-1. */
  function Ramp(a: int, k: nat): (r: seq<real>)
    ensures |r| == k && forall j :: 0 <= j < k ==> r[j] == (a + j) as real
  {
    seq(k, j requires 0 <= j < k => (a + j) as real)
  }

  lemma RampAppend(a: int, k: nat)
    ensures Ramp(a, k) + [(a + k) as real] == Ramp(a, k + 1)
  {
  }

  /** The sum of a ramp, in closed form. */
  lemma {:induction false} SumRamp(a: int, k: nat)
    ensures Sum(Ramp(a, k)) == (k as real) * (a as real) + (k as real) * ((k - 1) as real) / 2.0
    decreases k
  {
    if k > 0 {
      SumRamp(a, k - 1);
      RampAppend(a, k - 1);
      SumAppend(Ramp(a, k - 1), (a + k - 1) as real);
      var x, j := a as real, (k - 1) as real;
      assert k as real == j + 1.0 && (k - 1 - 1) as real == j - 1.0 && (a + k - 1) as real == x + j;
      RampSumStep(x, j);
    }
  }

  /** The closed form grows by the next ramp element. */
  lemma RampSumStep(a: real, j: real)
    ensures j * a + j * (j - 1.0) / 2.0 + (a + j) == (j + 1.0) * a + (j + 1.0) * j / 2.0
  {
  }

  /** The mean of a ramp is its first element plus (k-1)/2. */
  lemma MeanRamp(a: int, k: nat)
    requires k > 0
    ensures Mean(Ramp(a, k)) == (a as real) + ((k - 1) as real) / 2.0
  {
    SumRamp(a, k);
    ClosedFormQuotient(a as real, k as real);
  }

  lemma ClosedFormQuotient(a: real, k: real)
    requires k > 0.0
    ensures (k * a + k * (k - 1.0) / 2.0) / k == a + (k - 1.0) / 2.0
  {
    var x := k * a + k * (k - 1.0) / 2.0;
    var y := a + (k - 1.0) / 2.0;
    assert x == k * y;
    Quotient(x, k, y);
  }

  /** A total that is k times q, divided by k > 0, is q. */
  lemma Quotient(total: real, k: real, q: real)
    requires k > 0.0 && total == k * q
    ensures total / k == q
  {
  }

  lemma RampSorted(a: int, k: nat)
    ensures Sorted(Ramp(a, k))
  {
  }

  /** The last w samples of a ramp form a ramp. */
  lemma WindowOfRamp(a: int, k: nat, maxCount: int)
    ensures Window(Ramp(a, k), maxCount) == Ramp(a + k - WindowSize(k, maxCount), WindowSize(k, maxCount))
  {
  }

  // ---------------------------------------------------------------------------
  // NumberStatAvg
  // ---------------------------------------------------------------------------

  /**
   * A fresh NumberStatAvg fed the samples xs, then read: the count, mean,
   * minimum and maximum of xs (all 0 for no samples).
   */
  method FeedAvgAndRead(xs: seq<real>) returns (average: real, count: int, min: real, max: real)
    ensures count == |xs| && average == Mean(xs)
    ensures xs == [] ==> min == 0.0 && max == 0.0
    ensures xs != [] ==> min == SeqMin(xs) && max == SeqMax(xs)
  {
    var stat := new NumberStatAvg();
    for i := 0 to |xs|
      invariant stat.Valid() && stat.history == xs[..i]
    {
      TakeOneMore(xs, i);
      stat.Add(xs[i]);
    }
    assert xs[..|xs|] == xs;
    average, count, min, max := stat.Average(), stat.Count(), stat.Min(), stat.Max();
  }

  /** Five samples out of order: mean 3, count 5, minimum 1, maximum 5. */
  method AvgSimpleScenario() returns (average: real, count: int, min: real, max: real)
    ensures average == 3.0 && count == 5 && min == 1.0 && max == 5.0
  {
    var xs := [3.0, 1.0, 4.0, 2.0, 5.0];
    average, count, min, max := FeedAvgAndRead(xs);
    SimpleFigures(xs);
  }

  /** No samples: every figure is 0. */
  method AvgZeroScenario() returns (average: real, count: int, min: real, max: real)
    ensures average == 0.0 && count == 0 && min == 0.0 && max == 0.0
  {
    var stat := new NumberStatAvg();
    average, count, min, max := stat.Average(), stat.Count(), stat.Min(), stat.Max();
  }

  /** The samples 0 .. n-1: mean (n-1)/2, minimum 0, maximum n-1. */
  method AvgManyScenario(n: nat) returns (average: real, count: int, min: real, max: real)
    requires n > 0
    ensures average == ((n - 1) as real) / 2.0 && count == n && min == 0.0 && max == (n - 1) as real
  {
    average, count, min, max := FeedAvgAndRead(Ramp(0, n));
    MeanRamp(0, n);
    RampSorted(0, n);
    SortedExtremes(Ramp(0, n));
  }

  // ---------------------------------------------------------------------------
  // NumberStatPctileMean
  // ---------------------------------------------------------------------------

  /** What a NumberStatPctileMean reports once some samples have arrived. */
  datatype Readings = Readings(count: int, countAll: int, average: real, averageAll: real,
                               median: real, minAll: real, maxAll: real)

  /**
   * A fresh statistic of capacity maxCount fed the samples xs, then read:
   * window figures are those of the window of xs, all-time figures those of xs.
   */
  method FeedAndRead(maxCount: int, xs: seq<real>) returns (r: Readings)
    requires maxCount > 0
    ensures r.count == WindowSize(|xs|, maxCount) && r.countAll == |xs|
    ensures r.average == Mean(Window(xs, maxCount)) && r.averageAll == Mean(xs)
    ensures r.median == MedianOf(Window(xs, maxCount))
    ensures xs == [] ==> r.minAll == 0.0 && r.maxAll == 0.0
    ensures xs != [] ==> r.minAll == SeqMin(xs) && r.maxAll == SeqMax(xs)
  {
    var stat := FeedPctile(maxCount, xs);
    ConsistentWindow(stat.history, stat.evicted, stat.maxCount, stat.countAll, stat.samples,
                     stat.total, stat.totalAll, stat.minAll, stat.maxAll);
    var count, countAll, average, averageAll := stat.Count(), stat.CountAll(), stat.Average(), stat.AverageAll();
    var minAll, maxAll := stat.MinAll(), stat.MaxAll();
    if xs != [] {
      SeqMinUnique(xs, minAll);
      SeqMaxUnique(xs, maxAll);
    }
    var median := stat.Median();
    r := Readings(count, countAll, average, averageAll, median, minAll, maxAll);
  }

  /** Five samples out of order: all-time mean 3, count 5, minimum 1, maximum 5. */
  method PctileSimpleScenario() returns (averageAll: real, countAll: int, minAll: real, maxAll: real)
    ensures averageAll == 3.0 && countAll == 5 && minAll == 1.0 && maxAll == 5.0
  {
    var xs := [3.0, 1.0, 4.0, 2.0, 5.0];
    var r := FeedAndRead(100, xs);
    SimpleFigures(xs);
    averageAll, countAll, minAll, maxAll := r.averageAll, r.countAll, r.minAll, r.maxAll;
  }

  lemma SimpleFigures(xs: seq<real>)
    requires xs == [3.0, 1.0, 4.0, 2.0, 5.0]
    ensures Mean(xs) == 3.0 && SeqMin(xs) == 1.0 && SeqMax(xs) == 5.0
  {
    assert Sum(xs[..1]) == 3.0;
    assert Sum(xs[..2]) == 4.0 by { SumAppend(xs[..1], xs[1]); assert xs[..2] == xs[..1] + [xs[1]]; }
    assert Sum(xs[..3]) == 8.0 by { SumAppend(xs[..2], xs[2]); assert xs[..3] == xs[..2] + [xs[2]]; }
    assert Sum(xs[..4]) == 10.0 by { SumAppend(xs[..3], xs[3]); assert xs[..4] == xs[..3] + [xs[3]]; }
    assert Sum(xs) == 15.0 by { SumAppend(xs[..4], xs[4]); assert xs == xs[..4] + [xs[4]]; }
    SeqMinUnique(xs, 1.0);
    SeqMaxUnique(xs, 5.0);
  }

  /** No samples: every all-time figure is 0. */
  method PctileZeroScenario() returns (averageAll: real, countAll: int, minAll: real, maxAll: real)
    ensures averageAll == 0.0 && countAll == 0 && minAll == 0.0 && maxAll == 0.0
  {
    var stat := new NumberStatPctileMean(100, 0);
    averageAll, countAll, minAll, maxAll := stat.AverageAll(), stat.CountAll(), stat.MinAll(), stat.MaxAll();
  }

  /** With capacity 0 every Add fails and nothing is recorded. */
  method ZeroCapacityScenario() returns (res: Outcome<StatError>, countAll: int)
    ensures res == Fail(DequeueFromEmptyQueue) && countAll == 0
  {
    var stat := new NumberStatPctileMean(0, 0);
    res := stat.Add(1.0);
    countAll := stat.CountAll();
  }

  /** A NumberStatPctileMean of capacity maxCount fed the samples xs in order. */
  method FeedPctile(maxCount: int, xs: seq<real>) returns (stat: NumberStatPctileMean)
    requires maxCount > 0
    ensures fresh(stat) && stat.Valid() && stat.maxCount == maxCount && stat.history == xs
  {
    stat := new NumberStatPctileMean(maxCount, 0);
    for i := 0 to |xs|
      invariant stat.Valid() && stat.maxCount == maxCount && stat.history == xs[..i]
    {
      TakeOneMore(xs, i);
      var r := stat.Add(xs[i]);
    }
    assert xs[..|xs|] == xs;
  }

  /**
   * The samples 0 .. n-1 with capacity 100: the window holds the last 100,
   * so its mean is n-1-99/2, while the all-time mean is (n-1)/2.
   */
  method PctileManyScenario(n: nat) returns (average: real, averageAll: real, countAll: int, minAll: real, maxAll: real)
    requires n >= 100
    ensures average == ((n - 1) as real) - 99.0 / 2.0
    ensures averageAll == ((n - 1) as real) / 2.0 && countAll == n
    ensures minAll == 0.0 && maxAll == (n - 1) as real
  {
    var stat := FeedPctile(100, Ramp(0, n));
    average, averageAll, countAll := stat.Average(), stat.AverageAll(), stat.CountAll();
    minAll, maxAll := stat.MinAll(), stat.MaxAll();
    RampMeans(n, average, averageAll);
    assert stat.history[0] == 0.0 && stat.history[n - 1] == (n - 1) as real;
  }

  lemma RampMeans(n: nat, average: real, averageAll: real)
    requires n >= 100
    requires average == Mean(Window(Ramp(0, n), 100)) && averageAll == Mean(Ramp(0, n))
    ensures average == ((n - 1) as real) - 99.0 / 2.0 && averageAll == ((n - 1) as real) / 2.0
  {
    WindowOfRamp(0, n, 100);
    MeanRamp(n - 100, 100);
    MeanRamp(0, n);
  }

  /** One more sample arrives; the window size and the median are read. */
  method AddAndMedian(stat: NumberStatPctileMean, n: real) returns (median: real, count: int)
    requires stat.Valid() && stat.maxCount > 0
    modifies stat
    ensures stat.Valid() && stat.maxCount == old(stat.maxCount)
    ensures stat.history == old(stat.history) + [n]
    ensures median == MedianOf(Window(stat.history, stat.maxCount))
    ensures count == WindowSize(|stat.history|, stat.maxCount)
  {
    var r := stat.Add(n);
    median := stat.Median();
    count := stat.Count();
    ConsistentWindow(stat.history, stat.evicted, stat.maxCount, stat.countAll, stat.samples,
                     stat.total, stat.totalAll, stat.minAll, stat.maxAll);
  }

  /** One more sample extends both traces by the readings taken after it. */
  lemma TraceStep(h: seq<real>, n: real, maxCount: int)
    ensures Medians(h + [n], maxCount) == Medians(h, maxCount) + [MedianOf(Window(h + [n], maxCount))]
    ensures WindowSizes(h + [n], maxCount) == WindowSizes(h, maxCount) + [WindowSize(|h| + 1, maxCount)]
  {
    assert (h + [n])[..|h|] == h;
  }

  /** The medians read after each sample of h arrives at a window of capacity maxCount. */
  function Medians(h: seq<real>, maxCount: int): (r: seq<real>)
    ensures |r| == |h|
    decreases |h|
  {
    if h == [] then [] else Medians(h[..|h| - 1], maxCount) + [MedianOf(Window(h, maxCount))]
  }

  /** The window sizes read after each sample of h arrives at a window of capacity maxCount. */
  function WindowSizes(h: seq<real>, maxCount: int): (r: seq<int>)
    ensures |r| == |h|
    decreases |h|
  {
    if h == [] then [] else WindowSizes(h[..|h| - 1], maxCount) + [WindowSize(|h|, maxCount)]
  }

  /** Entry j of the size trace is the window size after j+1 samples. */
  lemma {:induction false} WindowSizesAt(h: seq<real>, maxCount: int, j: nat)
    requires j < |h|
    ensures WindowSizes(h, maxCount)[j] == WindowSize(j + 1, maxCount)
    decreases |h|
  {
    if j < |h| - 1 {
      WindowSizesAt(h[..|h| - 1], maxCount, j);
    }
  }

  /** Entry j of the trace is the median of the window after the first j+1 samples. */
  lemma {:induction false} MediansAt(h: seq<real>, maxCount: int, j: nat)
    requires j < |h|
    ensures Medians(h, maxCount)[j] == MedianOf(Window(h[..j + 1], maxCount))
    decreases |h|
  {
    var init := h[..|h| - 1];
    if j < |h| - 1 {
      MediansAt(init, maxCount, j);
      assert init[..j + 1] == h[..j + 1];
    } else {
      assert h[..j + 1] == h;
    }
  }

  lemma TakeOneMore(xs: seq<real>, i: nat)
    requires i < |xs|
    ensures xs[..i + 1] == xs[..i] + [xs[i]]
  {
  }

  /** Feed the samples xs one by one, reading the window size and the median after each. */
  method MedianTrace(maxCount: int, xs: seq<real>) returns (medians: seq<real>, counts: seq<int>)
    requires maxCount > 0
    ensures medians == Medians(xs, maxCount)
    ensures counts == WindowSizes(xs, maxCount)
  {
    var stat := new NumberStatPctileMean(maxCount, 0);
    medians, counts := [], [];
    for i := 0 to |xs|
      invariant stat.Valid() && stat.maxCount == maxCount && stat.history == xs[..i]
      invariant medians == Medians(stat.history, maxCount)
      invariant counts == WindowSizes(stat.history, maxCount)
    {
      TakeOneMore(xs, i);
      TraceStep(xs[..i], xs[i], maxCount);
      var m, c := AddAndMedian(stat, xs[i]);
      medians, counts := medians + [m], counts + [c];
    }
    assert xs[..|xs|] == xs;
  }

  /** The lower median of a ramp is its element at index (k-1)/2. */
  lemma MedianOfRamp(a: int, k: nat)
    requires k > 0
    ensures MedianOf(Ramp(a, k)) == (a + (k - 1) / 2) as real
  {
    RampSorted(a, k);
    SortOfSorted(Ramp(a, k));
  }

  /** After the (j+1)-th sample of 1, 2, 3, ... the window is the ramp of its last w samples. */
  lemma RampTraceMedian(j: nat, maxCount: int)
    requires maxCount > 0
    ensures MedianOf(Window(Ramp(1, j + 1), maxCount))
            == (j + 2 - WindowSize(j + 1, maxCount) + (WindowSize(j + 1, maxCount) - 1) / 2) as real
  {
    var w := WindowSize(j + 1, maxCount);
    WindowOfRamp(1, j + 1, maxCount);
    assert Window(Ramp(1, j + 1), maxCount) == Ramp(j + 2 - w, w);
    MedianOfRamp(j + 2 - w, w);
  }

  /**
   * Entry j of the traces for the samples 1, 2, ..., k: the window is the
   * last w of the first j+1 samples, and its lower median their middle one.
   */
  lemma RampTrace(k: nat, maxCount: int, j: nat, w: nat)
    requires maxCount > 0 && j < k && w == WindowSize(j + 1, maxCount)
    ensures WindowSizes(Ramp(1, k), maxCount)[j] == w
    ensures Medians(Ramp(1, k), maxCount)[j] == (j + 2 - w + (w - 1) / 2) as real
  {
    WindowSizesAt(Ramp(1, k), maxCount, j);
    MediansAt(Ramp(1, k), maxCount, j);
    assert Ramp(1, k)[..j + 1] == Ramp(1, j + 1);
    RampTraceMedian(j, maxCount);
  }

  /** With room for every sample, entry j of the traces is j+1 samples and their lower median 1 + j/2. */
  lemma RampTraceUnbounded(k: nat, j: nat)
    requires j < k <= 100
    ensures WindowSizes(Ramp(1, k), 100)[j] == j + 1
    ensures Medians(Ramp(1, k), 100)[j] == (1 + j / 2) as real
  {
    RampTrace(k, 100, j, j + 1);
  }

  /**
   * The samples 1, 2, ..., k (k <= 100) with capacity 100: nothing expires,
   * and the lower median after the (j+1)-th Add is 1 + j/2 -- for k = 7 the
   * medians 1, 1, 2, 2, 3, 3, 4.
   */
  method MedianUpdateScenario(k: nat) returns (medians: seq<real>, counts: seq<int>)
    requires k <= 100
    ensures |medians| == k && |counts| == k
    ensures forall j :: 0 <= j < k ==> medians[j] == (1 + j / 2) as real && counts[j] == j + 1
  {
    medians, counts := MedianTrace(100, Ramp(1, k));
    forall j | 0 <= j < k
      ensures medians[j] == (1 + j / 2) as real && counts[j] == j + 1
    {
      RampTraceUnbounded(k, j);
    }
  }

  /**
   * The samples 1, 2, ..., k with capacity 2: the window keeps the last two
   * samples, so after the (j+1)-th Add it holds j and j+1 and the lower
   * median is j -- for k = 7 the medians 1, 1, 2, 3, 4, 5, 6.
   */
  method ExpireWithCountScenario(k: nat) returns (medians: seq<real>, counts: seq<int>)
    ensures |medians| == k && |counts| == k
    ensures forall j :: 0 <= j < k ==> medians[j] == (if j == 0 then 1.0 else j as real)
    ensures forall j :: 0 <= j < k ==> counts[j] == (if j == 0 then 1 else 2)
  {
    medians, counts := MedianTrace(2, Ramp(1, k));
    forall j | 0 <= j < k
      ensures medians[j] == (if j == 0 then 1.0 else j as real) && counts[j] == (if j == 0 then 1 else 2)
    {
      RampTrace(k, 2, j, if j == 0 then 1 else 2);
    }
  }

  /** The eleven squares 0, 1, 4, ..., 100, stated entry by entry. */
  predicate IsSquares(s: seq<real>) {
    && |s| == 11
    && s[0] == 0.0 && s[1] == 1.0 && s[2] == 4.0 && s[3] == 9.0 && s[4] == 16.0 && s[5] == 25.0
    && s[6] == 36.0 && s[7] == 49.0 && s[8] == 64.0 && s[9] == 81.0 && s[10] == 100.0
  }

  /** The squares 0, 1, 4, ..., 100: mean 35, lower median 25, extremes 0 and 100. */
  method UnevenDistributionScenario(squares: seq<real>)
      returns (average: real, median: real, countAll: int, minAll: real, maxAll: real)
    requires IsSquares(squares)
    ensures average == 35.0 && median == 25.0 && countAll == 11 && minAll == 0.0 && maxAll == 100.0
  {
    var r := FeedAndRead(100, squares);
    SquaresFigures(squares);
    average, median, countAll, minAll, maxAll := r.average, r.median, r.countAll, r.minAll, r.maxAll;
  }

  lemma SquaresFigures(squares: seq<real>)
    requires IsSquares(squares)
    ensures Window(squares, 100) == squares
    ensures Mean(squares) == 35.0 && MedianOf(squares) == 25.0
    ensures SeqMin(squares) == 0.0 && SeqMax(squares) == 100.0
  {
    WindowAll(squares, 100);
    SumSquares(squares);
    SquaresSorted(squares);
    SortedMedian(squares);
    SortedExtremes(squares);
  }

  /** A window with room for every sample holds them all. */
  lemma WindowAll(h: seq<real>, maxCount: int)
    requires |h| <= maxCount
    ensures Window(h, maxCount) == h
  {
  }

  /** The lower median of an ascending sequence is its middle element. */
  lemma SortedMedian(s: seq<real>)
    requires Sorted(s) && s != []
    ensures MedianOf(s) == s[(|s| - 1) / 2]
  {
    SortOfSorted(s);
  }

  /** In an ascending sequence the first sample is the minimum and the last the maximum. */
  lemma SortedExtremes(s: seq<real>)
    requires Sorted(s) && s != []
    ensures SeqMin(s) == s[0] && SeqMax(s) == s[|s| - 1]
  {
    forall i | 0 <= i < |s|
      ensures s[0] <= s[i] <= s[|s| - 1]
    {
      if 0 < i {
        assert s[0] <= s[i];
      }
      if i < |s| - 1 {
        assert s[i] <= s[|s| - 1];
      }
    }
    SeqMinUnique(s, s[0]);
    SeqMaxUnique(s, s[|s| - 1]);
  }

  lemma SquaresSorted(squares: seq<real>)
    requires IsSquares(squares)
    ensures Sorted(squares)
  {
    forall i | 0 <= i < |squares| - 1
      ensures squares[i] <= squares[i + 1]
    {
    }
    AdjacentSorted(squares);
  }

  /** A sequence whose neighbours are in order is sorted. */
  lemma {:induction false} AdjacentSorted(s: seq<real>)
    requires forall i :: 0 <= i < |s| - 1 ==> s[i] <= s[i + 1]
    ensures Sorted(s)
    decreases |s|
  {
    if |s| > 1 {
      var tail := s[1..];
      forall i | 0 <= i < |tail| - 1
        ensures tail[i] <= tail[i + 1]
      {
        assert tail[i] == s[i + 1] && tail[i + 1] == s[i + 2];
      }
      AdjacentSorted(tail);
      forall i, j | 0 <= i < j < |s|
        ensures s[i] <= s[j]
      {
        if i > 0 {
          assert s[i] == tail[i - 1] && s[j] == tail[j - 1];
        } else if j > 1 {
          assert s[j] == tail[j - 1] && s[1] == tail[0];
        }
      }
    }
  }

  lemma SumSquares(squares: seq<real>)
    requires IsSquares(squares)
    ensures Sum(squares) == 385.0
  {
    var s := squares;
    assert Sum(s[..1]) == 0.0;
    assert Sum(s[..2]) == 1.0 by { SumAppend(s[..1], s[1]); assert s[..2] == s[..1] + [s[1]]; }
    assert Sum(s[..3]) == 5.0 by { SumAppend(s[..2], s[2]); assert s[..3] == s[..2] + [s[2]]; }
    assert Sum(s[..4]) == 14.0 by { SumAppend(s[..3], s[3]); assert s[..4] == s[..3] + [s[3]]; }
    assert Sum(s[..5]) == 30.0 by { SumAppend(s[..4], s[4]); assert s[..5] == s[..4] + [s[4]]; }
    assert Sum(s[..6]) == 55.0 by { SumAppend(s[..5], s[5]); assert s[..6] == s[..5] + [s[5]]; }
    assert Sum(s[..7]) == 91.0 by { SumAppend(s[..6], s[6]); assert s[..7] == s[..6] + [s[6]]; }
    assert Sum(s[..8]) == 140.0 by { SumAppend(s[..7], s[7]); assert s[..8] == s[..7] + [s[7]]; }
    assert Sum(s[..9]) == 204.0 by { SumAppend(s[..8], s[8]); assert s[..9] == s[..8] + [s[8]]; }
    assert Sum(s[..10]) == 285.0 by { SumAppend(s[..9], s[9]); assert s[..10] == s[..9] + [s[9]]; }
    SumAppend(s[..10], s[10]);
    assert s == s[..10] + [s[10]];
  }
}
