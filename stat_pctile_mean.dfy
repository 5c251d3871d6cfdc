/**
 * NumberStatPctileMean in count mode (maxAgeSec <= 0): a queue holding the
 * most recent maxCount samples, with window and all-time totals, all-time
 * minimum and maximum, and a cached sorted copy of the window that Add
 * discards and Median rebuilds.  The ghost `history` is every sample ever
 * added; Valid() ties every field to it.
 */
module StatPctileMean {
  import opened Wrappers
  import opened SampleMath

  /** Dequeue on an empty queue: the InvalidOperationException Add raises when maxCount <= 0. */
  datatype StatError = DequeueFromEmptyQueue

  /**
   * What the counters, totals and extremes must be after the samples `h`
   * arrived at a window of capacity `maxCount`: `h` is the samples already
   * dequeued (`evicted`) followed by the queue.
   */
  ghost predicate Consistent(h: seq<real>, evicted: seq<real>, maxCount: int, countAll: int, samples: seq<real>,
                             total: real, totalAll: real, minAll: real, maxAll: real)
  {
    && countAll == |h|
    && h == evicted + samples
    && |samples| == WindowSize(|h|, maxCount)
    && total == Sum(samples)
    && totalAll == Sum(h)
    && (h == [] ==> minAll == 0.0 && maxAll == 0.0)
    && (h != [] ==> minAll == SeqMin(h) && maxAll == SeqMax(h))
  }

  /** The queue of a consistent state is the window of the history. */
  lemma ConsistentWindow(h: seq<real>, evicted: seq<real>, maxCount: int, countAll: int, samples: seq<real>,
                         total: real, totalAll: real, minAll: real, maxAll: real)
    requires Consistent(h, evicted, maxCount, countAll, samples, total, totalAll, minAll, maxAll)
    ensures samples == Window(h, maxCount)
  {
  }

  /**
   * One Add in count mode, on values: a full window drops its oldest sample
   * (into `evicted`), then the new sample is appended and the extremes folded.
   */
  lemma AddStep(h: seq<real>, evicted: seq<real>, maxCount: int, countAll: int, samples: seq<real>,
                total: real, totalAll: real, minAll: real, maxAll: real, n: real,
                h': seq<real>, e: seq<real>, s: seq<real>, t: real, ta: real, lo: real, hi: real)
    requires maxCount > 0
    requires Consistent(h, evicted, maxCount, countAll, samples, total, totalAll, minAll, maxAll)
    requires h' == h + [n] && ta == totalAll + n
    requires |samples| >= maxCount ==> samples != [] && e == evicted + [samples[0]] && s == samples[1..] + [n] && t == total - samples[0] + n
    requires |samples| < maxCount ==> e == evicted && s == samples + [n] && t == total + n
    requires lo == (if countAll + 1 == 1 then n else SampleMath.Min(minAll, n))
    requires hi == (if countAll + 1 == 1 then n else SampleMath.Max(maxAll, n))
    ensures Consistent(h', e, maxCount, countAll + 1, s, t, ta, lo, hi)
  {
    QueueStep(h, evicted, samples, maxCount, n);
    SumStep(samples, total, maxCount, n);
    SumAppend(h, n);
    ExtremesStep(h, countAll, minAll, maxAll, n);
  }

  lemma QueueStep(h: seq<real>, evicted: seq<real>, samples: seq<real>, maxCount: int, n: real)
    requires maxCount > 0 && h == evicted + samples && |samples| == WindowSize(|h|, maxCount)
    ensures |samples| >= maxCount ==> && samples != []
                                      && h + [n] == (evicted + [samples[0]]) + (samples[1..] + [n])
                                      && |samples[1..] + [n]| == WindowSize(|h + [n]|, maxCount)
    ensures |samples| < maxCount ==> h + [n] == evicted + (samples + [n])
                                     && |samples + [n]| == WindowSize(|h + [n]|, maxCount)
  {
    if |samples| >= maxCount {
      assert samples == [samples[0]] + samples[1..];
    }
  }

  lemma SumStep(samples: seq<real>, total: real, maxCount: int, n: real)
    requires total == Sum(samples) && (|samples| >= maxCount ==> samples != [])
    ensures |samples| >= maxCount ==> total - samples[0] + n == Sum(samples[1..] + [n])
    ensures |samples| < maxCount ==> total + n == Sum(samples + [n])
  {
    if |samples| >= maxCount {
      SumDropFirst(samples);
      SumAppend(samples[1..], n);
    } else {
      SumAppend(samples, n);
    }
  }

  class NumberStatPctileMean {
    var maxCount: int
    var maxAgeSec: int
    var countAll: int
    /** The sample queue, oldest first. */
    var samples: seq<real>
    var total: real
    var totalAll: real
    var minAll: real
    var maxAll: real
    /** The cached sorted window; None stands for the null list. */
    var sorted: Option<seq<real>>
    /** Every sample added so far, in arrival order. */
    ghost var history: seq<real>
    /** The samples dequeued so far: `history` without the queue. */
    ghost var evicted: seq<real>

    ghost predicate Valid()
      reads this
    {
      && maxAgeSec <= 0
      && Consistent(history, evicted, maxCount, countAll, samples, total, totalAll, minAll, maxAll)
      && (sorted.Some? ==> sorted.value == SortSeq(samples))
    }

    /** Every field except the sorted cache. */
    function Figures(): (int, int, int, seq<real>, real, real, real, real)
      reads this
    {
      (maxCount, maxAgeSec, countAll, samples, total, totalAll, minAll, maxAll)
    }

    constructor (maxCount: int, maxAgeSec: int)
      requires maxAgeSec <= 0
      ensures Valid() && history == [] && sorted == None
      ensures this.maxCount == maxCount && this.maxAgeSec == maxAgeSec
    {
      this.maxCount := maxCount;
      this.maxAgeSec := maxAgeSec;
      countAll := 0;
      samples := [];
      total, totalAll, minAll, maxAll := 0.0, 0.0, 0.0, 0.0;
      sorted := None;
      history, evicted := [], [];
    }

    /**
     * Add one sample: a full queue first loses its oldest sample.  With
     * maxCount <= 0 the queue is always "full" and empty, so the dequeue
     * fails before anything changes.
     */
    method Add(n: real) returns (res: Outcome<StatError>)
      requires Valid()
      modifies this
      ensures Valid()
      ensures maxCount <= 0 ==> res == Fail(DequeueFromEmptyQueue) && unchanged(this)
      ensures maxCount > 0 ==> && res == Pass
                               && history == old(history) + [n]
                               && samples == (if |old(samples)| >= maxCount then old(samples)[1..] else old(samples)) + [n]
                               && sorted == None
                               && maxCount == old(maxCount) && maxAgeSec == old(maxAgeSec)
    {
      if |samples| >= maxCount && samples == [] {
        return Fail(DequeueFromEmptyQueue);
      }
      ghost var h0, e0, c0, s0, t0, ta0, lo0, hi0 := history, evicted, countAll, samples, total, totalAll, minAll, maxAll;
      if |samples| >= maxCount {
        total := total - samples[0];
        evicted := evicted + [samples[0]];
        samples := samples[1..];
      }
      countAll := countAll + 1;
      samples := samples + [n];
      total := total + n;
      totalAll := totalAll + n;
      if countAll == 1 {
        minAll, maxAll := n, n;
      } else {
        minAll := SampleMath.Min(minAll, n);
        maxAll := SampleMath.Max(maxAll, n);
      }
      sorted := None;
      history := history + [n];
      AddKeepsValid(h0, e0, c0, s0, t0, ta0, lo0, hi0, n);
      res := Pass;
    }

    /** The fields Add leaves behind satisfy the invariant again. */
    lemma AddKeepsValid(h0: seq<real>, e0: seq<real>, c0: int, s0: seq<real>,
                        t0: real, ta0: real, lo0: real, hi0: real, n: real)
      requires maxAgeSec <= 0 && maxCount > 0 && sorted == None
      requires Consistent(h0, e0, maxCount, c0, s0, t0, ta0, lo0, hi0)
      requires history == h0 + [n] && totalAll == ta0 + n && countAll == c0 + 1
      requires |s0| >= maxCount ==> s0 != [] && evicted == e0 + [s0[0]] && samples == s0[1..] + [n] && total == t0 - s0[0] + n
      requires |s0| < maxCount ==> evicted == e0 && samples == s0 + [n] && total == t0 + n
      requires minAll == (if c0 + 1 == 1 then n else SampleMath.Min(lo0, n))
      requires maxAll == (if c0 + 1 == 1 then n else SampleMath.Max(hi0, n))
      ensures Valid()
    {
      AddStep(h0, e0, maxCount, c0, s0, t0, ta0, lo0, hi0, n, history, evicted, samples, total, totalAll, minAll, maxAll);
    }

    function CountAll(): (c: int)
      reads this
      requires Valid()
      ensures c == |history|
    {
      countAll
    }

    /** The number of samples in the window: all of them until maxCount is reached, then maxCount. */
    function Count(): (c: int)
      reads this
      requires Valid()
      ensures maxCount <= 0 ==> c == 0
      ensures maxCount > 0 ==> c == if |history| < maxCount then |history| else maxCount
    {
      |samples|
    }

    /** The mean of the window, 0 when it is empty. */
    function Average(): (a: real)
      reads this
      requires Valid()
      ensures a == Mean(Window(history, maxCount))
    {
      ConsistentWindow(history, evicted, maxCount, countAll, samples, total, totalAll, minAll, maxAll);
      if |samples| == 0 then 0.0 else total / (|samples| as real)
    }

    /** The mean of every sample ever added, 0 when there are none. */
    function AverageAll(): (a: real)
      reads this
      requires Valid()
      ensures a == Mean(history)
    {
      if countAll == 0 then 0.0 else totalAll / (countAll as real)
    }

    /** The smallest sample ever added, 0 when there are none. */
    function MinAll(): (m: real)
      reads this
      requires Valid()
      ensures history == [] ==> m == 0.0
      ensures history != [] ==> m in history && forall i :: 0 <= i < |history| ==> m <= history[i]
    {
      minAll
    }

    /** The largest sample ever added, 0 when there are none. */
    function MaxAll(): (m: real)
      reads this
      requires Valid()
      ensures history == [] ==> m == 0.0
      ensures history != [] ==> m in history && forall i :: 0 <= i < |history| ==> history[i] <= m
    {
      maxAll
    }

    /** Build the sorted copy of the window unless a valid one is cached. */
    method SortSamples()
      requires Valid()
      modifies this
      ensures Valid() && Figures() == old(Figures()) && history == old(history)
      ensures sorted == Some(SortSeq(samples))
      ensures old(sorted).Some? ==> sorted == old(sorted)
    {
      if sorted.Some? {
        return;
      }
      sorted := Some(SortSeq(samples));
    }

    /**
     * The lower median of the window (0 when it is empty): a window sample
     * with at most (Count-1)/2 samples below it and more than (Count-1)/2 at
     * or below it.
     */
    method Median() returns (m: real)
      requires Valid()
      modifies this
      ensures Valid() && Figures() == old(Figures()) && history == old(history)
      ensures m == MedianOf(samples)
      ensures samples == [] ==> m == 0.0 && sorted == old(sorted)
      ensures samples != [] ==> && m in samples
                                && CountLt(samples, m) <= (|samples| - 1) / 2 < CountLe(samples, m)
                                && sorted == Some(SortSeq(samples))
    {
      if |samples| == 0 {
        return 0.0;
      }
      SortSamples();
      var s := sorted.value;
      m := s[(|s| - 1) / 2];
      MedianRank(samples);
    }
  }
}
