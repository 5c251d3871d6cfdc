/**
 * NumberStatAvg: running count, total, minimum and maximum of a stream of
 * samples, without storing the samples.  The ghost `history` is the
 * sequence of samples added so far; Valid() ties every field to it.
 */
module StatAvg {
  import opened SampleMath

  class NumberStatAvg {
    var count: int
    var total: real
    var min: real
    var max: real
    /** Every sample added so far, in arrival order. */
    ghost var history: seq<real>

    ghost predicate Valid()
      reads this
    {
      && count == |history|
      && total == Sum(history)
      && (history == [] ==> min == 0.0 && max == 0.0)
      && (history != [] ==> min == SeqMin(history) && max == SeqMax(history))
    }

    /** All fields start at their default value 0. */
    constructor ()
      ensures Valid() && history == []
    {
      count, total, min, max := 0, 0.0, 0.0, 0.0;
      history := [];
    }

    /** Add one sample; the first sample sets both minimum and maximum. */
    method Add(n: real)
      requires Valid()
      modifies this
      ensures Valid() && history == old(history) + [n]
    {
      ghost var h0, c0, t0, lo0, hi0 := history, count, total, min, max;
      count := count + 1;
      total := total + n;
      if count == 1 {
        min, max := n, n;
      } else {
        min := SampleMath.Min(min, n);
        max := SampleMath.Max(max, n);
      }
      history := history + [n];
      AddKeepsValid(h0, c0, t0, lo0, hi0, n);
    }

    /** The fields Add leaves behind satisfy the invariant again. */
    lemma AddKeepsValid(h0: seq<real>, c0: int, t0: real, lo0: real, hi0: real, n: real)
      requires c0 == |h0| && t0 == Sum(h0)
      requires h0 == [] ==> lo0 == 0.0 && hi0 == 0.0
      requires h0 != [] ==> lo0 == SeqMin(h0) && hi0 == SeqMax(h0)
      requires history == h0 + [n] && count == c0 + 1 && total == t0 + n
      requires min == (if c0 + 1 == 1 then n else SampleMath.Min(lo0, n))
      requires max == (if c0 + 1 == 1 then n else SampleMath.Max(hi0, n))
      ensures Valid()
    {
      SumAppend(h0, n);
      ExtremesStep(h0, c0, lo0, hi0, n);
    }

    function Count(): (c: int)
      reads this
      requires Valid()
      ensures c == |history|
    {
      count
    }

    /** The mean of all samples, 0 when there are none. */
    function Average(): (a: real)
      reads this
      requires Valid()
      ensures history == [] ==> a == 0.0
      ensures history != [] ==> a * (|history| as real) == Sum(history)
      ensures a == Mean(history)
    {
      if count == 0 then 0.0 else total / (count as real)
    }

    /** The smallest sample, 0 when there are none. */
    function Min(): (m: real)
      reads this
      requires Valid()
      ensures history == [] ==> m == 0.0
      ensures history != [] ==> m in history && forall i :: 0 <= i < |history| ==> m <= history[i]
      ensures history != [] ==> m == SeqMin(history)
    {
      min
    }

    /** The largest sample, 0 when there are none. */
    function Max(): (m: real)
      reads this
      requires Valid()
      ensures history == [] ==> m == 0.0
      ensures history != [] ==> m in history && forall i :: 0 <= i < |history| ==> history[i] <= m
      ensures history != [] ==> m == SeqMax(history)
    {
      max
    }
  }
}
