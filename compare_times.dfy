/** Comparing a sequential and a parallel run (utils/compare_times.py): the
    relative difference of the two elapsed times, as a percentage of the
    sequential time, and one of three verdicts.

    Times are `real` (the binary floating point of the source is not
    modelled); the log lines become the `Verdict` they would announce. */
module CompareTimes {
  import opened Outcomes

  /** The message Python gives when a float is divided by zero. */
  const FloatDivisionByZero: string := "float division by zero"

  /** The announced verdict, with the absolute percentage where one is shown. */
  datatype Verdict =
    | SequentialFaster(percent: real)
    | ParallelFaster(percent: real)
    | Equal

  function Abs(x: real): (r: real)
    ensures r >= 0.0 && (r == x || r == -x)
  {
    if x < 0.0 then -x else x
  }

  /** `compare_execution_times`: the percentage is computed before any branch,
      so a zero sequential time fails whatever the parallel time; otherwise
      exactly one verdict, chosen by comparing the two times, and a verdict
      naming a winner reports |seq - par| as a percentage of |seq|. */
  function CompareExecutionTimes(sequentialTime: real, parallelTime: real): (r: Outcome<Verdict>)
    ensures r.Err? <==> sequentialTime == 0.0
    ensures r.Err? ==> r.error == FloatDivisionByZero
    ensures r.Ok? ==> (r.value.SequentialFaster? <==> sequentialTime < parallelTime)
    ensures r.Ok? ==> (r.value.ParallelFaster? <==> sequentialTime > parallelTime)
    ensures r.Ok? ==> (r.value.Equal? <==> sequentialTime == parallelTime)
    ensures r.Ok? && !r.value.Equal? ==>
      r.value.percent > 0.0 &&
      r.value.percent * Abs(sequentialTime) == Abs(sequentialTime - parallelTime) * 100.0
  {
    if sequentialTime == 0.0 then Err(FloatDivisionByZero)
    else
      var difference := (sequentialTime - parallelTime) / sequentialTime * 100.0;
      var shown := Abs(difference);
      QuotientScale(sequentialTime - parallelTime, sequentialTime);
      if sequentialTime < parallelTime then Ok(SequentialFaster(shown))
      else if sequentialTime > parallelTime then Ok(ParallelFaster(shown))
      else Ok(Equal)
  }

  /** |a / b * 100| * |b| == |a| * 100 for a non-zero b. */
  lemma QuotientScale(a: real, b: real)
    requires b != 0.0
    ensures Abs(a / b * 100.0) * Abs(b) == Abs(a) * 100.0
    ensures a != 0.0 ==> Abs(a / b * 100.0) > 0.0
  {
    assert a / b * 100.0 * b == a * 100.0;
    if a / b * 100.0 < 0.0 {
      assert Abs(a / b * 100.0) * Abs(b) == -(a / b * 100.0) * Abs(b);
    }
  }

  /** A parallel run that is not slower than a sequential one taking some time
      saves less than the whole of it: the percentage lies in [0, 100). */
  lemma SavingBelowHundred(sequentialTime: real, parallelTime: real)
    requires 0.0 < parallelTime <= sequentialTime
    ensures CompareExecutionTimes(sequentialTime, parallelTime).Ok?
    ensures var v := CompareExecutionTimes(sequentialTime, parallelTime).value;
      v.Equal? || (v.ParallelFaster? && 0.0 <= v.percent < 100.0)
  {
    var v := CompareExecutionTimes(sequentialTime, parallelTime).value;
    if v.ParallelFaster? {
      assert Abs(sequentialTime) == sequentialTime && Abs(sequentialTime - parallelTime) == sequentialTime - parallelTime;
      BelowHundred(v.percent, sequentialTime, parallelTime);
    }
  }

  /** p * s == (s - q) * 100 with 0 < q <= s puts p below 100. */
  lemma BelowHundred(p: real, s: real, q: real)
    requires 0.0 < q <= s && p * s == (s - q) * 100.0
    ensures p < 100.0
  {
    assert (p - 100.0) * s == p * s - 100.0 * s;
    assert (p - 100.0) * s == -100.0 * q;
    NegativeFactor(p - 100.0, s);
  }

  lemma NegativeFactor(x: real, y: real)
    requires y > 0.0 && x * y < 0.0
    ensures x < 0.0
  {
  }

  /** The verdict does not depend on the unit the times are measured in. */
  lemma UnitIndependent(sequentialTime: real, parallelTime: real, k: real)
    requires k > 0.0
    ensures CompareExecutionTimes(k * sequentialTime, k * parallelTime)
         == CompareExecutionTimes(sequentialTime, parallelTime)
  {
    if sequentialTime != 0.0 {
      var s, p := sequentialTime, parallelTime;
      assert (k * s - k * p) / (k * s) == (s - p) / s by {
        assert k * s - k * p == k * (s - p);
        assert (k * (s - p)) / (k * s) * s == s - p;
      }
    }
  }
}
