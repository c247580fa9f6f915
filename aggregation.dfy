/** Per-group aggregation of a split frame and the merge of the partial results
    (level_02/exercice_09.py).

    Values are exact reals. The standard deviation of a group is left abstract: it
    is whatever `spread` gives for the group's values. */
module Aggregation {
  import opened Outcomes
  import opened Sequences
  import opened FanIn
  import opened Partitioning

  datatype Sample = Sample(group: string, value: real)

  /** One row of an aggregate: `sum`, `mean` and `std` of a group. */
  datatype Stats = Stats(sum: real, mean: real, std: real)

  function SumR(xs: seq<real>): real
  {
    if xs == [] then 0.0 else SumR(xs[..|xs| - 1]) + xs[|xs| - 1]
  }

  lemma {:induction false} SumRAppend(a: seq<real>, b: seq<real>)
    ensures SumR(a + b) == SumR(a) + SumR(b)
    decreases |b|
  {
    if b != [] {
      assert (a + b)[..|a + b| - 1] == a + b[..|b| - 1];
      SumRAppend(a, b[..|b| - 1]);
    } else {
      assert a + b == a;
    }
  }

  lemma SumROne(x: real)
    ensures SumR([x]) == x
  {
    assert [x][..0] == [];
  }

  /** Taking out one term. */
  lemma SumRRemove(b: seq<real>, j: nat)
    requires j < |b|
    ensures SumR(b) == SumR(b[..j] + b[j + 1..]) + b[j]
  {
    var pre, x, post := b[..j], b[j], b[j + 1..];
    SplitAt(b, j);
    SumRAppend(pre, [x] + post);
    SumRAppend([x], post);
    SumRAppend(pre, post);
    SumROne(x);
  }

  /** A sum does not depend on the order of its terms. */
  lemma {:induction false} SumRPermutation(a: seq<real>, b: seq<real>)
    requires multiset(a) == multiset(b)
    ensures SumR(a) == SumR(b)
    decreases |a|
  {
    if a == [] {
      assert |b| == |multiset(b)| == 0;
    } else {
      var x := a[|a| - 1];
      var front := a[..|a| - 1];
      assert x in b by {
        assert x in multiset(a);
      }
      var j := IndexOf(b, x);
      RemoveAt(b, j);
      assert a == front + [x];
      assert multiset(front) == multiset(a) - multiset{x};
      SumRPermutation(front, b[..j] + b[j + 1..]);
      SumRRemove(b, j);
    }
  }

  /** The mean of some values; never asked of an empty list below. */
  function Mean(xs: seq<real>): real
  {
    if xs == [] then 0.0 else SumR(xs) / (|xs| as real)
  }

  lemma MeanPermutation(a: seq<real>, b: seq<real>)
    requires multiset(a) == multiset(b)
    ensures Mean(a) == Mean(b)
  {
    SumRPermutation(a, b);
    assert |a| == |multiset(a)| == |multiset(b)| == |b|;
  }

  /** The values of group g, in row order. */
  function Values(rows: seq<Sample>, g: string): seq<real>
  {
    if rows == [] then []
    else Values(rows[..|rows| - 1], g) + (if rows[|rows| - 1].group == g then [rows[|rows| - 1].value] else [])
  }

  lemma {:induction false} ValuesAppend(a: seq<Sample>, b: seq<Sample>, g: string)
    ensures Values(a + b, g) == Values(a, g) + Values(b, g)
    decreases |b|
  {
    if b != [] {
      assert (a + b)[..|a + b| - 1] == a + b[..|b| - 1];
      ValuesAppend(a, b[..|b| - 1], g);
    } else {
      assert a + b == a;
    }
  }

  /** The group labels present in the rows. */
  function Groups(rows: seq<Sample>): set<string>
  {
    set r | r in rows :: r.group
  }

  /** A group is present exactly when it has values. */
  lemma {:induction false} GroupPresent(rows: seq<Sample>, g: string)
    ensures g in Groups(rows) <==> Values(rows, g) != []
  {
    if rows != [] {
      var front := rows[..|rows| - 1];
      GroupPresent(front, g);
      assert rows == front + [rows[|rows| - 1]];
      assert Groups(rows) == Groups(front) + {rows[|rows| - 1].group};
    }
  }

  /** `aggregate_group`: for each group present, the sum, mean and spread of its values. */
  function AggregateGroup(rows: seq<Sample>, spread: seq<real> -> real): (m: map<string, Stats>)
    ensures m.Keys == Groups(rows)
    ensures forall g :: g in m ==> m[g].sum == SumR(Values(rows, g))
    ensures forall g :: g in m ==> |Values(rows, g)| >= 1 && m[g].mean == m[g].sum / (|Values(rows, g)| as real)
  {
    GroupsHaveValues(rows);
    map g | g in Groups(rows) :: Stats(SumR(Values(rows, g)), Mean(Values(rows, g)), spread(Values(rows, g)))
  }

  lemma GroupsHaveValues(rows: seq<Sample>)
    ensures forall g :: g in Groups(rows) ==> Values(rows, g) != []
  {
    forall g | g in Groups(rows)
      ensures Values(rows, g) != []
    {
      GroupPresent(rows, g);
    }
  }

  /** The partial statistics of group g, if the partial result has it. */
  function Pick(g: string): map<string, Stats> -> Outcome<Stats>
  {
    m => if g in m then Ok(m[g]) else Err(g)
  }

  /** The partial statistics of group g, from the partial results that have it. */
  function Holding(results: seq<map<string, Stats>>, g: string): seq<Stats>
  {
    Successes(Map(Pick(g), results))
  }

  function Sums(ss: seq<Stats>): seq<real>
  {
    Map((s: Stats) => s.sum, ss)
  }

  function Means(ss: seq<Stats>): seq<real>
  {
    Map((s: Stats) => s.mean, ss)
  }

  function Stds(ss: seq<Stats>): seq<real>
  {
    Map((s: Stats) => s.std, ss)
  }

  /** Every group of any partial result. */
  function AllGroups(results: seq<map<string, Stats>>): set<string>
  {
    if results == [] then {} else AllGroups(results[..|results| - 1]) + results[|results| - 1].Keys
  }

  /** The merge: `concat`, then `groupby("group")` with `sum` of the sums, `mean`
      of the means and `mean` of the stds. */
  function Merge(results: seq<map<string, Stats>>): (m: map<string, Stats>)
    ensures m.Keys == AllGroups(results)
  {
    map g | g in AllGroups(results) ::
      var h := Holding(results, g);
      Stats(SumR(Sums(h)), Mean(Means(h)), Mean(Stds(h)))
  }

  /** The merge does not depend on the order in which partial results arrive. */
  lemma MergeOrderIndependent(a: seq<map<string, Stats>>, b: seq<map<string, Stats>>)
    requires multiset(a) == multiset(b)
    ensures Merge(a) == Merge(b)
  {
    AllGroupsPermutation(a, b);
    forall g | g in AllGroups(a)
      ensures Merge(a)[g] == Merge(b)[g]
    {
      MapPermutation(Pick(g), a, b);
      SuccessesPermutation(Map(Pick(g), a), Map(Pick(g), b));
      var ha, hb := Holding(a, g), Holding(b, g);
      MapPermutation((s: Stats) => s.sum, ha, hb);
      MapPermutation((s: Stats) => s.mean, ha, hb);
      MapPermutation((s: Stats) => s.std, ha, hb);
      SumRPermutation(Sums(ha), Sums(hb));
      MeanPermutation(Means(ha), Means(hb));
      MeanPermutation(Stds(ha), Stds(hb));
    }
  }

  lemma {:induction false} AllGroupsMember(results: seq<map<string, Stats>>, g: string)
    ensures g in AllGroups(results) <==> exists i :: 0 <= i < |results| && g in results[i]
  {
    if results != [] {
      var front := results[..|results| - 1];
      AllGroupsMember(front, g);
      if g in AllGroups(front) {
        var i :| 0 <= i < |front| && g in front[i];
        assert g in results[i];
      }
      if exists i :: 0 <= i < |results| && g in results[i] {
        var i :| 0 <= i < |results| && g in results[i];
        if i < |results| - 1 {
          assert g in front[i];
        }
      }
    }
  }

  lemma AllGroupsPermutation(a: seq<map<string, Stats>>, b: seq<map<string, Stats>>)
    requires multiset(a) == multiset(b)
    ensures AllGroups(a) == AllGroups(b)
  {
    forall g ensures g in AllGroups(a) <==> g in AllGroups(b) {
      AllGroupsMember(a, g);
      AllGroupsMember(b, g);
      if g in AllGroups(a) {
        var i :| 0 <= i < |a| && g in a[i];
        assert a[i] in multiset(b) by {
          assert a[i] in multiset(a);
        }
        var j :| 0 <= j < |b| && b[j] == a[i];
      }
      if g in AllGroups(b) {
        var i :| 0 <= i < |b| && g in b[i];
        assert b[i] in multiset(a) by {
          assert b[i] in multiset(b);
        }
        var j :| 0 <= j < |a| && a[j] == b[i];
      }
    }
  }

  /** The partial result of one part, as a worker computes it. */
  function AggregatorOf(spread: seq<real> -> real): seq<Sample> -> map<string, Stats>
  {
    rows => AggregateGroup(rows, spread)
  }

  /** The partial result of part i. */
  function Aggregator(parts: seq<seq<Sample>>, spread: seq<real> -> real): int -> map<string, Stats>
  {
    i => if 0 <= i < |parts| then AggregateGroup(parts[i], spread) else map[]
  }

  /** The partial results of the parts, in part order. */
  function PartialResults(parts: seq<seq<Sample>>, spread: seq<real> -> real): seq<map<string, Stats>>
  {
    Map(AggregatorOf(spread), parts)
  }

  lemma AggregatorInOrder(parts: seq<seq<Sample>>, spread: seq<real> -> real)
    ensures Map(Aggregator(parts, spread), Range(0, |parts|)) == PartialResults(parts, spread)
  {
  }

  lemma PartialResultsSnoc(parts: seq<seq<Sample>>, last: seq<Sample>, spread: seq<real> -> real)
    ensures PartialResults(parts + [last], spread) == PartialResults(parts, spread) + [AggregateGroup(last, spread)]
  {
    MapAppend(AggregatorOf(spread), parts, [last]);
  }

  lemma GroupsAppend(a: seq<Sample>, b: seq<Sample>)
    ensures Groups(a + b) == Groups(a) + Groups(b)
  {
    assert forall r :: r in a + b <==> r in a || r in b;
  }

  /** The merge has exactly the groups of the rows. */
  lemma {:induction false} MergedGroups(parts: seq<seq<Sample>>, spread: seq<real> -> real)
    ensures AllGroups(PartialResults(parts, spread)) == Groups(Concat(parts))
    decreases |parts|
  {
    if parts == [] {
      assert Concat(parts) == [];
    } else {
      var front, last := parts[..|parts| - 1], parts[|parts| - 1];
      MergedGroups(front, spread);
      assert parts == front + [last];
      ConcatSnoc(front, last);
      PartialResultsSnoc(front, last, spread);
      var rs := PartialResults(parts, spread);
      assert rs[..|rs| - 1] == PartialResults(front, spread);
      GroupsAppend(Concat(front), last);
    }
  }

  /** What the last part adds to the merged sum of g is its own sum of g. */
  lemma LastContribution(last: seq<Sample>, spread: seq<real> -> real, g: string)
    ensures var m := AggregateGroup(last, spread);
      SumR(Sums(if g in m then [m[g]] else [])) == SumR(Values(last, g))
  {
    var m := AggregateGroup(last, spread);
    if g in m {
      assert Sums([m[g]]) == [m[g].sum];
      assert SumR([m[g].sum]) == m[g].sum by {
        assert [m[g].sum][..0] == [];
      }
    } else {
      GroupPresent(last, g);
      assert Sums([]) == [];
    }
  }

  /** Each merged sum is the group's sum over all rows (0 for an absent group). */
  lemma {:induction false} MergedSum(parts: seq<seq<Sample>>, spread: seq<real> -> real, g: string)
    ensures SumR(Sums(Holding(PartialResults(parts, spread), g))) == SumR(Values(Concat(parts), g))
    decreases |parts|
  {
    if parts == [] {
      assert Concat(parts) == [];
      assert Map(Pick(g), PartialResults(parts, spread)) == [];
    } else {
      var front, last := parts[..|parts| - 1], parts[|parts| - 1];
      MergedSum(front, spread, g);
      assert parts == front + [last];
      ConcatSnoc(front, last);
      PartialResultsSnoc(front, last, spread);
      var rsFront, m := PartialResults(front, spread), AggregateGroup(last, spread);
      var e := if g in m then [m[g]] else [];
      HoldingSnoc(rsFront, m, g);
      MapAppend((s: Stats) => s.sum, Holding(rsFront, g), e);
      SumRAppend(Sums(Holding(rsFront, g)), Sums(e));
      LastContribution(last, spread, g);
      ValuesAppend(Concat(front), last, g);
      SumRAppend(Values(Concat(front), g), Values(last, g));
    }
  }

  lemma HoldingSnoc(rs: seq<map<string, Stats>>, m: map<string, Stats>, g: string)
    ensures Holding(rs + [m], g) == Holding(rs, g) + (if g in m then [m[g]] else [])
  {
    MapAppend(Pick(g), rs, [m]);
    assert Map(Pick(g), [m]) == [Pick(g)(m)];
    SuccessesSnoc(Map(Pick(g), rs), Pick(g)(m));
    assert Contribution(Pick(g)(m)) == if g in m then [m[g]] else [];
  }

  /** `apply_aggregation_sequential`: the aggregate of the whole frame. */
  function AggregationSequential(df: seq<Sample>, spread: seq<real> -> real): (m: map<string, Stats>)
    ensures m.Keys == Groups(df)
  {
    AggregateGroup(df, spread)
  }

  /** `apply_aggregation_parallel`: split into n_workers parts, aggregate each part
      in a worker, append the partial results in completion order `order`, merge.
      The merge has one row per group of the frame, each merged sum is the group's
      sum over the whole frame, and the merge is the one of the partial results in
      part order. */
  method ApplyAggregationParallel(df: seq<Sample>, nWorkers: int, order: seq<int>, spread: seq<real> -> real)
    returns (r: Outcome<map<string, Stats>>)
    requires nWorkers >= 1 ==> multiset(order) == multiset(Range(0, nWorkers))
    ensures nWorkers == 0 ==> r == Err(DivisionByZero)
    ensures nWorkers < 0 ==> r == Err(NoWorkers)
    ensures nWorkers >= 1 ==> r.Ok?
    ensures r.Ok? ==> r.value.Keys == Groups(df)
    ensures r.Ok? ==> forall g :: g in r.value ==> r.value[g].sum == AggregationSequential(df, spread)[g].sum
    ensures r.Ok? ==> r.value == Merge(PartialResults(Split(df, nWorkers).value, spread))
  {
    var split := SplitDataFrame(df, nWorkers);
    if split.Err? {
      return Err(split.error);
    }
    if nWorkers < 0 {
      return Err(NoWorkers);
    }
    var parts := split.value;
    var results: seq<map<string, Stats>> := [];
    var k := 0;
    while k < |order|
      invariant 0 <= k <= |order|
      invariant results == Map(Aggregator(parts, spread), order[..k])
    {
      results := results + [Aggregator(parts, spread)(order[k])];
      k := k + 1;
      assert order[..k] == order[..k - 1] + [order[k - 1]];
      MapAppend(Aggregator(parts, spread), order[..k - 1], [order[k - 1]]);
    }
    assert order[..|order|] == order;
    r := Ok(Merge(results));
    MapPermutation(Aggregator(parts, spread), order, Range(0, |parts|));
    AggregatorInOrder(parts, spread);
    MergeOrderIndependent(results, PartialResults(parts, spread));
    MergedGroups(parts, spread);
    SplitCovers(df, nWorkers);
    forall g | g in r.value
      ensures r.value[g].sum == AggregationSequential(df, spread)[g].sum
    {
      MergedSum(parts, spread, g);
    }
  }

  /** The statistics of a single group with the given values. */
  lemma OneGroup(rows: seq<Sample>, vs: seq<real>, spread: seq<real> -> real)
    requires vs != [] && |rows| == |vs| && forall i :: 0 <= i < |rows| ==> rows[i] == Sample("A", vs[i])
    ensures AggregateGroup(rows, spread).Keys == {"A"} && "A" in AggregateGroup(rows, spread)
    ensures AggregateGroup(rows, spread)["A"].sum == SumR(vs)
    ensures AggregateGroup(rows, spread)["A"].mean == Mean(vs)
  {
    OneGroupValues(rows, vs);
    assert Groups(rows) == {"A"} by {
      assert rows[0] in rows;
    }
  }

  lemma {:induction false} OneGroupValues(rows: seq<Sample>, vs: seq<real>)
    requires |rows| == |vs| && forall i :: 0 <= i < |rows| ==> rows[i] == Sample("A", vs[i])
    ensures Values(rows, "A") == vs
  {
    if rows != [] {
      OneGroupValues(rows[..|rows| - 1], vs[..|vs| - 1]);
    }
  }

  lemma SumOfTwo(x: real, y: real)
    ensures SumR([x, y]) == x + y
  {
    assert [x, y][..1] == [x];
    assert [x][..0] == [];
    assert SumR([x]) == x;
  }

  lemma SumOfThree(x: real, y: real, z: real)
    ensures SumR([x, y, z]) == x + y + z
  {
    assert [x, y, z][..2] == [x, y];
    SumOfTwo(x, y);
  }

  /** Two partial results that both hold g merge into the mean of their means. */
  lemma MergeTwo(m0: map<string, Stats>, m1: map<string, Stats>, g: string)
    requires g in m0 && g in m1
    ensures g in Merge([m0, m1]) && Merge([m0, m1])[g].mean == (m0[g].mean + m1[g].mean) / 2.0
  {
    var rs := [m0, m1];
    assert rs == [m0] + [m1];
    HoldingSnoc([], m0, g);
    assert [m0] == [] + [m0];
    HoldingSnoc([m0], m1, g);
    var h := Holding(rs, g);
    assert h == [m0[g], m1[g]];
    assert Means(h) == [m0[g].mean, m1[g].mean];
    assert g in AllGroups(rs) by {
      AllGroupsMember(rs, g);
      assert g in rs[0];
    }
    SumOfTwo(m0[g].mean, m1[g].mean);
  }

  /** A part holding one row of group A: its mean is that row's value. */
  lemma SingleRowMean(rows: seq<Sample>, x: real, spread: seq<real> -> real)
    requires rows == [Sample("A", x)]
    ensures "A" in AggregateGroup(rows, spread) && AggregateGroup(rows, spread)["A"].mean == x
  {
    OneGroup(rows, [x], spread);
    MeanOne(x);
  }

  lemma MeanOne(x: real)
    ensures Mean([x]) == x
  {
    SumROne(x);
    assert |[x]| as real == 1.0;
  }

  /** The second partial result of the example: mean 2.5. */
  lemma SecondPartMean(rows: seq<Sample>, spread: seq<real> -> real)
    requires rows == [Sample("A", 2.0), Sample("A", 3.0)]
    ensures "A" in AggregateGroup(rows, spread) && AggregateGroup(rows, spread)["A"].mean == 2.5
  {
    var vs := [2.0, 3.0];
    OneGroup(rows, vs, spread);
    SumOfTwo(2.0, 3.0);
    assert Mean(vs) == 5.0 / 2.0;
  }

  /** The merged mean of the example: the mean of 1 and 2.5. */
  lemma MergedMeanExample(spread: seq<real> -> real)
    ensures Merge(PartialResults([[Sample("A", 1.0)], [Sample("A", 2.0), Sample("A", 3.0)]], spread))["A"].mean == 1.75
  {
    var p0, p1 := [Sample("A", 1.0)], [Sample("A", 2.0), Sample("A", 3.0)];
    SingleRowMean(p0, 1.0, spread);
    SecondPartMean(p1, spread);
    var m0, m1 := AggregateGroup(p0, spread), AggregateGroup(p1, spread);
    TwoPartialResults(p0, p1, spread);
    MergeTwo(m0, m1, "A");
    assert (1.0 + 2.5) / 2.0 == 1.75;
  }

  lemma TwoPartialResults(p0: seq<Sample>, p1: seq<Sample>, spread: seq<real> -> real)
    ensures PartialResults([p0, p1], spread) == [AggregateGroup(p0, spread), AggregateGroup(p1, spread)]
  {
    assert [p0, p1] == [p0] + [p1];
    MapAppend(AggregatorOf(spread), [p0], [p1]);
  }

  /** The mean of the example over the whole frame: the mean of 1, 2 and 3. */
  lemma WholeMeanExample(spread: seq<real> -> real)
    ensures AggregationSequential(Concat([[Sample("A", 1.0)], [Sample("A", 2.0), Sample("A", 3.0)]]), spread)["A"].mean == 2.0
  {
    var p0, p1 := [Sample("A", 1.0)], [Sample("A", 2.0), Sample("A", 3.0)];
    ConcatOfTwo(p0, p1);
    WholeMean(p0 + p1, spread);
  }

  lemma ConcatOfTwo(p0: seq<Sample>, p1: seq<Sample>)
    ensures Concat([p0, p1]) == p0 + p1
  {
    ConcatSnoc([p0], p1);
    ConcatSingle(p0);
    assert [p0, p1] == [p0] + [p1];
  }

  /** The whole frame of the example: mean 2. */
  lemma WholeMean(rows: seq<Sample>, spread: seq<real> -> real)
    requires rows == [Sample("A", 1.0), Sample("A", 2.0), Sample("A", 3.0)]
    ensures "A" in AggregateGroup(rows, spread) && AggregateGroup(rows, spread)["A"].mean == 2.0
  {
    var vs := [1.0, 2.0, 3.0];
    OneGroup(rows, vs, spread);
    SumOfThree(1.0, 2.0, 3.0);
    assert Mean(vs) == 6.0 / 3.0;
  }

  /** The merged mean is the mean of the partition means, not the mean over the
      whole frame: with parts [1] and [2, 3] of one group it is 1.75, not 2. */
  lemma MeanOfMeansIsNotTheMean(spread: seq<real> -> real)
    ensures var parts := [[Sample("A", 1.0)], [Sample("A", 2.0), Sample("A", 3.0)]];
      Merge(PartialResults(parts, spread))["A"].mean != AggregationSequential(Concat(parts), spread)["A"].mean
  {
    MergedMeanExample(spread);
    WholeMeanExample(spread);
  }
}
