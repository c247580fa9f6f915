/** Row partitioning and the per-part transform (level_02/exercice_07.py), and the
    comprehension form of the same partitioning (level_02/exercice_09.py).

    A DataFrame is a sequence of rows; a row carries its index label, the columns
    `A` and `B`, and any columns added later. */
module Partitioning {
  import opened Outcomes
  import opened Sequences

  /** `n_workers`' default in `apply_in_parallel` and `apply_aggregation_parallel`. */
  const DefaultWorkers: int := 4

  /** Part i of n starts at `i * (len // n)`. */
  function PartStart(len: nat, n: nat, i: nat): nat
    requires n >= 1
  {
    i * (len / n)
  }

  /** Part i of n ends at `(i + 1) * (len // n)`, the last one at the end. */
  function PartEnd(len: nat, n: nat, i: nat): nat
    requires n >= 1
  {
    if i == n - 1 then len else (i + 1) * (len / n)
  }

  lemma PartBounds(len: nat, n: nat, i: nat)
    requires n >= 1 && i < n
    ensures PartStart(len, n, i) <= PartEnd(len, n, i) <= len
  {
    var size := len / n;
    DivFloor(len, n);
    if i < n - 1 {
      MulMonotone(i, i + 1, size);
      MulMonotone(i + 1, n, size);
    } else {
      MulMonotone(i, n, size);
    }
  }

  /** `n * (len // n)` never exceeds len. */
  lemma DivFloor(len: nat, n: nat)
    requires n >= 1
    ensures n * (len / n) <= len
  {
  }

  lemma MulMonotone(a: nat, b: nat, c: nat)
    requires a <= b
    ensures a * c <= b * c
  {
  }

  /** `df.iloc[start:end]` for part i of n. */
  function Part<T>(df: seq<T>, n: nat, i: nat): (p: seq<T>)
    requires n >= 1 && i < n
    ensures |p| == PartEnd(|df|, n, i) - PartStart(|df|, n, i)
    ensures forall j :: 0 <= j < |p| ==> PartStart(|df|, n, i) + j < |df| && p[j] == df[PartStart(|df|, n, i) + j]
  {
    PartBounds(|df|, n, i);
    df[PartStart(|df|, n, i)..PartEnd(|df|, n, i)]
  }

  /** `split_dataframe` in its comprehension form: n parts for n >= 1, a division
      by zero for n = 0, and no parts for n < 0 (the range is empty; the floor
      division by a negative count does not fail). */
  function Split<T>(df: seq<T>, n: int): (r: Outcome<seq<seq<T>>>)
    ensures r.Err? <==> n == 0
    ensures r.Err? ==> r.error == DivisionByZero
    ensures n < 0 ==> r == Ok([])
    ensures n >= 1 ==> r.Ok? && |r.value| == n && forall i :: 0 <= i < n ==> r.value[i] == Part(df, n, i)
  {
    if n == 0 then Err(DivisionByZero)
    else if n < 0 then Ok([])
    else Ok(seq(n, i requires 0 <= i < n => Part(df, n, i)))
  }

  /** Every part but the last has `len // n` rows; the last absorbs the remainder. */
  lemma PartSizes<T>(df: seq<T>, n: nat)
    requires n >= 1
    ensures forall i :: 0 <= i < n - 1 ==> |Split(df, n).value[i]| == |df| / n
    ensures |Split(df, n).value[n - 1]| == |df| - (n - 1) * (|df| / n)
    ensures |Split(df, n).value[n - 1]| >= |df| / n
  {
    var size := |df| / n;
    assert n * size <= |df|;
    assert (n - 1) * size + size == n * size;
    forall i | 0 <= i < n - 1
      ensures |Split(df, n).value[i]| == size
    {
      assert (i + 1) * size == i * size + size;
    }
  }

  /** With more parts than rows every part but the last is empty. */
  lemma MorePartsThanRows<T>(df: seq<T>, n: nat)
    requires n > |df|
    ensures forall i :: 0 <= i < n - 1 ==> Split(df, n).value[i] == []
    ensures Split(df, n).value[n - 1] == df
  {
    assert |df| / n == 0;
  }

  /** The first k parts together are the rows before the start of part k. */
  lemma {:induction false} PartsPrefix<T>(df: seq<T>, n: nat, k: nat)
    requires 1 <= n && k <= n - 1
    ensures Concat(Split(df, n).value[..k]) == df[..k * (|df| / n)]
  {
    var parts := Split(df, n).value;
    if k > 0 {
      PartsPrefix(df, n, k - 1);
      assert parts[..k] == parts[..k - 1] + [parts[k - 1]];
      ConcatSnoc(parts[..k - 1], parts[k - 1]);
      PartBounds(|df|, n, k);
      assert k * (|df| / n) == (k - 1) * (|df| / n) + |df| / n;
      assert df[..k * (|df| / n)] == df[..(k - 1) * (|df| / n)] + parts[k - 1];
    }
  }

  /** The parts in order are the rows, none lost or repeated. */
  lemma SplitCovers<T>(df: seq<T>, n: nat)
    requires n >= 1
    ensures Concat(Split(df, n).value) == df
  {
    var parts := Split(df, n).value;
    PartsPrefix(df, n, n - 1);
    assert parts == parts[..n - 1] + [parts[n - 1]];
    ConcatSnoc(parts[..n - 1], parts[n - 1]);
    PartBounds(|df|, n, n - 1);
  }

  /** `split_dataframe` in its loop form: parts appended one by one. */
  method SplitDataFrame<T>(df: seq<T>, n: int) returns (r: Outcome<seq<seq<T>>>)
    ensures r == Split(df, n)
  {
    if n == 0 {
      return Err(DivisionByZero);
    }
    // For n < 0 the size is never used: the loop makes no part.
    var partSize := if n > 0 then |df| / n else 0;
    var parts: seq<seq<T>> := [];
    var i := 0;
    while i < n
      invariant 0 <= i && (n > 0 ==> i <= n) && (n < 0 ==> i == 0)
      invariant |parts| == i
      invariant forall j :: 0 <= j < i ==> parts[j] == Part(df, n, j)
    {
      PartBounds(|df|, n, i);
      var start := i * partSize;
      var end := if i == n - 1 then |df| else (i + 1) * partSize;
      parts := parts + [df[start..end]];
      i := i + 1;
    }
    assert n > 0 ==> parts == Split(df, n).value;
    return Ok(parts);
  }

  datatype Row = Row(index: int, a: int, b: int, extra: map<string, int>)

  /** `complex_function` on one row: `sum` and `product` set from A and B,
      everything else kept. */
  function ComplexRow(r: Row): (s: Row)
    ensures s.index == r.index && s.a == r.a && s.b == r.b
    ensures s.extra.Keys == r.extra.Keys + {"sum", "product"}
    ensures s.extra["sum"] == r.a + r.b && s.extra["product"] == r.a * r.b
    ensures forall c :: c in r.extra && c != "sum" && c != "product" ==> s.extra[c] == r.extra[c]
  {
    Row(r.index, r.a, r.b, r.extra["sum" := r.a + r.b]["product" := r.a * r.b])
  }

  /** `complex_function` on a frame, row by row. */
  function Complex(rows: seq<Row>): (t: seq<Row>)
    ensures |t| == |rows| && forall i :: 0 <= i < |rows| ==> t[i] == ComplexRow(rows[i])
  {
    Map(ComplexRow, rows)
  }

  /** Transforming the parts one by one and putting them together is transforming
      the whole. */
  lemma {:induction false} ComplexOfConcat(parts: seq<seq<Row>>)
    ensures Concat(Map(Complex, parts)) == Complex(Concat(parts))
  {
    if parts != [] {
      ComplexOfConcat(parts[1..]);
      assert Map(Complex, parts) == [Complex(parts[0])] + Map(Complex, parts[1..]);
      MapAppend(ComplexRow, parts[0], Concat(parts[1..]));
    }
  }

  /** A DataFrame whose rows are updated in place. */
  class Frame {
    var rows: seq<Row>

    constructor(rows: seq<Row>)
      ensures this.rows == rows
    {
      this.rows := rows;
    }

    /** `complex_function` applied to this frame: the two columns are assigned
        into it. */
    method ComplexFunction()
      modifies this
      ensures rows == Complex(old(rows))
    {
      rows := Complex(rows);
    }
  }

  /** `apply_sequentially`: the function runs once on the caller's whole frame,
      which it changes. */
  method ApplySequentially(df: Frame)
    modifies df
    ensures df.rows == Complex(old(df.rows))
  {
    df.ComplexFunction();
  }

  // ---------------------------------------------------------------------------
  // Restoring the order: `sort_index`

  predicate LabelSorted(rows: seq<Row>)
  {
    forall i, j :: 0 <= i < j < |rows| ==> rows[i].index <= rows[j].index
  }

  /** The labels strictly increase (a default RangeIndex, for one). */
  predicate StrictlyLabelled(rows: seq<Row>)
  {
    forall i, j :: 0 <= i < j < |rows| ==> rows[i].index < rows[j].index
  }

  function Insert(x: Row, s: seq<Row>): (r: seq<Row>)
    ensures multiset(r) == multiset(s) + multiset{x}
    ensures forall k :: 0 <= k < |r| ==> r[k] == x || r[k] in s
  {
    if s == [] || x.index <= s[0].index then [x] + s
    else
      assert s == [s[0]] + s[1..];
      [s[0]] + Insert(x, s[1..])
  }

  /** A row whose label is at most every label of sorted rows can go in front of them. */
  lemma ConsSorted(y: Row, t: seq<Row>)
    requires LabelSorted(t)
    requires forall k :: 0 <= k < |t| ==> y.index <= t[k].index
    ensures LabelSorted([y] + t)
  {
    var r := [y] + t;
    forall i, j | 0 <= i < j < |r|
      ensures r[i].index <= r[j].index
    {
      assert r[j] == t[j - 1];
      if i > 0 {
        assert r[i] == t[i - 1];
      }
    }
  }

  /** Inserting into label-sorted rows keeps them label-sorted. */
  lemma {:induction false} InsertSorted(x: Row, s: seq<Row>)
    requires LabelSorted(s)
    ensures LabelSorted(Insert(x, s))
    decreases |s|
  {
    if s == [] || x.index <= s[0].index {
      forall k | 0 <= k < |s|
        ensures x.index <= s[k].index
      {
        assert s[0].index <= s[k].index;
      }
      ConsSorted(x, s);
    } else {
      var rest := s[1..];
      InsertSorted(x, rest);
      var t := Insert(x, rest);
      forall k | 0 <= k < |t|
        ensures s[0].index <= t[k].index
      {
        if t[k] != x {
          var m :| 0 <= m < |rest| && rest[m] == t[k];
          assert rest[m] == s[m + 1];
        }
      }
      ConsSorted(s[0], t);
    }
  }

  /** `sort_index`: the rows in label order. */
  function SortIndex(s: seq<Row>): (r: seq<Row>)
    ensures LabelSorted(r) && multiset(r) == multiset(s)
  {
    if s == [] then []
    else
      assert s == [s[0]] + s[1..];
      var t := SortIndex(s[1..]);
      InsertSorted(s[0], t);
      Insert(s[0], t)
  }

  /** There is only one label-sorted arrangement of rows with distinct labels. */
  lemma {:induction false} SortedUnique(a: seq<Row>, b: seq<Row>)
    requires LabelSorted(a) && StrictlyLabelled(b) && multiset(a) == multiset(b)
    ensures a == b
    decreases |b|
  {
    if b == [] {
      assert |a| == |multiset(a)| == 0;
    } else {
      HeadStep(a, b);
      SortedUnique(a[1..], b[1..]);
      HeadTail(a, b);
    }
  }

  /** The two arrangements start with the same row and continue with the
      same rows, still in order. */
  lemma HeadStep(a: seq<Row>, b: seq<Row>)
    requires LabelSorted(a) && StrictlyLabelled(b) && multiset(a) == multiset(b)
    requires b != []
    ensures a != [] && a[0] == b[0]
    ensures multiset(a[1..]) == multiset(b[1..])
    ensures LabelSorted(a[1..]) && StrictlyLabelled(b[1..])
  {
    assert b[0] in multiset(a);
    var i :| 0 <= i < |a| && a[i] == b[0];
    assert a[0] in multiset(b);
    var j :| 0 <= j < |b| && b[j] == a[0];
    SameFirst(a, b, i, j);
    DropFirst(a);
    DropFirst(b);
    DropFirstSorted(a);
    DropFirstSorted(b);
  }

  lemma HeadTail(a: seq<Row>, b: seq<Row>)
    requires a != [] && b != [] && a[0] == b[0] && a[1..] == b[1..]
    ensures a == b
  {
    assert a == [a[0]] + a[1..];
    assert b == [b[0]] + b[1..];
  }

  /** The least label of a sorted arrangement is the first of the strictly labelled one. */
  lemma SameFirst(a: seq<Row>, b: seq<Row>, i: nat, j: nat)
    requires LabelSorted(a) && StrictlyLabelled(b)
    requires i < |a| && j < |b| && a[i] == b[0] && b[j] == a[0]
    ensures a[0] == b[0]
  {
    assert a[0].index <= a[i].index;
    assert j == 0;
  }

  /** Dropping the first row removes one copy of it. */
  lemma DropFirst(s: seq<Row>)
    requires s != []
    ensures multiset(s[1..]) == multiset(s) - multiset{s[0]}
  {
    assert s == [s[0]] + s[1..];
  }

  /** Dropping the first row keeps the rows in order. */
  lemma DropFirstSorted(s: seq<Row>)
    requires s != []
    ensures LabelSorted(s) ==> LabelSorted(s[1..])
    ensures StrictlyLabelled(s) ==> StrictlyLabelled(s[1..])
  {
    var t := s[1..];
    forall i, j | 0 <= i < j < |t|
      ensures t[i] == s[i + 1] && t[j] == s[j + 1]
    {
    }
  }

  // ---------------------------------------------------------------------------
  // `apply_in_parallel`

  /** The worker's result for part i. */
  function Worker(parts: seq<seq<Row>>): int -> seq<Row>
  {
    i => if 0 <= i < |parts| then Complex(parts[i]) else []
  }

  lemma WorkerInOrder(parts: seq<seq<Row>>)
    ensures Map(Worker(parts), Range(0, |parts|)) == Map(Complex, parts)
  {
    var ids := Range(0, |parts|);
    forall i | 0 <= i < |parts|
      ensures Map(Worker(parts), ids)[i] == Map(Complex, parts)[i]
    {
      assert ids[i] == i;
    }
  }

  /** `apply_in_parallel` with `complex_function`: the frame is split into
      n_workers parts, each transformed by a worker on its own copy (the caller's
      frame is untouched), the results are appended in completion order `order`,
      put together and sorted by label. For a frame with increasing labels that
      is the whole frame transformed. */
  method ApplyInParallel(df: seq<Row>, nWorkers: int, order: seq<int>) returns (r: Outcome<seq<Row>>)
    requires nWorkers >= 1 ==> multiset(order) == multiset(Range(0, nWorkers))
    ensures nWorkers == 0 ==> r == Err(DivisionByZero)
    ensures nWorkers < 0 ==> r == Err(NoWorkers)
    ensures nWorkers >= 1 ==> r == Ok(SortIndex(Concat(Map(Worker(Split(df, nWorkers).value), order))))
    ensures nWorkers >= 1 && StrictlyLabelled(df) ==> r == Ok(Complex(df))
  {
    var split := SplitDataFrame(df, nWorkers);
    if split.Err? {
      return Err(split.error);
    }
    if nWorkers < 0 {
      return Err(NoWorkers);
    }
    var parts := split.value;
    var results: seq<seq<Row>> := [];
    var k := 0;
    while k < |order|
      invariant 0 <= k <= |order|
      invariant results == Map(Worker(parts), order[..k])
    {
      MapSnoc(Worker(parts), order, k);
      results := results + [Worker(parts)(order[k])];
      k := k + 1;
    }
    assert order[..|order|] == order;
    r := Ok(SortIndex(Concat(results)));
    ParallelMatchesWhole(df, nWorkers, order);
  }

  /** Whatever the completion order, sorting the put-together results by label
      gives the whole frame transformed, when the labels increase. */
  lemma ParallelMatchesWhole(df: seq<Row>, n: nat, order: seq<int>)
    requires n >= 1 && multiset(order) == multiset(Range(0, n))
    ensures StrictlyLabelled(df) ==> SortIndex(Concat(Map(Worker(Split(df, n).value), order))) == Complex(df)
  {
    var parts := Split(df, n).value;
    var results := Map(Worker(parts), order);
    MapPermutation(Worker(parts), order, Range(0, n));
    WorkerInOrder(parts);
    ConcatPermutation(results, Map(Complex, parts));
    ComplexOfConcat(parts);
    SplitCovers(df, n);
    if StrictlyLabelled(df) {
      SortedUnique(SortIndex(Concat(results)), Complex(df));
    }
  }
}
