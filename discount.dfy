/** The three-stage pipeline's sequential logic (level_03/exercice_14.py):
    `ingest_data` stacks every CSV file of a folder, and `transform_data` adds
    the quantity-discount columns to the frame it is given.

    Money is `real`; `round(x, 2)` is rounding half to even at two decimals
    (the binary floating point underneath is not modelled). */
module Discount {
  import opened Outcomes
  import opened Sequences
  import opened Paths
  import opened FanIn

  const DefaultDiscountThreshold: int := 10
  const DefaultDiscountRate: real := 0.10
  const DiscountAppliedColumn: string := "discount_applied"
  const DiscountedTotalColumn: string := "discounted_total"

  /** The nearest integer, halves going to the even neighbour. */
  function RoundHalfEven(x: real): (n: int)
    ensures x - 0.5 <= n as real <= x + 0.5
    ensures (x - 0.5 < n as real < x + 0.5) || n % 2 == 0
  {
    var f := x.Floor;
    var frac := x - f as real;
    if frac < 0.5 then f
    else if frac > 0.5 then f + 1
    else if f % 2 == 0 then f else f + 1
  }

  /** Rounding to an integer never reverses the order of two numbers. */
  lemma RoundHalfEvenMonotone(x: real, y: real)
    requires x <= y
    ensures RoundHalfEven(x) <= RoundHalfEven(y)
  {
    var fx, fy := x.Floor, y.Floor;
    if fx == fy {
      assert x - fx as real <= y - fy as real;
    } else {
      assert fx < fy;
    }
  }

  /** A whole number of cents. */
  predicate IsCents(x: real)
  {
    (x * 100.0).Floor as real == x * 100.0
  }

  /** `round(x, 2)`: the nearest whole number of cents, within half a cent of x. */
  function Round2(x: real): (r: real)
    ensures IsCents(r)
    ensures x - 0.005 <= r <= x + 0.005
    ensures (x - 0.005 < r < x + 0.005) || (r * 100.0).Floor % 2 == 0
  {
    var n := RoundHalfEven(x * 100.0);
    CentsOf(n);
    n as real / 100.0
  }

  /** n cents, written in the currency unit, is a whole number of cents: n of them. */
  lemma CentsOf(n: int)
    ensures (n as real / 100.0) * 100.0 == n as real
    ensures ((n as real / 100.0) * 100.0).Floor == n
  {
  }

  /** Half a cent goes to the even cent: 0.125 becomes 0.12 and 0.135 becomes 0.14. */
  lemma HalfCentToEven()
    ensures Round2(0.125) == 0.12 && Round2(0.135) == 0.14
  {
    assert (12.5).Floor == 12 && (13.5).Floor == 13;
    assert RoundHalfEven(0.125 * 100.0) == 12;
    assert RoundHalfEven(0.135 * 100.0) == 14;
  }

  /** A whole number of cents is kept as it is. */
  lemma Round2OfCents(x: real)
    requires IsCents(x)
    ensures Round2(x) == x
  {
    assert RoundHalfEven(x * 100.0) == (x * 100.0).Floor;
  }

  lemma Round2Monotone(x: real, y: real)
    requires x <= y
    ensures Round2(x) <= Round2(y)
  {
    RoundHalfEvenMonotone(x * 100.0, y * 100.0);
  }

  /** `total * (1 - discount_rate)`. */
  function AfterDiscount(total: real, rate: real): real
  {
    total * (1.0 - rate)
  }

  /** `discounted_total` for one row: the total below the threshold, the
      rounded discounted total from the threshold on. */
  function DiscountedTotal(quantity: int, total: real, threshold: int, rate: real): (r: real)
    ensures quantity < threshold ==> r == total
    ensures quantity >= threshold ==> IsCents(r) && total * (1.0 - rate) - 0.005 <= r <= total * (1.0 - rate) + 0.005
    ensures quantity >= threshold ==>
      (total * (1.0 - rate) - 0.005 < r < total * (1.0 - rate) + 0.005) || (r * 100.0).Floor % 2 == 0
  {
    if quantity >= threshold then Round2(AfterDiscount(total, rate)) else total
  }

  /** A discount never raises a total that is a whole number of cents. */
  lemma DiscountNeverRaises(quantity: int, total: real, threshold: int, rate: real)
    requires IsCents(total) && total >= 0.0 && 0.0 <= rate <= 1.0
    ensures DiscountedTotal(quantity, total, threshold, rate) <= total
  {
    if quantity >= threshold {
      assert total * (1.0 - rate) <= total;
      Round2Monotone(total * (1.0 - rate), total);
      Round2OfCents(total);
    }
  }

  /** With the defaults, 10 units at 50.00 cost 45.00 and 9 units pay in full. */
  lemma DefaultsExample()
    ensures DiscountedTotal(10, 50.0, DefaultDiscountThreshold, DefaultDiscountRate) == 45.0
    ensures DiscountedTotal(9, 50.0, DefaultDiscountThreshold, DefaultDiscountRate) == 50.0
  {
    assert 50.0 * (1.0 - 0.10) * 100.0 == 4500.0;
    assert (4500.0).Floor == 4500;
    Round2OfCents(45.0);
  }

  /** `df["quantity"] >= discount_threshold`, row by row. */
  function DiscountFlags(quantity: seq<int>, threshold: int): (r: seq<bool>)
    ensures |r| == |quantity|
    ensures forall i :: 0 <= i < |quantity| ==> (r[i] <==> quantity[i] >= threshold)
  {
    seq(|quantity|, i requires 0 <= i < |quantity| => quantity[i] >= threshold)
  }

  /** The `discounted_total` column. */
  function DiscountedTotals(quantity: seq<int>, total: seq<real>, threshold: int, rate: real): (r: seq<real>)
    requires |total| == |quantity|
    ensures |r| == |quantity|
    ensures forall i :: 0 <= i < |quantity| ==> r[i] == DiscountedTotal(quantity[i], total[i], threshold, rate)
  {
    seq(|quantity|, i requires 0 <= i < |quantity| => DiscountedTotal(quantity[i], total[i], threshold, rate))
  }

  /** Assigning a column: appended when new, replaced in place when present. */
  function WithColumn(columns: seq<string>, c: string): (r: seq<string>)
    ensures c in r
    ensures forall d :: d in columns ==> d in r
    ensures forall d :: d in r ==> d in columns || d == c
  {
    if c in columns then columns else columns + [c]
  }

  /** `~s`, element by element. */
  function Not(s: seq<bool>): (r: seq<bool>)
    ensures |r| == |s| && forall i :: 0 <= i < |s| ==> r[i] == !s[i]
  {
    seq(|s|, i requires 0 <= i < |s| => !s[i])
  }

  /** `round(column * (1 - rate), 2)`, element by element. */
  function RoundedColumn(column: seq<real>, rate: real): (r: seq<real>)
    ensures |r| == |column| && forall i :: 0 <= i < |column| ==> r[i] == Round2(AfterDiscount(column[i], rate))
  {
    seq(|column|, i requires 0 <= i < |column| => Round2(AfterDiscount(column[i], rate)))
  }

  /** `column.where(keep, other)`: the column's value where `keep` holds, `other`'s elsewhere. */
  function Where(keep: seq<bool>, column: seq<real>, other: seq<real>): (r: seq<real>)
    requires |keep| == |column| == |other|
    ensures |r| == |column|
    ensures forall i :: 0 <= i < |column| ==> r[i] == if keep[i] then column[i] else other[i]
  {
    seq(|column|, i requires 0 <= i < |column| => if keep[i] then column[i] else other[i])
  }

  /** The columns of the sales frame this stage works on, one sequence per column. */
  class SalesFrame {
    var columns: seq<string>
    var quantity: seq<int>
    var total: seq<real>
    var discountApplied: seq<bool>
    var discountedTotal: seq<real>

    constructor(columns: seq<string>, quantity: seq<int>, total: seq<real>)
      ensures this.columns == columns && this.quantity == quantity && this.total == total
      ensures discountApplied == [] && discountedTotal == []
    {
      this.columns := columns;
      this.quantity := quantity;
      this.total := total;
      discountApplied := [];
      discountedTotal := [];
    }

    /** `transform_data`: writes the two discount columns into this frame;
        `applyMonthName` is accepted and has no effect. */
    method TransformData(discountThreshold: int, discountRate: real, applyMonthName: bool)
      requires |total| == |quantity|
      modifies this
      ensures quantity == old(quantity) && total == old(total)
      ensures columns == WithColumn(WithColumn(old(columns), DiscountAppliedColumn), DiscountedTotalColumn)
      ensures discountApplied == DiscountFlags(quantity, discountThreshold)
      ensures discountedTotal == DiscountedTotals(quantity, total, discountThreshold, discountRate)
    {
      var flags := DiscountFlags(quantity, discountThreshold);
      discountApplied := flags;
      columns := WithColumn(columns, DiscountAppliedColumn);
      var discounted := Where(Not(flags), total, RoundedColumn(total, discountRate));
      forall i | 0 <= i < |total|
        ensures discounted[i] == DiscountedTotal(quantity[i], total[i], discountThreshold, discountRate)
      {
        assert flags[i] <==> quantity[i] >= discountThreshold;
      }
      discountedTotal := discounted;
      columns := WithColumn(columns, DiscountedTotalColumn);
    }
  }

  /** `os.path.join(folder_path, file)` then `pd.read_csv`. */
  function ReadUnder<T>(read: string -> Outcome<seq<T>>, folder: string): string -> Outcome<seq<T>>
  {
    file => read(Join(folder, file))
  }

  /** `ingest_data`: the files in listing order, each one's rows appended below
      the rows so far; a file that cannot be read stops the ingestion. */
  method IngestData<T>(read: string -> Outcome<seq<T>>, folderPath: string, listing: seq<string>)
    returns (r: Outcome<seq<T>>)
    ensures r.Ok? <==> AllOrFirstError(Map(ReadUnder(read, folderPath), listing)).Ok?
    ensures r.Ok? ==> r.value == Concat(AllOrFirstError(Map(ReadUnder(read, folderPath), listing)).value)
    ensures r.Err? ==> r.error == AllOrFirstError(Map(ReadUnder(read, folderPath), listing)).error
  {
    ghost var outs := Map(ReadUnder(read, folderPath), listing);
    ghost var parts: seq<seq<T>> := [];
    var df: seq<T> := [];
    var i := 0;
    while i < |listing|
      invariant 0 <= i <= |listing|
      invariant AllOrFirstError(outs[..i]) == Ok(parts)
      invariant df == Concat(parts)
    {
      var filePath := Join(folderPath, listing[i]);
      var next := read(filePath);
      assert next == outs[i];
      AllOrFirstErrorStep(outs, i, parts);
      if next.Err? {
        return Err(next.error);
      }
      ConcatSnoc(parts, next.value);
      parts := parts + [next.value];
      df := df + next.value;
      i := i + 1;
    }
    assert outs[..i] == outs;
    return Ok(df);
  }

  /** Every row of every file is in the ingested frame, and nothing else: its
      length is the sum of the files' lengths. */
  lemma IngestKeepsEveryRow<T>(parts: seq<seq<T>>)
    ensures |Concat(parts)| == TotalLength(parts)
    ensures forall i, j :: 0 <= i < |parts| && 0 <= j < |parts[i]| ==> parts[i][j] in Concat(parts)
  {
    ConcatLength(parts);
    forall i, j | 0 <= i < |parts| && 0 <= j < |parts[i]|
      ensures parts[i][j] in Concat(parts)
    {
      ConcatContains(parts, i, j);
    }
  }
}
