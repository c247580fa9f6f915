/** ETL by partition (level_03/exercice_11.py): each CSV file of the input
    directory is read, given a `total` column when it has `quantity` and
    `price`, and written as Parquet under the output directory; one file after
    another, or on a thread pool collecting the written paths as they finish.

    Reading a CSV and writing a Parquet file are oracles; the output directory
    is a map from path to the table written there. */
module Etl {
  import opened Outcomes
  import opened Sequences
  import opened Strings
  import opened Paths
  import opened FanIn

  const InputDir: string := "data/inputs/simulated_datalake_files"
  const OutputDir: string := "data/outputs/exercicio_11"
  const Quantity: string := "quantity"
  const Price: string := "price"
  const Total: string := "total"

  /** A data frame: its column names in order and one map per row from column to value. */
  datatype Table = Table(columns: seq<string>, rows: seq<map<string, real>>)

  /** Every row has a value for each column and for nothing else. */
  predicate Rectangular(t: Table)
  {
    forall i :: 0 <= i < |t.rows| ==> t.rows[i].Keys == set c | c in t.columns
  }

  type Frame = t: Table | Rectangular(t) witness Table([], [])

  predicate HasQuantityAndPrice(t: Frame)
  {
    Quantity in t.columns && Price in t.columns
  }

  /** `df["total"] = df["quantity"] * df["price"]` when both columns exist: the
      column is appended, or overwritten when it is already there. */
  function AddTotal(t: Frame): (r: Frame)
    ensures !HasQuantityAndPrice(t) ==> r == t
    ensures HasQuantityAndPrice(t) ==>
      && r.columns == (if Total in t.columns then t.columns else t.columns + [Total])
      && |r.rows| == |t.rows|
      && forall i :: 0 <= i < |t.rows| ==>
           && r.rows[i][Total] == t.rows[i][Quantity] * t.rows[i][Price]
           && forall c :: c in t.columns && c != Total ==> r.rows[i][c] == t.rows[i][c]
  {
    if HasQuantityAndPrice(t) then
      var cols := if Total in t.columns then t.columns else t.columns + [Total];
      var rows := seq(|t.rows|, i requires 0 <= i < |t.rows| =>
        t.rows[i][Total := t.rows[i][Quantity] * t.rows[i][Price]]);
      assert forall i :: 0 <= i < |rows| ==> rows[i].Keys == set c | c in cols;
      Table(cols, rows)
    else
      t
  }

  /** Processing a table a second time changes nothing: `total` is recomputed
      from columns the step does not touch. */
  lemma AddTotalIdempotent(t: Frame)
    ensures AddTotal(AddTotal(t)) == AddTotal(t)
  {
    var once := AddTotal(t);
    if HasQuantityAndPrice(t) {
      assert HasQuantityAndPrice(once);
      var twice := AddTotal(once);
      assert Total in once.columns;
      assert |twice.rows| == |once.rows|;
      forall i | 0 <= i < |once.rows|
        ensures twice.rows[i] == once.rows[i]
      {
        AddTotalRowAgain(t, i);
      }
    }
  }

  /** Row i of a table that already went through the step is left as it is. */
  lemma AddTotalRowAgain(t: Frame, i: nat)
    requires HasQuantityAndPrice(t) && i < |t.rows|
    ensures HasQuantityAndPrice(AddTotal(t)) && i < |AddTotal(AddTotal(t)).rows|
    ensures AddTotal(AddTotal(t)).rows[i] == AddTotal(t).rows[i]
  {
    var once := AddTotal(t);
    var twice := AddTotal(once);
    assert Total in once.columns;
    assert once.rows[i][Quantity] == t.rows[i][Quantity];
    assert once.rows[i][Price] == t.rows[i][Price];
    assert twice.rows[i].Keys == once.rows[i].Keys by {
      assert twice.columns == once.columns;
    }
    assert twice.rows[i][Total] == once.rows[i][Total];
  }

  /** `base_name` + ".parquet" under the output directory. */
  function ParquetPath(filePath: string): string
  {
    Join(OutputDir, Stem(filePath) + ".parquet")
  }

  /** Two CSV files of the input directory whose names have something before
      ".csv" other than dots get different Parquet paths. */
  lemma ParquetPathsDistinct(a: string, b: string)
    requires '/' !in a && exists k | 0 <= k < |a| :: a[k] != '.'
    requires '/' !in b && exists k | 0 <= k < |b| :: b[k] != '.'
    ensures ParquetPath(Join(InputDir, a + ".csv")) == ParquetPath(Join(InputDir, b + ".csv")) ==> a == b
  {
    StemOfJoin(InputDir, a, ".csv");
    StemOfJoin(InputDir, b, ".csv");
    var ka :| 0 <= ka < |a| && a[ka] != '.';
    var kb :| 0 <= kb < |b| && b[kb] != '.';
    assert a[0] in a && b[0] in b;
    assert (a + ".parquet")[0] == a[0];
    assert (b + ".parquet")[0] == b[0];
    JoinInjective(OutputDir, a + ".parquet", b + ".parquet");
    if a + ".parquet" == b + ".parquet" {
      assert a == (a + ".parquet")[..|a + ".parquet"| - 8];
    }
  }

  /** What one partition writes: the table and where. */
  datatype Written = Written(path: string, frame: Frame)

  /** `process_partition` as a value: a failure to read or to write propagates
      (the handler logs it and re-raises), otherwise the transformed table is
      written at the Parquet path. */
  function Partition(read: string -> Outcome<Frame>, write: string -> Outcome<()>): string -> Outcome<Written>
  {
    filePath =>
      if read(filePath).Err? then Err(read(filePath).error)
      else if write(ParquetPath(filePath)).Err? then Err(write(ParquetPath(filePath)).error)
      else Ok(Written(ParquetPath(filePath), AddTotal(read(filePath).value)))
  }

  /** What `process_partition` returns: the Parquet path. */
  function PathOf(o: Outcome<Written>): Outcome<string>
  {
    if o.Ok? then Ok(o.value.path) else Err(o.error)
  }

  function ReturnedPath(read: string -> Outcome<Frame>, write: string -> Outcome<()>): string -> Outcome<string>
  {
    filePath => PathOf(Partition(read, write)(filePath))
  }

  /** The returned path fails exactly where the partition fails, so the first
      failing path is the first failing partition. */
  lemma FirstFailedPartition(read: string -> Outcome<Frame>, write: string -> Outcome<()>, paths: seq<string>, i: nat)
    requires i < |paths| && Map(ReturnedPath(read, write), paths)[i].Err?
    requires forall j :: 0 <= j < i ==> Map(ReturnedPath(read, write), paths)[j].Ok?
    ensures FirstFailureAt(Map(Partition(read, write), paths), i)
  {
    var ws := Map(Partition(read, write), paths);
    assert Map(ReturnedPath(read, write), paths)[i] == PathOf(ws[i]);
    forall j | 0 <= j < i
      ensures ws[j].Ok?
    {
      assert Map(ReturnedPath(read, write), paths)[j] == PathOf(ws[j]);
    }
  }

  /** The output directory after the successful writes, in the order given. */
  function WriteAll(files: map<string, Frame>, ws: seq<Outcome<Written>>): map<string, Frame>
  {
    if ws == [] then files
    else
      var before := WriteAll(files, ws[..|ws| - 1]);
      var w := ws[|ws| - 1];
      if w.Ok? then before[w.value.path := w.value.frame] else before
  }

  /** One more outcome applies its write, if any, on top of the ones before. */
  lemma WriteAllStep(files: map<string, Frame>, ws: seq<Outcome<Written>>, i: nat)
    requires i < |ws|
    ensures WriteAll(files, ws[..i + 1]) == WriteAll(WriteAll(files, ws[..i]), [ws[i]])
  {
    assert ws[..i + 1][..i] == ws[..i];
    assert [ws[i]][..0] == [];
  }

  /** One step of a loop that applies the writes in turn. */
  lemma WriteAllNext(files: map<string, Frame>, ws: seq<Outcome<Written>>, k: nat,
                     before: map<string, Frame>, after: map<string, Frame>)
    requires k < |ws| && before == WriteAll(files, ws[..k])
    requires after == WriteAll(before, [ws[k]])
    ensures after == WriteAll(files, ws[..k + 1])
  {
    WriteAllStep(files, ws, k);
  }

  /** One step of an in-order loop that stops at the first failure: a success
      extends the values and applies its write, a failure is the result of
      the whole run and writes nothing. */
  lemma InOrderStep(files: map<string, Frame>, ws: seq<Outcome<Written>>, i: nat, done: seq<Written>,
                    before: map<string, Frame>, after: map<string, Frame>)
    requires i < |ws| && AllOrFirstError(ws[..i]) == Ok(done) && before == WriteAll(files, ws[..i])
    requires after == WriteAll(before, [ws[i]])
    ensures ws[i].Ok? ==> AllOrFirstError(ws[..i + 1]) == Ok(done + [ws[i].value])
    ensures ws[i].Ok? ==> after == WriteAll(files, ws[..i + 1])
    ensures ws[i].Err? ==> AllOrFirstError(ws) == Err(ws[i].error) && after == WriteAll(files, ws[..i])
  {
    AllOrFirstErrorStep(ws, i, done);
    WriteAllStep(files, ws, i);
  }

  /** The successful writes go to pairwise different paths. */
  predicate DistinctTargets(ws: seq<Outcome<Written>>)
  {
    forall i, j :: 0 <= i < |ws| && 0 <= j < |ws| && i != j && ws[i].Ok? && ws[j].Ok? ==>
      ws[i].value.path != ws[j].value.path
  }

  /** With distinct targets, each written path holds what was written there, and
      every other path is as it was. */
  lemma {:induction false} WriteAllContents(files: map<string, Frame>, ws: seq<Outcome<Written>>)
    requires DistinctTargets(ws)
    ensures forall i :: 0 <= i < |ws| && ws[i].Ok? ==>
      ws[i].value.path in WriteAll(files, ws) && WriteAll(files, ws)[ws[i].value.path] == ws[i].value.frame
    ensures forall p :: (forall i :: 0 <= i < |ws| && ws[i].Ok? ==> ws[i].value.path != p) ==>
      (p in WriteAll(files, ws) <==> p in files) && (p in files ==> WriteAll(files, ws)[p] == files[p])
  {
    if ws != [] {
      var front := ws[..|ws| - 1];
      assert forall i :: 0 <= i < |front| ==> front[i] == ws[i];
      WriteAllContents(files, front);
    }
  }

  /** With distinct targets, the order in which the writes land does not matter. */
  lemma WriteAllOrderIndependent(files: map<string, Frame>, a: seq<Outcome<Written>>, b: seq<Outcome<Written>>)
    requires multiset(a) == multiset(b) && DistinctTargets(a) && DistinctTargets(b)
    ensures WriteAll(files, a) == WriteAll(files, b)
  {
    var ma := WriteAll(files, a);
    var mb := WriteAll(files, b);
    forall p
      ensures (p in ma <==> p in mb) && (p in ma ==> ma[p] == mb[p])
    {
      WriteAllAgreeAt(files, a, b, p);
    }
  }

  /** Both orders leave the same thing at path p. */
  lemma WriteAllAgreeAt(files: map<string, Frame>, a: seq<Outcome<Written>>, b: seq<Outcome<Written>>, p: string)
    requires multiset(a) == multiset(b) && DistinctTargets(a) && DistinctTargets(b)
    ensures p in WriteAll(files, a) <==> p in WriteAll(files, b)
    ensures p in WriteAll(files, a) ==> WriteAll(files, a)[p] == WriteAll(files, b)[p]
  {
    WriteAllContents(files, a);
    WriteAllContents(files, b);
    if i :| 0 <= i < |a| && a[i].Ok? && a[i].value.path == p {
      assert a[i] in b by {
        assert a[i] in multiset(b);
      }
      var j := IndexOf(b, a[i]);
    } else {
      forall j | 0 <= j < |b| && b[j].Ok?
        ensures b[j].value.path != p
      {
        assert b[j] in multiset(a);
      }
    }
  }

  /** The directory entries that end in ".csv", in listing order. */
  function CsvFiles(listing: seq<string>): (r: seq<string>)
    ensures forall i :: 0 <= i < |r| ==> r[i] in listing && EndsWith(r[i], ".csv")
    ensures forall f :: f in listing && EndsWith(f, ".csv") ==> f in r
  {
    var r := Filter(IsCsv, listing);
    assert forall f :: f in listing && EndsWith(f, ".csv") ==> f in r by {
      forall f | f in listing && EndsWith(f, ".csv")
        ensures f in r
      {
        var i :| 0 <= i < |listing| && listing[i] == f;
      }
    }
    r
  }

  predicate IsCsv(f: string)
  {
    EndsWith(f, ".csv")
  }

  function UnderInput(f: string): string
  {
    Join(InputDir, f)
  }

  /** The output directory: the tables written so far, by path. */
  class ParquetStore {
    var files: map<string, Frame>

    constructor(files: map<string, Frame>)
      ensures this.files == files
    {
      this.files := files;
    }

    /** `process_partition`: on success the transformed table is stored at the
        returned Parquet path; on failure nothing is stored. */
    method ProcessPartition(read: string -> Outcome<Frame>, write: string -> Outcome<()>, filePath: string)
      returns (r: Outcome<string>)
      modifies this
      ensures r == ReturnedPath(read, write)(filePath)
      ensures files == WriteAll(old(files), [Partition(read, write)(filePath)])
    {
      assert [Partition(read, write)(filePath)][..0] == [];
      var df := read(filePath);
      if df.Err? {
        return Err(df.error);
      }
      var table := AddTotal(df.value);
      var parquetPath := Join(OutputDir, Stem(filePath) + ".parquet");
      var written := write(parquetPath);
      if written.Err? {
        return Err(written.error);
      }
      files := files[parquetPath := table];
      return Ok(parquetPath);
    }

    /** `etl_sequential`: the files in listing order; the first failure
        propagates and the files after it are not processed. */
    method EtlSequential(read: string -> Outcome<Frame>, write: string -> Outcome<()>, names: seq<string>)
      returns (r: Outcome<seq<string>>)
      modifies this
      ensures r == AllOrFirstError(Map(ReturnedPath(read, write), Map(UnderInput, names)))
      ensures r.Ok? ==> files == WriteAll(old(files), Map(Partition(read, write), Map(UnderInput, names)))
      ensures r.Err? ==> exists k :: (FirstFailureAt(Map(Partition(read, write), Map(UnderInput, names)), k) &&
        files == WriteAll(old(files), Map(Partition(read, write), Map(UnderInput, names))[..k]))
    {
      ghost var paths := Map(UnderInput, names);
      ghost var outs := Map(ReturnedPath(read, write), paths);
      ghost var ws := Map(Partition(read, write), paths);
      var processed: seq<string> := [];
      var i := 0;
      while i < |names|
        invariant 0 <= i <= |names|
        invariant AllOrFirstError(outs[..i]) == Ok(processed)
        invariant files == WriteAll(old(files), ws[..i])
      {
        var fullPath := Join(InputDir, names[i]);
        ghost var before := files;
        var p := ProcessPartition(read, write, fullPath);
        assert p == outs[i];
        AllOrFirstErrorStep(outs, i, processed);
        WriteAllStep(old(files), ws, i);
        if p.Err? {
          assert files == WriteAll(old(files), ws[..i]);
          PrefixAllOk(outs, i);
          FirstFailedPartition(read, write, paths, i);
          return Err(p.error);
        }
        processed := processed + [p.value];
        i := i + 1;
      }
      TakeAll(outs);
      TakeAll(ws);
      return Ok(processed);
    }

    /** `etl_parallel`: every file is processed; the writes land and the paths
        are collected in completion order `order` (indices into the file list),
        and a failed file is logged and contributes nothing. */
    method EtlParallel(read: string -> Outcome<Frame>, write: string -> Outcome<()>, names: seq<string>, order: seq<int>)
      returns (processed: seq<string>)
      requires multiset(order) == multiset(Range(0, |names|))
      modifies this
      ensures processed == Successes(Arrivals(Map(ReturnedPath(read, write), Map(UnderInput, names)), order))
      ensures files == WriteAll(old(files), Arrivals(Map(Partition(read, write), Map(UnderInput, names)), order))
    {
      PermutationIndices(order, |names|);
      var paths := Map(UnderInput, names);
      ghost var outs := Arrivals(Map(ReturnedPath(read, write), paths), order);
      ghost var ws := Arrivals(Map(Partition(read, write), paths), order);
      processed := [];
      var k := 0;
      while k < |order|
        invariant 0 <= k <= |order|
        invariant processed == Successes(outs[..k])
        invariant files == WriteAll(old(files), ws[..k])
      {
        ghost var before := files;
        var p := ProcessPartition(read, write, paths[order[k]]);
        ArrivalOf(ReturnedPath(read, write), paths, order, k);
        ArrivalOf(Partition(read, write), paths, order, k);
        WriteAllNext(old(files), ws, k, before, files);
        SuccessesNext(outs, k, processed);
        if p.Ok? {
          processed := processed + [p.value];
        }
        k := k + 1;
      }
      TakeAll(outs);
      TakeAll(ws);
    }
  }

  /** When every file is processed, the parallel run collects the same paths as
      the sequential one, in some order, and leaves the same output directory
      provided the Parquet paths differ. */
  lemma ParallelMatchesSequential(read: string -> Outcome<Frame>, write: string -> Outcome<()>,
                                  files: map<string, Frame>, paths: seq<string>, order: seq<int>)
    requires multiset(order) == multiset(Range(0, |paths|))
    requires forall i :: 0 <= i < |paths| ==> Partition(read, write)(paths[i]).Ok?
    requires DistinctTargets(Map(Partition(read, write), paths))
    ensures AllOrFirstError(Map(ReturnedPath(read, write), paths)).Ok?
    ensures multiset(Successes(Arrivals(Map(ReturnedPath(read, write), paths), order)))
         == multiset(AllOrFirstError(Map(ReturnedPath(read, write), paths)).value)
    ensures WriteAll(files, Arrivals(Map(Partition(read, write), paths), order))
         == WriteAll(files, Map(Partition(read, write), paths))
  {
    var outs := Map(ReturnedPath(read, write), paths);
    var ws := Map(Partition(read, write), paths);
    CollectedByArrival(outs, order);
    AllOkSuccesses(outs);
    ArrivalsPermutation(ws, order);
    ArrivalsKeepTargets(ws, order);
    WriteAllOrderIndependent(files, Arrivals(ws, order), ws);
  }

  /** Rearranging the writes keeps their targets distinct. */
  lemma ArrivalsKeepTargets(ws: seq<Outcome<Written>>, order: seq<int>)
    requires multiset(order) == multiset(Range(0, |ws|))
    requires DistinctTargets(ws)
    ensures DistinctTargets(Arrivals(ws, order))
  {
    var arrived := Arrivals(ws, order);
    forall i, j | 0 <= i < |arrived| && 0 <= j < |arrived| && i != j && arrived[i].Ok? && arrived[j].Ok?
      ensures arrived[i].value.path != arrived[j].value.path
    {
      ArrivedApart(ws, order, i, j);
    }
  }

  /** Two different arrivals are two different writes. */
  lemma ArrivedApart(ws: seq<Outcome<Written>>, order: seq<int>, i: nat, j: nat)
    requires multiset(order) == multiset(Range(0, |ws|))
    requires i < |order| && j < |order| && i != j
    ensures 0 <= order[i] < |ws| && 0 <= order[j] < |ws| && order[i] != order[j]
    ensures Arrivals(ws, order)[i] == ws[order[i]] && Arrivals(ws, order)[j] == ws[order[j]]
  {
    PermutationIndices(order, |ws|);
    DistinctIndices(order, |ws|, i, j);
  }

  /** Two positions of a permutation of 0..n hold different indices. */
  lemma DistinctIndices(order: seq<int>, n: nat, i: int, j: int)
    requires multiset(order) == multiset(Range(0, n))
    requires 0 <= i < |order| && 0 <= j < |order| && i != j
    ensures order[i] != order[j]
  {
    if order[i] == order[j] {
      if i < j {
        TwoPositions(order, i, j);
      } else {
        TwoPositions(order, j, i);
      }
      RangeOnce(0, n, order[i]);
    }
  }

  lemma TwoPositions<T>(s: seq<T>, i: int, j: int)
    requires 0 <= i < j < |s| && s[i] == s[j]
    ensures multiset(s)[s[i]] >= 2
  {
    assert s == s[..i] + [s[i]] + s[i + 1..j] + [s[j]] + s[j + 1..];
  }
}
