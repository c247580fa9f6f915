/** Parquet to CSV conversion (level_02/exercice_08.py): every Parquet file is
    converted to `<output_dir>/<stem>.csv`, one after another, or on a process
    pool whose futures are waited on in completion order.

    Reading a Parquet file and writing a CSV file are oracles; the output
    directory is a map from path to the table written there. */
module Conversion {
  import opened Outcomes
  import opened Sequences
  import opened Paths
  import opened FanIn
  import opened Etl

  const InputParquetDir: string := "./data/inputs/simulated_datalake_files_parquet"
  const OutputCsvDirParallel: string := "./data/outputs/exercicio_08/output_csv_parallel"
  const OutputCsvDirSequential: string := "./data/outputs/exercicio_08/output_csv_sequential"

  /** The base name without its extension, plus ".csv", joined under the output directory. */
  function CsvPathFor(outputDir: string, parquetFile: string): string
  {
    Join(outputDir, Stem(parquetFile) + ".csv")
  }

  /** A Parquet file `<dir>/<stem><ext>` is converted to a file named `<stem>.csv`
      whose own stem is the stem it came from. */
  lemma CsvPathOfParquet(outputDir: string, dir: string, stem: string, ext: string)
    requires '/' !in stem && exists k | 0 <= k < |stem| :: stem[k] != '.'
    requires |ext| >= 1 && ext[0] == '.' && '/' !in ext && '.' !in ext[1..]
    ensures Basename(CsvPathFor(outputDir, Join(dir, stem + ext))) == stem + ".csv"
    ensures Stem(CsvPathFor(outputDir, Join(dir, stem + ext))) == stem
  {
    StemOfJoin(dir, stem, ext);
    CsvNameHasNoSlash(stem);
    BasenameOfJoin(outputDir, stem + ".csv");
    CsvExtension();
    StemOfJoin(outputDir, stem, ".csv");
  }

  lemma CsvNameHasNoSlash(stem: string)
    requires '/' !in stem
    ensures '/' !in stem + ".csv"
  {
    var name := stem + ".csv";
    forall k | 0 <= k < |name|
      ensures name[k] != '/'
    {
      if k >= |stem| {
        assert name[k] == ".csv"[k - |stem|];
      }
    }
  }

  /** The job for one Parquet file: the file and the CSV path derived from it. */
  function Job(outputDir: string): string -> (string, string)
  {
    parquetFile => (parquetFile, CsvPathFor(outputDir, parquetFile))
  }

  /** `convert_parquet_to_csv(parquet_path, csv_path)` as a value: the table
      read is written unchanged at the CSV path, which is what is returned. */
  function Convert(read: string -> Outcome<Frame>, write: string -> Outcome<()>)
    : ((string, string)) -> Outcome<Written>
  {
    (job: (string, string)) =>
      if read(job.0).Err? then Err(read(job.0).error)
      else if write(job.1).Err? then Err(write(job.1).error)
      else Ok(Written(job.1, read(job.0).value))
  }

  /** The directory the CSV files are written to. */
  class CsvDirectory {
    var files: map<string, Frame>

    constructor(files: map<string, Frame>)
      ensures this.files == files
    {
      this.files := files;
    }

    /** `convert_parquet_to_csv`: reads the table, writes it at `csvPath` and
        returns exactly `csvPath`; a failure propagates and writes nothing. */
    method ConvertParquetToCsv(read: string -> Outcome<Frame>, write: string -> Outcome<()>,
                               parquetPath: string, csvPath: string)
      returns (r: Outcome<string>)
      modifies this
      ensures r.Ok? <==> read(parquetPath).Ok? && write(csvPath).Ok?
      ensures r.Ok? ==> r.value == csvPath && files == old(files)[csvPath := read(parquetPath).value]
      ensures r.Err? ==> files == old(files)
      ensures r.Err? ==> r.error == if read(parquetPath).Err? then read(parquetPath).error else write(csvPath).error
    {
      var df := read(parquetPath);
      if df.Err? {
        return Err(df.error);
      }
      var written := write(csvPath);
      if written.Err? {
        return Err(written.error);
      }
      files := files[csvPath := df.value];
      return Ok(csvPath);
    }

    /** One conversion, stated as the write it performs. */
    method ConvertOne(read: string -> Outcome<Frame>, write: string -> Outcome<()>, job: (string, string))
      returns (r: Outcome<string>)
      modifies this
      ensures r.Ok? <==> Convert(read, write)(job).Ok?
      ensures r.Err? ==> r.error == Convert(read, write)(job).error
      ensures files == WriteAll(old(files), [Convert(read, write)(job)])
    {
      assert [Convert(read, write)(job)][..0] == [];
      r := ConvertParquetToCsv(read, write, job.0, job.1);
    }

    /** `sequential_conversion`: each file once, in list order; the first
        failure propagates and the files after it are not converted. */
    method SequentialConversion(read: string -> Outcome<Frame>, write: string -> Outcome<()>,
                                parquetFiles: seq<string>, outputDir: string)
      returns (r: Outcome<()>)
      modifies this
      ensures r == Discard(AllOrFirstError(Map(Convert(read, write), Map(Job(outputDir), parquetFiles))))
      ensures r.Ok? ==> files == WriteAll(old(files), Map(Convert(read, write), Map(Job(outputDir), parquetFiles)))
      ensures r.Err? ==> exists k :: (FirstFailureAt(Map(Convert(read, write), Map(Job(outputDir), parquetFiles)), k) &&
        files == WriteAll(old(files), Map(Convert(read, write), Map(Job(outputDir), parquetFiles))[..k]))
    {
      ghost var jobs := Map(Job(outputDir), parquetFiles);
      ghost var ws := Map(Convert(read, write), jobs);
      ghost var done: seq<Written> := [];
      var i := 0;
      while i < |parquetFiles|
        invariant 0 <= i <= |parquetFiles|
        invariant AllOrFirstError(ws[..i]) == Ok(done)
        invariant files == WriteAll(old(files), ws[..i])
      {
        var job := MakeJob(parquetFiles[i], outputDir);
        ghost var before := files;
        var c := ConvertOne(read, write, job);
        InOrderStep(old(files), ws, i, done, before, files);
        if c.Err? {
          PrefixAllOk(ws, i);
          assert FirstFailureAt(ws, i);
          return Err(c.error);
        }
        done := done + [ws[i].value];
        i := i + 1;
      }
      assert ws[..i] == ws;
      return Ok(());
    }

    /** `parallel_conversion`: a pool of `nWorkers` processes. A count below
        one is refused by the pool before any job is submitted. Otherwise one
        job per file is submitted in list order, every conversion runs, and
        waiting on the futures in completion order `order` (indices into the
        list) re-raises the first failure to finish. */
    method ParallelConversion(read: string -> Outcome<Frame>, write: string -> Outcome<()>,
                              parquetFiles: seq<string>, outputDir: string, nWorkers: int, order: seq<int>)
      returns (submitted: seq<(string, string)>, r: Outcome<()>)
      requires nWorkers >= 1 ==> multiset(order) == multiset(Range(0, |parquetFiles|))
      modifies this
      ensures nWorkers < 1 ==> submitted == [] && r == Err(NoWorkers) && files == old(files)
      ensures nWorkers >= 1 ==> submitted == Map(Job(outputDir), parquetFiles)
      ensures nWorkers >= 1 ==> r == Discard(FirstErrorByArrival(Map(Convert(read, write), submitted), order))
      ensures nWorkers >= 1 ==> files == WriteAll(old(files), Arrivals(Map(Convert(read, write), submitted), order))
    {
      if nWorkers < 1 {
        return [], Err(NoWorkers);
      }
      submitted := Submit(parquetFiles, outputDir);
      PermutationIndices(order, |parquetFiles|);
      ghost var outs := Map(Convert(read, write), submitted);
      ghost var arrived := Arrivals(outs, order);
      r := Ok(());
      var k := 0;
      while k < |order|
        invariant 0 <= k <= |order|
        invariant r == FirstFailure(arrived[..k])
        invariant files == WriteAll(old(files), arrived[..k])
      {
        ghost var before := files;
        var c := ConvertOne(read, write, submitted[order[k]]);
        ArrivalOf(Convert(read, write), submitted, order, k);
        WriteAllNext(old(files), arrived, k, before, files);
        FirstFailureNext(arrived, k);
        if r.Ok? && c.Err? {
          r := Err(c.error);
        }
        k := k + 1;
      }
      assert arrived[..k] == arrived;
      FirstFailureIsDiscard(arrived);
      ArrivalDecides(outs, order);
    }
  }

  /** The path derivation of both variants: the base name without its
      extension, plus ".csv", under the output directory. */
  method MakeJob(parquetFile: string, outputDir: string) returns (job: (string, string))
    ensures job == Job(outputDir)(parquetFile)
  {
    var filename := Stem(parquetFile) + ".csv";
    var csvPath := Join(outputDir, filename);
    job := (parquetFile, csvPath);
  }

  /** The submission loop: one (Parquet file, CSV path) job per file, in list order. */
  method Submit(parquetFiles: seq<string>, outputDir: string) returns (submitted: seq<(string, string)>)
    ensures submitted == Map(Job(outputDir), parquetFiles)
  {
    submitted := [];
    var i := 0;
    while i < |parquetFiles|
      invariant 0 <= i <= |parquetFiles|
      invariant submitted == Map(Job(outputDir), parquetFiles[..i])
    {
      var job := MakeJob(parquetFiles[i], outputDir);
      MapSnoc(Job(outputDir), parquetFiles, i);
      submitted := submitted + [job];
      i := i + 1;
    }
    assert parquetFiles[..i] == parquetFiles;
  }

  /** Both ways fail exactly when some file cannot be converted; when none
      fails, they leave the same CSV files, provided the CSV paths differ. */
  lemma ParallelMatchesSequential(read: string -> Outcome<Frame>, write: string -> Outcome<()>,
                                  outputDir: string, files: map<string, Frame>,
                                  parquetFiles: seq<string>, order: seq<int>)
    requires multiset(order) == multiset(Range(0, |parquetFiles|))
    requires DistinctTargets(Map(Convert(read, write), Map(Job(outputDir), parquetFiles)))
    ensures FirstErrorByArrival(Map(Convert(read, write), Map(Job(outputDir), parquetFiles)), order).Ok?
        <==> AllOrFirstError(Map(Convert(read, write), Map(Job(outputDir), parquetFiles))).Ok?
    ensures AllOrFirstError(Map(Convert(read, write), Map(Job(outputDir), parquetFiles))).Ok? ==>
      WriteAll(files, Arrivals(Map(Convert(read, write), Map(Job(outputDir), parquetFiles)), order))
        == WriteAll(files, Map(Convert(read, write), Map(Job(outputDir), parquetFiles)))
  {
    var ws := Map(Convert(read, write), Map(Job(outputDir), parquetFiles));
    if AllOrFirstError(ws).Ok? {
      ArrivalsKeepTargets(ws, order);
      ArrivalsPermutation(ws, order);
      WriteAllOrderIndependent(files, Arrivals(ws, order), ws);
    }
  }
}
