/** Counting critical-error lines in log files (level_03/exercice_15.py): one
    file at a time, or all of them through a process pool's `map`.

    Reading a file is an oracle: it gives the file's lines or the error `open`
    would raise. */
module LogAnalysis {
  import opened Outcomes
  import opened Sequences
  import opened Strings
  import opened Paths
  import opened FanIn

  const LogsDir: string := "logs"
  const Pattern: string := "error"

  /** `pattern in line.lower()`. */
  predicate IsErrorLine(line: string)
  {
    Contains(Lower(line), Pattern)
  }

  /** The number of lines that hold the pattern; a line counts once however often it holds it. */
  function ErrorCount(lines: seq<string>): (n: nat)
    ensures n <= |lines|
  {
    if lines == [] then 0
    else ErrorCount(lines[..|lines| - 1]) + (if IsErrorLine(lines[|lines| - 1]) then 1 else 0)
  }

  /** Counting two pieces of a file separately and adding gives the count of the whole. */
  lemma {:induction false} ErrorCountAppend(a: seq<string>, b: seq<string>)
    ensures ErrorCount(a + b) == ErrorCount(a) + ErrorCount(b)
    decreases |b|
  {
    if b != [] {
      var front := b[..|b| - 1];
      assert (a + b)[..|a + b| - 1] == a + front;
      assert (a + b)[|a + b| - 1] == b[|b| - 1];
      ErrorCountAppend(a, front);
    } else {
      assert a + b == a;
    }
  }

  /** The count is the number of lines exactly when every line matches. */
  lemma {:induction false} ErrorCountAll(lines: seq<string>)
    ensures ErrorCount(lines) == |lines| <==> forall i :: 0 <= i < |lines| ==> IsErrorLine(lines[i])
  {
    if lines != [] {
      var front := lines[..|lines| - 1];
      ErrorCountAll(front);
      assert forall i :: 0 <= i < |front| ==> front[i] == lines[i];
    }
  }

  /** The count is zero exactly when no line matches. */
  lemma {:induction false} ErrorCountNone(lines: seq<string>)
    ensures ErrorCount(lines) == 0 <==> forall i :: 0 <= i < |lines| ==> !IsErrorLine(lines[i])
  {
    if lines != [] {
      var front := lines[..|lines| - 1];
      ErrorCountNone(front);
      assert forall i :: 0 <= i < |front| ==> front[i] == lines[i];
    }
  }

  /** Lower-casing is idempotent, so the match ignores the case of the line. */
  lemma CaseInsensitive(line: string)
    ensures IsErrorLine(Lower(line)) <==> IsErrorLine(line)
  {
    assert Lower(Lower(line)) == Lower(line);
  }

  lemma UpperCaseMatches()
    ensures IsErrorLine("ERROR") && IsErrorLine("Error")
  {
    assert OccursAt(Lower("ERROR"), Pattern, 0);
    assert OccursAt(Lower("Error"), Pattern, 0);
  }

  /** A line holding the pattern twice still counts once. */
  lemma OncePerLine()
    ensures ErrorCount(["error error"]) == 1
  {
    assert OccursAt(Lower("error error"), Pattern, 0);
    assert ["error error"][..0] == [];
  }

  /** `analyze_log_file` as a value: the error count, or the failure to read the file. */
  function Analyze(read: string -> Outcome<seq<string>>): string -> Outcome<nat>
  {
    path => if read(path).Ok? then Ok(ErrorCount(read(path).value)) else Err(read(path).error)
  }

  /** `analyze_log_file`: one pass over the lines, adding one per matching line. */
  method AnalyzeLogFile(read: string -> Outcome<seq<string>>, path: string) returns (r: Outcome<nat>)
    ensures r.Err? <==> read(path).Err?
    ensures r.Err? ==> r.error == read(path).error
    ensures r.Ok? ==> r.value == ErrorCount(read(path).value)
  {
    var file := read(path);
    if file.Err? {
      return Err(file.error);
    }
    var lines := file.value;
    var count := 0;
    var i := 0;
    while i < |lines|
      invariant 0 <= i <= |lines|
      invariant count == ErrorCount(lines[..i])
    {
      TakeSnoc(lines, i);
      if IsErrorLine(lines[i]) {
        count := count + 1;
      }
      i := i + 1;
    }
    TakeAll(lines);
    return Ok(count);
  }

  /** `analyze_logs_sequential`: the files in order, the first failure propagates
      and the files after it are never opened. `analysed` lists the files opened. */
  method AnalyzeLogsSequential(read: string -> Outcome<seq<string>>, files: seq<string>)
    returns (analysed: seq<string>, r: Outcome<seq<nat>>)
    ensures r == AllOrFirstError(Map(Analyze(read), files))
    ensures r.Ok? ==> analysed == files
    ensures r.Err? ==> exists k :: (FirstFailureAt(Map(Analyze(read), files), k) &&
      analysed == files[..k + 1] && read(files[k]).Err?)
  {
    ghost var outs := Map(Analyze(read), files);
    analysed := [];
    var counts: seq<nat> := [];
    var i := 0;
    while i < |files|
      invariant 0 <= i <= |files|
      invariant analysed == files[..i]
      invariant AllOrFirstError(outs[..i]) == Ok(counts)
    {
      var c := AnalyzeLogFile(read, files[i]);
      assert c == outs[i];
      AllOrFirstErrorStep(outs, i, counts);
      TakeSnoc(files, i);
      analysed := analysed + [files[i]];
      if c.Err? {
        assert read(files[i]).Err?;
        PrefixAllOk(outs, i);
        assert FirstFailureAt(outs, i);
        return analysed, Err(c.error);
      }
      counts := counts + [c.value];
      i := i + 1;
    }
    TakeAll(outs);
    TakeAll(files);
    return analysed, Ok(counts);
  }

  /** `analyze_logs_parallel`: `pool.map` hands the files to the workers in
      chunks, a chunk stopping at its first failing file, and gives the counts
      in input order. When some file fails, the failure re-raised is that of
      the first failing chunk to finish, so `order` (the files' indices in
      completion order) decides which one it is. Analysing a file has no
      effect besides its count, so the files a chunk skips change nothing. */
  function AnalyzeLogsParallel(read: string -> Outcome<seq<string>>, files: seq<string>, order: seq<int>)
    : (r: Outcome<seq<nat>>)
    requires multiset(order) == multiset(Range(0, |files|))
    ensures r.Ok? <==> forall i :: 0 <= i < |files| ==> read(files[i]).Ok?
    ensures r.Ok? ==> |r.value| == |files| && forall i :: 0 <= i < |files| ==> r.value[i] == ErrorCount(read(files[i]).value)
    ensures r.Err? ==> exists i :: 0 <= i < |files| && read(files[i]) == Err(r.error)
  {
    var outs := Map(Analyze(read), files);
    var r := FirstErrorByArrival(outs, order);
    assert r.Err? ==> exists i :: 0 <= i < |files| && outs[i] == Err(r.error);
    r
  }

  /** Both ways fail exactly when some file cannot be read, and give the same counts otherwise. */
  lemma ParallelAgreesWithSequential(read: string -> Outcome<seq<string>>, files: seq<string>, order: seq<int>)
    requires multiset(order) == multiset(Range(0, |files|))
    ensures AnalyzeLogsParallel(read, files, order).Ok? <==> AllOrFirstError(Map(Analyze(read), files)).Ok?
    ensures AnalyzeLogsParallel(read, files, order).Ok? ==>
      AnalyzeLogsParallel(read, files, order) == AllOrFirstError(Map(Analyze(read), files))
  {
  }

  /** `main`'s file list: every directory entry ending in ".log", joined under "logs", in listing order. */
  function LogFiles(listing: seq<string>): (r: seq<string>)
    ensures forall f :: f in listing && EndsWith(f, ".log") ==> Join(LogsDir, f) in r
    ensures forall i :: 0 <= i < |r| ==> exists f :: f in listing && EndsWith(f, ".log") && r[i] == Join(LogsDir, f)
  {
    var names := Filter(IsLogName, listing);
    var r := Map(JoinUnder(LogsDir), names);
    assert forall f :: f in listing && EndsWith(f, ".log") ==> Join(LogsDir, f) in r by {
      forall f | f in listing && EndsWith(f, ".log")
        ensures Join(LogsDir, f) in r
      {
        var i :| 0 <= i < |listing| && listing[i] == f;
        var j :| 0 <= j < |names| && names[j] == f;
        assert r[j] == Join(LogsDir, f);
      }
    }
    assert forall i :: 0 <= i < |r| ==> names[i] in listing && EndsWith(names[i], ".log") && r[i] == Join(LogsDir, names[i]);
    r
  }

  predicate IsLogName(f: string)
  {
    EndsWith(f, ".log")
  }

  function JoinUnder(dir: string): string -> string
  {
    f => Join(dir, f)
  }

  /** A listing entry (no '/') comes back from its joined path as the base name,
      so every file analysed is a ".log" file of the listing. */
  lemma LogFilesAreLogs(listing: seq<string>)
    requires forall i :: 0 <= i < |listing| ==> '/' !in listing[i]
    ensures forall p :: p in LogFiles(listing) ==> Basename(p) in listing && EndsWith(Basename(p), ".log")
  {
    forall p | p in LogFiles(listing)
      ensures Basename(p) in listing && EndsWith(Basename(p), ".log")
    {
      var f :| f in listing && EndsWith(f, ".log") && p == Join(LogsDir, f);
      BasenameOfJoin(LogsDir, f);
    }
  }
}
