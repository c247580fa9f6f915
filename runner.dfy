/** The exercise runner (main.py): after the data set-up, every
    `exercice_*.py` file of each level directory is imported and its `main()`
    run, level after level and, within a level, in sorted file-name order; a
    failing exercise is reported and the next one still runs.

    The file system and the exercises themselves are oracles: `isDir` and
    `listDir` stand for `os.path.isdir` and `os.listdir`, `importModule` and
    `runMain` for importing a module by its dotted name and calling its
    `main()`. */
module Runner {
  import opened Outcomes
  import opened Sequences
  import opened Strings
  import opened Paths

  const Levels: seq<string> := ["level_01", "level_02", "level_03"]
  const ExercisePrefix: string := "exercice_"
  const ExerciseSuffix: string := ".py"

  /** `f.startswith("exercice_") and f.endswith(".py")`. */
  predicate IsExerciseFile(f: string)
  {
    StartsWith(f, ExercisePrefix) && EndsWith(f, ExerciseSuffix)
  }

  /** `file[:-3]`: all but the last three characters, and "" for a shorter name. */
  function ModuleName(file: string): (r: string)
    ensures |file| >= 3 ==> r + file[|file| - 3..] == file
    ensures |file| < 3 ==> r == ""
  {
    if |file| >= 3 then file[..|file| - 3] else ""
  }

  /** `f"{level}.{module_name}"`. */
  function FullModule(level: string, file: string): string
  {
    level + "." + ModuleName(file)
  }

  /** An exercise file is its module name plus ".py", and the module name
      still starts with "exercice_". */
  lemma ExerciseModuleName(file: string)
    requires IsExerciseFile(file)
    ensures ModuleName(file) + ExerciseSuffix == file
    ensures StartsWith(ModuleName(file), ExercisePrefix)
  {
    assert file[|file| - 3] == '.';
    assert |file| >= 12;
  }

  /** Two exercise files of one level never share a module name. */
  lemma FullModuleInjective(level: string, a: string, b: string)
    requires IsExerciseFile(a) && IsExerciseFile(b)
    requires FullModule(level, a) == FullModule(level, b)
    ensures a == b
  {
    var n := |level| + 1;
    assert ModuleName(a) == FullModule(level, a)[n..];
    assert ModuleName(b) == FullModule(level, b)[n..];
    ExerciseModuleName(a);
    ExerciseModuleName(b);
  }

  /** Python's `<=` on strings: lexicographic by code point, a prefix first. */
  predicate LexLe(a: string, b: string)
    decreases |a|
  {
    |a| == 0 || (|b| > 0 && (a[0] < b[0] || (a[0] == b[0] && LexLe(a[1..], b[1..]))))
  }

  lemma {:induction false} LexLeTotal(a: string, b: string)
    ensures LexLe(a, b) || LexLe(b, a)
    decreases |a|
  {
    if |a| > 0 && |b| > 0 && a[0] == b[0] {
      LexLeTotal(a[1..], b[1..]);
    }
  }

  lemma {:induction false} LexLeTrans(a: string, b: string, c: string)
    requires LexLe(a, b) && LexLe(b, c)
    ensures LexLe(a, c)
    decreases |a|
  {
    if |a| > 0 && a[0] == b[0] && b[0] == c[0] {
      LexLeTrans(a[1..], b[1..], c[1..]);
    }
  }

  lemma {:induction false} LexLeAntisymmetric(a: string, b: string)
    requires LexLe(a, b) && LexLe(b, a)
    ensures a == b
    decreases |a|
  {
    if |a| > 0 {
      LexLeAntisymmetric(a[1..], b[1..]);
      assert a == [a[0]] + a[1..];
      assert b == [b[0]] + b[1..];
    }
  }

  /** A common prefix does not change the order. */
  lemma {:induction false} LexLePrefix(p: string, a: string, b: string)
    ensures LexLe(p + a, p + b) <==> LexLe(a, b)
    decreases |p|
  {
    if |p| > 0 {
      assert (p + a)[0] == p[0] && (p + b)[0] == p[0];
      assert (p + a)[1..] == p[1..] + a;
      assert (p + b)[1..] == p[1..] + b;
      LexLePrefix(p[1..], a, b);
    } else {
      assert p + a == a && p + b == b;
    }
  }

  predicate SortedStrings(s: seq<string>)
  {
    forall i, j :: 0 <= i < j < |s| ==> LexLe(s[i], s[j])
  }

  /** x placed before the first element it does not follow. */
  function Insert(x: string, xs: seq<string>): (r: seq<string>)
    ensures multiset(r) == multiset(xs) + multiset{x}
  {
    if xs == [] then [x]
    else if LexLe(x, xs[0]) then [x] + xs
    else
      assert xs == [xs[0]] + xs[1..];
      [xs[0]] + Insert(x, xs[1..])
  }

  lemma {:induction false} InsertSorted(x: string, xs: seq<string>)
    requires SortedStrings(xs)
    ensures SortedStrings(Insert(x, xs))
    decreases |xs|
  {
    if xs == [] {
    } else if LexLe(x, xs[0]) {
      forall j | 0 <= j < |xs|
        ensures LexLe(x, xs[j])
      {
        if j > 0 {
          LexLeTrans(x, xs[0], xs[j]);
        }
      }
      ConsSorted(x, xs);
    } else {
      LexLeTotal(x, xs[0]);
      var tail := xs[1..];
      InsertSorted(x, tail);
      var rest := Insert(x, tail);
      forall k | 0 <= k < |rest|
        ensures LexLe(xs[0], rest[k])
      {
        assert rest[k] in multiset(rest);
        if rest[k] != x {
          assert rest[k] in multiset(tail);
          var m :| 0 <= m < |tail| && tail[m] == rest[k];
          assert xs[m + 1] == rest[k];
        }
      }
      ConsSorted(xs[0], rest);
    }
  }

  /** A name that precedes every name of a sorted list may be put in front of it. */
  lemma ConsSorted(y: string, t: seq<string>)
    requires SortedStrings(t)
    requires forall k :: 0 <= k < |t| ==> LexLe(y, t[k])
    ensures SortedStrings([y] + t)
  {
    var r := [y] + t;
    forall i, j | 0 <= i < j < |r|
      ensures LexLe(r[i], r[j])
    {
      assert r[j] == t[j - 1];
      if i > 0 {
        assert r[i] == t[i - 1];
      }
    }
  }

  /** `files.sort()` on a list of distinct names, as a value. */
  function SortStrings(xs: seq<string>): (r: seq<string>)
    ensures multiset(r) == multiset(xs)
  {
    if xs == [] then []
    else
      assert xs == [xs[0]] + xs[1..];
      Insert(xs[0], SortStrings(xs[1..]))
  }

  lemma {:induction false} SortSorted(xs: seq<string>)
    ensures SortedStrings(SortStrings(xs))
  {
    if xs != [] {
      SortSorted(xs[1..]);
      InsertSorted(xs[0], SortStrings(xs[1..]));
    }
  }

  /** The sorted list is the only sorted arrangement of the names. */
  lemma {:induction false} SortedUnique(a: seq<string>, b: seq<string>)
    requires SortedStrings(a) && SortedStrings(b) && multiset(a) == multiset(b)
    ensures a == b
    decreases |a|
  {
    if a == [] {
      assert |b| == |multiset(b)| == 0;
    } else {
      HeadStep(a, b);
      SortedUnique(a[1..], b[1..]);
      HeadTail(a, b);
    }
  }

  /** Two sorted arrangements of the same names start with the same name and
      continue with the same names, still sorted. */
  lemma HeadStep(a: seq<string>, b: seq<string>)
    requires SortedStrings(a) && SortedStrings(b) && multiset(a) == multiset(b)
    requires a != []
    ensures b != [] && a[0] == b[0]
    ensures multiset(a[1..]) == multiset(b[1..])
    ensures SortedStrings(a[1..]) && SortedStrings(b[1..])
  {
    assert a[0] in multiset(b) && b[0] in multiset(a);
    LeastFirst(a, b[0]);
    LeastFirst(b, a[0]);
    LexLeAntisymmetric(a[0], b[0]);
    DropFirst(a);
    DropFirst(b);
    DropFirstSorted(a);
    DropFirstSorted(b);
  }

  lemma HeadTail(a: seq<string>, b: seq<string>)
    requires a != [] && b != [] && a[0] == b[0] && a[1..] == b[1..]
    ensures a == b
  {
    assert a == [a[0]] + a[1..];
    assert b == [b[0]] + b[1..];
  }

  /** Dropping the first name removes one copy of it. */
  lemma DropFirst(s: seq<string>)
    requires s != []
    ensures multiset(s[1..]) == multiset(s) - multiset{s[0]}
  {
    assert s == [s[0]] + s[1..];
  }

  lemma DropFirstSorted(s: seq<string>)
    requires s != [] && SortedStrings(s)
    ensures SortedStrings(s[1..])
  {
    var t := s[1..];
    forall i, j | 0 <= i < j < |t|
      ensures t[i] == s[i + 1] && t[j] == s[j + 1]
    {
    }
  }

  /** The first element of a sorted list precedes every element of it. */
  lemma LeastFirst(s: seq<string>, x: string)
    requires SortedStrings(s) && x in s
    ensures LexLe(s[0], x)
  {
    var k :| 0 <= k < |s| && s[k] == x;
    if k == 0 {
      LexLeReflexive(x);
    }
  }

  lemma {:induction false} LexLeReflexive(a: string)
    ensures LexLe(a, a)
    decreases |a|
  {
    if |a| > 0 {
      LexLeReflexive(a[1..]);
    }
  }

  /** "exercice_NN.py" for a zero-padded number. */
  function PaddedExercise(n: nat): string
  {
    ExercisePrefix + Format02(n) + ExerciseSuffix
  }

  /** The two digits of a zero-padded number below 100. */
  lemma TwoDigits(s: string)
    requires |s| == 2 && AllDigits(s)
    ensures ParseNat(s) == DigitValue(s[0]) * 10 + DigitValue(s[1])
  {
    var t := s[..1];
    assert t[..0] == [];
    assert ParseNat(t) == DigitValue(s[0]);
    assert s[..|s| - 1] == t;
  }

  /** Sorting names of zero-padded exercise numbers puts them in numeric order. */
  lemma PaddedNamesSortNumerically(a: nat, b: nat)
    requires a < b < 100
    ensures LexLe(PaddedExercise(a), PaddedExercise(b)) && !LexLe(PaddedExercise(b), PaddedExercise(a))
  {
    var sa, sb := Format02(a), Format02(b);
    TwoDigits(sa);
    TwoDigits(sb);
    var x, y := sa + ExerciseSuffix, sb + ExerciseSuffix;
    assert PaddedExercise(a) == ExercisePrefix + x;
    assert PaddedExercise(b) == ExercisePrefix + y;
    LexLePrefix(ExercisePrefix, x, y);
    LexLePrefix(ExercisePrefix, y, x);
    assert x[0] == sa[0] && y[0] == sb[0];
    if sa[0] == sb[0] {
      assert x[1..][0] == sa[1] && y[1..][0] == sb[1];
    }
  }

  /** Without the padding the order is not numeric: 10 sorts before 2. */
  lemma UnpaddedNamesMisorder()
    ensures LexLe("exercice_10.py", "exercice_2.py") && !LexLe("exercice_2.py", "exercice_10.py")
  {
    assert "exercice_10.py" == ExercisePrefix + "10.py";
    assert "exercice_2.py" == ExercisePrefix + "2.py";
    LexLePrefix(ExercisePrefix, "10.py", "2.py");
    LexLePrefix(ExercisePrefix, "2.py", "10.py");
  }

  /** The exercise files of one level in the order they run: the directory
      entries that pass the filter, sorted; none when the level directory is missing. */
  function LevelFiles(isDir: string -> bool, listDir: string -> seq<string>, basePath: string, level: string)
    : seq<string>
  {
    var levelPath := Join(basePath, level);
    if isDir(levelPath) then SortStrings(Filter(IsExerciseFile, listDir(levelPath))) else []
  }

  function LevelModules(isDir: string -> bool, listDir: string -> seq<string>, basePath: string)
    : string -> seq<string>
  {
    level => Map(QualifiedBy(level), LevelFiles(isDir, listDir, basePath, level))
  }

  function QualifiedBy(level: string): string -> string
  {
    file => FullModule(level, file)
  }

  /** Every module `run_exercises` runs, in order: level after level. */
  function Plan(isDir: string -> bool, listDir: string -> seq<string>, basePath: string, levels: seq<string>)
    : seq<string>
  {
    Concat(Map(LevelModules(isDir, listDir, basePath), levels))
  }

  /** A module's run: a failed import is reported as it is, otherwise `main()`'s outcome. */
  function Execute(importModule: string -> Outcome<()>, runMain: string -> Outcome<()>): string -> Outcome<()>
  {
    m => if importModule(m).Err? then importModule(m) else runMain(m)
  }

  /** Within a level the files run in sorted order, and they are exactly the
      level's exercise files. */
  lemma LevelFilesSorted(isDir: string -> bool, listDir: string -> seq<string>, basePath: string, level: string)
    requires isDir(Join(basePath, level))
    ensures SortedStrings(LevelFiles(isDir, listDir, basePath, level))
    ensures multiset(LevelFiles(isDir, listDir, basePath, level))
         == multiset(Filter(IsExerciseFile, listDir(Join(basePath, level))))
  {
    SortSorted(Filter(IsExerciseFile, listDir(Join(basePath, level))));
  }

  /** The levels run in the order given: the plan of a longer list of levels
      is the plan of the first ones followed by that of the rest. */
  lemma PlanAppend(isDir: string -> bool, listDir: string -> seq<string>, basePath: string,
                   a: seq<string>, b: seq<string>)
    ensures Plan(isDir, listDir, basePath, a + b)
         == Plan(isDir, listDir, basePath, a) + Plan(isDir, listDir, basePath, b)
  {
    var f := LevelModules(isDir, listDir, basePath);
    MapAppend(f, a, b);
    ConcatAppend(Map(f, a), Map(f, b));
  }

  /** The plan of one more level is the plan so far followed by that level's modules. */
  lemma PlanSnoc(isDir: string -> bool, listDir: string -> seq<string>, basePath: string,
                 levels: seq<string>, level: string)
    ensures Plan(isDir, listDir, basePath, levels + [level])
         == Plan(isDir, listDir, basePath, levels) + LevelModules(isDir, listDir, basePath)(level)
  {
    ConcatMapSnoc(LevelModules(isDir, listDir, basePath), levels, level);
  }

  lemma LevelModulesAre(isDir: string -> bool, listDir: string -> seq<string>, basePath: string,
                        level: string, files: seq<string>)
    requires files == LevelFiles(isDir, listDir, basePath, level)
    ensures |LevelModules(isDir, listDir, basePath)(level)| == |files|
    ensures forall k :: 0 <= k < |files| ==> LevelModules(isDir, listDir, basePath)(level)[k] == FullModule(level, files[k])
  {
  }

  /** A file is run for an existing level exactly when the level's listing has
      it and it passes the filter. */
  lemma LevelFilesMembers(isDir: string -> bool, listDir: string -> seq<string>, basePath: string,
                          level: string, g: string)
    requires isDir(Join(basePath, level))
    ensures g in LevelFiles(isDir, listDir, basePath, level) <==>
      g in listDir(Join(basePath, level)) && IsExerciseFile(g)
  {
    var listing := listDir(Join(basePath, level));
    var files := LevelFiles(isDir, listDir, basePath, level);
    var selected := Filter(IsExerciseFile, listing);
    assert multiset(files) == multiset(selected);
    if g in files {
      assert g in multiset(selected);
      var k :| 0 <= k < |selected| && selected[k] == g;
    }
    if g in listing && IsExerciseFile(g) {
      var k :| 0 <= k < |listing| && listing[k] == g;
      assert g in selected;
      assert g in multiset(files);
    }
  }

  /** Every module run is an exercise file of a level directory that exists. */
  lemma PlanSound(isDir: string -> bool, listDir: string -> seq<string>, basePath: string,
                  levels: seq<string>, m: string)
    requires m in Plan(isDir, listDir, basePath, levels)
    ensures exists i, g ::
      0 <= i < |levels| && isDir(Join(basePath, levels[i])) &&
      g in listDir(Join(basePath, levels[i])) && IsExerciseFile(g) && m == FullModule(levels[i], g)
  {
    var ss := Map(LevelModules(isDir, listDir, basePath), levels);
    var i, j := ConcatMember(ss, m);
    var g := ModuleOfLevel(isDir, listDir, basePath, levels[i], j);
  }

  /** The j-th module of a level comes from an exercise file of that level's directory, which exists. */
  lemma ModuleOfLevel(isDir: string -> bool, listDir: string -> seq<string>, basePath: string,
                      level: string, j: int) returns (g: string)
    requires 0 <= j < |LevelModules(isDir, listDir, basePath)(level)|
    ensures isDir(Join(basePath, level))
    ensures g in listDir(Join(basePath, level)) && IsExerciseFile(g)
    ensures LevelModules(isDir, listDir, basePath)(level)[j] == FullModule(level, g)
  {
    var files := LevelFiles(isDir, listDir, basePath, level);
    LevelModulesAre(isDir, listDir, basePath, level, files);
    g := files[j];
    LevelFilesMembers(isDir, listDir, basePath, level, g);
  }

  /** Every exercise file of every existing level directory is run. */
  lemma PlanComplete(isDir: string -> bool, listDir: string -> seq<string>, basePath: string,
                     levels: seq<string>, i: int, g: string)
    requires 0 <= i < |levels| && isDir(Join(basePath, levels[i]))
    requires g in listDir(Join(basePath, levels[i])) && IsExerciseFile(g)
    ensures FullModule(levels[i], g) in Plan(isDir, listDir, basePath, levels)
  {
    var ss := Map(LevelModules(isDir, listDir, basePath), levels);
    var j := LevelModuleOf(isDir, listDir, basePath, levels[i], g);
    ConcatContains(ss, i, j);
  }

  /** An exercise file of an existing level directory has its module among the level's modules. */
  lemma LevelModuleOf(isDir: string -> bool, listDir: string -> seq<string>, basePath: string,
                      level: string, g: string) returns (j: nat)
    requires isDir(Join(basePath, level))
    requires g in listDir(Join(basePath, level)) && IsExerciseFile(g)
    ensures j < |LevelModules(isDir, listDir, basePath)(level)|
    ensures LevelModules(isDir, listDir, basePath)(level)[j] == FullModule(level, g)
  {
    var files := LevelFiles(isDir, listDir, basePath, level);
    LevelFilesMembers(isDir, listDir, basePath, level, g);
    j := IndexOf(files, g);
    LevelModulesAre(isDir, listDir, basePath, level, files);
  }

  /** A missing level directory contributes no module. */
  lemma MissingLevelSkipped(isDir: string -> bool, listDir: string -> seq<string>, basePath: string,
                            levels: seq<string>, level: string)
    requires !isDir(Join(basePath, level))
    ensures Plan(isDir, listDir, basePath, levels + [level]) == Plan(isDir, listDir, basePath, levels)
  {
    PlanSnoc(isDir, listDir, basePath, levels, level);
    assert LevelFiles(isDir, listDir, basePath, level) == [];
  }

  /** The level directories that do not exist, in order. */
  function MissingLevels(isDir: string -> bool, basePath: string, levels: seq<string>): seq<string>
  {
    if levels == [] then []
    else
      var level := levels[|levels| - 1];
      MissingLevels(isDir, basePath, levels[..|levels| - 1])
        + (if isDir(Join(basePath, level)) then [] else [Join(basePath, level)])
  }

  /** A level is reported missing exactly when its directory does not exist. */
  lemma {:induction false} MissingLevelsMembers(isDir: string -> bool, basePath: string, levels: seq<string>)
    ensures forall i :: 0 <= i < |levels| && !isDir(Join(basePath, levels[i])) ==>
      Join(basePath, levels[i]) in MissingLevels(isDir, basePath, levels)
    ensures forall p :: p in MissingLevels(isDir, basePath, levels) ==>
      !isDir(p) && exists i :: 0 <= i < |levels| && p == Join(basePath, levels[i])
  {
    MissingLevelsComplete(isDir, basePath, levels);
    MissingLevelsSound(isDir, basePath, levels);
  }

  lemma {:induction false} MissingLevelsComplete(isDir: string -> bool, basePath: string, levels: seq<string>)
    ensures forall i :: 0 <= i < |levels| && !isDir(Join(basePath, levels[i])) ==>
      Join(basePath, levels[i]) in MissingLevels(isDir, basePath, levels)
  {
    if levels != [] {
      var front := levels[..|levels| - 1];
      MissingLevelsComplete(isDir, basePath, front);
      forall i | 0 <= i < |levels| && !isDir(Join(basePath, levels[i]))
        ensures Join(basePath, levels[i]) in MissingLevels(isDir, basePath, levels)
      {
        if i < |front| {
          assert front[i] == levels[i];
        }
      }
    }
  }

  lemma {:induction false} MissingLevelsSound(isDir: string -> bool, basePath: string, levels: seq<string>)
    ensures forall p :: p in MissingLevels(isDir, basePath, levels) ==>
      !isDir(p) && exists i :: 0 <= i < |levels| && p == Join(basePath, levels[i])
  {
    if levels != [] {
      var front := levels[..|levels| - 1];
      MissingLevelsSound(isDir, basePath, front);
      forall p | p in MissingLevels(isDir, basePath, levels)
        ensures !isDir(p) && exists i :: 0 <= i < |levels| && p == Join(basePath, levels[i])
      {
        if p in MissingLevels(isDir, basePath, front) {
          var i :| 0 <= i < |front| && p == Join(basePath, front[i]);
          assert front[i] == levels[i];
        } else {
          assert p == Join(basePath, levels[|levels| - 1]);
        }
      }
    }
  }

  /** `runs` pairs each module of `modules` with its outcome under `execute`. */
  predicate Attempted(runs: seq<(string, Outcome<()>)>, modules: seq<string>, execute: string -> Outcome<()>)
  {
    |runs| == |modules| && forall k :: 0 <= k < |runs| ==> runs[k] == (modules[k], execute(modules[k]))
  }

  lemma AttemptedAppend(a: seq<(string, Outcome<()>)>, am: seq<string>,
                        b: seq<(string, Outcome<()>)>, bm: seq<string>, execute: string -> Outcome<()>)
    requires Attempted(a, am, execute) && Attempted(b, bm, execute)
    ensures Attempted(a + b, am + bm, execute)
  {
  }

  /** The inner loop of `run_exercises`: each file of one level in turn, its
      module imported and run; an exception is caught and reported, and the
      loop goes on with the next file. */
  method RunLevel(importModule: string -> Outcome<()>, runMain: string -> Outcome<()>,
                  level: string, files: seq<string>)
    returns (runs: seq<(string, Outcome<()>)>)
    ensures |runs| == |files|
    ensures forall k :: 0 <= k < |files| ==>
      runs[k] == (FullModule(level, files[k]), Execute(importModule, runMain)(FullModule(level, files[k])))
  {
    runs := [];
    var j := 0;
    while j < |files|
      invariant 0 <= j <= |files|
      invariant |runs| == j
      invariant forall k :: 0 <= k < j ==>
        runs[k] == (FullModule(level, files[k]), Execute(importModule, runMain)(FullModule(level, files[k])))
    {
      var moduleName := ModuleName(files[j]);
      var fullModule := level + "." + moduleName;
      var outcome: Outcome<()>;
      var imported := importModule(fullModule);
      if imported.Err? {
        outcome := imported;
      } else {
        outcome := runMain(fullModule);
      }
      runs := runs + [(fullModule, outcome)];
      j := j + 1;
    }
  }

  /** One pass of the outer loop of `run_exercises`: a missing level directory
      is reported and skipped, otherwise its exercise files are selected,
      sorted and run. */
  method RunLevelDirectory(isDir: string -> bool, listDir: string -> seq<string>,
                           importModule: string -> Outcome<()>, runMain: string -> Outcome<()>,
                           basePath: string, level: string)
    returns (missing: seq<string>, levelRuns: seq<(string, Outcome<()>)>)
    ensures missing == if isDir(Join(basePath, level)) then [] else [Join(basePath, level)]
    ensures Attempted(levelRuns, LevelModules(isDir, listDir, basePath)(level), Execute(importModule, runMain))
  {
    var levelPath := Join(basePath, level);
    if !isDir(levelPath) {
      assert LevelFiles(isDir, listDir, basePath, level) == [];
      return [levelPath], [];
    }
    var files := Filter(IsExerciseFile, listDir(levelPath));
    files := SortStrings(files);
    assert files == LevelFiles(isDir, listDir, basePath, level);
    levelRuns := RunLevel(importModule, runMain, level, files);
    LevelModulesAre(isDir, listDir, basePath, level, files);
    missing := [];
  }

  /** One more level adds its directory to the missing ones when it does not exist. */
  lemma MissingLevelsSnoc(isDir: string -> bool, basePath: string, levels: seq<string>, level: string)
    ensures MissingLevels(isDir, basePath, levels + [level])
         == MissingLevels(isDir, basePath, levels) + (if isDir(Join(basePath, level)) then [] else [Join(basePath, level)])
  {
    assert (levels + [level])[..|levels|] == levels;
  }

  /** The runs of one more level extend the runs of the levels before it. */
  lemma LevelStep(isDir: string -> bool, listDir: string -> seq<string>, basePath: string,
                  levels: seq<string>, li: nat, runs: seq<(string, Outcome<()>)>,
                  levelRuns: seq<(string, Outcome<()>)>, execute: string -> Outcome<()>)
    requires li < |levels|
    requires Attempted(runs, Plan(isDir, listDir, basePath, levels[..li]), execute)
    requires Attempted(levelRuns, LevelModules(isDir, listDir, basePath)(levels[li]), execute)
    ensures Attempted(runs + levelRuns, Plan(isDir, listDir, basePath, levels[..li + 1]), execute)
  {
    TakeSnoc(levels, li);
    PlanSnoc(isDir, listDir, basePath, levels[..li], levels[li]);
    AttemptedAppend(runs, Plan(isDir, listDir, basePath, levels[..li]),
                    levelRuns, LevelModules(isDir, listDir, basePath)(levels[li]), execute);
  }

  lemma MissingLevelStep(isDir: string -> bool, basePath: string, levels: seq<string>, li: nat)
    requires li < |levels|
    ensures MissingLevels(isDir, basePath, levels[..li + 1])
         == MissingLevels(isDir, basePath, levels[..li])
            + (if isDir(Join(basePath, levels[li])) then [] else [Join(basePath, levels[li])])
  {
    TakeSnoc(levels, li);
    MissingLevelsSnoc(isDir, basePath, levels[..li], levels[li]);
  }

  /** `run_exercises`: `skipped` lists the level directories reported missing,
      and `runs` each module attempted with its outcome. Every planned module
      is attempted whatever the outcome of the ones before it. */
  method RunExercises(isDir: string -> bool, listDir: string -> seq<string>,
                      importModule: string -> Outcome<()>, runMain: string -> Outcome<()>,
                      basePath: string, levels: seq<string>)
    returns (skipped: seq<string>, runs: seq<(string, Outcome<()>)>)
    ensures skipped == MissingLevels(isDir, basePath, levels)
    ensures Attempted(runs, Plan(isDir, listDir, basePath, levels), Execute(importModule, runMain))
  {
    ghost var execute := Execute(importModule, runMain);
    skipped := [];
    runs := [];
    var li := 0;
    while li < |levels|
      invariant 0 <= li <= |levels|
      invariant skipped == MissingLevels(isDir, basePath, levels[..li])
      invariant Attempted(runs, Plan(isDir, listDir, basePath, levels[..li]), execute)
    {
      var level := levels[li];
      var missing, levelRuns := RunLevelDirectory(isDir, listDir, importModule, runMain, basePath, level);
      LevelStep(isDir, listDir, basePath, levels, li, runs, levelRuns, execute);
      MissingLevelStep(isDir, basePath, levels, li);
      skipped := skipped + missing;
      runs := runs + levelRuns;
      li := li + 1;
    }
    TakeAll(levels);
  }

  /** The program's entry point: the set-up runs first and a failure there is
      re-raised before any exercise runs; otherwise the three levels run under
      `basePath`, the directory of main.py. */
  method RunProgram(setup: Outcome<()>, isDir: string -> bool, listDir: string -> seq<string>,
                    importModule: string -> Outcome<()>, runMain: string -> Outcome<()>, basePath: string)
    returns (r: Outcome<seq<(string, Outcome<()>)>>)
    ensures r.Err? <==> setup.Err?
    ensures r.Err? ==> r.error == setup.error
    ensures r.Ok? ==> Attempted(r.value, Plan(isDir, listDir, basePath, Levels), Execute(importModule, runMain))
  {
    if setup.Err? {
      return Err(setup.error);
    }
    var _, runs := RunExercises(isDir, listDir, importModule, runMain, basePath, Levels);
    return Ok(runs);
  }
}
