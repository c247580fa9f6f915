/** POSIX path manipulation as Python's `os.path` does it: `join`, `basename`,
    `splitext`. Only '/' separates components; there is no file system here. */
module Paths {
  import opened Strings

  /** Index of the last occurrence of c in s (`s.rfind(c)`), -1 when absent. */
  function LastIndexOf(s: string, c: char): (k: int)
    ensures -1 <= k < |s|
    ensures k >= 0 ==> s[k] == c
    ensures forall j :: k < j < |s| ==> s[j] != c
  {
    if s == [] then -1
    else if s[|s| - 1] == c then |s| - 1
    else LastIndexOf(s[..|s| - 1], c)
  }

  /** `os.path.join(a, b)`: b alone when it is absolute, a + b when a is empty or
      ends with '/', otherwise a + '/' + b. */
  function Join(a: string, b: string): string
  {
    if StartsWith(b, "/") then b
    else if a == [] || EndsWith(a, "/") then a + b
    else a + "/" + b
  }

  /** `os.path.basename(p)`: everything after the last '/'. */
  function Basename(p: string): (r: string)
    ensures '/' !in r
    ensures EndsWith(p, r)
  {
    var k := LastIndexOf(p, '/');
    NoSlashAfter(p, k);
    p[k + 1..]
  }

  lemma NoSlashAfter(p: string, k: int)
    requires -1 <= k < |p|
    requires forall j :: k < j < |p| ==> p[j] != '/'
    ensures '/' !in p[k + 1..]
  {
  }

  /** Some character of p[lo..hi] is not a dot. */
  predicate HasNonDot(p: string, lo: int, hi: int)
    requires 0 <= lo && hi <= |p|
  {
    exists k | lo <= k < hi :: p[k] != '.'
  }

  /** `os.path.splitext(p)`: the extension runs from the last '.' of the last
      component to the end, unless every character before that dot in the
      component is itself a dot (so ".bashrc" has no extension). */
  function SplitExt(p: string): (r: (string, string))
    ensures r.0 + r.1 == p
    ensures r.1 == [] || (r.1[0] == '.' && '/' !in r.1 && '.' !in r.1[1..])
  {
    var sepIndex := LastIndexOf(p, '/');
    var dotIndex := LastIndexOf(p, '.');
    if dotIndex > sepIndex && HasNonDot(p, sepIndex + 1, dotIndex) then
      (p[..dotIndex], p[dotIndex..])
    else
      (p, [])
  }

  /** `os.path.splitext(os.path.basename(p))[0]`: the file name without directory and extension. */
  function Stem(p: string): string
  {
    SplitExt(Basename(p)).0
  }

  /** The last component of a joined path is the component that was joined. */
  lemma BasenameOfJoin(dir: string, name: string)
    requires '/' !in name
    ensures Basename(Join(dir, name)) == name
  {
    var p := Join(dir, name);
    assert !StartsWith(name, "/") by {
      if |name| >= 1 { assert name[0] in name; }
    }
    var k := LastIndexOf(p, '/');
    var start := |p| - |name|;
    assert p[start..] == name;
    if dir != [] {
      assert p[start - 1] == '/';
    }
    assert k == start - 1;
  }

  /** A file name made of a stem with no '/' and not only dots, and an extension
      '.' + letters with no '/' or '.', splits back into that stem and extension. */
  lemma SplitExtOfName(stem: string, ext: string)
    requires '/' !in stem && exists k | 0 <= k < |stem| :: stem[k] != '.'
    requires |ext| >= 1 && ext[0] == '.' && '/' !in ext && '.' !in ext[1..]
    ensures SplitExt(stem + ext) == (stem, ext)
  {
    var p := stem + ext;
    var d := LastIndexOf(p, '.');
    var s := LastIndexOf(p, '/');
    assert p[|stem|] == '.';
    assert d == |stem|;
    var k :| 0 <= k < |stem| && stem[k] != '.';
    assert p[k] != '.';
    assert HasNonDot(p, s + 1, d);
    assert p[..d] == stem && p[d..] == ext;
  }

  /** ".csv" is an extension in the sense of `splitext`. */
  lemma CsvExtension()
    ensures |".csv"| >= 1 && ".csv"[0] == '.' && '/' !in ".csv" && '.' !in ".csv"[1..]
  {
    assert ".csv"[1..] == "csv";
  }

  /** Joining a stem and an extension under a directory, then taking the stem, gives it back. */
  lemma StemOfJoin(dir: string, stem: string, ext: string)
    requires '/' !in stem && exists k | 0 <= k < |stem| :: stem[k] != '.'
    requires |ext| >= 1 && ext[0] == '.' && '/' !in ext && '.' !in ext[1..]
    ensures Stem(Join(dir, stem + ext)) == stem
  {
    BasenameOfJoin(dir, stem + ext);
    SplitExtOfName(stem, ext);
  }

  /** Joining under the same directory is injective on relative names. */
  lemma JoinInjective(dir: string, a: string, b: string)
    requires |a| >= 1 && a[0] != '/' && |b| >= 1 && b[0] != '/'
    ensures Join(dir, a) == Join(dir, b) <==> a == b
  {
    var pre := if dir == [] || EndsWith(dir, "/") then dir else dir + "/";
    assert Join(dir, a) == pre + a;
    assert Join(dir, b) == pre + b;
    assert (pre + a)[|pre|..] == a;
    assert (pre + b)[|pre|..] == b;
  }
}
