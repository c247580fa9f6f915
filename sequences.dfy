/** Sequence helpers shared by the exercises: flattening a list of lists
    (`list.extend` in a loop, `pd.concat`), mapping a work function over a list,
    integer ranges (`range(lo, hi)`) and permutations (completion orders). */
module Sequences {

  /** The elements of all the lists, list after list. */
  function Concat<T>(ss: seq<seq<T>>): (r: seq<T>)
  {
    if ss == [] then [] else ss[0] + Concat(ss[1..])
  }

  /** `f` applied to each element, in order. */
  function Map<A, B>(f: A -> B, xs: seq<A>): (r: seq<B>)
    ensures |r| == |xs|
    ensures forall i :: 0 <= i < |xs| ==> r[i] == f(xs[i])
  {
    seq(|xs|, i requires 0 <= i < |xs| => f(xs[i]))
  }

  /** The elements that satisfy p, in order: a comprehension with an `if`. */
  function Filter<T>(p: T -> bool, xs: seq<T>): (r: seq<T>)
    ensures |r| <= |xs|
    ensures forall i :: 0 <= i < |r| ==> r[i] in xs && p(r[i])
    ensures forall i :: 0 <= i < |xs| && p(xs[i]) ==> xs[i] in r
  {
    if xs == [] then []
    else
      assert xs == xs[..|xs| - 1] + [xs[|xs| - 1]];
      Filter(p, xs[..|xs| - 1]) + (if p(xs[|xs| - 1]) then [xs[|xs| - 1]] else [])
  }

  /** Python's `range(lo, hi)`: lo, lo+1, ..., hi-1, and empty when hi <= lo. */
  function Range(lo: int, hi: int): (r: seq<int>)
    ensures |r| == if hi <= lo then 0 else hi - lo
    ensures forall i :: 0 <= i < |r| ==> r[i] == lo + i
    decreases hi - lo
  {
    if hi <= lo then [] else [lo] + Range(lo + 1, hi)
  }

  /** `range(lo, hi)` holds each integer at most once. */
  lemma {:induction false} RangeOnce(lo: int, hi: int, x: int)
    ensures multiset(Range(lo, hi))[x] <= 1
    decreases hi - lo
  {
    if lo < hi {
      RangeOnce(lo + 1, hi, x);
      RangeMembers(lo + 1, hi, lo);
      assert Range(lo, hi) == [lo] + Range(lo + 1, hi);
    }
  }

  /** The members of `range(lo, hi)` are the integers from lo up to hi. */
  lemma RangeMembers(lo: int, hi: int, x: int)
    ensures x in multiset(Range(lo, hi)) <==> lo <= x < hi
  {
    if lo <= x < hi {
      assert Range(lo, hi)[x - lo] == x;
    }
  }

  /** `range(lo, hi)` is `range(lo, mid)` followed by `range(mid, hi)`. */
  lemma RangeSplit(lo: int, mid: int, hi: int)
    requires lo <= mid <= hi
    ensures Range(lo, hi) == Range(lo, mid) + Range(mid, hi)
  {
    assert forall i :: 0 <= i < hi - lo ==> Range(lo, hi)[i] == (Range(lo, mid) + Range(mid, hi))[i];
  }

  /** Total number of elements in a list of lists. */
  function TotalLength<T>(ss: seq<seq<T>>): nat
  {
    if ss == [] then 0 else |ss[0]| + TotalLength(ss[1..])
  }

  lemma {:induction false} ConcatLength<T>(ss: seq<seq<T>>)
    ensures |Concat(ss)| == TotalLength(ss)
  {
    if ss != [] {
      ConcatLength(ss[1..]);
    }
  }

  /** Flattening distributes over appending lists of lists. */
  lemma {:induction false} ConcatAppend<T>(a: seq<seq<T>>, b: seq<seq<T>>)
    ensures Concat(a + b) == Concat(a) + Concat(b)
  {
    if a == [] {
      assert a + b == b;
    } else {
      assert (a + b)[1..] == a[1..] + b;
      ConcatAppend(a[1..], b);
    }
  }

  /** Every element of every piece is in the flattened sequence. */
  lemma {:induction false} ConcatContains<T>(ss: seq<seq<T>>, i: int, j: int)
    requires 0 <= i < |ss| && 0 <= j < |ss[i]|
    ensures ss[i][j] in Concat(ss)
  {
    if i == 0 {
      assert Concat(ss)[j] == ss[0][j];
    } else {
      ConcatContains(ss[1..], i - 1, j);
    }
  }

  /** Appending a non-empty sequence is appending its head, then its tail. */
  lemma AppendHeadTail<T>(a: seq<T>, xs: seq<T>)
    requires xs != []
    ensures a + [xs[0]] + xs[1..] == a + xs
  {
  }

  /** A position at which x occurs in s. */
  lemma IndexOf<T>(s: seq<T>, x: T) returns (k: nat)
    requires x in s
    ensures k < |s| && s[k] == x
  {
    k :| k < |s| && s[k] == x;
  }

  /** Every element of the flattened sequence comes from one of the pieces. */
  lemma {:induction false} ConcatMember<T>(ss: seq<seq<T>>, x: T) returns (i: nat, j: nat)
    requires x in Concat(ss)
    ensures i < |ss| && j < |ss[i]| && ss[i][j] == x
  {
    if x in ss[0] {
      var k :| 0 <= k < |ss[0]| && ss[0][k] == x;
      i, j := 0, k;
    } else {
      var i', j' := ConcatMember(ss[1..], x);
      i, j := i' + 1, j';
    }
  }

  /** Mapping one more element and flattening appends that element's image. */
  lemma ConcatMapSnoc<A, B>(f: A -> seq<B>, xs: seq<A>, x: A)
    ensures Concat(Map(f, xs + [x])) == Concat(Map(f, xs)) + f(x)
  {
    MapAppend(f, xs, [x]);
    assert Map(f, [x]) == [f(x)];
    ConcatSnoc(Map(f, xs), f(x));
  }

  /** Extending an accumulated list by one more list, as `all_data.extend(page)` does. */
  lemma ConcatSnoc<T>(a: seq<seq<T>>, s: seq<T>)
    ensures Concat(a + [s]) == Concat(a) + s
  {
    ConcatAppend(a, [s]);
    assert Concat([s]) == s + Concat([]);
  }

  /** A prefix one element longer is the shorter prefix plus that element. */
  lemma TakeSnoc<T>(s: seq<T>, k: nat)
    requires k < |s|
    ensures s[..k + 1] == s[..k] + [s[k]]
  {
  }

  /** A sequence is what comes before position k, the element at k, and what follows. */
  lemma SplitAt<T>(s: seq<T>, k: nat)
    requires k < |s|
    ensures s == s[..k] + ([s[k]] + s[k + 1..])
  {
  }

  lemma TakeAll<T>(s: seq<T>)
    ensures s[..|s|] == s
  {
  }

  lemma MapAppend<A, B>(f: A -> B, a: seq<A>, b: seq<A>)
    ensures Map(f, a + b) == Map(f, a) + Map(f, b)
  {
  }

  /** A longer prefix after a fixed start appends the next element. */
  lemma PrefixSnoc<T>(start: seq<T>, xs: seq<T>, k: nat)
    requires k < |xs|
    ensures start + xs[..k + 1] == start + xs[..k] + [xs[k]]
  {
    TakeSnoc(xs, k);
  }

  /** Mapping one more element of a prefix appends its image. */
  lemma MapSnoc<A, B>(f: A -> B, xs: seq<A>, i: nat)
    requires i < |xs|
    ensures Map(f, xs[..i + 1]) == Map(f, xs[..i]) + [f(xs[i])]
  {
    TakeSnoc(xs, i);
    MapAppend(f, xs[..i], [xs[i]]);
  }

  /** Removing the element at j from a sequence removes one copy of it from its multiset. */
  lemma RemoveAt<T>(b: seq<T>, j: nat)
    requires j < |b|
    ensures b == b[..j] + [b[j]] + b[j + 1..]
    ensures multiset(b[..j] + b[j + 1..]) == multiset(b) - multiset{b[j]}
  {
    assert b == b[..j] + [b[j]] + b[j + 1..];
  }

  /** The first element of a matched in b, and what is left of both once it is taken out. */
  lemma PickMatch<T>(a: seq<T>, b: seq<T>) returns (j: nat)
    requires a != [] && multiset(a) == multiset(b)
    ensures j < |b| && b[j] == a[0]
    ensures multiset(a[1..]) == multiset(b[..j] + b[j + 1..])
  {
    assert a == [a[0]] + a[1..];
    assert a[0] in multiset(b);
    var k :| 0 <= k < |b| && b[k] == a[0];
    RemoveAt(b, k);
    j := k;
  }

  lemma MapHead<A, B>(f: A -> B, a: seq<A>)
    requires a != []
    ensures multiset(Map(f, a)) == multiset{f(a[0])} + multiset(Map(f, a[1..]))
  {
    assert Map(f, a) == [f(a[0])] + Map(f, a[1..]);
  }

  lemma MapRemove<A, B>(f: A -> B, b: seq<A>, j: nat)
    requires j < |b|
    ensures multiset(Map(f, b)) == multiset{f(b[j])} + multiset(Map(f, b[..j] + b[j + 1..]))
  {
    RemoveAt(b, j);
    MapAppend(f, b[..j] + [b[j]], b[j + 1..]);
    MapAppend(f, b[..j], [b[j]]);
    MapAppend(f, b[..j], b[j + 1..]);
  }

  /** Mapping a function over two arrangements of the same elements gives two
      arrangements of the same results. */
  lemma {:induction false} MapPermutation<A, B>(f: A -> B, a: seq<A>, b: seq<A>)
    requires multiset(a) == multiset(b)
    ensures multiset(Map(f, a)) == multiset(Map(f, b))
    decreases |a|
  {
    if a == [] {
      assert |b| == |multiset(b)| == 0;
    } else {
      var j := PickMatch(a, b);
      MapPermutation(f, a[1..], b[..j] + b[j + 1..]);
      MapHead(f, a);
      MapRemove(f, b, j);
    }
  }

  lemma ConcatSingle<T>(x: seq<T>)
    ensures Concat([x]) == x
  {
    assert [x][1..] == [];
  }

  lemma ConcatRemove<T>(b: seq<seq<T>>, j: nat)
    requires j < |b|
    ensures multiset(Concat(b)) == multiset(b[j]) + multiset(Concat(b[..j] + b[j + 1..]))
  {
    RemoveAt(b, j);
    ConcatAppend(b[..j] + [b[j]], b[j + 1..]);
    ConcatAppend(b[..j], [b[j]]);
    ConcatSingle(b[j]);
    ConcatAppend(b[..j], b[j + 1..]);
  }

  /** Flattening two arrangements of the same lists gives the same elements. */
  lemma {:induction false} ConcatPermutation<T>(a: seq<seq<T>>, b: seq<seq<T>>)
    requires multiset(a) == multiset(b)
    ensures multiset(Concat(a)) == multiset(Concat(b))
    decreases |a|
  {
    if a == [] {
      assert |b| == |multiset(b)| == 0;
    } else {
      var j := PickMatch(a, b);
      ConcatPermutation(a[1..], b[..j] + b[j + 1..]);
      ConcatRemove(b, j);
    }
  }
}
