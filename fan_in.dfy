/** The two ways the exercises collect per-item outcomes.

    - In input order with no `try` around the call: the first failure propagates
      and the rest is never run (`etl_sequential`, `sequential_conversion`,
      `fetch_all_sales_sequential`, `sequential_download`).
    - In completion order (`as_completed`) with a `try` per future: a failure is
      logged and contributes nothing, the other items are still collected
      (`etl_parallel`, `parallel_download`, `fetch_all_sales_concurrent`).

    Completion order is an input: a sequence holding each submitted item once. */
module FanIn {
  import opened Outcomes
  import opened Sequences

  /** All values in input order, or the first failure in input order. */
  function AllOrFirstError<T>(outs: seq<Outcome<T>>): (r: Outcome<seq<T>>)
    ensures r.Ok? <==> forall i :: 0 <= i < |outs| ==> outs[i].Ok?
    ensures r.Ok? ==> |r.value| == |outs| && forall i :: 0 <= i < |outs| ==> r.value[i] == outs[i].value
    ensures r.Err? ==> exists i :: 0 <= i < |outs| && outs[i] == Err(r.error) && forall j :: 0 <= j < i ==> outs[j].Ok?
  {
    if outs == [] then Ok([])
    else if outs[0].Err? then Err(outs[0].error)
    else
      match AllOrFirstError(outs[1..])
      case Ok(vs) => Ok([outs[0].value] + vs)
      case Err(e) =>
        var i :| 0 <= i < |outs[1..]| && outs[1..][i] == Err(e) && forall j :: 0 <= j < i ==> outs[1..][j].Ok?;
        assert outs[i + 1] == Err(e);
        Err(e)
  }

  /** The values of the successful outcomes in the order given; failures are dropped. */
  function Successes<T>(outs: seq<Outcome<T>>): (r: seq<T>)
    ensures |r| <= |outs|
    ensures forall i :: 0 <= i < |outs| && outs[i].Ok? ==> outs[i].value in r
    ensures forall k :: 0 <= k < |r| ==> Ok(r[k]) in outs
  {
    if outs == [] then []
    else
      var rest := Successes(outs[1..]);
      assert forall i :: 1 <= i < |outs| ==> outs[i] == outs[1..][i - 1];
      if outs[0].Ok? then [outs[0].value] + rest else rest
  }

  /** One outcome as the list of values it contributes. */
  function Contribution<T>(o: Outcome<T>): seq<T>
  {
    if o.Ok? then [o.value] else []
  }

  lemma {:induction false} SuccessesIsConcat<T>(outs: seq<Outcome<T>>)
    ensures Successes(outs) == Concat(Map(Contribution, outs))
  {
    if outs != [] {
      SuccessesIsConcat(outs[1..]);
      assert Map(Contribution, outs)[1..] == Map(Contribution, outs[1..]);
    }
  }

  /** Collecting successes does not depend on the order in which outcomes arrive,
      up to the order of the collected values. */
  lemma SuccessesPermutation<T>(a: seq<Outcome<T>>, b: seq<Outcome<T>>)
    requires multiset(a) == multiset(b)
    ensures multiset(Successes(a)) == multiset(Successes(b))
  {
    SuccessesIsConcat(a);
    SuccessesIsConcat(b);
    MapPermutation(Contribution, a, b);
    ConcatPermutation(Map(Contribution, a), Map(Contribution, b));
  }

  /** When nothing fails, both collections keep every value. */
  lemma {:induction false} AllOkSuccesses<T>(outs: seq<Outcome<T>>)
    requires forall i :: 0 <= i < |outs| ==> outs[i].Ok?
    ensures AllOrFirstError(outs) == Ok(Successes(outs))
  {
    if outs != [] {
      AllOkSuccesses(outs[1..]);
    }
  }

  /** The fan-in theorem: with no failing item, the completion-order collection
      over any arrival order is a permutation of the input-order collection. */
  lemma CompletionOrderIsPermutation<I, O>(work: I -> Outcome<O>, inputs: seq<I>, order: seq<I>)
    requires multiset(order) == multiset(inputs)
    requires forall x :: x in inputs ==> work(x).Ok?
    ensures AllOrFirstError(Map(work, inputs)).Ok?
    ensures multiset(Successes(Map(work, order))) == multiset(AllOrFirstError(Map(work, inputs)).value)
  {
    AllOkSuccesses(Map(work, inputs));
    MapPermutation(work, order, inputs);
    SuccessesPermutation(Map(work, order), Map(work, inputs));
  }

  /** Isolation: every item that succeeds is collected, whatever the others do. */
  lemma SuccessCollected<I, O>(work: I -> Outcome<O>, order: seq<I>, x: I)
    requires x in order && work(x).Ok?
    ensures work(x).value in Successes(Map(work, order))
  {
    var k :| 0 <= k < |order| && order[k] == x;
    assert Map(work, order)[k] == Ok(work(x).value);
  }

  /** Collecting successes distributes over joining two lists of outcomes. */
  lemma SuccessesAppend<T>(a: seq<Outcome<T>>, b: seq<Outcome<T>>)
    ensures Successes(a + b) == Successes(a) + Successes(b)
  {
    SuccessesIsConcat(a + b);
    SuccessesIsConcat(a);
    SuccessesIsConcat(b);
    MapAppend(Contribution, a, b);
    ConcatAppend(Map(Contribution, a), Map(Contribution, b));
  }

  /** One more outcome after a run of successes: its value is appended, or its error is the result. */
  lemma {:induction false} AllOrFirstErrorSnoc<T>(outs: seq<Outcome<T>>, o: Outcome<T>)
    requires AllOrFirstError(outs).Ok?
    ensures AllOrFirstError(outs + [o]) == if o.Ok? then Ok(AllOrFirstError(outs).value + [o.value]) else Err(o.error)
  {
    if outs == [] {
      assert outs + [o] == [o] && [o][1..] == [];
      if o.Ok? {
        assert AllOrFirstError([o]) == Ok([o.value] + []);
        assert AllOrFirstError(outs).value + [o.value] == [o.value] + [];
      }
    } else {
      var xs := outs + [o];
      assert xs[1..] == outs[1..] + [o];
      assert outs[0].Ok? && xs[0] == outs[0];
      AllOrFirstErrorSnoc(outs[1..], o);
      var rest := AllOrFirstError(outs[1..]).value;
      assert AllOrFirstError(outs).value == [outs[0].value] + rest;
      if o.Ok? {
        assert AllOrFirstError(xs) == Ok([outs[0].value] + (rest + [o.value]));
        assert [outs[0].value] + (rest + [o.value]) == [outs[0].value] + rest + [o.value];
      } else {
        assert AllOrFirstError(xs[1..]) == Err(o.error);
      }
    }
  }

  /** A failure after a run of successes decides the result, whatever follows it. */
  lemma {:induction false} AllOrFirstErrorStops<T>(a: seq<Outcome<T>>, b: seq<Outcome<T>>)
    requires AllOrFirstError(a).Ok? && b != [] && b[0].Err?
    ensures AllOrFirstError(a + b) == Err(b[0].error)
    decreases |a|
  {
    if a == [] {
      assert a + b == b;
    } else {
      assert (a + b)[0] == a[0];
      assert (a + b)[1..] == a[1..] + b;
      AllOrFirstErrorStops(a[1..], b);
    }
  }

  /** One step of an in-order loop over the outcomes: a success extends the
      values collected so far, a failure is the result of the whole loop. */
  lemma AllOrFirstErrorStep<T>(outs: seq<Outcome<T>>, i: nat, vals: seq<T>)
    requires i < |outs| && AllOrFirstError(outs[..i]) == Ok(vals)
    ensures outs[i].Ok? ==> AllOrFirstError(outs[..i + 1]) == Ok(vals + [outs[i].value])
    ensures outs[i].Err? ==> AllOrFirstError(outs) == Err(outs[i].error)
  {
    if outs[i].Ok? {
      AllOrFirstErrorExtends(outs, i);
    } else {
      AllOrFirstErrorFails(outs, i);
    }
  }

  lemma AllOrFirstErrorExtends<T>(outs: seq<Outcome<T>>, i: nat)
    requires i < |outs| && AllOrFirstError(outs[..i]).Ok? && outs[i].Ok?
    ensures AllOrFirstError(outs[..i + 1]) == Ok(AllOrFirstError(outs[..i]).value + [outs[i].value])
  {
    assert outs[..i + 1] == outs[..i] + [outs[i]];
    AllOrFirstErrorSnoc(outs[..i], outs[i]);
  }

  lemma AllOrFirstErrorFails<T>(outs: seq<Outcome<T>>, i: nat)
    requires i < |outs| && AllOrFirstError(outs[..i]).Ok? && outs[i].Err?
    ensures AllOrFirstError(outs) == Err(outs[i].error)
  {
    assert outs == outs[..i] + outs[i..];
    AllOrFirstErrorStops(outs[..i], outs[i..]);
  }

  /** Once a failure has been met, later outcomes do not change the result. */
  lemma {:induction false} AllOrFirstErrorKeeps<T>(a: seq<Outcome<T>>, b: seq<Outcome<T>>)
    requires AllOrFirstError(a).Err?
    ensures AllOrFirstError(a + b) == AllOrFirstError(a)
  {
    assert (a + b)[0] == a[0];
    if a[0].Ok? {
      assert (a + b)[1..] == a[1..] + b;
      AllOrFirstErrorKeeps(a[1..], b);
    }
  }

  /** Outcome k is the first failure: it fails and every outcome before it succeeds. */
  predicate FirstFailureAt<T>(outs: seq<Outcome<T>>, k: int)
  {
    0 <= k < |outs| && outs[k].Err? && forall j :: 0 <= j < k ==> outs[j].Ok?
  }

  /** A prefix that produced values holds no failure. */
  lemma PrefixAllOk<T>(outs: seq<Outcome<T>>, i: nat)
    requires i <= |outs| && AllOrFirstError(outs[..i]).Ok?
    ensures forall j :: 0 <= j < i ==> outs[j].Ok?
  {
    forall j | 0 <= j < i
      ensures outs[j].Ok?
    {
      assert outs[..i][j] == outs[j];
    }
  }

  /** An outcome whose value is thrown away: `future.result()` called for its exception only. */
  function Discard<T>(o: Outcome<T>): (r: Outcome<()>)
    ensures r.Ok? <==> o.Ok?
    ensures r.Err? ==> r.error == o.error
  {
    if o.Ok? then Ok(()) else Err(o.error)
  }

  /** One more outcome adds what it contributes. */
  lemma SuccessesSnoc<T>(outs: seq<Outcome<T>>, o: Outcome<T>)
    ensures Successes(outs + [o]) == Successes(outs) + Contribution(o)
  {
    SuccessesAppend(outs, [o]);
    assert [o][1..] == [];
  }

  /** A failed outcome can be taken out without changing what is collected. */
  lemma SuccessesDropFailure<T>(outs: seq<Outcome<T>>, k: nat)
    requires k < |outs| && outs[k].Err?
    ensures Successes(outs) == Successes(outs[..k] + outs[k + 1..])
  {
    SplitAt(outs, k);
    SuccessesAppend(outs[..k], [outs[k]] + outs[k + 1..]);
    SuccessesSkip(outs[k], outs[k + 1..]);
    SuccessesAppend(outs[..k], outs[k + 1..]);
  }

  lemma SuccessesSkip<T>(o: Outcome<T>, rest: seq<Outcome<T>>)
    requires o.Err?
    ensures Successes([o] + rest) == Successes(rest)
  {
    assert ([o] + rest)[1..] == rest;
  }

  /** The outcome of the task with index i; an index out of range, which a
      permutation of the indices never holds, reads as a failure. */
  function At<T>(outs: seq<Outcome<T>>, i: int): Outcome<T>
  {
    if 0 <= i < |outs| then outs[i] else Err("no such task")
  }

  /** The outcomes in the order the tasks finish. */
  function Arrivals<T>(outs: seq<Outcome<T>>, order: seq<int>): (r: seq<Outcome<T>>)
    ensures |r| == |order|
    ensures forall k :: 0 <= k < |order| ==> r[k] == At(outs, order[k])
  {
    seq(|order|, k requires 0 <= k < |order| => At(outs, order[k]))
  }

  /** Every index of a permutation of 0..n is in range, and every index in range occurs in it. */
  lemma PermutationIndices(order: seq<int>, n: nat)
    requires multiset(order) == multiset(Range(0, n))
    ensures forall k :: 0 <= k < |order| ==> 0 <= order[k] < n
    ensures forall i :: 0 <= i < n ==> i in order
  {
    forall k | 0 <= k < |order|
      ensures 0 <= order[k] < n
    {
      assert order[k] in multiset(order);
      RangeMembers(0, n, order[k]);
    }
    forall i | 0 <= i < n
      ensures i in order
    {
      RangeMembers(0, n, i);
      assert i in multiset(order);
    }
  }

  /** The k-th arrival is the outcome of the task whose index arrives k-th. */
  lemma ArrivalOf<A, T>(f: A -> Outcome<T>, xs: seq<A>, order: seq<int>, k: nat)
    requires k < |order| && 0 <= order[k] < |xs|
    ensures Arrivals(Map(f, xs), order)[k] == f(xs[order[k]])
  {
  }

  /** One step of a loop that collects the successes of the outcomes in turn. */
  lemma SuccessesNext<T>(outs: seq<Outcome<T>>, k: nat, collected: seq<T>)
    requires k < |outs| && collected == Successes(outs[..k])
    ensures Successes(outs[..k + 1]) == collected + Contribution(outs[k])
  {
    assert outs[..k + 1] == outs[..k] + [outs[k]];
    SuccessesSnoc(outs[..k], outs[k]);
  }

  /** The first failure among the outcomes, as a loop that waits on them in
      turn keeps it: a failure replaces a success so far, and nothing replaces
      a failure. */
  function FirstFailure<T>(outs: seq<Outcome<T>>): Outcome<()>
  {
    if outs == [] then Ok(())
    else
      var before := FirstFailure(outs[..|outs| - 1]);
      var last := outs[|outs| - 1];
      if before.Ok? && last.Err? then Err(last.error) else before
  }

  /** One step of that loop. */
  lemma FirstFailureNext<T>(outs: seq<Outcome<T>>, k: nat)
    requires k < |outs|
    ensures FirstFailure(outs[..k + 1])
         == if FirstFailure(outs[..k]).Ok? && outs[k].Err? then Err(outs[k].error) else FirstFailure(outs[..k])
  {
    assert outs[..k + 1][..k] == outs[..k];
  }

  /** The loop's result is the failure that stops an in-order run, if any. */
  lemma {:induction false} FirstFailureIsDiscard<T>(outs: seq<Outcome<T>>)
    ensures FirstFailure(outs) == Discard(AllOrFirstError(outs))
    decreases |outs|
  {
    if outs != [] {
      var init, last := outs[..|outs| - 1], outs[|outs| - 1];
      FirstFailureIsDiscard(init);
      assert outs == init + [last];
      if AllOrFirstError(init).Ok? {
        AllOrFirstErrorSnoc(init, last);
      } else {
        AllOrFirstErrorKeeps(init, [last]);
      }
    }
  }

  /** Every task runs to the end; waiting on them in completion order
      (`as_completed` then `result()`, or a pool's `map`) re-raises the failure
      of the first failing task to finish, and otherwise gives every value in
      submission order. `order` lists the task indices in completion order. */
  function FirstErrorByArrival<T>(outs: seq<Outcome<T>>, order: seq<int>): (r: Outcome<seq<T>>)
    requires multiset(order) == multiset(Range(0, |outs|))
    ensures r.Ok? <==> forall i :: 0 <= i < |outs| ==> outs[i].Ok?
    ensures r.Ok? ==> r == AllOrFirstError(outs)
    ensures r.Err? ==> exists i :: 0 <= i < |outs| && outs[i] == Err(r.error)
  {
    PermutationIndices(order, |outs|);
    var first := AllOrFirstError(Arrivals(outs, order));
    if first.Err? then
      ArrivedFailure(outs, order, first.error);
      Err(first.error)
    else
      ArrivedAll(outs, order);
      AllOrFirstError(outs)
  }

  /** Whether the wait fails, and with which failure, is decided by the outcomes in completion order. */
  lemma ArrivalDecides<T>(outs: seq<Outcome<T>>, order: seq<int>)
    requires multiset(order) == multiset(Range(0, |outs|))
    ensures Discard(FirstErrorByArrival(outs, order)) == Discard(AllOrFirstError(Arrivals(outs, order)))
  {
    var first := AllOrFirstError(Arrivals(outs, order));
    if first.Ok? {
      PermutationIndices(order, |outs|);
      ArrivedAll(outs, order);
      assert FirstErrorByArrival(outs, order).Ok?;
    }
  }

  lemma ArrivedFailure<T>(outs: seq<Outcome<T>>, order: seq<int>, e: string)
    requires forall k :: 0 <= k < |order| ==> 0 <= order[k] < |outs|
    requires AllOrFirstError(Arrivals(outs, order)) == Err(e)
    ensures exists i :: 0 <= i < |outs| && outs[i] == Err(e)
  {
    var arrived := Arrivals(outs, order);
    var k :| 0 <= k < |arrived| && arrived[k] == Err(e);
    assert outs[order[k]] == Err(e);
  }

  lemma ArrivedAll<T>(outs: seq<Outcome<T>>, order: seq<int>)
    requires forall i :: 0 <= i < |outs| ==> i in order
    requires AllOrFirstError(Arrivals(outs, order)).Ok?
    ensures forall i :: 0 <= i < |outs| ==> outs[i].Ok?
  {
    var arrived := Arrivals(outs, order);
    forall i | 0 <= i < |outs|
      ensures outs[i].Ok?
    {
      assert i in order;
      var k :| 0 <= k < |order| && order[k] == i;
      assert arrived[k] == outs[i];
    }
  }

  /** With a single failing task, its failure is the one re-raised, whatever the
      completion order; with none, the completion order does not matter either. */
  lemma OnlyFailureReraised<T>(outs: seq<Outcome<T>>, order: seq<int>, k: nat)
    requires multiset(order) == multiset(Range(0, |outs|))
    requires k < |outs| && outs[k].Err?
    requires forall i :: 0 <= i < |outs| && i != k ==> outs[i].Ok?
    ensures FirstErrorByArrival(outs, order) == Err(outs[k].error)
  {
  }

  /** The outcomes in completion order are the outcomes, rearranged. */
  lemma ArrivalsPermutation<T>(outs: seq<Outcome<T>>, order: seq<int>)
    requires multiset(order) == multiset(Range(0, |outs|))
    ensures multiset(Arrivals(outs, order)) == multiset(outs)
  {
    MapPermutation(AtIndex(outs), order, Range(0, |outs|));
    ArrivalsAsMap(outs, order);
    ArrivalsAsMap(outs, Range(0, |outs|));
    ArrivalsInOrder(outs);
  }

  lemma ArrivalsInOrder<T>(outs: seq<Outcome<T>>)
    ensures Arrivals(outs, Range(0, |outs|)) == outs
  {
  }

  function AtIndex<T>(outs: seq<Outcome<T>>): int -> Outcome<T>
  {
    i => At(outs, i)
  }

  lemma ArrivalsAsMap<T>(outs: seq<Outcome<T>>, order: seq<int>)
    ensures Map(AtIndex(outs), order) == Arrivals(outs, order)
  {
  }

  /** Collecting in completion order and dropping failures keeps exactly the
      values of the tasks that succeed, each once, in some order. */
  lemma CollectedByArrival<T>(outs: seq<Outcome<T>>, order: seq<int>)
    requires multiset(order) == multiset(Range(0, |outs|))
    ensures multiset(Successes(Arrivals(outs, order))) == multiset(Successes(outs))
  {
    ArrivalsPermutation(outs, order);
    SuccessesPermutation(Arrivals(outs, order), outs);
  }
}
