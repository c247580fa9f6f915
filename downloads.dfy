/** Simulated downloads (level_01/exercice_04.py): files 1 to 10 are
    "downloaded" one after another, or on a thread pool whose results are
    collected as they complete.

    A download sleeps and logs, then reports its file; `fault` says which
    downloads raise instead (a download raises nothing of its own, so with
    `fault` always Ok every download succeeds). */
module Downloads {
  import opened Outcomes
  import opened Sequences
  import opened Strings
  import opened FanIn

  const FirstId: int := 1
  const EndId: int := 11

  /** `f"Arquivo {file_id} baixado"`. */
  function Message(fileId: int): string
  {
    "Arquivo " + IntToString(fileId) + " baixado"
  }

  /** Different files report different messages. */
  lemma MessageInjective(i: int, j: int)
    ensures Message(i) == Message(j) <==> i == j
  {
    if Message(i) == Message(j) {
      var a, b := IntToString(i), IntToString(j);
      assert |a| == |b|;
      assert Message(i)[8..8 + |a|] == a;
      assert Message(j)[8..8 + |b|] == b;
      IntToStringInjective(i, j);
    }
  }

  /** `simulate_download_time` as a value. */
  function Download(fault: int -> Outcome<()>): int -> Outcome<string>
  {
    fileId => if fault(fileId).Err? then Err(fault(fileId).error) else Ok(Message(fileId))
  }

  /** `simulate_download_time`. */
  method SimulateDownloadTime(fault: int -> Outcome<()>, fileId: int) returns (r: Outcome<string>)
    ensures r.Ok? <==> fault(fileId).Ok?
    ensures r.Ok? ==> r.value == Message(fileId)
    ensures r.Err? ==> r.error == fault(fileId).error
  {
    var interrupted := fault(fileId);
    if interrupted.Err? {
      return Err(interrupted.error);
    }
    return Ok("Arquivo " + IntToString(fileId) + " baixado");
  }

  /** `sequential_download`: ids 1 to 10 in order, each result appended; a
      failure would propagate. */
  method SequentialDownload(fault: int -> Outcome<()>) returns (r: Outcome<seq<string>>)
    ensures r == AllOrFirstError(Map(Download(fault), Range(FirstId, EndId)))
  {
    var lo, hi := FirstId, EndId;
    ghost var outs := Map(Download(fault), Range(lo, hi));
    var resultados: seq<string> := [];
    var i := lo;
    while i < hi
      invariant lo <= i <= hi
      invariant AllOrFirstError(outs[..i - lo]) == Ok(resultados)
    {
      var resultado := SimulateDownloadTime(fault, i);
      assert resultado == outs[i - lo];
      AllOrFirstErrorStep(outs, i - lo, resultados);
      if resultado.Err? {
        return Err(resultado.error);
      }
      resultados := resultados + [resultado.value];
      i := i + 1;
    }
    assert i - lo == |outs|;
    TakeAll(outs);
    return Ok(resultados);
  }

  /** Without faults the in-order list is the messages in id order (for the
      sequential variant, ids 1 to 10). */
  lemma SequentialMessages(fault: int -> Outcome<()>, ids: seq<int>)
    requires forall k :: 0 <= k < |ids| ==> fault(ids[k]).Ok?
    ensures AllOrFirstError(Map(Download(fault), ids)) == Ok(Map(Message, ids))
  {
    var outs := Map(Download(fault), ids);
    var expected := Map(Message, ids);
    assert forall k :: 0 <= k < |outs| ==> outs[k] == Ok(expected[k]);
    var r := AllOrFirstError(outs);
    assert r.Ok? && |r.value| == |expected|;
    assert forall k :: 0 <= k < |expected| ==> r.value[k] == expected[k];
    assert r.value == expected;
  }

  /** `parallel_download`: one task per id 1 to 10; results are appended in
      completion order `order` (the ids as they finish), and a failed download
      is logged and omitted. */
  method ParallelDownload(fault: int -> Outcome<()>, order: seq<int>) returns (resultados: seq<string>)
    requires multiset(order) == multiset(Range(FirstId, EndId))
    ensures resultados == Successes(Map(Download(fault), order))
  {
    ghost var outs := Map(Download(fault), order);
    resultados := [];
    var k := 0;
    while k < |order|
      invariant 0 <= k <= |order|
      invariant resultados == Successes(outs[..k])
    {
      var resultado := SimulateDownloadTime(fault, order[k]);
      assert resultado == outs[k];
      TakeSnoc(outs, k);
      SuccessesSnoc(outs[..k], outs[k]);
      if resultado.Ok? {
        resultados := resultados + [resultado.value];
      }
      k := k + 1;
    }
    TakeAll(outs);
  }

  /** Without faults the parallel list is a rearrangement of the sequential one. */
  lemma ParallelIsPermutation(fault: int -> Outcome<()>, order: seq<int>)
    requires multiset(order) == multiset(Range(FirstId, EndId))
    requires forall i :: FirstId <= i < EndId ==> fault(i).Ok?
    ensures AllOrFirstError(Map(Download(fault), Range(FirstId, EndId))).Ok?
    ensures multiset(Successes(Map(Download(fault), order)))
         == multiset(AllOrFirstError(Map(Download(fault), Range(FirstId, EndId))).value)
  {
    FaultFreeRange(fault, FirstId, EndId, order);
  }

  lemma FaultFreeRange(fault: int -> Outcome<()>, lo: int, hi: int, order: seq<int>)
    requires multiset(order) == multiset(Range(lo, hi))
    requires forall i :: lo <= i < hi ==> fault(i).Ok?
    ensures AllOrFirstError(Map(Download(fault), Range(lo, hi))).Ok?
    ensures multiset(Successes(Map(Download(fault), order)))
         == multiset(AllOrFirstError(Map(Download(fault), Range(lo, hi))).value)
  {
    var ids := Range(lo, hi);
    forall x | x in ids
      ensures Download(fault)(x).Ok?
    {
      RangeMembers(lo, hi, x);
    }
    CompletionOrderIsPermutation(Download(fault), ids, order);
  }

  /** A file's message is collected by the parallel variant exactly when its
      download does not fail: failures are isolated and omitted. */
  lemma CollectedIffSucceeded(fault: int -> Outcome<()>, order: seq<int>, fileId: int)
    requires multiset(order) == multiset(Range(FirstId, EndId))
    requires FirstId <= fileId < EndId
    ensures Message(fileId) in Successes(Map(Download(fault), order)) <==> fault(fileId).Ok?
  {
    RangeMembers(FirstId, EndId, fileId);
    assert fileId in multiset(order);
    CollectedIffSucceededAt(fault, order, fileId);
  }

  lemma CollectedIffSucceededAt(fault: int -> Outcome<()>, order: seq<int>, fileId: int)
    requires fileId in order
    ensures Message(fileId) in Successes(Map(Download(fault), order)) <==> fault(fileId).Ok?
  {
    var outs := Map(Download(fault), order);
    if fault(fileId).Ok? {
      SuccessCollected(Download(fault), order, fileId);
    }
    if Message(fileId) in Successes(outs) {
      var r := Successes(outs);
      var k :| 0 <= k < |r| && r[k] == Message(fileId);
      var j :| 0 <= j < |outs| && outs[j] == Ok(r[k]);
      MessageInjective(order[j], fileId);
    }
  }
}
