/** Fetching every page of a month from the paginated endpoint
    (level_03/exercice_12.py), one page at a time or with a thread pool.

    `fetch(p)` is what `fetch_page` returns for page p with the base URL, year,
    month and page size fixed: the decoded response, or the error that
    `raise_for_status` or the transport raises. `order` is the order in which
    the pool's futures complete. */
module PagedClient {
  import opened Outcomes
  import opened Sequences
  import opened FanIn
  import opened Datasets
  import opened SimulatedApi

  type Fetch = int -> Outcome<PaginatedSalesResponse>

  /** The records of one fetched page, or its error. */
  function DataOf(o: Outcome<PaginatedSalesResponse>): Outcome<seq<SaleRecord>>
  {
    if o.Ok? then Ok(o.value.data) else Err(o.error)
  }

  /** `fetch_page` followed by taking the page's records. */
  function Work(fetch: Fetch): int -> Outcome<seq<SaleRecord>>
  {
    (p: int) => DataOf(fetch(p))
  }

  /** The later pages as the first response announces them: 2..total_pages. */
  function LaterPages(first: PaginatedSalesResponse): seq<int>
  {
    Range(2, first.totalPages + 1)
  }

  /** The later pages fetched in the given order: all their records page by
      page, or the first failure. */
  function Fetched(fetch: Fetch, pages: seq<int>): Outcome<seq<seq<SaleRecord>>>
  {
    AllOrFirstError(Map(Work(fetch), pages))
  }

  /** The records of the pages that succeeded, in the given order. */
  function Collected(fetch: Fetch, pages: seq<int>): seq<SaleRecord>
  {
    Concat(Successes(Map(Work(fetch), pages)))
  }

  /** Result of the sequential fetch: page 1's records, then pages 2..total_pages
      in ascending order; the first failure, page 1 included, is the result. */
  function SequentialResult(fetch: Fetch): Outcome<seq<SaleRecord>>
  {
    if fetch(1).Err? then Err(fetch(1).error)
    else
      var later := Fetched(fetch, LaterPages(fetch(1).value));
      if later.Err? then Err(later.error) else Ok(fetch(1).value.data + Concat(later.value))
  }

  /** Result of the concurrent fetch: page 1's records, then the records of every
      later page that succeeded, in completion order. A failure on page 1 is the
      result; a failure on a later page is dropped. */
  function ConcurrentResult(fetch: Fetch, order: seq<int>): Outcome<seq<SaleRecord>>
  {
    if fetch(1).Err? then Err(fetch(1).error)
    else Ok(fetch(1).value.data + Collected(fetch, order))
  }

  /** Pages 2..hi-1 fetched one after the other: their records so far, or the
      first failure. */
  function FetchedBefore(fetch: Fetch, hi: int): Outcome<seq<seq<SaleRecord>>>
    decreases hi - 2
  {
    if hi <= 2 then Ok([])
    else
      var before := FetchedBefore(fetch, hi - 1);
      if before.Err? then before
      else if fetch(hi - 1).Err? then Err(fetch(hi - 1).error)
      else Ok(before.value + [fetch(hi - 1).value.data])
  }

  /** `fetch_all_sales_sequential`. `requested` lists the pages asked for, in order. */
  method FetchAllSalesSequential(fetch: Fetch) returns (r: Outcome<seq<SaleRecord>>, requested: seq<int>)
    ensures r == SequentialResult(fetch)
    ensures fetch(1).Err? ==> requested == [1]
    ensures fetch(1).Ok? && r.Ok? ==> requested == [1] + LaterPages(fetch(1).value)
    ensures fetch(1).Ok? && r.Err? ==>
      exists k :: 2 <= k <= fetch(1).value.totalPages && requested == [1] + Range(2, k + 1) && fetch(k).Err? &&
        forall j :: 2 <= j < k ==> fetch(j).Ok?
  {
    requested := [1];
    var firstPage := fetch(1);
    if firstPage.Err? {
      return Err(firstPage.error), requested;
    }
    var totalPages := firstPage.value.totalPages;
    var allData := firstPage.value.data;
    ghost var pages: seq<seq<SaleRecord>> := [];
    var page := 2;
    while page < totalPages + 1
      invariant 2 <= page <= if totalPages >= 1 then totalPages + 1 else 2
      invariant requested == [1] + Range(2, page)
      invariant FetchedBefore(fetch, page) == Ok(pages)
      invariant allData == firstPage.value.data + Concat(pages)
      invariant forall j :: 2 <= j < page ==> fetch(j).Ok?
    {
      var result := fetch(page);
      RangeSnoc(2, page);
      requested := requested + [page];
      if result.Err? {
        PageFailureStops(fetch, totalPages, page);
        return Err(result.error), requested;
      }
      ConcatSnoc(pages, result.value.data);
      allData := allData + result.value.data;
      pages := pages + [result.value.data];
      page := page + 1;
    }
    AllPagesFetched(fetch, totalPages, page, pages);
    r := Ok(allData);
  }

  /** Fetching pages one by one and stopping at the first failure computes `Fetched`. */
  lemma {:induction false} FetchedBeforeIsFetched(fetch: Fetch, hi: int)
    requires hi >= 2
    ensures FetchedBefore(fetch, hi) == Fetched(fetch, Range(2, hi))
    decreases hi
  {
    if hi == 2 {
      assert Map(Work(fetch), Range(2, hi)) == [];
    } else {
      FetchedBeforeIsFetched(fetch, hi - 1);
      var outs := Map(Work(fetch), Range(2, hi - 1));
      RangeSnoc(2, hi - 1);
      MapAppend(Work(fetch), Range(2, hi - 1), [hi - 1]);
      assert Map(Work(fetch), [hi - 1]) == [DataOf(fetch(hi - 1))];
      if AllOrFirstError(outs).Ok? {
        AllOrFirstErrorSnoc(outs, DataOf(fetch(hi - 1)));
      } else {
        AllOrFirstErrorKeeps(outs, [DataOf(fetch(hi - 1))]);
      }
    }
  }

  /** Once a page has failed, later pages do not change the result. */
  lemma {:induction false} FetchedBeforeKeeps(fetch: Fetch, lo: int, hi: int)
    requires 2 <= lo <= hi && FetchedBefore(fetch, lo).Err?
    ensures FetchedBefore(fetch, hi) == FetchedBefore(fetch, lo)
    decreases hi - lo
  {
    if lo < hi {
      FetchedBeforeKeeps(fetch, lo, hi - 1);
    }
  }

  lemma RangeSnoc(lo: int, hi: int)
    requires lo <= hi
    ensures Range(lo, hi + 1) == Range(lo, hi) + [hi]
  {
    RangeSplit(lo, hi, hi + 1);
  }

  /** A failing page after a run of successes is the result of the whole fetch. */
  lemma PageFailureStops(fetch: Fetch, totalPages: int, page: int)
    requires fetch(1).Ok? && totalPages == fetch(1).value.totalPages
    requires 2 <= page <= totalPages && fetch(page).Err?
    requires FetchedBefore(fetch, page).Ok?
    ensures SequentialResult(fetch) == Err(fetch(page).error)
  {
    FetchedBeforeFails(fetch, page, totalPages + 1);
    FetchedFails(fetch, totalPages + 1, fetch(page).error);
    SequentialLaterFails(fetch, totalPages, fetch(page).error);
  }

  lemma FetchedBeforeFails(fetch: Fetch, page: int, hi: int)
    requires 2 <= page < hi && fetch(page).Err? && FetchedBefore(fetch, page).Ok?
    ensures FetchedBefore(fetch, hi) == Err(fetch(page).error)
  {
    assert FetchedBefore(fetch, page + 1) == Err(fetch(page).error);
    FetchedBeforeKeeps(fetch, page + 1, hi);
  }

  lemma FetchedFails(fetch: Fetch, hi: int, e: string)
    requires hi >= 2 && FetchedBefore(fetch, hi) == Err(e)
    ensures Fetched(fetch, Range(2, hi)) == Err(e)
  {
    FetchedBeforeIsFetched(fetch, hi);
  }

  lemma SequentialLaterFails(fetch: Fetch, totalPages: int, e: string)
    requires fetch(1).Ok? && totalPages == fetch(1).value.totalPages
    requires Fetched(fetch, Range(2, totalPages + 1)) == Err(e)
    ensures SequentialResult(fetch) == Err(e)
  {
  }

  /** When the loop runs out of pages, every later page has been fetched. */
  lemma AllPagesFetched(fetch: Fetch, totalPages: int, page: int, pages: seq<seq<SaleRecord>>)
    requires fetch(1).Ok? && totalPages == fetch(1).value.totalPages
    requires 2 <= page <= (if totalPages >= 1 then totalPages + 1 else 2) && page >= totalPages + 1
    requires FetchedBefore(fetch, page) == Ok(pages)
    ensures Range(2, page) == LaterPages(fetch(1).value)
    ensures SequentialResult(fetch) == Ok(fetch(1).value.data + Concat(pages))
  {
    FetchedBeforeIsFetched(fetch, page);
    assert Range(2, page) == Range(2, totalPages + 1);
  }

  /** `fetch_all_sales_concurrent`: every later page is submitted before any
      result is read, so `requested` is 1 then 2..total_pages whatever fails. */
  method FetchAllSalesConcurrent(fetch: Fetch, order: seq<int>)
    returns (r: Outcome<seq<SaleRecord>>, requested: seq<int>)
    requires fetch(1).Ok? ==> multiset(order) == multiset(LaterPages(fetch(1).value))
    ensures r == ConcurrentResult(fetch, order)
    ensures fetch(1).Err? ==> requested == [1]
    ensures fetch(1).Ok? ==> requested == [1] + LaterPages(fetch(1).value)
  {
    requested := [1];
    var firstPage := fetch(1);
    if firstPage.Err? {
      return Err(firstPage.error), requested;
    }
    var totalPages := firstPage.value.totalPages;
    var allData := firstPage.value.data;
    requested := requested + Range(2, totalPages + 1);
    var i := 0;
    while i < |order|
      invariant 0 <= i <= |order|
      invariant allData == firstPage.value.data + CollectedBefore(fetch, order, i)
    {
      var result := fetch(order[i]);
      if result.Ok? {
        allData := allData + result.value.data;
      }
      i := i + 1;
    }
    CollectedBeforeIsCollected(fetch, order, i);
    assert order[..i] == order;
    r := Ok(allData);
  }

  /** The records of the first i completed futures that succeeded, read one at a time. */
  function CollectedBefore(fetch: Fetch, order: seq<int>, i: int): seq<SaleRecord>
    requires 0 <= i <= |order|
  {
    if i == 0 then []
    else CollectedBefore(fetch, order, i - 1) + (if fetch(order[i - 1]).Ok? then fetch(order[i - 1]).value.data else [])
  }

  /** Reading the futures one at a time and skipping failures computes `Collected`. */
  lemma {:induction false} CollectedBeforeIsCollected(fetch: Fetch, order: seq<int>, i: int)
    requires 0 <= i <= |order|
    ensures CollectedBefore(fetch, order, i) == Collected(fetch, order[..i])
  {
    if i == 0 {
      assert Map(Work(fetch), order[..0]) == [];
    } else {
      CollectedBeforeIsCollected(fetch, order, i - 1);
      CollectedNext(fetch, order, i);
    }
  }

  lemma CollectedNext(fetch: Fetch, order: seq<int>, i: int)
    requires 0 < i <= |order|
    ensures Collected(fetch, order[..i])
         == Collected(fetch, order[..i - 1]) + (if fetch(order[i - 1]).Ok? then fetch(order[i - 1]).value.data else [])
  {
    CollectedStep(fetch, order, i - 1);
  }

  /** Reading one more completed future adds its records when it succeeded, nothing otherwise. */
  lemma CollectedStep(fetch: Fetch, order: seq<int>, i: int)
    requires 0 <= i < |order|
    ensures Collected(fetch, order[..i + 1])
         == Collected(fetch, order[..i]) + (if fetch(order[i]).Ok? then fetch(order[i]).value.data else [])
  {
    var work := Work(fetch);
    assert order[..i + 1] == order[..i] + [order[i]];
    MapAppend(work, order[..i], [order[i]]);
    assert Map(work, [order[i]]) == [work(order[i])];
    SuccessesSnoc(Map(work, order[..i]), work(order[i]));
    ConcatAppend(Successes(Map(work, order[..i])), Contribution(work(order[i])));
    assert work(order[i]) == DataOf(fetch(order[i]));
    if fetch(order[i]).Ok? {
      assert Contribution(work(order[i])) == [fetch(order[i]).value.data];
      assert Concat([fetch(order[i]).value.data]) == fetch(order[i]).value.data + Concat([]);
    } else {
      assert Contribution(work(order[i])) == [];
    }
  }

  // ---------------------------------------------------------------------------
  // Properties

  /** The page count comes only from the first response: with total_pages <= 1
      nothing else is fetched and both results are page 1's records. */
  lemma SinglePage(fetch: Fetch, order: seq<int>)
    requires fetch(1).Ok? && fetch(1).value.totalPages <= 1
    requires multiset(order) == multiset(LaterPages(fetch(1).value))
    ensures SequentialResult(fetch) == Ok(fetch(1).value.data)
    ensures ConcurrentResult(fetch, order) == Ok(fetch(1).value.data)
  {
    assert LaterPages(fetch(1).value) == [];
    assert |order| == |multiset(order)| == 0;
    assert Map(Work(fetch), []) == [];
    var none: seq<Outcome<seq<SaleRecord>>> := [];
    assert AllOrFirstError(none) == Ok([]) && Successes(none) == [];
    assert fetch(1).value.data + Concat([]) == fetch(1).value.data;
  }

  /** A failure on page 1 is the result of both fetches. */
  lemma FirstPageFailurePropagates(fetch: Fetch, order: seq<int>)
    requires fetch(1).Err?
    ensures SequentialResult(fetch) == Err(fetch(1).error)
    ensures ConcurrentResult(fetch, order) == Err(fetch(1).error)
  {
  }

  /** The sequential fetch succeeds exactly when every page 1..total_pages does. */
  lemma SequentialSucceedsIffAllPages(fetch: Fetch)
    requires fetch(1).Ok?
    ensures SequentialResult(fetch).Ok? <==> forall p :: 2 <= p <= fetch(1).value.totalPages ==> fetch(p).Ok?
  {
    var pages := LaterPages(fetch(1).value);
    var outs := Map(Work(fetch), pages);
    if forall p :: 2 <= p <= fetch(1).value.totalPages ==> fetch(p).Ok? {
      assert forall i :: 0 <= i < |outs| ==> outs[i].Ok?;
    } else {
      var p :| 2 <= p <= fetch(1).value.totalPages && fetch(p).Err?;
      assert outs[p - 2].Err?;
    }
  }

  /** Isolation in the concurrent fetch: a failed later page contributes nothing,
      so dropping it from the completion order changes nothing. */
  lemma FailedPageContributesNothing(fetch: Fetch, order: seq<int>, k: nat)
    requires k < |order| && fetch(order[k]).Err?
    ensures ConcurrentResult(fetch, order) == ConcurrentResult(fetch, order[..k] + order[k + 1..])
  {
    var outs := Map(Work(fetch), order);
    assert outs[k] == DataOf(fetch(order[k]));
    SuccessesDropFailure(outs, k);
    assert Map(Work(fetch), order[..k] + order[k + 1..]) == outs[..k] + outs[k + 1..];
  }

  /** Isolation in the concurrent fetch: every later page that succeeds has its
      records in the result, whatever the other pages do. */
  lemma SucceededPageCollected(fetch: Fetch, order: seq<int>, p: int)
    requires fetch(1).Ok? && p in order && fetch(p).Ok?
    ensures var r := ConcurrentResult(fetch, order);
      r.Ok? && multiset(fetch(p).value.data) <= multiset(r.value)
  {
    var work := Work(fetch);
    var k :| 0 <= k < |order| && order[k] == p;
    assert order == order[..k] + [p] + order[k + 1..];
    MapAppend(work, order[..k] + [p], order[k + 1..]);
    MapAppend(work, order[..k], [p]);
    SuccessesAppend(Map(work, order[..k]) + Map(work, [p]), Map(work, order[k + 1..]));
    SuccessesAppend(Map(work, order[..k]), Map(work, [p]));
    var a, b := Successes(Map(work, order[..k])), Successes(Map(work, order[k + 1..]));
    assert Successes(Map(work, [p])) == [fetch(p).value.data];
    ConcatAppend(a + [fetch(p).value.data], b);
    ConcatSnoc(a, fetch(p).value.data);
  }

  /** With no failure, the concurrent result is a permutation of the sequential
      one, and both start with page 1's records. */
  lemma ConcurrentIsPermutationOfSequential(fetch: Fetch, order: seq<int>)
    requires fetch(1).Ok?
    requires multiset(order) == multiset(LaterPages(fetch(1).value))
    requires forall p :: 2 <= p <= fetch(1).value.totalPages ==> fetch(p).Ok?
    ensures SequentialResult(fetch).Ok? && ConcurrentResult(fetch, order).Ok?
    ensures multiset(ConcurrentResult(fetch, order).value) == multiset(SequentialResult(fetch).value)
    ensures StartsWithSeq(SequentialResult(fetch).value, fetch(1).value.data)
    ensures StartsWithSeq(ConcurrentResult(fetch, order).value, fetch(1).value.data)
  {
    var work := Work(fetch);
    var pages := LaterPages(fetch(1).value);
    forall x | x in pages
      ensures work(x).Ok?
    {
    }
    CompletionOrderIsPermutation(work, pages, order);
    ConcatPermutation(Successes(Map(work, order)), AllOrFirstError(Map(work, pages)).value);
  }

  predicate StartsWithSeq(s: seq<SaleRecord>, prefix: seq<SaleRecord>)
  {
    |prefix| <= |s| && s[..|prefix|] == prefix
  }

  /** `fetch_page` against the simulated server holding `cached` for the month. */
  function ServerFetch(cached: seq<SaleRecord>, year: int, month: int, perPage: int): Fetch
  {
    (p: int) => GetSales(cached, year, month, perPage, p)
  }

  /** Against the simulated server, the later pages are pages 2..total_pages of the month. */
  lemma ServerLaterPages(cached: seq<SaleRecord>, year: int, month: int, perPage: int)
    requires ValidQuery(year, month, perPage, 1) && TotalPages(|cached|, perPage) >= 1
    ensures var t := TotalPages(|cached|, perPage);
      Fetched(ServerFetch(cached, year, month, perPage), Range(2, t + 1)) == Ok(Pages(cached, perPage, t)[1..])
  {
    var fetch := ServerFetch(cached, year, month, perPage);
    var t := TotalPages(|cached|, perPage);
    var outs := Map(Work(fetch), Range(2, t + 1));
    var all := Pages(cached, perPage, t);
    forall i | 0 <= i < |outs|
      ensures outs[i] == Ok(all[i + 1])
    {
      assert ValidQuery(year, month, perPage, i + 2);
    }
    assert AllOrFirstError(outs).value == all[1..];
  }

  /** Against the simulated server, the sequential fetch returns exactly the
      month's full record list, in order. */
  lemma SequentialAgainstServer(cached: seq<SaleRecord>, year: int, month: int, perPage: int)
    requires ValidQuery(year, month, perPage, 1)
    ensures SequentialResult(ServerFetch(cached, year, month, perPage)) == Ok(cached)
  {
    var fetch := ServerFetch(cached, year, month, perPage);
    var t := TotalPages(|cached|, perPage);
    assert fetch(1) == GetSales(cached, year, month, perPage, 1);
    assert LaterPages(fetch(1).value) == Range(2, t + 1);
    if t == 0 {
      assert t * perPage == 0;
      var none: seq<seq<SaleRecord>> := [];
      assert Map(Work(fetch), Range(2, t + 1)) == [];
      assert Fetched(fetch, Range(2, t + 1)) == Ok(none);
      assert fetch(1).value.data + Concat(none) == cached;
    } else {
      var all := Pages(cached, perPage, t);
      ServerLaterPages(cached, year, month, perPage);
      PagesCoverAll(cached, perPage);
      assert Concat(all) == all[0] + Concat(all[1..]);
    }
  }
}
