/** The paginated sales endpoint (utils/simulated_api.py): `GET /sales/` returns
    one page of a month's records, generated once per (year, month) and kept in
    a cache.

    Query validation is FastAPI's: a parameter outside its declared bounds is
    answered with a 422 error before the handler runs. */
module SimulatedApi {
  import opened Outcomes
  import opened Sequences
  import opened Datasets

  datatype PaginatedSalesResponse = PaginatedSalesResponse(
    year: int, month: int, page: int, perPage: int,
    totalRecords: int, totalPages: int, data: seq<SaleRecord>)

  /** What the framework answers for a query outside the declared bounds. */
  const Unprocessable: string := "422 Unprocessable Entity"

  /** The declared bounds: `year >= 2000`, `1 <= month <= 12`,
      `1 <= per_page <= 100`, `page >= 1`. */
  predicate ValidQuery(year: int, month: int, perPage: int, page: int)
  {
    year >= 2000 && 1 <= month <= 12 && 1 <= perPage <= 100 && page >= 1
  }

  function Min(a: int, b: int): int
  {
    if a <= b then a else b
  }

  /** `xs.iloc[start:end]` for 0 <= start <= end: the positions from start up to
      end, clipped to the length (empty when start is past the end). */
  function ILoc<T>(xs: seq<T>, start: nat, end: nat): (r: seq<T>)
    requires start <= end
    ensures |r| == if start >= |xs| then 0 else Min(end, |xs|) - start
    ensures forall i :: 0 <= i < |r| ==> r[i] == xs[start + i]
  {
    if start >= |xs| then [] else xs[start..Min(end, |xs|)]
  }

  /** The records of one page: from `(page - 1) * per_page`, at most `per_page` of them. */
  function PageSlice<T>(all: seq<T>, page: int, perPage: int): (r: seq<T>)
    requires page >= 1 && perPage >= 1
    ensures |r| <= perPage
    ensures (page - 1) * perPage >= |all| ==> r == []
    ensures (page - 1) * perPage + perPage <= |all| ==> |r| == perPage
    ensures forall i :: 0 <= i < |r| ==> (page - 1) * perPage + i < |all| && r[i] == all[(page - 1) * perPage + i]
  {
    var start := (page - 1) * perPage;
    ILoc(all, start, start + perPage)
  }

  /** `(n + per_page - 1) // per_page`: the ceiling of n / per_page. */
  function TotalPages(n: nat, perPage: int): (t: nat)
    requires perPage >= 1
    ensures n == 0 ==> t == 0
    ensures n > 0 ==> (t - 1) * perPage < n <= t * perPage
  {
    var t := (n + perPage - 1) / perPage;
    assert n + perPage - 1 == t * perPage + (n + perPage - 1) % perPage;
    t
  }

  /** A page past the last one is empty rather than an error. */
  lemma PastLastPageEmpty<T>(all: seq<T>, page: int, perPage: int)
    requires perPage >= 1 && page > TotalPages(|all|, perPage)
    ensures PageSlice(all, page, perPage) == []
  {
    var t := TotalPages(|all|, perPage);
    MulMonotone(page - 1, t, perPage);
  }

  /** Pages 1..c in order. */
  function Pages<T>(all: seq<T>, perPage: int, c: nat): (ps: seq<seq<T>>)
    requires perPage >= 1
    ensures |ps| == c
    ensures forall i :: 0 <= i < c ==> ps[i] == PageSlice(all, i + 1, perPage)
  {
    if c == 0 then [] else Pages(all, perPage, c - 1) + [PageSlice(all, c, perPage)]
  }

  /** Pages 1..c together hold the first c * per_page records (all of them when fewer). */
  lemma {:induction false} PagesPrefix<T>(all: seq<T>, perPage: int, c: nat)
    requires perPage >= 1
    ensures Concat(Pages(all, perPage, c)) == all[..Min(c * perPage, |all|)]
  {
    if c > 0 {
      PagesPrefix(all, perPage, c - 1);
      ConcatSnoc(Pages(all, perPage, c - 1), PageSlice(all, c, perPage));
      MulStep(c, perPage);
      MulMonotone(c - 1, 0, perPage);
      PageExtends(all, perPage, c, (c - 1) * perPage);
    }
  }

  /** Page c continues the records of pages 1..c-1. */
  lemma PageExtends<T>(all: seq<T>, perPage: int, c: nat, start: nat)
    requires perPage >= 1 && c >= 1 && start == (c - 1) * perPage
    ensures all[..Min(start, |all|)] + PageSlice(all, c, perPage) == all[..Min(start + perPage, |all|)]
  {
    PrefixThenSlice(all, start, start + perPage);
  }

  lemma MulStep(c: int, p: int)
    ensures c * p == (c - 1) * p + p
  {
  }

  lemma MulMonotone(a: int, b: int, p: int)
    requires a >= b && p >= 0
    ensures a * p >= b * p
  {
    assert a * p - b * p == (a - b) * p;
  }

  lemma PrefixThenSlice<T>(all: seq<T>, start: nat, end: nat)
    requires start <= end
    ensures all[..Min(start, |all|)] + ILoc(all, start, end) == all[..Min(end, |all|)]
  {
    if start < |all| {
      assert all[..Min(end, |all|)] == all[..start] + all[start..Min(end, |all|)];
    }
  }

  /** Pages 1..total_pages in order reproduce the records exactly. */
  lemma PagesCoverAll<T>(all: seq<T>, perPage: int)
    requires perPage >= 1
    ensures Concat(Pages(all, perPage, TotalPages(|all|, perPage))) == all
  {
    PagesPrefix(all, perPage, TotalPages(|all|, perPage));
  }

  /** The handler, given the month's cached records: a 422 for a query out of
      bounds, otherwise the requested page with the query echoed back, the full
      record count and the page count. */
  function GetSales(cached: seq<SaleRecord>, year: int, month: int, perPage: int, page: int)
    : (r: Outcome<PaginatedSalesResponse>)
    ensures r.Ok? <==> ValidQuery(year, month, perPage, page)
    ensures r.Err? ==> r.error == Unprocessable
    ensures r.Ok? ==> && r.value.year == year && r.value.month == month
                      && r.value.page == page && r.value.perPage == perPage
                      && r.value.totalRecords == |cached|
                      && r.value.totalPages == TotalPages(|cached|, perPage)
                      && r.value.data == PageSlice(cached, page, perPage)
  {
    if !ValidQuery(year, month, perPage, page) then Err(Unprocessable)
    else
      Ok(PaginatedSalesResponse(year, month, page, perPage, |cached|, TotalPages(|cached|, perPage),
                                PageSlice(cached, page, perPage)))
  }

  /** `cached_sales_data`: the month's 100 records, generated on the first
      request for that (year, month) and returned unchanged afterwards. */
  class SalesCache {
    var entries: map<(int, int), seq<SaleRecord>>

    constructor()
      ensures entries == map[]
    {
      entries := map[];
    }

    /** `draws` is what the random generators would return for a miss. */
    method CachedSalesData(year: int, month: int, draws: seq<Draw>) returns (data: seq<SaleRecord>)
      requires 100 <= |draws|
      modifies this
      ensures (year, month) in old(entries) ==> data == old(entries)[(year, month)] && entries == old(entries)
      ensures (year, month) !in old(entries) ==>
        data == MonthRecords(year, month, 100, draws) && entries == old(entries)[(year, month) := data]
    {
      if (year, month) in entries {
        data := entries[(year, month)];
      } else {
        data := GenerateSalesDataForMonth(month, year, 100, draws);
        entries := entries[(year, month) := data];
      }
    }

    /** `get_sales`: validation first, then the cached records, then the page. */
    method HandleGetSales(year: int, month: int, perPage: int, page: int, draws: seq<Draw>)
      returns (r: Outcome<PaginatedSalesResponse>)
      requires 100 <= |draws|
      modifies this
      ensures !ValidQuery(year, month, perPage, page) ==> r == Err(Unprocessable) && entries == old(entries)
      ensures ValidQuery(year, month, perPage, page) ==>
        && (year, month) in entries
        && r == GetSales(entries[(year, month)], year, month, perPage, page)
        && ((year, month) in old(entries) ==> entries == old(entries))
        && ((year, month) !in old(entries) ==> entries == old(entries)[(year, month) := MonthRecords(year, month, 100, draws)])
    {
      if !ValidQuery(year, month, perPage, page) {
        return Err(Unprocessable);
      }
      var allData := CachedSalesData(year, month, draws);
      r := GetSales(allData, year, month, perPage, page);
    }
  }

  /** While a month stays cached, every page served for it is a slice of the
      same record list, so the pages served one after another fit together. */
  lemma CachedPagesFitTogether(cached: seq<SaleRecord>, year: int, month: int, perPage: int)
    requires ValidQuery(year, month, perPage, 1)
    ensures var pages := Map((p: int) => GetSales(cached, year, month, perPage, p),
                             Range(1, TotalPages(|cached|, perPage) + 1));
      && (forall i :: 0 <= i < |pages| ==> pages[i].Ok?)
      && Concat(Map((o: Outcome<PaginatedSalesResponse>) => if o.Ok? then o.value.data else [], pages)) == cached
  {
    var t := TotalPages(|cached|, perPage);
    var pages := Map((p: int) => GetSales(cached, year, month, perPage, p), Range(1, t + 1));
    var datas := Map((o: Outcome<PaginatedSalesResponse>) => if o.Ok? then o.value.data else [], pages);
    assert datas == Pages(cached, perPage, t);
    PagesCoverAll(cached, perPage);
  }
}
