/**
 * The administrators' listing query (GET, authenticated): an optional status
 * filter (the wildcard "all" means none), an optional four-field text search,
 * newest first, one page at a time. The pages/ and src/ copies of the handler
 * run the same logic; the pages/ copy also turns ids to strings, which the
 * model does not distinguish.
 */
module AdminListings {
  import opened Types
  import opened Seqs
  import opened Api
  import Auth
  import Store

  const DefaultPage: int := 1
  const DefaultLimit: int := 10

  /** The query string, each number already read by parseInt (None: absent or unparsable). */
  datatype Query = Query(page: Option<int>, limit: Option<int>, status: Option<string>, search: Option<string>)

  /** The store filter the handler builds: a status to equal, a search term. */
  datatype Filter = Filter(status: Option<string>, search: Option<string>)

  /** The store's reading of a filter: every present criterion holds. */
  predicate Matches(f: Filter, l: Listing)
  {
    && (f.status.Some? ==> StatusName(l.status) == f.status.value)
    && (f.search.Some? ==> SearchHit(l, f.search.value))
  }

  function MatchFn(f: Filter): Listing -> bool
  {
    l => Matches(f, l)
  }

  /**
   * Which listings a query asks for, read off the query itself: the listing
   * has the named status unless none (or "all") is named, and contains the
   * search term unless none is given.
   */
  predicate Wanted(q: Query, l: Listing)
  {
    && (Constrains(q.status) ==> StatusName(l.status) == q.status.value)
    && (Given(q.search) ==> SearchHit(l, q.search.value))
  }

  function WantedFn(q: Query): Listing -> bool
  {
    l => Wanted(q, l)
  }

  /** The listings a query asks for, in store order. */
  function Matching(q: Query, records: seq<Listing>): seq<Listing>
  {
    Select(records, WantedFn(q))
  }

  /**
   * The answer: the guard's failure, or one page of the wanted listings,
   * newest first, with their count; 500 when the page cannot be read.
   */
  function Respond(req: Request<Query>, verify: string -> Option<Auth.User>, records: seq<Listing>)
    : (r: Response<PaginatedResponse<Listing>>)
    ensures Guard<Query, PaginatedResponse<Listing>>(req, verify).Some? ==>
              r == Guard<Query, PaginatedResponse<Listing>>(req, verify).value
    ensures r.status == 200 ==>
              && Guard<Query, PaginatedResponse<Listing>>(req, verify).None?
              && r.body.success && r.body.data.Some?
    ensures r.status == 200 ==>
              var p := r.body.data.value;
              && p.page == ParamOr(req.input.page, DefaultPage)
              && p.limit == ParamOr(req.input.limit, DefaultLimit)
              && p.total == |Matching(req.input, records)|
              && p.totalPages == Ceil(p.total as real / p.limit as real)
              && SortedDesc(p.data, CreatedAt)
              && (forall k :: 0 <= k < |p.data| ==> p.data[k] in records && Wanted(req.input, p.data[k]))
    ensures Guard<Query, PaginatedResponse<Listing>>(req, verify).None? ==>
              (r.status == 500 <==>
                 Skip(ParamOr(req.input.page, DefaultPage), ParamOr(req.input.limit, DefaultLimit)) < 0)
    ensures Guard<Query, PaginatedResponse<Listing>>(req, verify).None? && Skip(ParamOr(req.input.page, DefaultPage), ParamOr(req.input.limit, DefaultLimit)) >= 0 ==>
              && r.status == 200 && r.body.data.Some?
              && r.body.data.value.data ==
                 Window(SortDesc(Matching(req.input, records), CreatedAt),
                        Skip(ParamOr(req.input.page, DefaultPage), ParamOr(req.input.limit, DefaultLimit)),
                        Abs(ParamOr(req.input.limit, DefaultLimit)))
  {
    match Guard<Query, PaginatedResponse<Listing>>(req, verify)
    case Some(failure) => failure
    case None =>
      var matching := Matching(req.input, records);
      var page := Paginate(matching, CreatedAt, ParamOr(req.input.page, DefaultPage), ParamOr(req.input.limit, DefaultLimit));
      if page.Some? then
        DrawnFromSelect(records, WantedFn(req.input), page.value.data);
        PagedResponse(page)
      else
      PagedResponse(page)
  }

  /** The filter the handler builds selects exactly the listings the query asks for. */
  lemma FilterAgrees(q: Query, f: Filter, records: seq<Listing>)
    requires f.status == (if Constrains(q.status) then q.status else None)
    requires f.search == (if Given(q.search) then q.search else None)
    ensures Select(records, MatchFn(f)) == Matching(q, records)
  {
    SelectCongruent(records, MatchFn(f), WantedFn(q));
  }

  /**
   * The handler: the guard, the defaults, the filter built one criterion at a
   * time, the count, and the sorted, skipped and limited read. It only reads
   * the store.
   */
  method Handler(db: Store.Database, req: Request<Query>, verify: string -> Option<Auth.User>)
    returns (resp: Response<PaginatedResponse<Listing>>)
    ensures resp == Respond(req, verify, db.listings)
  {
    var failure := Guard<Query, PaginatedResponse<Listing>>(req, verify);
    if failure.Some? {
      return failure.value;
    }
    var q := req.input;
    var page := ParamOr(q.page, DefaultPage);
    var limit := ParamOr(q.limit, DefaultLimit);
    var filter := Filter(None, None);
    if Constrains(q.status) {
      filter := filter.(status := q.status);
    }
    if Given(q.search) {
      filter := filter.(search := q.search);
    }
    var matching := Select(db.listings, MatchFn(filter));
    FilterAgrees(q, filter, db.listings);
    var result := Paginate(matching, CreatedAt, page, limit);
    resp := PagedResponse(result);
  }

  /** Nothing about the store is revealed before the guard lets a request through. */
  lemma AuthBeforeStore(req: Request<Query>, verify: string -> Option<Auth.User>, r1: seq<Listing>, r2: seq<Listing>)
    requires Guard<Query, PaginatedResponse<Listing>>(req, verify).Some?
    ensures Respond(req, verify, r1) == Respond(req, verify, r2)
    ensures Respond(req, verify, r1).status in {401, 405}
  {
  }

  /** Without a status (or with "all") and without a search term, every listing counts. */
  lemma UnfilteredCountsAll(req: Request<Query>, verify: string -> Option<Auth.User>, records: seq<Listing>)
    requires !Constrains(req.input.status) && !Given(req.input.search)
    requires Respond(req, verify, records).status == 200
    ensures Respond(req, verify, records).body.data.value.total == |records|
  {
    SelectAll(records, WantedFn(req.input));
  }

  /** A status that names no status matches nothing: such a query is answered with an empty page. */
  lemma UnknownStatusEmpty(req: Request<Query>, verify: string -> Option<Auth.User>, records: seq<Listing>)
    requires Constrains(req.input.status) && ParseStatus(req.input.status.value).None?
    requires Respond(req, verify, records).status == 200
    ensures Respond(req, verify, records).body.data.value.total == 0
    ensures Respond(req, verify, records).body.data.value.data == []
  {
    SelectNone(records, WantedFn(req.input));
  }

  /** The total and the page count do not depend on which page is asked for. */
  lemma TotalIndependentOfPage(req: Request<Query>, page: Option<int>, verify: string -> Option<Auth.User>, records: seq<Listing>)
    requires Respond(req, verify, records).status == 200
    requires Respond(req.(input := req.input.(page := page)), verify, records).status == 200
    ensures Respond(req, verify, records).body.data.value.total ==
            Respond(req.(input := req.input.(page := page)), verify, records).body.data.value.total
    ensures Respond(req, verify, records).body.data.value.totalPages ==
            Respond(req.(input := req.input.(page := page)), verify, records).body.data.value.totalPages
  {
    var q2 := req.input.(page := page);
    SelectCongruent(records, WantedFn(req.input), WantedFn(q2));
    var m := Matching(req.input, records);
    var limit := ParamOr(req.input.limit, DefaultLimit);
    var p1 := Paginate(m, CreatedAt, ParamOr(req.input.page, DefaultPage), limit);
    var p2 := Paginate(m, CreatedAt, ParamOr(page, DefaultPage), limit);
    assert Respond(req, verify, records) == PagedResponse(p1);
    assert Respond(req.(input := q2), verify, records) == PagedResponse(p2);
  }

  /** Asking for a page past the last one gives an empty page that still reports the full total. */
  lemma PastLastPageEmpty(req: Request<Query>, verify: string -> Option<Auth.User>, records: seq<Listing>)
    requires Guard<Query, PaginatedResponse<Listing>>(req, verify).None?
    requires ParamOr(req.input.page, DefaultPage) >= 1 && ParamOr(req.input.limit, DefaultLimit) > 0
    requires ParamOr(req.input.page, DefaultPage) >
             Ceil(|Matching(req.input, records)| as real / ParamOr(req.input.limit, DefaultLimit) as real)
    ensures Respond(req, verify, records).status == 200
    ensures Respond(req, verify, records).body.data.value.data == []
    ensures Respond(req, verify, records).body.data.value.total == |Matching(req.input, records)|
  {
    PastLastPage(Matching(req.input, records), CreatedAt,
                 ParamOr(req.input.page, DefaultPage), ParamOr(req.input.limit, DefaultLimit));
  }
}
