/**
 * The audit-log query (GET, authenticated): optional action and
 * administrator filters (the wildcard "all" means none), newest first,
 * twenty to a page unless asked otherwise.
 */
module AuditLogs {
  import opened Types
  import opened Seqs
  import opened Api
  import Auth
  import Store

  const DefaultPage: int := 1
  const DefaultLimit: int := 20

  /** The query string, each number already read by parseInt (None: absent or unparsable). */
  datatype Query = Query(page: Option<int>, limit: Option<int>, action: Option<string>, adminId: Option<string>)

  /** The store filter the handler builds: an action name and an administrator id to equal. */
  datatype Filter = Filter(action: Option<string>, adminId: Option<string>)

  predicate Matches(f: Filter, a: AuditLog)
  {
    && (f.action.Some? ==> ActionName(a.action) == f.action.value)
    && (f.adminId.Some? ==> a.adminId == f.adminId.value)
  }

  function MatchFn(f: Filter): AuditLog -> bool
  {
    a => Matches(f, a)
  }

  /** Which entries a query asks for, read off the query itself. */
  predicate Wanted(q: Query, a: AuditLog)
  {
    && (Constrains(q.action) ==> ActionName(a.action) == q.action.value)
    && (Constrains(q.adminId) ==> a.adminId == q.adminId.value)
  }

  function WantedFn(q: Query): AuditLog -> bool
  {
    a => Wanted(q, a)
  }

  function Matching(q: Query, records: seq<AuditLog>): seq<AuditLog>
  {
    Select(records, WantedFn(q))
  }

  /**
   * The answer: the guard's failure, or one page of the wanted entries,
   * newest first, with their count; 500 when the page cannot be read.
   */
  function Respond(req: Request<Query>, verify: string -> Option<Auth.User>, records: seq<AuditLog>)
    : (r: Response<PaginatedResponse<AuditLog>>)
    ensures Guard<Query, PaginatedResponse<AuditLog>>(req, verify).Some? ==>
              r == Guard<Query, PaginatedResponse<AuditLog>>(req, verify).value
    ensures r.status == 200 ==>
              && Guard<Query, PaginatedResponse<AuditLog>>(req, verify).None?
              && r.body.success && r.body.data.Some?
    ensures r.status == 200 ==>
              var p := r.body.data.value;
              && p.page == ParamOr(req.input.page, DefaultPage)
              && p.limit == ParamOr(req.input.limit, DefaultLimit)
              && p.total == |Matching(req.input, records)|
              && p.totalPages == Ceil(p.total as real / p.limit as real)
              && SortedDesc(p.data, Timestamp)
              && (forall k :: 0 <= k < |p.data| ==> p.data[k] in records && Wanted(req.input, p.data[k]))
    ensures Guard<Query, PaginatedResponse<AuditLog>>(req, verify).None? ==>
              (r.status == 500 <==>
                 Skip(ParamOr(req.input.page, DefaultPage), ParamOr(req.input.limit, DefaultLimit)) < 0)
    ensures Guard<Query, PaginatedResponse<AuditLog>>(req, verify).None? && Skip(ParamOr(req.input.page, DefaultPage), ParamOr(req.input.limit, DefaultLimit)) >= 0 ==>
              && r.status == 200 && r.body.data.Some?
              && r.body.data.value.data ==
                 Window(SortDesc(Matching(req.input, records), Timestamp),
                        Skip(ParamOr(req.input.page, DefaultPage), ParamOr(req.input.limit, DefaultLimit)),
                        Abs(ParamOr(req.input.limit, DefaultLimit)))
  {
    match Guard<Query, PaginatedResponse<AuditLog>>(req, verify)
    case Some(failure) => failure
    case None =>
      var matching := Matching(req.input, records);
      var page := Paginate(matching, Timestamp, ParamOr(req.input.page, DefaultPage), ParamOr(req.input.limit, DefaultLimit));
      if page.Some? then
        DrawnFromSelect(records, WantedFn(req.input), page.value.data);
        PagedResponse(page)
      else
        PagedResponse(page)
  }

  /** The filter the handler builds selects exactly the entries the query asks for. */
  lemma FilterAgrees(q: Query, f: Filter, records: seq<AuditLog>)
    requires f.action == (if Constrains(q.action) then q.action else None)
    requires f.adminId == (if Constrains(q.adminId) then q.adminId else None)
    ensures Select(records, MatchFn(f)) == Matching(q, records)
  {
    SelectCongruent(records, MatchFn(f), WantedFn(q));
  }

  /** The handler: the guard, the defaults, the filter, the count and the paged read. It only reads the store. */
  method Handler(db: Store.Database, req: Request<Query>, verify: string -> Option<Auth.User>)
    returns (resp: Response<PaginatedResponse<AuditLog>>)
    ensures resp == Respond(req, verify, db.auditLogs)
  {
    var failure := Guard<Query, PaginatedResponse<AuditLog>>(req, verify);
    if failure.Some? {
      return failure.value;
    }
    var q := req.input;
    var page := ParamOr(q.page, DefaultPage);
    var limit := ParamOr(q.limit, DefaultLimit);
    var filter := Filter(None, None);
    if Constrains(q.action) {
      filter := filter.(action := q.action);
    }
    if Constrains(q.adminId) {
      filter := filter.(adminId := q.adminId);
    }
    var matching := Select(db.auditLogs, MatchFn(filter));
    FilterAgrees(q, filter, db.auditLogs);
    var result := Paginate(matching, Timestamp, page, limit);
    resp := PagedResponse(result);
  }

  /** Nothing about the log is revealed before the guard lets a request through. */
  lemma AuthBeforeStore(req: Request<Query>, verify: string -> Option<Auth.User>, r1: seq<AuditLog>, r2: seq<AuditLog>)
    requires Guard<Query, PaginatedResponse<AuditLog>>(req, verify).Some?
    ensures Respond(req, verify, r1) == Respond(req, verify, r2)
    ensures Respond(req, verify, r1).status in {401, 405}
  {
  }

  /** Without an action or administrator (or with "all"), every entry counts. */
  lemma UnfilteredCountsAll(req: Request<Query>, verify: string -> Option<Auth.User>, records: seq<AuditLog>)
    requires !Constrains(req.input.action) && !Constrains(req.input.adminId)
    requires Respond(req, verify, records).status == 200
    ensures Respond(req, verify, records).body.data.value.total == |records|
  {
    SelectAll(records, WantedFn(req.input));
  }

  /** An action that names no action matches nothing. */
  lemma UnknownActionEmpty(req: Request<Query>, verify: string -> Option<Auth.User>, records: seq<AuditLog>)
    requires Constrains(req.input.action) && ParseAction(req.input.action.value).None?
    requires Respond(req, verify, records).status == 200
    ensures Respond(req, verify, records).body.data.value.total == 0
    ensures Respond(req, verify, records).body.data.value.data == []
  {
    SelectNone(records, WantedFn(req.input));
  }

  /** Without a limit the page holds the twenty newest wanted entries (or all of them, if fewer). */
  lemma DefaultPageSize(req: Request<Query>, verify: string -> Option<Auth.User>, records: seq<AuditLog>)
    requires Guard<Query, PaginatedResponse<AuditLog>>(req, verify).None?
    requires req.input.page.None? && req.input.limit.None?
    ensures Respond(req, verify, records).status == 200
    ensures |Respond(req, verify, records).body.data.value.data| == Min(20, |Matching(req.input, records)|)
    ensures Respond(req, verify, records).body.data.value.data ==
              SortDesc(Matching(req.input, records), Timestamp)[..Min(20, |Matching(req.input, records)|)]
  {
    var sorted := SortDesc(Matching(req.input, records), Timestamp);
    assert Window(sorted, 0, 20) == sorted[..Min(20, |sorted|)];
  }
}
