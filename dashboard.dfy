/**
 * The dashboard page: status counts over the fetched listings (computed the
 * same way by the server-side props and by the client refresh), the fallback
 * when fetching fails, and the arithmetic of the five-per-page pagers.
 */
module Dashboard {
  import opened Types
  import opened Seqs
  import Api
  import Auth
  import AdminListings
  import AuditLogs

  const ItemsPerPage: int := 5

  datatype Stats = Stats(totalListings: int, pendingListings: int, approvedListings: int, rejectedListings: int)

  /** The page's props: the statistics and the two recent lists. */
  datatype Props = Props(stats: Stats, recentListings: seq<Listing>, recentAuditLogs: seq<AuditLog>)

  const ZeroStats: Stats := Stats(0, 0, 0, 0)

  /** What the page shows when fetching fails. */
  const EmptyProps: Props := Props(ZeroStats, [], [])

  // ---------------------------------------------------------------- counting

  function StatusIs(st: Status): Listing -> bool
  {
    (l: Listing) => l.status == st
  }

  /** `filter(l => l.status === st).length`; CountOne and CountAppend pin it down listing by listing. */
  function CountStatus(s: seq<Listing>, st: Status): (r: nat)
    ensures r <= |s|
  {
    |Select(s, StatusIs(st))|
  }

  /** No listing has status st exactly when the count is 0, every listing exactly when it is the length. */
  lemma CountStatusExtremes(s: seq<Listing>, st: Status)
    ensures CountStatus(s, st) == 0 <==> forall k :: 0 <= k < |s| ==> s[k].status != st
    ensures CountStatus(s, st) == |s| <==> forall k :: 0 <= k < |s| ==> s[k].status == st
  {
    var sel := Select(s, StatusIs(st));
    assert sel != [] ==> sel[0] in s && sel[0].status == st;
    if forall k :: 0 <= k < |s| ==> s[k].status == st {
      SelectAll(s, StatusIs(st));
    }
    SelectShort(s, StatusIs(st));
  }

  /** Counting adds up over concatenation. */
  lemma CountAppend(a: seq<Listing>, b: seq<Listing>, st: Status)
    ensures CountStatus(a + b, st) == CountStatus(a, st) + CountStatus(b, st)
  {
    SelectAppend(a, b, StatusIs(st));
  }

  /** One listing counts once, under its own status only. */
  lemma CountOne(l: Listing, st: Status)
    ensures CountStatus([l], st) == (if l.status == st then 1 else 0)
  {
    assert [l][1..] == [];
  }

  /** Every listing has exactly one of the three statuses, so the three counts add up to the list's length. */
  lemma {:induction false} CountsPartition(s: seq<Listing>)
    ensures CountStatus(s, Pending) + CountStatus(s, Approved) + CountStatus(s, Rejected) == |s|
    decreases |s|
  {
    if |s| > 0 {
      CountsPartition(s[1..]);
      assert s == [s[0]] + s[1..];
      CountAppend([s[0]], s[1..], Pending);
      CountAppend([s[0]], s[1..], Approved);
      CountAppend([s[0]], s[1..], Rejected);
      CountOne(s[0], Pending);
      CountOne(s[0], Approved);
      CountOne(s[0], Rejected);
    }
  }

  /** The statistics over the whole fetched list: each count the number of listings with exactly that status. */
  function StatsOf(all: seq<Listing>): (r: Stats)
    ensures r.totalListings == |all|
    ensures r.pendingListings == CountStatus(all, Pending)
    ensures r.approvedListings == CountStatus(all, Approved)
    ensures r.rejectedListings == CountStatus(all, Rejected)
    ensures r.pendingListings + r.approvedListings + r.rejectedListings == r.totalListings
    ensures r.pendingListings >= 0 && r.approvedListings >= 0 && r.rejectedListings >= 0
  {
    CountsPartition(all);
    Stats(|all|, CountStatus(all, Pending), CountStatus(all, Approved), CountStatus(all, Rejected))
  }

  // ---------------------------------------------------------------- fetched responses

  /** `res.data?.data || []`: the page's records, or none when the envelope carries no data. */
  function DataOrEmpty<T>(resp: ApiResponse<PaginatedResponse<T>>): (r: seq<T>)
    ensures resp.data.None? ==> r == []
    ensures resp.data.Some? ==> r == resp.data.value.data
  {
    if resp.data.Some? then resp.data.value.data else []
  }

  /** `res.data?.total || 0`. */
  function TotalOrZero<T>(resp: ApiResponse<PaginatedResponse<T>>): (r: int)
    ensures resp.data.None? ==> r == 0
    ensures resp.data.Some? ==> r == resp.data.value.total
  {
    if resp.data.Some? then resp.data.value.total else 0
  }

  /** The three answers the page asks for: all listings, the recent ones, the recent audit entries. */
  datatype Fetched = Fetched(
    all: ApiResponse<PaginatedResponse<Listing>>,
    recent: ApiResponse<PaginatedResponse<Listing>>,
    audit: ApiResponse<PaginatedResponse<AuditLog>>)

  /** getServerSideProps: statistics over all listings, the recent lists, or the empty fallback (None: a fetch failed). */
  function ServerSideProps(fetched: Option<Fetched>): (p: Props)
    ensures fetched.None? ==> p == EmptyProps
    ensures fetched.Some? ==>
              && p.stats == StatsOf(DataOrEmpty(fetched.value.all))
              && p.recentListings == DataOrEmpty(fetched.value.recent)
              && p.recentAuditLogs == DataOrEmpty(fetched.value.audit)
    ensures p.stats.pendingListings + p.stats.approvedListings + p.stats.rejectedListings == p.stats.totalListings
  {
    match fetched
    case None => EmptyProps
    case Some(f) => Props(StatsOf(DataOrEmpty(f.all)), DataOrEmpty(f.recent), DataOrEmpty(f.audit))
  }

  /** What the client-side refresh sets: the statistics, both lists and both totals. */
  datatype Refreshed = Refreshed(
    stats: Stats,
    recentListings: seq<Listing>,
    recentAuditLogs: seq<AuditLog>,
    listingsTotal: int,
    auditLogsTotal: int)

  /**
   * fetchDashboardData once its three answers are in: the statistics count the
   * first answer's records (none when it carries no data), while the totals
   * the pagers use come from the other two answers.
   */
  function Refresh(f: Fetched): (r: Refreshed)
    ensures f.all.data.None? ==> r.stats == ZeroStats
    ensures f.all.data.Some? ==>
              && r.stats.totalListings == |f.all.data.value.data|
              && r.stats.pendingListings == CountStatus(f.all.data.value.data, Pending)
              && r.stats.approvedListings == CountStatus(f.all.data.value.data, Approved)
              && r.stats.rejectedListings == CountStatus(f.all.data.value.data, Rejected)
    ensures r.stats.pendingListings + r.stats.approvedListings + r.stats.rejectedListings == r.stats.totalListings
    ensures f.recent.data.Some? ==>
              r.recentListings == f.recent.data.value.data && r.listingsTotal == f.recent.data.value.total
    ensures f.recent.data.None? ==> r.recentListings == [] && r.listingsTotal == 0
    ensures f.audit.data.Some? ==>
              r.recentAuditLogs == f.audit.data.value.data && r.auditLogsTotal == f.audit.data.value.total
    ensures f.audit.data.None? ==> r.recentAuditLogs == [] && r.auditLogsTotal == 0
  {
    Refreshed(StatsOf(DataOrEmpty(f.all)), DataOrEmpty(f.recent), DataOrEmpty(f.audit),
              TotalOrZero(f.recent), TotalOrZero(f.audit))
  }

  /** The query for every listing: `limit=1000&status=all`. */
  const AllQuery: AdminListings.Query := AdminListings.Query(None, Some(1000), Some("all"), None)

  /** The query for the recent listings: `limit=5`. */
  const RecentQuery: AdminListings.Query := AdminListings.Query(None, Some(5), None, None)

  const AuditQuery: AuditLogs.Query := AuditLogs.Query(None, Some(5), None, None)

  /**
   * The three answers the handlers give over one store to requests carrying
   * one Authorization header; the two recent lists ask for the given pages
   * (the server-side fetch names none, the client refresh its pagers' pages).
   */
  function Answers(authorization: Option<string>, verify: string -> Option<Auth.User>,
                   listings: seq<Listing>, logs: seq<AuditLog>,
                   listingsPage: Option<int>, auditLogsPage: Option<int>): Fetched
  {
    Fetched(
      AdminListings.Respond(Api.Request("GET", authorization, AllQuery), verify, listings).body,
      AdminListings.Respond(Api.Request("GET", authorization, RecentQuery.(page := listingsPage)), verify, listings).body,
      AuditLogs.Respond(Api.Request("GET", authorization, AuditQuery.(page := auditLogsPage)), verify, logs).body)
  }

  /**
   * The server-side fetches carry no Authorization header, so the protected
   * handlers answer 401 and the page starts from zeros, whatever the store holds.
   */
  lemma ServerFetchUnauthenticated(verify: string -> Option<Auth.User>, listings: seq<Listing>, logs: seq<AuditLog>)
    ensures ServerSideProps(Some(Answers(None, verify, listings, logs, None, None))) == EmptyProps
  {
  }

  /**
   * With a valid token the refresh counts at most the 1000 newest listings:
   * beyond that many the total it shows falls short of the store.
   */
  lemma RefreshCountsAtMost1000(authorization: Option<string>, verify: string -> Option<Auth.User>,
                                listings: seq<Listing>, logs: seq<AuditLog>,
                                listingsPage: Option<int>, auditLogsPage: Option<int>)
    requires Api.HasToken(authorization) && verify(Api.HeaderToken(authorization).value).Some?
    ensures Refresh(Answers(authorization, verify, listings, logs, listingsPage, auditLogsPage)).stats.totalListings
            == Min(1000, |listings|)
  {
    var req := Api.Request("GET", authorization, AllQuery);
    SelectAll(listings, AdminListings.WantedFn(AllQuery));
    var r := AdminListings.Respond(req, verify, listings);
    assert r == Api.PagedResponse(Api.Paginate(listings, Api.CreatedAt, 1, 1000));
  }

  // ---------------------------------------------------------------- pagination

  /** The pager is shown only when there is more than one page's worth. */
  predicate ShowsPager(total: int)
  {
    total > ItemsPerPage
  }

  /** `Math.ceil(total / 5)`: the fewest pages of five that hold total listings. */
  function LastPage(total: int): (r: int)
    ensures total >= 0 ==> r >= 0 && (r - 1) * ItemsPerPage < total <= r * ItemsPerPage
    ensures total >= 0 ==> r == (total + ItemsPerPage - 1) / ItemsPerPage
  {
    var c := Ceil(total as real / ItemsPerPage as real);
    if total >= 0 then
      CeilDivide(total, ItemsPerPage);
      c
    else c
  }

  /** "Showing (page - 1) * 5 + 1 to min(page * 5, total)". */
  function FirstShown(page: int): int
  {
    (page - 1) * ItemsPerPage + 1
  }

  function LastShown(page: int, total: int): int
  {
    Min(page * ItemsPerPage, total)
  }

  /** The previous-page button's target, `Math.max(1, page - 1)`, and when it is disabled. */
  function PrevPage(page: int): (r: int)
    ensures r >= 1
    ensures page > 1 ==> r == page - 1
    ensures page <= 1 ==> r == 1
  {
    if 1 >= page - 1 then 1 else page - 1
  }

  predicate PrevDisabled(page: int)
  {
    page == 1
  }

  /** The previous button is disabled exactly when its target is the page already shown. */
  lemma PrevDisabledIff(page: int)
    ensures PrevDisabled(page) <==> PrevPage(page) == page
  {
  }

  /** The next-page button's target, `Math.min(Math.ceil(total / 5), page + 1)`. */
  function NextPage(page: int, total: int): (r: int)
    ensures r <= LastPage(total) && r <= page + 1
    ensures r == LastPage(total) || r == page + 1
  {
    Min(LastPage(total), page + 1)
  }

  predicate NextDisabled(page: int, total: int)
  {
    page >= LastPage(total)
  }

  /** The next button is disabled exactly when its target would not advance. */
  lemma NextDisabledIff(page: int, total: int)
    ensures NextDisabled(page, total) <==> NextPage(page, total) <= page
  {
  }

  /** From a page within range, both buttons lead to a page within range. */
  lemma ClampsStayInRange(page: int, total: nat)
    requires ShowsPager(total)
    requires 1 <= page <= LastPage(total)
    ensures 1 <= PrevPage(page) <= LastPage(total)
    ensures 1 <= NextPage(page, total) <= LastPage(total)
    ensures LastPage(total) >= 2
  {
    CeilDivide(total, ItemsPerPage);
    MulCancel(1, LastPage(total), ItemsPerPage);
  }

  /**
   * On a page within range the caption counts exactly the listings the
   * handler returns for that page of five.
   */
  lemma {:induction false} CaptionMatchesPage<T>(matching: seq<T>, key: T -> int, page: int)
    requires 1 <= page <= LastPage(|matching|)
    ensures Api.Paginate(matching, key, page, ItemsPerPage).Some?
    ensures FirstShown(page) <= LastShown(page, |matching|)
    ensures |Api.Paginate(matching, key, page, ItemsPerPage).value.data| ==
            LastShown(page, |matching|) - FirstShown(page) + 1
  {
    var total := |matching|;
    CeilDivide(total, ItemsPerPage);
    var skip := Api.Skip(page, ItemsPerPage);
    assert 0 <= skip by { Api.MulMonotone(0, page - 1, ItemsPerPage); }
    assert skip < total by { Api.MulMonotone(page - 1, LastPage(total) - 1, ItemsPerPage); }
    assert page * ItemsPerPage == skip + ItemsPerPage;
    var w := Window(SortDesc(matching, key), skip, ItemsPerPage);
    assert |w| == Min(ItemsPerPage, total - skip);
  }
}
