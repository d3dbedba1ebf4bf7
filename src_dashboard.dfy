/**
 * The src/ dashboard's server-side props: the total comes from a separate
 * one-record query, and the three status counters are incremented by a loop
 * over the recent listings only.
 */
module SrcDashboard {
  import opened Types
  import opened Seqs
  import Api
  import Auth
  import AdminListings
  import AuditLogs
  import Dashboard

  /** The three answers: the one-record query for the total, the recent listings, the recent audit entries. */
  datatype Fetched = Fetched(
    stats: ApiResponse<PaginatedResponse<Listing>>,
    listings: ApiResponse<PaginatedResponse<Listing>>,
    audit: ApiResponse<PaginatedResponse<AuditLog>>)

  /**
   * The props, stated on values: the total as the stats query reports it, each
   * counter the number of recent listings with its status; the empty props
   * when a fetch failed.
   */
  function PropsOf(fetched: Option<Fetched>): (p: Dashboard.Props)
    ensures fetched.None? ==> p == Dashboard.EmptyProps
    ensures fetched.Some? ==>
              && p.stats.totalListings == Dashboard.TotalOrZero(fetched.value.stats)
              && p.stats.pendingListings == Dashboard.CountStatus(Dashboard.DataOrEmpty(fetched.value.listings), Pending)
              && p.stats.approvedListings == Dashboard.CountStatus(Dashboard.DataOrEmpty(fetched.value.listings), Approved)
              && p.stats.rejectedListings == Dashboard.CountStatus(Dashboard.DataOrEmpty(fetched.value.listings), Rejected)
              && p.stats.pendingListings + p.stats.approvedListings + p.stats.rejectedListings
                 == |Dashboard.DataOrEmpty(fetched.value.listings)|
              && p.recentListings == Dashboard.DataOrEmpty(fetched.value.listings)
              && p.recentAuditLogs == Dashboard.DataOrEmpty(fetched.value.audit)
  {
    match fetched
    case None => Dashboard.EmptyProps
    case Some(f) =>
      var recent := Dashboard.DataOrEmpty(f.listings);
      Dashboard.CountsPartition(recent);
      Dashboard.Props(
        Dashboard.Stats(
          Dashboard.TotalOrZero(f.stats),
          Dashboard.CountStatus(recent, Pending),
          Dashboard.CountStatus(recent, Approved),
          Dashboard.CountStatus(recent, Rejected)),
        recent,
        Dashboard.DataOrEmpty(f.audit))
  }

  /** getServerSideProps: counters start at zero and each listing increments the counter of its own status. */
  method ServerSideProps(fetched: Option<Fetched>) returns (props: Dashboard.Props)
    ensures props == PropsOf(fetched)
  {
    if fetched.None? {
      return Dashboard.EmptyProps;
    }
    var f := fetched.value;
    var stats := Dashboard.Stats(Dashboard.TotalOrZero(f.stats), 0, 0, 0);
    if f.listings.data.Some? {
      var listings := f.listings.data.value.data;
      for i := 0 to |listings|
        invariant stats.totalListings == Dashboard.TotalOrZero(f.stats)
        invariant stats.pendingListings == Dashboard.CountStatus(listings[..i], Pending)
        invariant stats.approvedListings == Dashboard.CountStatus(listings[..i], Approved)
        invariant stats.rejectedListings == Dashboard.CountStatus(listings[..i], Rejected)
      {
        var listing := listings[i];
        match listing.status {
          case Pending => stats := stats.(pendingListings := stats.pendingListings + 1);
          case Approved => stats := stats.(approvedListings := stats.approvedListings + 1);
          case Rejected => stats := stats.(rejectedListings := stats.rejectedListings + 1);
        }
        assert listings[..i + 1] == listings[..i] + [listing];
        Dashboard.CountAppend(listings[..i], [listing], Pending);
        Dashboard.CountAppend(listings[..i], [listing], Approved);
        Dashboard.CountAppend(listings[..i], [listing], Rejected);
        Dashboard.CountOne(listing, Pending);
        Dashboard.CountOne(listing, Approved);
        Dashboard.CountOne(listing, Rejected);
      }
      assert listings[..|listings|] == listings;
    }
    props := Dashboard.Props(stats, Dashboard.DataOrEmpty(f.listings), Dashboard.DataOrEmpty(f.audit));
  }

  /** The query for the total: `limit=1`. */
  const StatsQuery: AdminListings.Query := AdminListings.Query(None, Some(1), None, None)

  /** The three answers the handlers give over one store to requests carrying one Authorization header. */
  function Answers(authorization: Option<string>, verify: string -> Option<Auth.User>,
                   listings: seq<Listing>, logs: seq<AuditLog>): Fetched
  {
    Fetched(
      AdminListings.Respond(Api.Request("GET", authorization, StatsQuery), verify, listings).body,
      AdminListings.Respond(Api.Request("GET", authorization, Dashboard.RecentQuery), verify, listings).body,
      AuditLogs.Respond(Api.Request("GET", authorization, Dashboard.AuditQuery), verify, logs).body)
  }

  /** Like the other dashboard, these fetches carry no Authorization header and so yield only zeros. */
  lemma ServerFetchUnauthenticated(verify: string -> Option<Auth.User>, listings: seq<Listing>, logs: seq<AuditLog>)
    ensures PropsOf(Some(Answers(None, verify, listings, logs))) == Dashboard.EmptyProps
  {
  }

  /**
   * Were the fetches authorised, the total would be the whole store, while the
   * counters see at most the five newest listings: they add up to
   * min(5, total), not to the total.
   */
  lemma CountersSeeOnlyRecent(authorization: Option<string>, verify: string -> Option<Auth.User>,
                              listings: seq<Listing>, logs: seq<AuditLog>)
    requires Api.HasToken(authorization) && verify(Api.HeaderToken(authorization).value).Some?
    ensures var p := PropsOf(Some(Answers(authorization, verify, listings, logs)));
            && p.stats.totalListings == |listings|
            && p.stats.pendingListings + p.stats.approvedListings + p.stats.rejectedListings == Min(5, |listings|)
  {
    SelectAll(listings, AdminListings.WantedFn(StatsQuery));
    SelectAll(listings, AdminListings.WantedFn(Dashboard.RecentQuery));
    var r1 := AdminListings.Respond(Api.Request("GET", authorization, StatsQuery), verify, listings);
    assert r1 == Api.PagedResponse(Api.Paginate(listings, Api.CreatedAt, 1, 1));
    var r2 := AdminListings.Respond(Api.Request("GET", authorization, Dashboard.RecentQuery), verify, listings);
    assert r2 == Api.PagedResponse(Api.Paginate(listings, Api.CreatedAt, 1, 5));
  }
}
