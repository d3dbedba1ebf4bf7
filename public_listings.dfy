/**
 * The public listing query (GET, no authentication): only approved listings,
 * narrowed by an optional text search, location, inclusive price bounds,
 * fuel type and transmission; newest first, one page at a time.
 */
module PublicListings {
  import opened Types
  import opened Text
  import opened Seqs
  import opened Api
  import Store

  const DefaultPage: int := 1
  const DefaultLimit: int := 10

  /**
   * The query string. page and limit are parseInt results (None: absent or
   * unparsable); minPrice and maxPrice are None when the parameter is absent
   * or empty, otherwise the number it parses to, 0 included.
   */
  datatype Query = Query(
    page: Option<int>,
    limit: Option<int>,
    search: Option<string>,
    location: Option<string>,
    minPrice: Option<int>,
    maxPrice: Option<int>,
    fuelType: Option<string>,
    transmission: Option<string>)

  /** `{$gte, $lte}` on the price. */
  datatype PriceRange = PriceRange(gte: Option<int>, lte: Option<int>)

  /** The store filter the handler builds; the status is fixed when the filter is created. */
  datatype Filter = Filter(
    status: Status,
    search: Option<string>,
    location: Option<string>,
    price: Option<PriceRange>,
    fuelType: Option<string>,
    transmission: Option<string>)

  predicate InRange(p: PriceRange, price: real)
  {
    && (p.gte.Some? ==> price >= p.gte.value as real)
    && (p.lte.Some? ==> price <= p.lte.value as real)
  }

  /** The store's reading of a filter: every present criterion holds. */
  predicate Matches(f: Filter, l: Listing)
  {
    && l.status == f.status
    && (f.search.Some? ==> SearchHit(l, f.search.value))
    && (f.location.Some? ==> ContainsCI(l.location, f.location.value))
    && (f.price.Some? ==> InRange(f.price.value, l.price))
    && (f.fuelType.Some? ==> FuelTypeName(l.fuelType) == f.fuelType.value)
    && (f.transmission.Some? ==> TransmissionName(l.transmission) == f.transmission.value)
  }

  function MatchFn(f: Filter): Listing -> bool
  {
    l => Matches(f, l)
  }

  /** Which listings a query asks for, read off the query itself. */
  predicate Wanted(q: Query, l: Listing)
  {
    && l.status == Approved
    && (Given(q.search) ==> SearchHit(l, q.search.value))
    && (Given(q.location) ==> ContainsCI(l.location, q.location.value))
    && (q.minPrice.Some? ==> l.price >= q.minPrice.value as real)
    && (q.maxPrice.Some? ==> l.price <= q.maxPrice.value as real)
    && (Given(q.fuelType) ==> FuelTypeName(l.fuelType) == q.fuelType.value)
    && (Given(q.transmission) ==> TransmissionName(l.transmission) == q.transmission.value)
  }

  function WantedFn(q: Query): Listing -> bool
  {
    l => Wanted(q, l)
  }

  function Matching(q: Query, records: seq<Listing>): seq<Listing>
  {
    Select(records, WantedFn(q))
  }

  /**
   * The answer: 405 for another method, otherwise one page of the wanted
   * listings; every listing shown is approved, whatever the query says.
   */
  function Respond(req: Request<Query>, records: seq<Listing>): (r: Response<PaginatedResponse<Listing>>)
    ensures req.httpMethod != "GET" ==> r == Failure(405, MethodNotAllowed)
    ensures r.status == 200 ==> r.body.success && r.body.data.Some?
    ensures r.status == 200 ==>
              var p := r.body.data.value;
              && p.page == ParamOr(req.input.page, DefaultPage)
              && p.limit == ParamOr(req.input.limit, DefaultLimit)
              && p.total == |Matching(req.input, records)|
              && p.totalPages == Ceil(p.total as real / p.limit as real)
              && SortedDesc(p.data, CreatedAt)
              && (forall k :: 0 <= k < |p.data| ==>
                    && p.data[k] in records
                    && p.data[k].status == Approved
                    && Wanted(req.input, p.data[k]))
    ensures req.httpMethod == "GET" ==>
              (r.status == 500 <==>
                 Skip(ParamOr(req.input.page, DefaultPage), ParamOr(req.input.limit, DefaultLimit)) < 0)
    ensures req.httpMethod == "GET" && Skip(ParamOr(req.input.page, DefaultPage), ParamOr(req.input.limit, DefaultLimit)) >= 0 ==>
              && r.status == 200 && r.body.data.Some?
              && r.body.data.value.data ==
                 Window(SortDesc(Matching(req.input, records), CreatedAt),
                        Skip(ParamOr(req.input.page, DefaultPage), ParamOr(req.input.limit, DefaultLimit)),
                        Abs(ParamOr(req.input.limit, DefaultLimit)))
  {
    if req.httpMethod != "GET" then Failure(405, MethodNotAllowed)
    else
      var matching := Matching(req.input, records);
      var page := Paginate(matching, CreatedAt, ParamOr(req.input.page, DefaultPage), ParamOr(req.input.limit, DefaultLimit));
      if page.Some? then
        DrawnFromSelect(records, WantedFn(req.input), page.value.data);
        PagedResponse(page)
      else
      PagedResponse(page)
  }

  /** The filter the handler builds selects exactly the listings the query asks for. */
  lemma FilterAgrees(q: Query, f: Filter, records: seq<Listing>)
    requires f.status == Approved
    requires f.search == (if Given(q.search) then q.search else None)
    requires f.location == (if Given(q.location) then q.location else None)
    requires f.price == (if q.minPrice.Some? || q.maxPrice.Some? then Some(PriceRange(q.minPrice, q.maxPrice)) else None)
    requires f.fuelType == (if Given(q.fuelType) then q.fuelType else None)
    requires f.transmission == (if Given(q.transmission) then q.transmission else None)
    ensures Select(records, MatchFn(f)) == Matching(q, records)
  {
    SelectCongruent(records, MatchFn(f), WantedFn(q));
  }

  /**
   * The handler: the method check, the defaults, the filter built one
   * criterion at a time (the price range created empty and then given its
   * bounds), the count and the paged read. It only reads the store.
   */
  method Handler(db: Store.Database, req: Request<Query>) returns (resp: Response<PaginatedResponse<Listing>>)
    ensures resp == Respond(req, db.listings)
  {
    if req.httpMethod != "GET" {
      return Failure(405, MethodNotAllowed);
    }
    var q := req.input;
    var page := ParamOr(q.page, DefaultPage);
    var limit := ParamOr(q.limit, DefaultLimit);
    var filter := Filter(Approved, None, None, None, None, None);
    if Given(q.search) {
      filter := filter.(search := q.search);
    }
    if Given(q.location) {
      filter := filter.(location := q.location);
    }
    if q.minPrice.Some? || q.maxPrice.Some? {
      var range := PriceRange(None, None);
      if q.minPrice.Some? {
        range := range.(gte := q.minPrice);
      }
      if q.maxPrice.Some? {
        range := range.(lte := q.maxPrice);
      }
      filter := filter.(price := Some(range));
    }
    if Given(q.fuelType) {
      filter := filter.(fuelType := q.fuelType);
    }
    if Given(q.transmission) {
      filter := filter.(transmission := q.transmission);
    }
    var matching := Select(db.listings, MatchFn(filter));
    FilterAgrees(q, filter, db.listings);
    var result := Paginate(matching, CreatedAt, page, limit);
    resp := PagedResponse(result);
  }

  /** Pending and rejected listings never reach the public: a store without approved listings shows none. */
  lemma NothingApprovedNothingShown(req: Request<Query>, records: seq<Listing>)
    requires forall k :: 0 <= k < |records| ==> records[k].status != Approved
    requires Respond(req, records).status == 200
    ensures Respond(req, records).body.data.value.total == 0
    ensures Respond(req, records).body.data.value.data == []
  {
    SelectNone(records, WantedFn(req.input));
  }

  /** The price bounds are inclusive: a listing priced exactly at a bound is not excluded by it. */
  lemma BoundsInclusive(q: Query, l: Listing)
    requires q.minPrice.Some? && q.maxPrice.Some?
    requires l.price == q.minPrice.value as real || l.price == q.maxPrice.value as real
    requires q.minPrice.value <= q.maxPrice.value
    ensures InRange(PriceRange(q.minPrice, q.maxPrice), l.price)
  {
  }

  /** Bounds that cross (minimum above maximum) match nothing. */
  lemma CrossedBoundsEmpty(req: Request<Query>, records: seq<Listing>)
    requires req.input.minPrice.Some? && req.input.maxPrice.Some?
    requires req.input.minPrice.value > req.input.maxPrice.value
    requires Respond(req, records).status == 200
    ensures Respond(req, records).body.data.value.total == 0
  {
    SelectNone(records, WantedFn(req.input));
  }

  /** An unknown fuel type or transmission matches nothing. */
  lemma UnknownNameEmpty(req: Request<Query>, records: seq<Listing>)
    requires || (Given(req.input.fuelType) && ParseFuelType(req.input.fuelType.value).None?)
             || (Given(req.input.transmission) && ParseTransmission(req.input.transmission.value).None?)
    requires Respond(req, records).status == 200
    ensures Respond(req, records).body.data.value.total == 0
  {
    SelectNone(records, WantedFn(req.input));
  }
}
