/**
 * What the API handlers share: the request and response shapes, the
 * authentication guard the protected handlers open with, the defaulting of
 * numeric query parameters, the four-field text search, and the paged read
 * (sort descending, skip, limit, page count).
 */
module Api {
  import opened Types
  import opened Text
  import opened Seqs
  import Auth

  /** A request: method, Authorization header, and the already parsed query or body. */
  datatype Request<I> = Request(httpMethod: string, authorization: Option<string>, input: I)

  /** An HTTP status with its JSON envelope. */
  datatype Response<T> = Response(status: int, body: ApiResponse<T>)

  const MethodNotAllowed: string := "Method not allowed"
  const NoTokenProvided: string := "No token provided"
  const InvalidToken: string := "Invalid token"
  const InternalServerError: string := "Internal server error"

  function Failure<T>(status: int, error: string): (r: Response<T>)
    ensures r.status == status && !r.body.success && r.body.data.None? && r.body.error == Some(error)
  {
    Response(status, ApiResponse(false, None, None, Some(error)))
  }

  function Success<T>(status: int, data: T): (r: Response<T>)
    ensures r.status == status && r.body.success && r.body.data == Some(data) && r.body.error.None?
  {
    Response(status, ApiResponse(true, Some(data), None, None))
  }

  // ---------------------------------------------------------------- authentication

  /**
   * `req.headers.authorization?.replace('Bearer ', '')`: the first
   * "Bearer " anywhere in the header is cut out; a header without one passes unchanged.
   */
  function HeaderToken(authorization: Option<string>): (r: Option<string>)
    ensures r.Some? <==> authorization.Some?
    ensures r.Some? && StartsWith(authorization.value, Auth.BearerPrefix) ==>
              r.value == authorization.value[7..]
    ensures r.Some? && !Contains(authorization.value, Auth.BearerPrefix) ==> r.value == authorization.value
  {
    match authorization
    case None => None
    case Some(h) => Some(RemoveFirst(h, Auth.BearerPrefix))
  }

  /** Where getAuthToken finds a token, the handlers' extraction finds the same one. */
  lemma HeaderTokenAgrees(authorization: Option<string>)
    requires Auth.GetAuthToken(authorization).Some?
    ensures HeaderToken(authorization) == Auth.GetAuthToken(authorization)
  {
  }

  /** The two extractions differ: the handlers also accept a "Bearer " that does not open the header. */
  lemma {:induction false} HeaderTokenDiffers(c: char, t: string)
    ensures Auth.GetAuthToken(Some([c] + Auth.BearerPrefix + t)) == None
    ensures HeaderToken(Some([c] + Auth.BearerPrefix + t)) == Some([c] + t)
  {
    var h := [c] + Auth.BearerPrefix + t;
    assert h[0] == c;
    assert h[1..] == Auth.BearerPrefix + t;
    assert h[..7][1] == 'B';
    assert (Auth.BearerPrefix + t)[..7] == Auth.BearerPrefix;
    assert (Auth.BearerPrefix + t)[7..] == t;
  }

  /** Wherever the first "Bearer " sits, the handlers cut out exactly those seven characters. */
  lemma HeaderTokenCutsFirst(h: string, i: int)
    requires OccursAt(h, Auth.BearerPrefix, i)
    requires forall j :: 0 <= j < i ==> !OccursAt(h, Auth.BearerPrefix, j)
    ensures HeaderToken(Some(h)) == Some(h[..i] + h[i + 7..])
  {
    RemoveFirstAt(h, Auth.BearerPrefix, i);
  }

  /** The token a request carries, if it carries a non-empty one. */
  predicate HasToken(authorization: Option<string>)
  {
    HeaderToken(authorization).Some? && HeaderToken(authorization).value != ""
  }

  /**
   * The opening of every protected GET handler: 405 for another method,
   * 401 "No token provided" for a missing or empty token, 401 "Invalid token"
   * when the verifier rejects it; nothing when the request may proceed.
   */
  function Guard<I, T>(req: Request<I>, verify: string -> Option<Auth.User>): (r: Option<Response<T>>)
    ensures r.None? <==>
              req.httpMethod == "GET" && HasToken(req.authorization)
              && verify(HeaderToken(req.authorization).value).Some?
    ensures req.httpMethod != "GET" ==> r == Some(Failure(405, MethodNotAllowed))
    ensures req.httpMethod == "GET" && !HasToken(req.authorization) ==> r == Some(Failure(401, NoTokenProvided))
    ensures req.httpMethod == "GET" && HasToken(req.authorization) && verify(HeaderToken(req.authorization).value).None? ==>
              r == Some(Failure(401, InvalidToken))
    ensures req.httpMethod == "GET" && r.Some? ==> r.value.status == 401
  {
    if req.httpMethod != "GET" then Some(Failure(405, MethodNotAllowed))
    else
      var token := HeaderToken(req.authorization);
      if token.None? || token.value == "" then Some(Failure(401, NoTokenProvided))
      else if verify(token.value).None? then Some(Failure(401, InvalidToken))
      else None
  }

  // ---------------------------------------------------------------- query parameters

  /** `parseInt(x) || d`: an absent (or unparsable) value and 0 both give the default; negatives pass. */
  function ParamOr(p: Option<int>, d: int): (r: int)
    ensures p.Some? && p.value != 0 ==> r == p.value
    ensures p.None? || p.value == 0 ==> r == d
    ensures d != 0 ==> r != 0
  {
    if p.Some? && p.value != 0 then p.value else d
  }

  /** A string parameter that is present and non-empty (truthy). */
  predicate Given(p: Option<string>)
  {
    p.Some? && p.value != ""
  }

  /** A truthy string parameter other than the wildcard "all". */
  predicate Constrains(p: Option<string>)
  {
    Given(p) && p.value != "all"
  }

  // ---------------------------------------------------------------- text search

  /** The `$or` of four case-insensitive `$regex` matches. */
  predicate SearchHit(l: Listing, term: string)
  {
    ContainsCI(l.title, term) || ContainsCI(l.description, term)
    || ContainsCI(l.carModel, term) || ContainsCI(l.location, term)
  }

  /** A term hits a listing iff, up to ASCII case, it occurs in one of the four text fields. */
  lemma SearchHitIff(l: Listing, term: string)
    ensures SearchHit(l, term) <==>
              (exists i :: OccursAt(Fold(l.title), Fold(term), i))
              || (exists i :: OccursAt(Fold(l.description), Fold(term), i))
              || (exists i :: OccursAt(Fold(l.carModel), Fold(term), i))
              || (exists i :: OccursAt(Fold(l.location), Fold(term), i))
  {
    ContainsCIIffOccurs(l.title, term);
    ContainsCIIffOccurs(l.description, term);
    ContainsCIIffOccurs(l.carModel, term);
    ContainsCIIffOccurs(l.location, term);
  }

  /** The 'i' option: the term's own case makes no difference to which listings it hits. */
  lemma SearchIgnoresCase(l: Listing, term: string)
    ensures SearchHit(l, term) == SearchHit(l, Fold(term))
  {
    FoldIdempotent(term);
  }

  // ---------------------------------------------------------------- paged read

  function CreatedAt(l: Listing): int { l.createdAt }

  function Timestamp(a: AuditLog): int { a.timestamp }

  /** `(page - 1) * limit`, the number of records the page skips. */
  function Skip(page: int, limit: int): int
  {
    (page - 1) * limit
  }

  /**
   * The paged read over the records a filter matched: count them, sort them
   * descending by key, skip `(page - 1) * limit` and take `limit`, and report
   * `Math.ceil(total / limit)` pages. The store rejects a negative skip (the
   * handler then answers 500) and reads a negative limit as its magnitude.
   */
  function Paginate<T>(matching: seq<T>, key: T -> int, page: int, limit: int): (r: Option<PaginatedResponse<T>>)
    requires limit != 0
    ensures r.None? <==> Skip(page, limit) < 0
    ensures r.Some? ==>
              && r.value.total == |matching|
              && r.value.page == page
              && r.value.limit == limit
              && r.value.totalPages == Ceil(|matching| as real / limit as real)
    ensures r.Some? ==>
              && |r.value.data| <= Abs(limit)
              && SortedDesc(r.value.data, key)
              && multiset(r.value.data) <= multiset(matching)
              && forall k :: 0 <= k < |r.value.data| ==>
                   && Skip(page, limit) + k < |matching|
                   && r.value.data[k] == SortDesc(matching, key)[Skip(page, limit) + k]
  {
    var skip := Skip(page, limit);
    if skip < 0 then None
    else
      var sorted := SortDesc(matching, key);
      var data := Window(sorted, skip, Abs(limit));
      WindowOfSorted(sorted, skip, Abs(limit), key);
      assert multiset(data) <= multiset(matching);
      Some(PaginatedResponse(data, |matching|, page, limit, Ceil(|matching| as real / limit as real)))
  }

  /** A page past the last one is empty, and still reports the full total. */
  lemma PastLastPage<T>(matching: seq<T>, key: T -> int, page: int, limit: int)
    requires limit > 0 && page >= 1
    requires page > Ceil(|matching| as real / limit as real)
    ensures Paginate(matching, key, page, limit).Some?
    ensures Paginate(matching, key, page, limit).value.data == []
    ensures Paginate(matching, key, page, limit).value.total == |matching|
  {
    var c := Ceil(|matching| as real / limit as real);
    CeilDivide(|matching|, limit);
    var skip := Skip(page, limit);
    assert skip >= c * limit by {
      MulMonotone(c, page - 1, limit);
    }
    assert skip >= |matching|;
  }

  lemma MulMonotone(a: int, b: int, d: nat)
    requires a <= b
    ensures a * d <= b * d
  {
    assert b * d - a * d == (b - a) * d;
  }

  /**
   * A page holds every record of its stretch of the sorted order: sorted
   * position `(page - 1) * limit + k`, for k below limit, is row k of the page.
   */
  lemma PageIsFull<T>(matching: seq<T>, key: T -> int, page: int, limit: int, k: nat)
    requires limit > 0 && page >= 1 && k < limit
    requires Skip(page, limit) + k < |matching|
    ensures Paginate(matching, key, page, limit).Some?
    ensures k < |Paginate(matching, key, page, limit).value.data|
    ensures Paginate(matching, key, page, limit).value.data[k] == SortDesc(matching, key)[Skip(page, limit) + k]
  {
    var skip := Skip(page, limit);
    assert skip >= 0 by { MulMonotone(0, page - 1, limit); }
    var r := Paginate(matching, key, page, limit);
    assert r.value.data == Window(SortDesc(matching, key), skip, limit);
  }

  /** The answer to a paged read: 200 with the page, or 500 when the store refused the read. */
  function PagedResponse<T>(p: Option<PaginatedResponse<T>>): (r: Response<PaginatedResponse<T>>)
    ensures p.Some? ==> r == Success(200, p.value)
    ensures p.None? ==> r == Failure(500, InternalServerError)
  {
    if p.Some? then Success(200, p.value) else Failure(500, InternalServerError)
  }
}
