/**
 * The record types shared by the API handlers and the pages: the listing and
 * audit-log documents with their enumerated fields, the paginated page of
 * results and the response envelope every handler replies with.
 */
module Types {

  datatype Option<+T> = None | Some(value: T)

  /** A JSON value as it arrives in an untrusted request body (numbers are finite). */
  datatype Json =
    | JNull
    | JBool(b: bool)
    | JNum(n: real)
    | JStr(s: string)
    | JArray(items: seq<Json>)
    | JObject(fields: map<string, Json>)

  /** The moderation status of a listing. */
  datatype Status = Pending | Approved | Rejected

  datatype FuelType = Gasoline | Diesel | Electric | Hybrid

  datatype Transmission = Automatic | Manual

  /** What an administrator did to a listing. */
  datatype AuditAction = Approve | Reject | Edit

  /** The wire names of the enumerated values. */
  function StatusName(s: Status): string
  {
    match s
    case Pending => "pending"
    case Approved => "approved"
    case Rejected => "rejected"
  }

  function FuelTypeName(f: FuelType): string
  {
    match f
    case Gasoline => "gasoline"
    case Diesel => "diesel"
    case Electric => "electric"
    case Hybrid => "hybrid"
  }

  function TransmissionName(t: Transmission): string
  {
    match t
    case Automatic => "automatic"
    case Manual => "manual"
  }

  function ActionName(a: AuditAction): string
  {
    match a
    case Approve => "approve"
    case Reject => "reject"
    case Edit => "edit"
  }

  /** A status is exactly one of the three names; any other string names none. */
  function ParseStatus(x: string): (r: Option<Status>)
    ensures r.Some? ==> StatusName(r.value) == x
    ensures r.None? ==> forall s: Status :: StatusName(s) != x
  {
    if x == "pending" then Some(Pending)
    else if x == "approved" then Some(Approved)
    else if x == "rejected" then Some(Rejected)
    else None
  }

  /** A fuel type is exactly one of the four names. */
  function ParseFuelType(x: string): (r: Option<FuelType>)
    ensures r.Some? ==> FuelTypeName(r.value) == x
    ensures r.None? ==> forall f: FuelType :: FuelTypeName(f) != x
  {
    if x == "gasoline" then Some(Gasoline)
    else if x == "diesel" then Some(Diesel)
    else if x == "electric" then Some(Electric)
    else if x == "hybrid" then Some(Hybrid)
    else None
  }

  /** A transmission is exactly one of the two names. */
  function ParseTransmission(x: string): (r: Option<Transmission>)
    ensures r.Some? ==> TransmissionName(r.value) == x
    ensures r.None? ==> forall t: Transmission :: TransmissionName(t) != x
  {
    if x == "automatic" then Some(Automatic)
    else if x == "manual" then Some(Manual)
    else None
  }

  /** An audit action is exactly one of the three names. */
  function ParseAction(x: string): (r: Option<AuditAction>)
    ensures r.Some? ==> ActionName(r.value) == x
    ensures r.None? ==> forall a: AuditAction :: ActionName(a) != x
  {
    if x == "approve" then Some(Approve)
    else if x == "reject" then Some(Reject)
    else if x == "edit" then Some(Edit)
    else None
  }

  /** Names and parsing are inverse: every enumerated value survives the round trip. */
  lemma NamesRoundTrip(s: Status, f: FuelType, t: Transmission, a: AuditAction)
    ensures ParseStatus(StatusName(s)) == Some(s)
    ensures ParseFuelType(FuelTypeName(f)) == Some(f)
    ensures ParseTransmission(TransmissionName(t)) == Some(t)
    ensures ParseAction(ActionName(a)) == Some(a)
  {
  }

  /** A stored listing document; timestamps are milliseconds since the epoch. */
  datatype Listing = Listing(
    id: string,
    title: string,
    description: string,
    price: real,
    location: string,
    carModel: string,
    carYear: real,
    mileage: real,
    fuelType: FuelType,
    transmission: Transmission,
    features: seq<string>,
    images: seq<string>,
    status: Status,
    userId: string,
    userName: string,
    userEmail: string,
    createdAt: int,
    updatedAt: int)

  /**
   * A stored audit-log document. previousStatus and newStatus are set by
   * approve and reject, changes by edit; each may be absent.
   */
  datatype AuditLog = AuditLog(
    id: string,
    action: AuditAction,
    listingId: string,
    listingTitle: string,
    adminId: string,
    adminName: string,
    adminEmail: string,
    previousStatus: Option<string>,
    newStatus: Option<string>,
    changes: Option<map<string, Json>>,
    timestamp: int)

  /** One page of query results. */
  datatype PaginatedResponse<T> = PaginatedResponse(
    data: seq<T>,
    total: int,
    page: int,
    limit: int,
    totalPages: int)

  /** The envelope of every response: success is always there, the rest may be absent. */
  datatype ApiResponse<T> = ApiResponse(
    success: bool,
    data: Option<T>,
    message: Option<string>,
    error: Option<string>)
}
