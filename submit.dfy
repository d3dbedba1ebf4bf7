/**
 * Public listing submission (POST, no authentication): a fail-fast chain of
 * checks on the untrusted JSON body, then one insert of a new listing whose
 * status is always pending.
 */
module Submit {
  import opened Types
  import opened Api
  import Store

  type Body = map<string, Json>

  /** The fields that must be truthy, in the order they are checked. */
  const RequiredFields: seq<string> :=
    ["title", "description", "price", "location", "carModel", "carYear", "mileage",
     "fuelType", "transmission", "userId", "userName", "userEmail"]

  const ValidFuelTypes: seq<string> := ["gasoline", "diesel", "electric", "hybrid"]
  const ValidTransmissions: seq<string> := ["automatic", "manual"]

  const PriceError: string := "Price must be a positive number"
  const CarYearError: string := "Invalid car year"
  const MileageError: string := "Mileage must be a positive number"
  const FuelTypeError: string := "Invalid fuel type"
  const TransmissionError: string := "Invalid transmission type"
  const SubmittedMessage: string := "Listing submitted successfully and is pending approval"

  /** What the 201 response carries. */
  datatype SubmitData = SubmitData(id: string, status: Status)

  /** `req.body[name]`; None stands for undefined. */
  function Field(body: Body, name: string): Option<Json>
  {
    if name in body then Some(body[name]) else None
  }

  /** JavaScript truthiness: undefined, null, false, 0 and "" are falsy; arrays and objects, even empty ones, are truthy. */
  predicate Truthy(v: Option<Json>)
    ensures !Truthy(v) <==>
              v == None || v == Some(JNull) || v == Some(JBool(false)) || v == Some(JNum(0.0)) || v == Some(JStr(""))
  {
    match v
    case None => false
    case Some(j) =>
      match j
      case JNull => false
      case JBool(b) => b
      case JNum(n) => n != 0.0
      case JStr(s) => s != ""
      case JArray(_) => true
      case JObject(_) => true
  }

  /** The first of fields whose value is falsy, scanning left to right. */
  function FirstMissing(body: Body, fields: seq<string>): (r: Option<string>)
    ensures r.Some? ==> r.value in fields && !Truthy(Field(body, r.value))
    ensures r.None? <==> forall k :: 0 <= k < |fields| ==> Truthy(Field(body, fields[k]))
    decreases |fields|
  {
    if |fields| == 0 then None
    else if !Truthy(Field(body, fields[0])) then Some(fields[0])
    else FirstMissing(body, fields[1..])
  }

  /** The missing field reported is the first falsy one: all fields before it are present. */
  lemma {:induction false} FirstMissingIsFirst(body: Body, fields: seq<string>)
    requires FirstMissing(body, fields).Some?
    ensures exists i :: 0 <= i < |fields| && fields[i] == FirstMissing(body, fields).value
                        && forall j :: 0 <= j < i ==> Truthy(Field(body, fields[j]))
    decreases |fields|
  {
    if Truthy(Field(body, fields[0])) {
      FirstMissingIsFirst(body, fields[1..]);
      var i :| 0 <= i < |fields[1..]| && fields[1..][i] == FirstMissing(body, fields[1..]).value
               && forall j :: 0 <= j < i ==> Truthy(Field(body, fields[1..][j]));
      assert fields[i + 1] == FirstMissing(body, fields).value;
      forall j | 0 <= j < i + 1 ensures Truthy(Field(body, fields[j])) {
        if j > 0 { assert fields[j] == fields[1..][j - 1]; }
      }
    } else {
      assert fields[0] == FirstMissing(body, fields).value;
    }
  }

  predicate IsNumber(v: Option<Json>) { v.Some? && v.value.JNum? }

  /** `typeof price !== 'number' || price <= 0` fails. */
  predicate PriceOk(v: Option<Json>) { IsNumber(v) && v.value.n > 0.0 }

  /** Years from 1900 through the year after the current one, both ends included. */
  predicate CarYearOk(v: Option<Json>, currentYear: int)
  {
    IsNumber(v) && 1900.0 <= v.value.n <= (currentYear + 1) as real
  }

  predicate MileageOk(v: Option<Json>) { IsNumber(v) && v.value.n >= 0.0 }

  /** `names.includes(v)`: strict equality, so only a string can pass. */
  predicate OneOf(v: Option<Json>, names: seq<string>)
  {
    v.Some? && v.value.JStr? && v.value.s in names
  }

  /**
   * The error of the first failing check, in the handler's order: required
   * fields, price, car year, mileage, fuel type, transmission.
   */
  function ValidationError(body: Body, currentYear: int): (r: Option<string>)
    ensures FirstMissing(body, RequiredFields).Some? ==>
              r == Some(FirstMissing(body, RequiredFields).value + " is required")
    ensures FirstMissing(body, RequiredFields).None? ==>
              r == ValueError(Field(body, "price"), Field(body, "carYear"), Field(body, "mileage"),
                              Field(body, "fuelType"), Field(body, "transmission"), currentYear)
    ensures r.None? <==>
              && (forall k :: 0 <= k < |RequiredFields| ==> Truthy(Field(body, RequiredFields[k])))
              && ValueError(Field(body, "price"), Field(body, "carYear"), Field(body, "mileage"),
                            Field(body, "fuelType"), Field(body, "transmission"), currentYear).None?
  {
    var missing := FirstMissing(body, RequiredFields);
    var values := ValueError(Field(body, "price"), Field(body, "carYear"), Field(body, "mileage"),
                             Field(body, "fuelType"), Field(body, "transmission"), currentYear);
    if missing.Some? then Some(missing.value + " is required") else values
  }

  /** The checks on the values, once every required field is present. */
  function ValueError(price: Option<Json>, carYear: Option<Json>, mileage: Option<Json>,
                      fuelType: Option<Json>, transmission: Option<Json>, currentYear: int): (r: Option<string>)
    ensures r.None? <==>
              && PriceOk(price) && CarYearOk(carYear, currentYear) && MileageOk(mileage)
              && OneOf(fuelType, ValidFuelTypes) && OneOf(transmission, ValidTransmissions)
    ensures r == Some(PriceError) <==> !PriceOk(price)
    ensures r == Some(CarYearError) <==> PriceOk(price) && !CarYearOk(carYear, currentYear)
    ensures r == Some(MileageError) <==>
              PriceOk(price) && CarYearOk(carYear, currentYear) && !MileageOk(mileage)
    ensures r == Some(FuelTypeError) <==>
              PriceOk(price) && CarYearOk(carYear, currentYear) && MileageOk(mileage)
              && !OneOf(fuelType, ValidFuelTypes)
    ensures r == Some(TransmissionError) <==>
              PriceOk(price) && CarYearOk(carYear, currentYear) && MileageOk(mileage)
              && OneOf(fuelType, ValidFuelTypes) && !OneOf(transmission, ValidTransmissions)
  {
    if !PriceOk(price) then Some(PriceError)
    else if !CarYearOk(carYear, currentYear) then Some(CarYearError)
    else if !MileageOk(mileage) then Some(MileageError)
    else if !OneOf(fuelType, ValidFuelTypes) then Some(FuelTypeError)
    else if !OneOf(transmission, ValidTransmissions) then Some(TransmissionError)
    else None
  }

  /** Every error names a required field or is one of the five value messages. */
  lemma ErrorMessages(body: Body, currentYear: int)
    requires ValidationError(body, currentYear).Some?
    ensures || (exists f :: f in RequiredFields && ValidationError(body, currentYear).value == f + " is required")
            || ValidationError(body, currentYear).value in {PriceError, CarYearError, MileageError, FuelTypeError, TransmissionError}
  {
    var m := FirstMissing(body, RequiredFields);
    if m.Some? {
      assert m.value in RequiredFields;
      assert ValidationError(body, currentYear).value == m.value + " is required";
    } else {
      ValueErrorMessages(Field(body, "price"), Field(body, "carYear"), Field(body, "mileage"),
                         Field(body, "fuelType"), Field(body, "transmission"), currentYear);
    }
  }

  lemma ValueErrorMessages(price: Option<Json>, carYear: Option<Json>, mileage: Option<Json>,
                           fuelType: Option<Json>, transmission: Option<Json>, currentYear: int)
    requires ValueError(price, carYear, mileage, fuelType, transmission, currentYear).Some?
    ensures ValueError(price, carYear, mileage, fuelType, transmission, currentYear).value
              in {PriceError, CarYearError, MileageError, FuelTypeError, TransmissionError}
  {
  }

  /** All checks at once, in no particular order. */
  ghost predicate Acceptable(body: Body, currentYear: int)
  {
    && (forall k :: 0 <= k < |RequiredFields| ==> Truthy(Field(body, RequiredFields[k])))
    && PriceOk(Field(body, "price"))
    && CarYearOk(Field(body, "carYear"), currentYear)
    && MileageOk(Field(body, "mileage"))
    && OneOf(Field(body, "fuelType"), ValidFuelTypes)
    && OneOf(Field(body, "transmission"), ValidTransmissions)
  }

  /** The chain reports no error exactly when every check passes. */
  lemma AcceptedIff(body: Body, currentYear: int)
    ensures ValidationError(body, currentYear).None? <==> Acceptable(body, currentYear)
  {
  }

  /**
   * JavaScript falsiness: a price, car year or mileage of 0 is reported as a
   * missing field, never by the numeric checks.
   */
  lemma ZeroIsMissing(body: Body, currentYear: int, name: string)
    requires name in {"price", "carYear", "mileage"}
    requires Field(body, name) == Some(JNum(0.0))
    ensures ValidationError(body, currentYear).Some?
    ensures exists f :: f in RequiredFields && ValidationError(body, currentYear).value == f + " is required"
  {
    assert RequiredFields[2] == "price" && RequiredFields[5] == "carYear" && RequiredFields[6] == "mileage";
    var m := FirstMissing(body, RequiredFields);
    assert m.Some?;
    assert ValidationError(body, currentYear).value == m.value + " is required";
  }

  /** So an accepted listing always has a mileage above 0, although the check reads `mileage < 0`. */
  lemma AcceptedMileagePositive(body: Body, currentYear: int)
    requires ValidationError(body, currentYear).None?
    ensures Field(body, "mileage").Some? && Field(body, "mileage").value.JNum?
    ensures Field(body, "mileage").value.n > 0.0
  {
    assert RequiredFields[6] == "mileage";
  }

  /** The handler's loop over the required fields, stopping at the first falsy one. */
  method CheckRequired(body: Body, fields: seq<string>) returns (missing: Option<string>)
    ensures missing == FirstMissing(body, fields)
  {
    for i := 0 to |fields|
      invariant FirstMissing(body, fields) == FirstMissing(body, fields[i..])
    {
      var field := fields[i];
      if !Truthy(Field(body, field)) {
        return Some(field);
      }
      assert fields[i..][1..] == fields[i + 1..];
    }
    return None;
  }

  /** The checks, run as the handler runs them: a loop over the required fields, then the guards. */
  method Validate(body: Body, currentYear: int) returns (error: Option<string>)
    ensures error == ValidationError(body, currentYear)
  {
    var missing := CheckRequired(body, RequiredFields);
    if missing.Some? {
      return Some(missing.value + " is required");
    }
    error := CheckValues(Field(body, "price"), Field(body, "carYear"), Field(body, "mileage"),
                         Field(body, "fuelType"), Field(body, "transmission"), currentYear);
  }

  /** The handler's guards on the values, each returning its own message. */
  method CheckValues(price: Option<Json>, carYear: Option<Json>, mileage: Option<Json>,
                     fuelType: Option<Json>, transmission: Option<Json>, currentYear: int)
    returns (error: Option<string>)
    ensures error == ValueError(price, carYear, mileage, fuelType, transmission, currentYear)
  {
    if !IsNumber(price) || price.value.n <= 0.0 {
      return Some(PriceError);
    }
    if !IsNumber(carYear) || carYear.value.n < 1900.0 || carYear.value.n > (currentYear + 1) as real {
      return Some(CarYearError);
    }
    if !IsNumber(mileage) || mileage.value.n < 0.0 {
      return Some(MileageError);
    }
    if !OneOf(fuelType, ValidFuelTypes) {
      return Some(FuelTypeError);
    }
    if !OneOf(transmission, ValidTransmissions) {
      return Some(TransmissionError);
    }
    return None;
  }

  /** The stored text of a field; a truthy non-string value has no text and is stored as "". */
  function Text(v: Option<Json>): string
  {
    if v.Some? && v.value.JStr? then v.value.s else ""
  }

  /** `Array.isArray(v) ? v : []`, element by element as text. */
  function TextList(v: Option<Json>): (r: seq<string>)
    ensures !(v.Some? && v.value.JArray?) ==> r == []
    ensures v.Some? && v.value.JArray? ==>
              && |r| == |v.value.items|
              && forall k :: 0 <= k < |r| ==>
                   && (v.value.items[k].JStr? ==> r[k] == v.value.items[k].s)
                   && (!v.value.items[k].JStr? ==> r[k] == "")
  {
    if v.Some? && v.value.JArray? then
      seq(|v.value.items|, k requires 0 <= k < |v.value.items| => Text(Some(v.value.items[k])))
    else []
  }

  /** A submitted string is stored as it is; any other value is stored as "". */
  predicate StoredAs(v: Option<Json>, t: string)
  {
    && (v.Some? && v.value.JStr? ==> t == v.value.s)
    && (!(v.Some? && v.value.JStr?) ==> t == "")
  }

  /** The fuel type a checked value names. */
  function FuelTypeOf(v: Option<Json>): (f: FuelType)
    requires OneOf(v, ValidFuelTypes)
    ensures v == Some(JStr(FuelTypeName(f)))
  {
    var x := v.value.s;
    if x == "gasoline" then Gasoline
    else if x == "diesel" then Diesel
    else if x == "electric" then Electric
    else Hybrid
  }

  /** The transmission a checked value names. */
  function TransmissionOf(v: Option<Json>): (t: Transmission)
    requires OneOf(v, ValidTransmissions)
    ensures v == Some(JStr(TransmissionName(t)))
  {
    if v.value.s == "automatic" then Automatic else Manual
  }

  function NumberOf(v: Option<Json>): real
  {
    if IsNumber(v) then v.value.n else 0.0
  }

  /**
   * The document inserted for an accepted body: the submitted fields, status
   * pending whatever the body says, both timestamps the submission time.
   */
  function NewListing(body: Body, currentYear: int, id: string, now: int): (l: Listing)
    requires ValidationError(body, currentYear).None?
    ensures l.id == id
    ensures l.status == Pending
    ensures l.createdAt == now && l.updatedAt == now
    ensures l.price > 0.0 && 1900.0 <= l.carYear <= (currentYear + 1) as real && l.mileage > 0.0
    ensures Field(body, "fuelType") == Some(JStr(FuelTypeName(l.fuelType)))
    ensures Field(body, "transmission") == Some(JStr(TransmissionName(l.transmission)))
    ensures l.title != "" ==> Field(body, "title") == Some(JStr(l.title))
    ensures IsNumber(Field(body, "price")) && l.price == Field(body, "price").value.n
    ensures IsNumber(Field(body, "carYear")) && l.carYear == Field(body, "carYear").value.n
    ensures IsNumber(Field(body, "mileage")) && l.mileage == Field(body, "mileage").value.n
    ensures StoredAs(Field(body, "title"), l.title) && StoredAs(Field(body, "description"), l.description)
    ensures StoredAs(Field(body, "location"), l.location) && StoredAs(Field(body, "carModel"), l.carModel)
    ensures StoredAs(Field(body, "userId"), l.userId) && StoredAs(Field(body, "userName"), l.userName)
    ensures StoredAs(Field(body, "userEmail"), l.userEmail)
    ensures l.features == TextList(Field(body, "features")) && l.images == TextList(Field(body, "images"))
  {
    AcceptedIff(body, currentYear);
    AcceptedMileagePositive(body, currentYear);
    Listing(
      id := id,
      title := Text(Field(body, "title")),
      description := Text(Field(body, "description")),
      price := NumberOf(Field(body, "price")),
      location := Text(Field(body, "location")),
      carModel := Text(Field(body, "carModel")),
      carYear := NumberOf(Field(body, "carYear")),
      mileage := NumberOf(Field(body, "mileage")),
      fuelType := FuelTypeOf(Field(body, "fuelType")),
      transmission := TransmissionOf(Field(body, "transmission")),
      features := TextList(Field(body, "features")),
      images := TextList(Field(body, "images")),
      status := Pending,
      userId := Text(Field(body, "userId")),
      userName := Text(Field(body, "userName")),
      userEmail := Text(Field(body, "userEmail")),
      createdAt := now,
      updatedAt := now)
  }

  /**
   * The response: 405 for any method but POST, 400 with the first failing
   * check, otherwise 201 carrying the new id and status pending.
   */
  function Respond(req: Request<Body>, id: string, currentYear: int): (r: Response<SubmitData>)
    ensures req.httpMethod != "POST" ==> r == Failure(405, MethodNotAllowed)
    ensures req.httpMethod == "POST" && ValidationError(req.input, currentYear).Some? ==>
              r == Failure(400, ValidationError(req.input, currentYear).value)
    ensures r.status == 201 <==> req.httpMethod == "POST" && ValidationError(req.input, currentYear).None?
    ensures r.status == 201 ==> r.body.success && r.body.data == Some(SubmitData(id, Pending))
  {
    if req.httpMethod != "POST" then Failure(405, MethodNotAllowed)
    else match ValidationError(req.input, currentYear)
      case Some(e) => Failure(400, e)
      case None =>
        Response(201, ApiResponse(true, Some(SubmitData(id, Pending)), Some(SubmittedMessage), None))
  }

  /** Every key of the body the handler reads. */
  const ReadFields: seq<string> :=
    ["title", "description", "price", "location", "carModel", "carYear", "mileage",
     "fuelType", "transmission", "userId", "userName", "userEmail", "features", "images"]

  /** Two bodies that agree on every key the handler reads. */
  predicate SameReads(b1: Body, b2: Body)
  {
    forall k :: 0 <= k < |ReadFields| ==> Field(b1, ReadFields[k]) == Field(b2, ReadFields[k])
  }

  /** Bodies that agree on the keys the handler reads get the same decision. */
  lemma SameReadsSameError(b1: Body, b2: Body, currentYear: int)
    requires SameReads(b1, b2)
    ensures ValidationError(b1, currentYear) == ValidationError(b2, currentYear)
  {
    assert RequiredFields == ReadFields[..12];
    FirstMissingFrame(b1, b2, RequiredFields);
    SameReadsChecked(b1, b2);
  }

  lemma SameReadsChecked(b1: Body, b2: Body)
    requires SameReads(b1, b2)
    ensures Field(b1, "price") == Field(b2, "price")
    ensures Field(b1, "carYear") == Field(b2, "carYear")
    ensures Field(b1, "mileage") == Field(b2, "mileage")
    ensures Field(b1, "fuelType") == Field(b2, "fuelType")
    ensures Field(b1, "transmission") == Field(b2, "transmission")
  {
    assert Field(b1, ReadFields[2]) == Field(b2, ReadFields[2]);
    assert Field(b1, ReadFields[5]) == Field(b2, ReadFields[5]);
    assert Field(b1, ReadFields[6]) == Field(b2, ReadFields[6]);
    assert Field(b1, ReadFields[7]) == Field(b2, ReadFields[7]);
    assert Field(b1, ReadFields[8]) == Field(b2, ReadFields[8]);
  }

  /** ... and, when accepted, the same stored record. */
  lemma SameReadsSameListing(b1: Body, b2: Body, currentYear: int, id: string, now: int)
    requires SameReads(b1, b2)
    requires ValidationError(b1, currentYear).None?
    ensures ValidationError(b2, currentYear).None?
    ensures NewListing(b1, currentYear, id, now) == NewListing(b2, currentYear, id, now)
  {
    SameReadsSameError(b1, b2, currentYear);
    assert Field(b1, ReadFields[0]) == Field(b2, ReadFields[0]);
    assert Field(b1, ReadFields[1]) == Field(b2, ReadFields[1]);
    assert Field(b1, ReadFields[2]) == Field(b2, ReadFields[2]);
    assert Field(b1, ReadFields[3]) == Field(b2, ReadFields[3]);
    assert Field(b1, ReadFields[4]) == Field(b2, ReadFields[4]);
    assert Field(b1, ReadFields[5]) == Field(b2, ReadFields[5]);
    assert Field(b1, ReadFields[6]) == Field(b2, ReadFields[6]);
    assert Field(b1, ReadFields[7]) == Field(b2, ReadFields[7]);
    assert Field(b1, ReadFields[8]) == Field(b2, ReadFields[8]);
    assert Field(b1, ReadFields[9]) == Field(b2, ReadFields[9]);
    assert Field(b1, ReadFields[10]) == Field(b2, ReadFields[10]);
    assert Field(b1, ReadFields[11]) == Field(b2, ReadFields[11]);
    assert Field(b1, ReadFields[12]) == Field(b2, ReadFields[12]);
    assert Field(b1, ReadFields[13]) == Field(b2, ReadFields[13]);
  }

  /**
   * A body's own "status" is never read: a submission cannot choose its
   * moderation status, and adding one changes neither decision nor record.
   */
  lemma StatusFieldIgnored(body: Body, v: Json, currentYear: int, id: string, now: int)
    ensures ValidationError(body["status" := v], currentYear) == ValidationError(body, currentYear)
    ensures ValidationError(body, currentYear).None? ==>
              NewListing(body["status" := v], currentYear, id, now) == NewListing(body, currentYear, id, now)
  {
    assert "status" !in ReadFields;
    assert SameReads(body, body["status" := v]);
    SameReadsSameError(body, body["status" := v], currentYear);
    if ValidationError(body, currentYear).None? {
      SameReadsSameListing(body, body["status" := v], currentYear, id, now);
    }
  }

  lemma {:induction false} FirstMissingFrame(b1: Body, b2: Body, fields: seq<string>)
    requires forall k :: 0 <= k < |fields| ==> Field(b1, fields[k]) == Field(b2, fields[k])
    ensures FirstMissing(b1, fields) == FirstMissing(b2, fields)
    decreases |fields|
  {
    if |fields| > 0 {
      FirstMissingFrame(b1, b2, fields[1..]);
    }
  }

  /**
   * The handler: the method check, the validation chain, then one insert.
   * Nothing is stored unless the answer is 201.
   */
  method Handler(db: Store.Database, req: Request<Body>, id: string, now: int, currentYear: int)
    returns (resp: Response<SubmitData>)
    modifies db`listings
    ensures resp == Respond(req, id, currentYear)
    ensures db.listings ==
              old(db.listings) + (if resp.status == 201 then [NewListing(req.input, currentYear, id, now)] else [])
  {
    if req.httpMethod != "POST" {
      return Failure(405, MethodNotAllowed);
    }
    var error := Validate(req.input, currentYear);
    if error.Some? {
      return Failure(400, error.value);
    }
    var listing := NewListing(req.input, currentYear, id, now);
    db.InsertListing(listing);
    resp := Response(201, ApiResponse(true, Some(SubmitData(id, Pending)), Some(SubmittedMessage), None));
  }
}
