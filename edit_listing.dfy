/**
 * The edit form: its state starts from the listing (features joined with
 * ", "), each input change replaces one field, and on submit the features
 * text is split on commas, each piece trimmed and the empty ones dropped.
 */
module EditListing {
  import Types
  import opened Text
  import opened Seqs

  /** A field's value: the listing's number until an input replaces it with the input's text. */
  datatype FormValue = Num(n: real) | Str(s: string)

  /** The form state. */
  datatype FormData = FormData(
    title: string,
    description: string,
    price: FormValue,
    location: string,
    carModel: string,
    carYear: FormValue,
    mileage: FormValue,
    fuelType: string,
    transmission: string,
    features: string)

  /** The names of the form's inputs. */
  datatype FormField =
    | TitleField | DescriptionField | PriceField | LocationField | CarModelField
    | CarYearField | MileageField | FuelTypeField | TransmissionField | FeaturesField

  /** `formData[name]`. */
  function Get(form: FormData, field: FormField): FormValue
  {
    match field
    case TitleField => Str(form.title)
    case DescriptionField => Str(form.description)
    case PriceField => form.price
    case LocationField => Str(form.location)
    case CarModelField => Str(form.carModel)
    case CarYearField => form.carYear
    case MileageField => form.mileage
    case FuelTypeField => Str(form.fuelType)
    case TransmissionField => Str(form.transmission)
    case FeaturesField => Str(form.features)
  }

  /** The features as the form shows them: `features.join(', ')`. */
  function ShowFeatures(features: seq<string>): (r: string)
    ensures |features| == 0 ==> r == ""
    ensures |features| == 1 ==> r == features[0]
    ensures |features| > 0 ==> StartsWith(r, features[0])
  {
    Join(features, ", ")
  }

  /** The initial state: every field read from the listing. */
  function InitialForm(l: Types.Listing): (form: FormData)
    ensures Get(form, TitleField) == Str(l.title) && Get(form, DescriptionField) == Str(l.description)
    ensures Get(form, PriceField) == Num(l.price) && Get(form, LocationField) == Str(l.location)
    ensures Get(form, CarModelField) == Str(l.carModel) && Get(form, CarYearField) == Num(l.carYear)
    ensures Get(form, MileageField) == Num(l.mileage)
    ensures Get(form, FuelTypeField) == Str(Types.FuelTypeName(l.fuelType))
    ensures Get(form, TransmissionField) == Str(Types.TransmissionName(l.transmission))
    ensures Get(form, FeaturesField) == Str(ShowFeatures(l.features))
  {
    FormData(l.title, l.description, Num(l.price), l.location, l.carModel, Num(l.carYear), Num(l.mileage),
             Types.FuelTypeName(l.fuelType), Types.TransmissionName(l.transmission), ShowFeatures(l.features))
  }

  /** handleChange: the named field takes the input's text, every other field keeps its value. */
  function HandleChange(form: FormData, name: FormField, value: string): (r: FormData)
    ensures Get(r, name) == Str(value)
    ensures forall f :: f != name ==> Get(r, f) == Get(form, f)
  {
    match name
    case TitleField => form.(title := value)
    case DescriptionField => form.(description := value)
    case PriceField => form.(price := Str(value))
    case LocationField => form.(location := value)
    case CarModelField => form.(carModel := value)
    case CarYearField => form.(carYear := Str(value))
    case MileageField => form.(mileage := Str(value))
    case FuelTypeField => form.(fuelType := value)
    case TransmissionField => form.(transmission := value)
    case FeaturesField => form.(features := value)
  }

  /** Changing a field to the value it already shows leaves the form as it was. */
  lemma HandleChangeSameValue(form: FormData, name: FormField, value: string)
    requires Get(form, name) == Str(value)
    ensures HandleChange(form, name, value) == form
  {
  }

  // ---------------------------------------------------------------- features

  function TrimAll(parts: seq<string>): (r: seq<string>)
    ensures |r| == |parts|
    ensures forall k :: 0 <= k < |parts| ==> r[k] == Trim(parts[k])
  {
    seq(|parts|, k requires 0 <= k < |parts| => Trim(parts[k]))
  }

  function NonEmpty(s: string): bool
  {
    s != ""
  }

  /** `features.split(',').map(f => f.trim()).filter(f => f)`. */
  function ParseFeatures(s: string): (r: seq<string>)
    ensures |r| <= |Split(s, ',')|
  {
    Select(TrimAll(Split(s, ',')), NonEmpty)
  }

  /** Text without a comma is one feature, its trim, unless it is all white space. */
  lemma ParseNoComma(s: string)
    requires ',' !in s
    ensures ParseFeatures(s) == (if Trim(s) == "" then [] else [Trim(s)])
  {
    SplitFree(s, ',');
    assert TrimAll([s]) == [Trim(s)];
    assert [Trim(s)][1..] == [];
  }

  /** Every parsed feature is non-empty and is its own trim. */
  lemma ParseFeaturesClean(s: string)
    ensures forall k :: 0 <= k < |ParseFeatures(s)| ==>
              ParseFeatures(s)[k] != "" && Trim(ParseFeatures(s)[k]) == ParseFeatures(s)[k]
  {
    var trimmed := TrimAll(Split(s, ','));
    var r := ParseFeatures(s);
    forall k | 0 <= k < |r| ensures r[k] != "" && Trim(r[k]) == r[k] {
      assert r[k] in trimmed && NonEmpty(r[k]);
      var j :| 0 <= j < |trimmed| && trimmed[j] == r[k];
      TrimSpec(Split(s, ',')[j]);
      TrimSpec(r[k]);
    }
  }

  lemma TrimAllAppend(a: seq<string>, b: seq<string>)
    ensures TrimAll(a + b) == TrimAll(a) + TrimAll(b)
  {
  }

  /** Parsing keeps the order of the comma-separated pieces: the features before a comma come first. */
  lemma {:induction false} ParseConcat(a: string, b: string)
    ensures ParseFeatures(a + [','] + b) == ParseFeatures(a) + ParseFeatures(b)
  {
    SplitAround(a, ',', b);
    TrimAllAppend(Split(a, ','), Split(b, ','));
    SelectAppend(TrimAll(Split(a, ',')), TrimAll(Split(b, ',')), NonEmpty);
  }

  /** The space the join puts after each comma is trimmed away. */
  lemma {:induction false} ParseLeadingSpace(s: string)
    ensures ParseFeatures([' '] + s) == ParseFeatures(s)
  {
    var pieces := Split(s, ',');
    SplitSpace(s);
    TrimCons(' ', pieces[0]);
    TrimAllCons([' '] + pieces[0], pieces[1..]);
    TrimAllCons(pieces[0], pieces[1..]);
    assert [pieces[0]] + pieces[1..] == pieces;
  }

  lemma SplitSpace(s: string)
    ensures Split([' '] + s, ',') == [[' '] + Split(s, ',')[0]] + Split(s, ',')[1..]
  {
    assert ([' '] + s)[1..] == s;
  }

  lemma {:induction false} TrimAllCons(x: string, rest: seq<string>)
    ensures TrimAll([x] + rest) == [Trim(x)] + TrimAll(rest)
  {
  }

  /** An empty features text parses to no features. */
  lemma ParseEmpty()
    ensures ParseFeatures("") == []
  {
    assert Split("", ',') == [""];
    assert TrimAll([""]) == [""];
    assert [""][1..] == [];
  }

  /** A single clean tag parses to itself. */
  lemma {:induction false} ParseOne(tag: string)
    requires tag != "" && IsTrimmed(tag) && ',' !in tag
    ensures ParseFeatures(tag) == [tag]
  {
    SplitFree(tag, ',');
    TrimSpec(tag);
    assert TrimAll([tag]) == [tag];
    assert [tag][1..] == [];
  }

  /** A tag list survives being shown and parsed back when every tag is non-empty, trimmed and comma-free. */
  lemma FeaturesRoundTrip(tags: seq<string>)
    requires forall k :: 0 <= k < |tags| ==> tags[k] != "" && IsTrimmed(tags[k]) && ',' !in tags[k]
    ensures ParseFeatures(ShowFeatures(tags)) == tags
  {
    if |tags| == 0 {
      ParseEmpty();
    } else {
      RoundTripNonEmpty(tags);
    }
  }

  lemma {:induction false} RoundTripNonEmpty(tags: seq<string>)
    requires |tags| >= 1
    requires forall k :: 0 <= k < |tags| ==> tags[k] != "" && IsTrimmed(tags[k]) && ',' !in tags[k]
    ensures ParseFeatures(ShowFeatures(tags)) == tags
    decreases |tags|
  {
    ParseOne(tags[0]);
    if |tags| > 1 {
      ShowCons(tags);
      RoundTripNonEmpty(tags[1..]);
      ParseAfterTag(tags[0], ShowFeatures(tags[1..]), tags[1..]);
      assert [tags[0]] + tags[1..] == tags;
    }
  }

  /** One clean tag, then ", " and a text that parses to rest: the tag comes first, then rest. */
  lemma {:induction false} ParseAfterTag(tag: string, text: string, rest: seq<string>)
    requires ParseFeatures(tag) == [tag] && ParseFeatures(text) == rest
    ensures ParseFeatures(tag + [','] + ([' '] + text)) == [tag] + rest
  {
    ParseConcat(tag, [' '] + text);
    ParseLeadingSpace(text);
  }

  lemma ShowCons(tags: seq<string>)
    requires |tags| >= 2
    ensures ShowFeatures(tags) == tags[0] + [','] + ([' '] + ShowFeatures(tags[1..]))
  {
    assert ", " == [','] + [' '];
  }

  /** The round trip fails for a tag containing a comma: it comes back as the two tags around the comma. */
  lemma CommaSplitsTag(a: string, b: string)
    requires a != "" && IsTrimmed(a) && ',' !in a
    requires b != "" && IsTrimmed(b) && ',' !in b
    ensures ParseFeatures(ShowFeatures([a + [','] + b])) == [a, b]
  {
    assert ShowFeatures([a + [','] + b]) == a + [','] + b;
    ParseConcat(a, b);
    ParseOne(a);
    ParseOne(b);
  }

  // ---------------------------------------------------------------- submit

  /** The update body handleSubmit sends: every field of the form, except that `features` replaces the form's features text. */
  datatype UpdateData = UpdateData(form: FormData, features: seq<string>)

  function UpdateBody(form: FormData): (u: UpdateData)
    ensures u.form == form
    ensures u.features == ParseFeatures(form.features)
    ensures forall k :: 0 <= k < |u.features| ==> u.features[k] != "" && IsTrimmed(u.features[k])
  {
    ParseFeaturesClean(form.features);
    forall k | 0 <= k < |ParseFeatures(form.features)| ensures IsTrimmed(ParseFeatures(form.features)[k]) {
      TrimSpec(ParseFeatures(form.features)[k]);
    }
    UpdateData(form, ParseFeatures(form.features))
  }

  /** Saving an untouched form sends back the listing's own features, when they are clean tags. */
  lemma UntouchedFormKeepsFeatures(l: Types.Listing)
    requires forall k :: 0 <= k < |l.features| ==> l.features[k] != "" && IsTrimmed(l.features[k]) && ',' !in l.features[k]
    ensures UpdateBody(InitialForm(l)).features == l.features
  {
    FeaturesRoundTrip(l.features);
  }
}
