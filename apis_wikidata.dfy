/** The older Wikidata helpers of src/flickypedia/apis/wikidata.py: a date
 *  encoder that takes the precision by name, a renderer that states the
 *  precision and calendar, property names, and the interpretation of the
 *  SPARQL answer when a Flickr user is looked up. The HTTP requests
 *  themselves are not modelled. */
module ApisWikidata {
  import opened Wrappers
  import opened Text
  import opened Dates
  import opened Sdc
  import opened WikidataValues
  import WikidataProperties

  // ---------------------------------------------------------------------
  // to_wikidata_date

  /** `to_wikidata_date`: a precision other than "day", "month" or "year"
   *  raises `ValueError`; otherwise the time value at that precision. */
  function ToWikidataDate(d: Timestamp, precision: string): (r: Result<DataValue>)
    ensures r.Err? <==> precision !in {"day", "month", "year"}
    ensures r.Err? ==> r.error == ValueError
    ensures r.Ok? ==> r.value.TimeDataValue? && r.value.time.calendarmodel == GregorianCalendarUri
    ensures r.Ok? ==> r.value.time.timezone == 0 && r.value.time.before == 0 && r.value.time.after == 0
    ensures precision == "day" ==> r.Ok? && r.value.time.precision == 11
    ensures precision == "month" ==> r.Ok? && r.value.time.precision == 10
    ensures precision == "year" ==> r.Ok? && r.value.time.precision == 9
  {
    match PrecisionNamed(precision)
    case None => Err(ValueError)
    case Some(p) => Ok(ToWikidataDateValue(d, p))
  }

  /** The time string zeroes the clock, and the day at month precision or
   *  month and day at year precision; it reads back as the date at its
   *  precision (four-digit years). */
  lemma ToWikidataDateMeaning(d: Timestamp, p: DatePrecision)
    requires d.year >= 1000
    ensures ToWikidataDate(d, PrecisionName(p)) == Ok(ToWikidataDateValue(d, p))
    ensures ParseTime(ToWikidataDate(d, PrecisionName(p)).value.time.time, p) == Ok(Truncate(d, p))
  {
    PrecisionNameRoundTrip(p);
    DateValueRoundTrip(d, p);
  }

  // ---------------------------------------------------------------------
  // render_wikidata_date

  /** The suffix naming a precision the renderer accepts. */
  function PrecisionSuffix(precision: int): string
    requires precision in {9, 10, 11}
  {
    var name := if precision == 11 then "day" else if precision == 10 then "month" else "year";
    " (precision: " + name + ", calendar: Gregorian)"
  }

  /** `render_wikidata_date`: the date as the newer renderer writes it,
   *  followed by its precision and calendar. */
  function RenderWikidataDateWithPrecision(v: TimeValue): (r: Result<string>)
    ensures r.Err? <==> WikidataValues.RenderWikidataDate(v).Err?
    ensures r.Ok? ==> v.precision in {9, 10, 11}
    ensures r.Ok? ==> r.value == WikidataValues.RenderWikidataDate(v).value + PrecisionSuffix(v.precision)
  {
    var text :- WikidataValues.RenderWikidataDate(v);
    Ok(text + PrecisionSuffix(v.precision))
  }

  /** A date written at a precision renders as its text at that
   *  precision, followed by the name of the precision. */
  lemma RenderWrittenDate(d: Timestamp, p: DatePrecision)
    requires d.year >= 1000
    ensures RenderWikidataDateWithPrecision(ToWikidataDateValue(d, p).time) ==
      Ok(DateText(d, p) + (" (precision: " + PrecisionName(p) + ", calendar: Gregorian)"))
  {
    RenderDateValue(d, p);
    SuffixOfPrecision(p);
  }

  lemma SuffixOfPrecision(p: DatePrecision)
    ensures PrecisionSuffix(PrecisionValue(p)) == " (precision: " + PrecisionName(p) + ", calendar: Gregorian)"
  {
  }

  // ---------------------------------------------------------------------
  // get_property_name

  /** The docstring and module name `dir()` also lists, after the
   *  property names. */
  const DocAttribute := "\n    Named constants for Wikidata property names.\n    "
  const ModuleAttribute := "flickypedia.apis.wikidata"

  /** The loop over `dir(WikidataProperties)` of this module's own
   *  thirteen-property class: the first attribute, in sorted order, whose
   *  value is `code`. */
  function FindProperty(code: string): Option<string> {
    if code == WikidataProperties.AuthorName then Some("AuthorName")
    else if code == WikidataProperties.CopyrightLicense then Some("CopyrightLicense")
    else if code == WikidataProperties.CopyrightStatus then Some("CopyrightStatus")
    else if code == WikidataProperties.Creator then Some("Creator")
    else if code == WikidataProperties.DescribedAtUrl then Some("DescribedAtUrl")
    else if code == WikidataProperties.FlickrUserId then Some("FlickrUserId")
    else if code == WikidataProperties.Inception then Some("Inception")
    else if code == WikidataProperties.Operator then Some("Operator")
    else if code == WikidataProperties.PublicationDate then Some("PublicationDate")
    else if code == WikidataProperties.PublishedIn then Some("PublishedIn")
    else if code == WikidataProperties.SourceOfFile then Some("SourceOfFile")
    else if code == WikidataProperties.SourcingCircumstances then Some("SourcingCircumstances")
    else if code == WikidataProperties.Url then Some("Url")
    else if code == DocAttribute then Some("__doc__")
    else if code == ModuleAttribute then Some("__module__")
    else None
  }

  /** `get_property_name`: the words of the attribute name, lower-cased
   *  and joined by spaces; a code no attribute holds raises `KeyError`. */
  function GetPropertyName(code: string): (r: Result<string>)
    ensures r.Err? <==> FindProperty(code).None?
    ensures r.Err? ==> r.error == KeyError
    ensures r.Ok? ==> r.value == WikidataProperties.AttributeLabel(FindProperty(code).value)
  {
    match FindProperty(code)
    case Some(name) => Ok(WikidataProperties.AttributeLabel(name))
    case None => Err(KeyError)
  }

  /** The examples of the docstring. */
  lemma OperatorPropertyName()
    ensures GetPropertyName("P137") == Ok("operator")
  {
    assert FindProperty("P137") == Some("Operator");
    WikidataProperties.OperatorWords();
  }

  lemma AuthorNamePropertyName()
    ensures GetPropertyName("P2093") == Ok("author name")
  {
    assert FindProperty("P2093") == Some("AuthorName");
    WikidataProperties.AuthorNameWords();
  }

  /** Properties this older class does not list have no name here. */
  lemma RetrievedHasNoName()
    ensures GetPropertyName(WikidataProperties.Retrieved) == Err(KeyError)
  {
  }

  // ---------------------------------------------------------------------
  // The answer to the user lookup in lookup_flickr_user_in_wikidata

  /** The `item` of one SPARQL result; each key may be missing. */
  datatype Item = Item(itemType: Option<string>, value: Option<string>)

  /** One result row; its `item` key may be missing. */
  datatype Row = Row(item: Option<Item>)

  const EntityUriPrefix := "http://www.wikidata.org/entity/"

  /** `^http://www\.wikidata\.org/entity/(Q\d+)$`, with `$` also matching
   *  before a final newline. */
  predicate IsEntityUri(uri: string) {
    StartsWith(uri, EntityUriPrefix) && IsEntityId(uri[|EntityUriPrefix|..])
  }

  /** The `wikidata_id` group of a matching URI: no final newline. */
  function EntityOfUri(uri: string): (id: string)
    requires IsEntityUri(uri)
    ensures IsEntityId(id) && id[|id| - 1] != '\n'
  {
    "Q" + EntityDigits(uri[|EntityUriPrefix|..])
  }

  /** The result handling of `lookup_flickr_user_in_wikidata`: an
   *  ambiguous answer, an empty one or a missing key gives `None`; a
   *  single Wikidata entity URI gives its Q-id; any other single item
   *  raises `RuntimeError`. */
  function InterpretLookup(results: seq<Row>): (r: Result<Option<string>>)
    ensures |results| != 1 ==> r == Ok(None)
    ensures r == Err(RuntimeError) || r.Ok?
    ensures r.Ok? && r.value.Some? ==>
      |results| == 1 && results[0].item.Some? && results[0].item.value.itemType == Some("uri")
      && results[0].item.value.value.Some? && IsEntityUri(results[0].item.value.value.value)
      && r.value.value == EntityOfUri(results[0].item.value.value.value)
  {
    if |results| > 1 then Ok(None)
    else if results == [] then Ok(None)
    else match results[0].item
      case None => Ok(None)
      case Some(item) =>
        match item.value
        case None => Ok(None)
        case Some(uri) =>
          match item.itemType
          case None => Ok(None)
          case Some(t) =>
            if t == "uri" && IsEntityUri(uri) then Ok(Some(EntityOfUri(uri)))
            else Err(RuntimeError)
  }

  /** A single entity URI is answered with the entity it names. */
  lemma LookupFindsEntity(digits: string)
    requires digits != [] && AllDigits(digits)
    ensures InterpretLookup([Row(Some(Item(Some("uri"), Some(EntityUriPrefix + "Q" + digits))))]) ==
      Ok(Some("Q" + digits))
  {
    var uri := EntityUriPrefix + "Q" + digits;
    assert uri[|EntityUriPrefix|..] == "Q" + digits;
    assert ("Q" + digits)[1..] == digits;
  }
}
