/** The Wikitext of a Flickr photo uploaded to Commons
 *  (src/flickypedia/apis/wikitext.py): an Information template with the
 *  source, date and author, then the license template. */
module Wikitext {
  import opened Wrappers
  import opened Text
  import opened Dates

  /** Flickr's taken-date granularities (`TakenDateGranularity`). */
  const Second := 0
  const Month := 4
  const Year := 6
  const Circa := 8

  datatype DateTaken = DateTaken(value: Timestamp, granularity: int, unknown: bool)

  datatype FlickrUser = FlickrUser(id: string, username: string, realname: Option<string>)

  /** The `strftime` formats of the date table, by name. */
  datatype DateFormat = FullFormat | MonthFormat | YearFormat | CircaFormat

  /** The format table, looked up by granularity: a KeyError for a
   *  granularity it does not list. */
  function DateFormatFor(granularity: int): (r: Result<DateFormat>)
    ensures r.Err? <==> granularity != Second && granularity != Month && granularity != Year && granularity != Circa
    ensures r.Err? ==> r.error == KeyError
  {
    if granularity == Second then Ok(FullFormat)
    else if granularity == Month then Ok(MonthFormat)
    else if granularity == Year then Ok(YearFormat)
    else if granularity == Circa then Ok(CircaFormat)
    else Err(KeyError)
  }

  /** `value.strftime(format)`. */
  function Strftime(value: Timestamp, format: DateFormat): string {
    match format
    case FullFormat => FormatYear(value) + "-" + FormatMonth(value) + "-" + FormatDay(value) + " " + FormatClock(value)
    case MonthFormat => FormatYear(value) + "-" + FormatMonth(value)
    case YearFormat => FormatYear(value)
    case CircaFormat => "{{circa|" + FormatYear(value) + "}}"
  }

  const UnknownDate := "{{Other date|?}}"

  /** The Date field: the format table is consulted before the unknown
   *  flag, so an unlisted granularity fails even for an unknown date. */
  function DateString(dateTaken: DateTaken): (r: Result<string>)
    ensures r.Err? <==> DateFormatFor(dateTaken.granularity).Err?
    ensures r.Ok? && dateTaken.unknown ==> r.value == UnknownDate
  {
    var format :- DateFormatFor(dateTaken.granularity);
    if dateTaken.unknown then Ok(UnknownDate) else Ok(Strftime(dateTaken.value, format))
  }

  /** `realname or username`: an empty real name counts as missing. */
  function AuthorName(user: FlickrUser): (name: string)
    ensures user.realname.Some? && user.realname.value != "" ==> name == user.realname.value
    ensures user.realname.None? || user.realname.value == "" ==> name == user.username
  {
    if user.realname.Some? && user.realname.value != "" then user.realname.value else user.username
  }

  const InformationHeader := "=={{int:filedesc}}==\n{{Information\n|Source=["
  const LicenseHeader := "=={{int:license-header}}==\n{{"

  /** The lines from the Author field to the end of the Information template. */
  function AuthorLines(user: FlickrUser): string {
    "|Author=[https://www.flickr.com/people/" + user.id + " " + AuthorName(user) + "]\n|Permission=\n|other_versions=\n}}\n\n"
  }

  /** `create_wikitext`. */
  function CreateWikitext(photoUrl: string, dateTaken: DateTaken, user: FlickrUser, licenseId: string)
    : (r: Result<string>)
    ensures r.Err? <==> DateFormatFor(dateTaken.granularity).Err?
    ensures r.Err? ==> r.error == KeyError
  {
    var date :- DateString(dateTaken);
    Ok(InformationHeader + photoUrl + "]\n|Date=" + date + "\n" + AuthorLines(user) + LicenseHeader + licenseId + "}}\n")
  }

  /** The text opens with the Information template and its source, carries
   *  the date and the author, and closes with the license template. */
  lemma WikitextLayout(photoUrl: string, dateTaken: DateTaken, user: FlickrUser, licenseId: string)
    requires CreateWikitext(photoUrl, dateTaken, user, licenseId).Ok?
    ensures var text := CreateWikitext(photoUrl, dateTaken, user, licenseId).value;
      var date := DateString(dateTaken).value;
      && StartsWith(text, InformationHeader + photoUrl + "]\n|Date=" + date + "\n")
      && EndsWith(text, AuthorLines(user) + LicenseHeader + licenseId + "}}\n")
  {
    var text := CreateWikitext(photoUrl, dateTaken, user, licenseId).value;
    var head := InformationHeader + photoUrl + "]\n|Date=" + DateString(dateTaken).value + "\n";
    var tail := AuthorLines(user) + LicenseHeader + licenseId + "}}\n";
    assert text == head + tail;
    assert text[..|head|] == head;
    assert text[|text| - |tail|..] == tail;
  }

  /** A known date at year granularity is written as the year, which reads
   *  back as the year taken. */
  lemma YearDateReadsBack(dateTaken: DateTaken)
    requires dateTaken.granularity == Year && !dateTaken.unknown
    ensures DateString(dateTaken).Ok? && AllDigits(DateString(dateTaken).value)
    ensures DigitsToNat(DateString(dateTaken).value) == dateTaken.value.year
  {
    NatToStringRoundTrip(dateTaken.value.year);
  }

  /** A known circa date is written as the circa template around the year. */
  lemma CircaDate(dateTaken: DateTaken)
    requires dateTaken.granularity == Circa && !dateTaken.unknown
    ensures DateString(dateTaken) == Ok("{{circa|" + NatToString(dateTaken.value.year) + "}}")
  {
  }

  /** A known date at second granularity is written as 19 characters, a
   *  dash after the year, from the year 1000 on. */
  lemma FullDateLength(dateTaken: DateTaken)
    requires dateTaken.granularity == Second && !dateTaken.unknown && dateTaken.value.year >= 1000
    ensures DateString(dateTaken).Ok? && |DateString(dateTaken).value| == 19
    ensures DateString(dateTaken).value[4] == '-' && DateString(dateTaken).value[7] == '-'
  {
    FourDigitYear(dateTaken.value.year);
  }
}
