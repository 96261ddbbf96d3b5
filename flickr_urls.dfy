/** The third-party Flickr URL recogniser `flickr_url_parser.parse_flickr_url`
 *  is not part of this model: it is a parameter of every operation that
 *  uses it, with a closed result type. */
module FlickrUrls {
  /** What the recogniser says a Flickr URL points to. Two results are
   *  equal exactly when the parser's dicts are equal. */
  datatype FlickrUrl =
    | SinglePhoto(photoId: string)
    | Homepage
    | OtherPage(kind: string, fields: map<string, string>)

  /** The recogniser either returns a parsed URL or raises one of its two
   *  exceptions. */
  datatype ParseOutcome =
    | Parsed(url: FlickrUrl)
    | NotAFlickrUrl
    | UnrecognisedUrl

  type UrlParser = string -> ParseOutcome

  /** The photo id of a URL that parses as a single photo. */
  predicate IsSinglePhotoUrl(parse: UrlParser, url: string) {
    parse(url).Parsed? && parse(url).url.SinglePhoto?
  }
}
