/** Recognising the URL of a file page on Wikimedia Commons
 *  (src/flickypedia/apis/wikimedia/url_parser.py).
 *
 *  The URL is given already split into its host and its decoded path
 *  segments, as `hyperlink.DecodedURL` presents it. */
module CommonsUrls {
  import opened Wrappers
  import opened Text

  const CommonsHost := "commons.wikimedia.org"
  const MobileCommonsHost := "commons.m.wikimedia.org"
  const FilePrefix := "File:"

  predicate IsCommonsHost(host: string) {
    host == CommonsHost || host == MobileCommonsHost
  }

  /** `/wiki/File:…`, possibly followed by more segments. */
  predicate IsFilePath(path: seq<string>) {
    |path| >= 2 && path[0] == "wiki" && StartsWith(path[1], FilePrefix)
  }

  /** `get_filename_from_url`: the second path segment without its
   *  leading "File:"; a URL of any other shape raises `ValueError`. */
  function GetFilenameFromUrl(host: string, path: seq<string>): (r: Result<string>)
    ensures r.Err? <==> !IsCommonsHost(host) || !IsFilePath(path)
    ensures r.Err? ==> r.error == ValueError
    ensures r.Ok? ==> path[1] == FilePrefix + r.value
  {
    if !IsCommonsHost(host) then Err(ValueError)
    else if |path| < 2 || path[0] != "wiki" || !StartsWith(path[1], FilePrefix) then Err(ValueError)
    else
      assert path[1] == path[1][..5] + path[1][5..];
      Ok(path[1][5..])
  }

  /** The file page URL of a file name gives the name back, on either host. */
  lemma FilenameRoundTrip(host: string, name: string, rest: seq<string>)
    requires IsCommonsHost(host)
    ensures GetFilenameFromUrl(host, ["wiki", FilePrefix + name] + rest) == Ok(name)
  {
    var path := ["wiki", FilePrefix + name] + rest;
    assert path[0] == "wiki" && path[1] == FilePrefix + name;
    assert StartsWith(path[1], FilePrefix) by {
      assert path[1][..|FilePrefix|] == FilePrefix;
    }
    assert path[1][5..] == name;
  }

  /** Path segments after the second do not affect the result. */
  lemma TrailingSegmentsIgnored(host: string, path: seq<string>, extra: seq<string>)
    requires |path| >= 2
    ensures GetFilenameFromUrl(host, path + extra) == GetFilenameFromUrl(host, path)
  {
    assert (path + extra)[0] == path[0] && (path + extra)[1] == path[1];
  }
}
