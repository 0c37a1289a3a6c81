/** `Helper.getHttp` of utils/helper.ts: give a bare host an `http://`
    scheme. */
module Helper {
  import opened Common

  const Scheme: string := "http"

  /** null and "" come back as they are, so does anything already starting
      with "http" (which covers "https"); anything else gets "http://" in
      front. */
  function GetHttp(url: Option<string>): (r: Option<string>)
    ensures url.None? <==> r.None?
    ensures url.Some? && (url.value == "" || StartsWith(url.value, Scheme)) ==> r == url
    ensures url.Some? && url.value != "" && !StartsWith(url.value, Scheme) ==> r == Some("http://" + url.value)
  {
    match url
    case None => None
    case Some(u) => if u != "" && !StartsWith(u, Scheme) then Some("http://" + u) else url
  }

  /** What comes back is null, empty, or starts with "http". */
  lemma GetHttpHasScheme(url: Option<string>)
    ensures var r := GetHttp(url); r.None? || r.value == "" || StartsWith(r.value, Scheme)
  {
    if url.Some? && url.value != "" && !StartsWith(url.value, Scheme) {
      assert ("http://" + url.value)[..4] == Scheme;
    }
  }

  /** Applying the helper twice is applying it once. */
  lemma GetHttpIdempotent(url: Option<string>)
    ensures GetHttp(GetHttp(url)) == GetHttp(url)
  {
    GetHttpHasScheme(url);
  }

  /** A bare host and a secure URL, as the comment at the prefixing line
      describes. */
  lemma GetHttpExamples()
    ensures GetHttp(Some("example.com")) == Some("http://example.com")
    ensures GetHttp(Some("https://example.com")) == Some("https://example.com")
  {
    assert "example.com"[..4] != Scheme by {
      assert "example.com"[0] != Scheme[0];
    }
    assert "https://example.com"[..4] == Scheme;
    assert "http://" + "example.com" == "http://example.com";
  }
}
