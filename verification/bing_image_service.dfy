/** The result filter of the image search service: only image URLs that
    start with "https" (any letter case) are handed back, because plain
    http images are not rendered inside a Teams task module. The search
    client and the remote call are not modelled; the list of content URLs
    they return is the input. */
module BingImageService {
  import opened Text
  import opened Sequences

  /** `url.StartsWith("https", StringComparison.OrdinalIgnoreCase)`. */
  predicate StartsWithHttps(url: string) {
    StartsWithIgnoreCase(url, "https")
  }

  /** The URLs the service keeps: the qualifying ones, in input order. */
  function HttpsOnly(urls: seq<string>): seq<string> {
    Filter(urls, StartsWithHttps)
  }

  /** The `foreach` loop of `GetSearchResultAsync` over the content URLs of
      the search results, appending each qualifying URL to the result list. */
  method GetSearchResult(imageResults: seq<string>) returns (contentUrlResult: seq<string>)
    ensures contentUrlResult == HttpsOnly(imageResults)
    ensures |contentUrlResult| <= |imageResults|
    ensures imageResults == [] ==> contentUrlResult == []
  {
    contentUrlResult := [];
    for i := 0 to |imageResults|
      invariant contentUrlResult == HttpsOnly(imageResults[..i])
    {
      var contentUrl := imageResults[i];
      FilterAppend(imageResults[..i], [contentUrl], StartsWithHttps);
      assert imageResults[..i + 1] == imageResults[..i] + [contentUrl];
      if StartsWithHttps(contentUrl) {
        contentUrlResult := contentUrlResult + [contentUrl];
      }
    }
    assert imageResults[..|imageResults|] == imageResults;
  }

  /** Every returned URL starts with "https", ignoring case. */
  lemma ResultIsHttpsOnly(urls: seq<string>)
    ensures forall i :: 0 <= i < |HttpsOnly(urls)| ==> StartsWithHttps(HttpsOnly(urls)[i])
  {
    FilterAllKept(urls, StartsWithHttps);
  }

  /** The result keeps the input order: it is a subsequence of the input. */
  lemma ResultKeepsOrder(urls: seq<string>)
    ensures IsSubsequence(HttpsOnly(urls), urls)
  {
    FilterIsSubsequence(urls, StartsWithHttps);
  }

  /** No qualifying URL is dropped and duplicates are kept: a URL occurs in
      the result exactly as often as in the input when it qualifies, and
      never otherwise. */
  lemma ResultKeepsEveryHttpsUrl(urls: seq<string>, url: string)
    ensures multiset(HttpsOnly(urls))[url] == if StartsWithHttps(url) then multiset(urls)[url] else 0
    ensures url in HttpsOnly(urls) <==> url in urls && StartsWithHttps(url)
  {
    FilterCount(urls, StartsWithHttps, url);
    assert url in HttpsOnly(urls) <==> url in multiset(HttpsOnly(urls));
    assert url in urls <==> url in multiset(urls);
  }

  /** A plain "http://" URL never qualifies, whatever follows the scheme. */
  lemma PlainHttpExcluded(rest: string)
    ensures !StartsWithHttps("http://" + rest)
  {
    var url := "http://" + rest;
    assert AsciiLower(url[..5])[4] == ':';
  }

  /** An "https" prefix in any letter case qualifies. */
  lemma HttpsInAnyCaseIncluded(rest: string)
    ensures StartsWithHttps("HTTPS://" + rest) && StartsWithHttps("https://" + rest)
  {
    var upper := "HTTPS://" + rest;
    var lower := "https://" + rest;
    assert upper[..5] == "HTTPS";
    assert lower[..5] == "https";
  }
}
