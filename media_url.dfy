/** The media URL resolver the pages share: an absolute reference is kept, any other
    reference gets the content origin `baseUrl` put in front of it, as it is. */
module MediaUrl {
  import opened Text

  /** The scheme test the pages use: the reference begins with the four letters `http`. */
  predicate IsAbsolute(url: string): (b: bool)
    ensures b <==> |url| >= 4 && url[..4] == "http"
    ensures b ==> url != ""
  {
    StartsWith(url, "http")
  }

  /** `getImageUrl(url)`: an absolute reference unchanged, otherwise `baseUrl` and the
      reference concatenated, with no slash added or removed. */
  function Resolve(baseUrl: string, url: string): (r: string)
    ensures EndsWith(r, url)
    ensures IsAbsolute(url) ==> r == url
    ensures !IsAbsolute(url) ==> r == baseUrl + url && StartsWith(r, baseUrl)
  {
    if IsAbsolute(url) then url else baseUrl + url
  }

  /** Resolving a resolved reference again changes nothing exactly when the reference was
      absolute, the origin is empty, or the origin makes the joined reference absolute. */
  lemma ResolveIdempotent(baseUrl: string, url: string)
    ensures Resolve(baseUrl, Resolve(baseUrl, url)) == Resolve(baseUrl, url)
      <==> IsAbsolute(url) || baseUrl == "" || IsAbsolute(baseUrl + url)
  {
    if !IsAbsolute(url) && baseUrl != "" && !IsAbsolute(baseUrl + url) {
      assert |Resolve(baseUrl, Resolve(baseUrl, url))| == 2 * |baseUrl| + |url|;
    }
  }

  /** With an absolute origin, every reference resolves to an absolute one, and resolving
      is then idempotent. */
  lemma AbsoluteOriginGivesAbsoluteUrls(baseUrl: string, url: string)
    requires IsAbsolute(baseUrl)
    ensures IsAbsolute(Resolve(baseUrl, url))
    ensures Resolve(baseUrl, Resolve(baseUrl, url)) == Resolve(baseUrl, url)
  {
    if !IsAbsolute(url) {
      assert (baseUrl + url)[..4] == baseUrl[..4];
    }
  }
}
