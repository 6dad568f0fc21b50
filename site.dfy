/**
 * The site's base URL and the path prefix derived from it. The environment
 * variable `NEXT_PUBLIC_SITE_URL` is a parameter (`None` when it is unset),
 * and so is the WHATWG URL parser, reduced to the `pathname` it yields for a
 * string (`None` when the constructor throws).
 */
module Site {
  import opened JsValue
  import opened JsString

  const DefaultUrl: string := "https://cancionescristianas.net"

  /** `s.replace(/\/+$/, "")` */
  function DropTrailingSlashes(s: string): (r: string)
    ensures r <= s
    ensures r == [] || r[|r| - 1] != '/'
    ensures forall i :: |r| <= i < |s| ==> s[i] == '/'
  {
    if s != [] && s[|s| - 1] == '/' then DropTrailingSlashes(s[..|s| - 1]) else s
  }

  lemma DefaultUrlNoSlash()
    ensures DefaultUrl != [] && DefaultUrl[|DefaultUrl| - 1] != '/'
  {
    assert DefaultUrl[|DefaultUrl| - 1] == 't';
  }

  /**
   * `getSiteUrl`: the trimmed variable without its trailing slashes, or the
   * default URL when the variable is unset or blank. The result never ends
   * with a slash.
   */
  function GetSiteUrl(env: Option<string>): (r: string)
    ensures env.None? || Trim(env.value) == [] ==> r == DefaultUrl
    ensures env.Some? && Trim(env.value) != [] ==>
      r <= Trim(env.value) && forall i :: |r| <= i < |Trim(env.value)| ==> Trim(env.value)[i] == '/'
    ensures r == [] || r[|r| - 1] != '/'
  {
    DefaultUrlNoSlash();
    match env
    case None => DefaultUrl
    case Some(v) =>
      var url := Trim(v);
      if url == [] then DefaultUrl else DropTrailingSlashes(url)
  }

  /**
   * `getSitePathPrefix`: the pathname of the site URL without trailing
   * slashes, or `""` when the URL does not parse. The comparison with `"/"`
   * never succeeds, since the slashes are already gone.
   */
  function GetSitePathPrefix(env: Option<string>, pathnameOf: string -> Option<string>): (r: string)
    ensures pathnameOf(GetSiteUrl(env)).None? ==> r == []
    ensures pathnameOf(GetSiteUrl(env)).Some? ==> r == DropTrailingSlashes(pathnameOf(GetSiteUrl(env)).value)
    ensures r == [] || r[|r| - 1] != '/'
  {
    match pathnameOf(GetSiteUrl(env))
    case None => []
    case Some(p) =>
      var pathname := DropTrailingSlashes(p);
      if pathname == "/" then [] else pathname
  }

  function Slashes(k: nat): (r: string)
    ensures |r| == k && forall i :: 0 <= i < k ==> r[i] == '/'
  {
    seq(k, _ => '/')
  }

  lemma {:induction false} DropSlashes(url: string, k: nat)
    requires url == [] || url[|url| - 1] != '/'
    ensures DropTrailingSlashes(url + Slashes(k)) == url
  {
    if k > 0 {
      var s := url + Slashes(k);
      assert s[..|s| - 1] == url + Slashes(k - 1);
      DropSlashes(url, k - 1);
    } else {
      assert url + Slashes(0) == url;
    }
  }

  /**
   * A configured URL followed by any number of slashes yields the URL
   * itself: the links built on it never hold a double slash.
   */
  lemma GetSiteUrlSlashes(url: string, k: nat)
    requires url != [] && IsTrimmed(url) && url[|url| - 1] != '/'
    ensures GetSiteUrl(Some(url + Slashes(k))) == url
  {
    var v := url + Slashes(k);
    assert v[0] == url[0];
    assert !IsSpace(v[|v| - 1]);
    assert IsTrimmed(v);
    assert Trim(v) == v;
    DropSlashes(url, k);
  }
}
