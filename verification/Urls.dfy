/** cmd/agent/main.go, the last step of LoadConfig: the form in which the control plane's URL is used. */
module Urls {

  const SCHEME := "http"
  const API_SUFFIX := "/api/v1"

  predicate HasSuffix(s: string, suffix: string) {
    |s| >= |suffix| && s[|s| - |suffix|..] == suffix
  }

  function WithScheme(url: string): string {
    if SCHEME <= url then url else "http://" + url
  }

  function WithoutSlash(url: string): string {
    if |url| > 0 && url[|url| - 1] == '/' then url[..|url| - 1] else url
  }

  function WithSuffix(url: string): string {
    if |url| < 7 || url[|url| - 7..] != API_SUFFIX then url + API_SUFFIX else url
  }

  function NormalizeURL(url: string): string {
    WithSuffix(WithoutSlash(WithScheme(url)))
  }

  lemma WithoutSlashKeepsScheme(url: string)
    requires SCHEME <= url
    ensures SCHEME <= WithoutSlash(url)
  {
    assert url[..4] == SCHEME && url[3] == 'p';
    if |url| > 4 {
      assert url[..|url| - 1][..4] == url[..4];
    }
  }

  /** Every URL, however written, comes out with the scheme and the API path. */
  lemma NormalizedShape(url: string)
    ensures "http" <= NormalizeURL(url) && HasSuffix(NormalizeURL(url), "/api/v1")
  {
    var u := WithScheme(url);
    assert SCHEME <= u;
    WithoutSlashKeepsScheme(u);
    var v := WithoutSlash(u);
    assert (v + API_SUFFIX)[|v|..] == API_SUFFIX;
  }

  /** A URL with a scheme is kept as written, less one final slash, and only extended, unless it ends with the path. */
  lemma WrittenURLIsKept(url: string)
    requires "http" <= url
    ensures
      var kept := if url[|url| - 1] == '/' then url[..|url| - 1] else url;
      && (NormalizeURL(url) == if HasSuffix(kept, "/api/v1") then kept else kept + "/api/v1")
      && kept <= NormalizeURL(url)
  {
  }

  lemma NormalizeIdempotent(url: string)
    ensures NormalizeURL(NormalizeURL(url)) == NormalizeURL(url)
  {
    NormalizedShape(url);
    var n := NormalizeURL(url);
    assert n[|n| - 1] == n[|n| - 7..][6] == '1';
  }

  /** The URLs left alone are exactly those already in final form. */
  lemma UnchangedIffNormal(url: string)
    ensures NormalizeURL(url) == url <==> "http" <= url && HasSuffix(url, "/api/v1")
  {
    NormalizedShape(url);
    if SCHEME <= url && HasSuffix(url, API_SUFFIX) {
      assert url[|url| - 1] == url[|url| - 7..][6] == '1';
    }
  }

  /** Writing out the scheme that would be added makes no difference. */
  lemma SchemeIsImplied(url: string)
    requires !("http" <= url)
    ensures NormalizeURL("http://" + url) == NormalizeURL(url)
  {
    assert ("http://" + url)[..4] == SCHEME;
  }

  lemma SchemeBeforeSlash(url: string)
    ensures SCHEME <= url + "/" <==> SCHEME <= url
    ensures WithScheme(url + "/") == WithScheme(url) + "/"
  {
    if |url| < 4 {
      assert (url + "/")[|url|] == '/';
    } else {
      assert (url + "/")[..4] == url[..4];
    }
  }

  /** A second slash survives: the API path is appended to it. */
  lemma DoubleSlashStays(u: string)
    requires u != "" && u[|u| - 1] == '/'
    ensures WithSuffix(u) == u + API_SUFFIX
    ensures |WithSuffix(WithoutSlash(u))| < |WithSuffix(u)|
  {
    if |u| >= 7 {
      assert u[|u| - 7..][6] == '/' && API_SUFFIX[6] == '1';
    }
  }

  /** One trailing slash makes no difference exactly for the non-empty URLs that do not already end in one. */
  lemma TrailingSlashIgnoredIff(url: string)
    ensures NormalizeURL(url + "/") == NormalizeURL(url) <==> url != "" && url[|url| - 1] != '/'
  {
    var u := WithScheme(url);
    SchemeBeforeSlash(url);
    assert u != "" && (url != "" ==> u[|u| - 1] == url[|url| - 1]);
    assert (u + "/")[..|u|] == u;
    assert NormalizeURL(url + "/") == WithSuffix(u);
    if u[|u| - 1] == '/' {
      DoubleSlashStays(u);
    }
  }
}
