/**
 * URL handling of the analysis engine: `normalize_url`, `check_https` and the
 * fragment of `urllib.parse.urlparse` they depend on, for URLs that start with
 * `http://` or `https://`.
 */
module Urls {
  import opened Text

  const Http: string := "http://"
  const Https: string := "https://"

  /** `url.startswith(("http://", "https://"))` */
  predicate HasScheme(u: string) {
    StartsWith(u, Http) || StartsWith(u, Https)
  }

  /** Index just after `scheme://`, where the network location begins. */
  function AuthorityStart(u: string): (k: nat)
    requires HasScheme(u)
    ensures k <= |u|
  {
    if StartsWith(u, Https) then |Https| else |Http|
  }

  /** The characters that end the network location in `urlsplit`. */
  predicate IsDelimiter(c: char) { c == '/' || c == '?' || c == '#' }

  /** The first delimiter at or after `from`, or `|u|` when there is none. */
  function DelimiterFrom(u: string, from: nat): (k: nat)
    requires from <= |u|
    ensures from <= k <= |u|
    ensures k < |u| ==> IsDelimiter(u[k])
    decreases |u| - from
  {
    if from == |u| || IsDelimiter(u[from]) then from else DelimiterFrom(u, from + 1)
  }

  /** No delimiter comes between `from` and the one found. */
  lemma {:induction false} DelimiterFromNone(u: string, from: nat)
    requires from <= |u|
    ensures forall i :: from <= i < DelimiterFrom(u, from) ==> !IsDelimiter(u[i])
    decreases |u| - from
  {
    if from < |u| && !IsDelimiter(u[from]) {
      DelimiterFromNone(u, from + 1);
    }
  }

  /** A delimiter preceded by none is the one found. */
  lemma {:induction false} DelimiterFromIs(u: string, from: nat, k: nat)
    requires from <= k <= |u|
    requires forall i :: from <= i < k ==> !IsDelimiter(u[i])
    requires k < |u| ==> IsDelimiter(u[k])
    ensures DelimiterFrom(u, from) == k
    decreases k - from
  {
    if from < k {
      DelimiterFromIs(u, from + 1, k);
    }
  }

  function NetlocEnd(u: string): (k: nat)
    requires HasScheme(u)
    ensures AuthorityStart(u) <= k <= |u|
  {
    DelimiterFrom(u, AuthorityStart(u))
  }

  /** `urlparse(u).netloc` */
  function Netloc(u: string): string
    requires HasScheme(u)
  {
    u[AuthorityStart(u)..NetlocEnd(u)]
  }

  /** `not urlparse(u).path`: nothing, or a query or fragment, follows the network location. */
  predicate PathEmpty(u: string)
    requires HasScheme(u)
  {
    NetlocEnd(u) == |u| || u[NetlocEnd(u)] != '/'
  }

  /** `check_https(url)`: an `https` URL, which is never also an `http` one. */
  predicate CheckHttps(url: string): (b: bool)
    ensures b ==> HasScheme(url) && !StartsWith(url, Http)
  {
    assert StartsWith(url, Https) ==> url[..|Http|][4] == 's' != Http[4];
    StartsWith(url, Https)
  }

  /** The stripped input with `https://` put in front when it has no scheme. */
  function WithScheme(u: string): (v: string)
    ensures HasScheme(v)
  {
    if HasScheme(u) then u else Https + u
  }

  /** `normalize_url` as the source writes it: an empty path is fixed by appending "/" at the very end. */
  function NormalizeUrlAsWritten(raw: string): (r: string)
    ensures r == "" <==> Strip(raw) == ""
  {
    var u := Strip(raw);
    if u == "" then ""
    else
      var v := WithScheme(u);
      if PathEmpty(v) then v + "/" else v
  }

  /** `v` with "/" inserted at the end of its network location. */
  function InsertRootPath(v: string): (r: string)
    requires HasScheme(v)
    ensures HasScheme(r) && !PathEmpty(r)
  {
    InsertRootPathKeeps(v);
    v[..NetlocEnd(v)] + "/" + v[NetlocEnd(v)..]
  }

  /** The insertion keeps the scheme and the network location, and shifts the rest by one. */
  lemma InsertRootPathKeeps(v: string)
    requires HasScheme(v)
    ensures var k := NetlocEnd(v); var r := v[..k] + "/" + v[k..];
      && HasScheme(r) && AuthorityStart(r) == AuthorityStart(v)
      && NetlocEnd(r) == k && !PathEmpty(r) && Netloc(r) == Netloc(v)
      && |r| == |v| + 1 && r[..k] == v[..k] && r[k + 1..] == v[k..]
  {
    var k := NetlocEnd(v);
    var r := v[..k] + "/" + v[k..];
    assert r[..k] == v[..k];
    assert r[k + 1..] == v[k..];
    assert HasScheme(r) && (StartsWith(r, Https) <==> StartsWith(v, Https)) by {
      if StartsWith(v, Https) {
        assert r[..|Https|] == v[..|Https|];
      } else {
        assert r[..|Http|] == v[..|Http|];
        assert r[4] == v[4] == ':' != Https[4];
      }
    }
    DelimiterFromNone(v, AuthorityStart(v));
    DelimiterFromIs(r, AuthorityStart(r), k);
  }

  /**
   * `normalize_url` with the root path "/" inserted where the path begins, that is
   * at the end of the network location and before any query or fragment.
   */
  function NormalizeUrl(raw: string): (r: string)
    ensures r == "" <==> Strip(raw) == ""
    ensures r != "" ==> HasScheme(r) && !PathEmpty(r)
  {
    var u := Strip(raw);
    if u == "" then "" else Rooted(WithScheme(u))
  }

  /** A URL with a scheme, given the root path "/" when its path is empty. */
  function Rooted(v: string): (r: string)
    requires HasScheme(v)
    ensures HasScheme(r) && !PathEmpty(r)
  {
    if PathEmpty(v) then InsertRootPath(v) else v
  }

  /** `normalize_url` gives "" exactly for input made of whitespace only. */
  lemma NormalizeEmptyIff(raw: string)
    ensures NormalizeUrl(raw) == "" <==> forall i :: 0 <= i < |raw| ==> IsSpace(raw[i])
  {
    TrimEmptyIff(raw, IsSpace);
  }

  /**
   * Normalizing keeps the scheme and the network location of the stripped input
   * (`https` when it had no scheme), and changes nothing else when the input
   * already has a path.
   */
  lemma NormalizeKeepsHost(raw: string)
    requires Strip(raw) != ""
    ensures var v := WithScheme(Strip(raw)); var r := NormalizeUrl(raw);
      && StartsWith(r, v[..NetlocEnd(v)]) && Netloc(r) == Netloc(v)
      && (CheckHttps(r) <==> CheckHttps(v))
      && (!PathEmpty(v) ==> r == v)
  {
    var v := WithScheme(Strip(raw));
    if PathEmpty(v) {
      InsertRootPathKeeps(v);
    }
  }

  /** A URL typed without a scheme is taken to be an `https` URL. */
  lemma UnschemedIsHttps(raw: string)
    requires Strip(raw) != "" && !HasScheme(Strip(raw))
    ensures CheckHttps(NormalizeUrl(raw))
  {
    NormalizeKeepsHost(raw);
    var v := Https + Strip(raw);
    assert v[..|Https|] == Https;
  }

  /** The inserted "/" keeps the text from both ends free of whitespace. */
  lemma NormalizedHasNoOuterSpace(raw: string)
    requires Strip(raw) != ""
    ensures Strip(NormalizeUrl(raw)) == NormalizeUrl(raw)
  {
    var r := NormalizeUrl(raw);
    SchemeFirst(r);
    StripEnds(raw);
    NormalizedEnd(raw, IsSpace);
    TrimUnchanged(r, IsSpace);
  }

  /** A URL with a scheme starts with the letter h. */
  lemma SchemeFirst(u: string)
    requires HasScheme(u)
    ensures u[0] == 'h'
  {
    assert u[0] == u[..|Http|][0];
  }

  /**
   * A normalized URL ends as the stripped input does, or in the inserted "/";
   * so a class of characters that holds neither of these does not hold its end.
   */
  lemma NormalizedEnd(raw: string, p: char -> bool)
    requires Strip(raw) != "" && !p(Strip(raw)[|Strip(raw)| - 1]) && !p('/')
    ensures !p(NormalizeUrl(raw)[|NormalizeUrl(raw)| - 1])
  {
    NormalizeUrlRooted(raw);
    RootedEnd(Strip(raw), p);
  }

  /** A non-blank input is normalized by rooting it once it has a scheme. */
  lemma NormalizeUrlRooted(raw: string)
    requires Strip(raw) != ""
    ensures NormalizeUrl(raw) == Rooted(WithScheme(Strip(raw)))
  {
  }

  /** Putting a scheme in front and rooting the path keep such a last character. */
  lemma RootedEnd(u: string, p: char -> bool)
    requires u != "" && !p(u[|u| - 1]) && !p('/')
    ensures var r := Rooted(WithScheme(u)); !p(r[|r| - 1])
  {
    WithSchemeLast(u);
    RootedLast(WithScheme(u));
  }

  /** Rooting the path ends the URL in its old last character or in the inserted "/". */
  lemma RootedLast(v: string)
    requires HasScheme(v)
    ensures var r := Rooted(v); r[|r| - 1] == v[|v| - 1] || r[|r| - 1] == '/'
  {
    if PathEmpty(v) {
      InsertRootPathEnd(v);
      assert Rooted(v) == InsertRootPath(v);
    } else {
      assert Rooted(v) == v;
    }
  }

  /** Putting a scheme in front keeps the last character. */
  lemma WithSchemeLast(u: string)
    requires u != ""
    ensures var v := WithScheme(u); v[|v| - 1] == u[|u| - 1]
  {
  }

  /** Inserting the root path leaves the last character in place unless the network location runs to the end. */
  lemma InsertRootPathEnd(v: string)
    requires HasScheme(v)
    ensures var r := InsertRootPath(v); r[|r| - 1] == (if NetlocEnd(v) < |v| then v[|v| - 1] else '/')
  {
    var k := NetlocEnd(v);
    var r := InsertRootPath(v);
    if k < |v| {
      assert r[|r| - 1] == r[k + 1..][|r| - k - 2] == v[k..][|v| - k - 1];
    } else {
      assert r[..k] == v;
    }
  }

  /** Normalizing a normalized URL changes nothing. */
  lemma NormalizeIdempotent(raw: string)
    ensures NormalizeUrl(NormalizeUrl(raw)) == NormalizeUrl(raw)
  {
    var r := NormalizeUrl(raw);
    if r != "" {
      NormalizedHasNoOuterSpace(raw);
      NormalizeFixed(r);
    } else {
      assert Strip(r) == "";
    }
  }

  /** A stripped URL with a scheme and a path is its own normal form. */
  lemma NormalizeFixed(u: string)
    requires Strip(u) == u != "" && HasScheme(u) && !PathEmpty(u)
    ensures NormalizeUrl(u) == u
  {
  }

  /** Finding: the source's version puts "/" into the query and leaves the path empty. */
  lemma AsWrittenAppendsToQuery()
    ensures NormalizeUrlAsWritten("a.jp?q") == "https://a.jp?q/"
    ensures var v := WithScheme(Strip("a.jp?q")); NetlocEnd(v) < |v| && PathEmpty(v)
  {
    QueryExample();
  }

  /** The input "a.jp?q" is stripped already, gets the `https` scheme, and its host ends at the '?'. */
  lemma QueryExample()
    ensures Strip("a.jp?q") == "a.jp?q" && WithScheme("a.jp?q") == "https://a.jp?q"
    ensures NetlocEnd("https://a.jp?q") == 12 && PathEmpty("https://a.jp?q")
  {
    var raw := "a.jp?q";
    TrimUnchanged(raw, IsSpace);
    var v := Https + raw;
    assert !HasScheme(raw);
    assert StartsWith(v, Https) && v[..|Http|][4] != Http[4];
    DelimiterFromIs(v, |Https|, 12);
  }

  /** ...and a URL whose host is followed by a query or fragment gets another "/" on the next
   * pass: the source's normalize_url is not idempotent. */
  lemma AsWrittenGrowsOnQuery(v: string)
    requires HasScheme(v) && NetlocEnd(v) < |v| && PathEmpty(v)
    ensures NormalizeUrlAsWritten(v + "/") == v + "/" + "/"
  {
    var w := v + "/";
    assert w[..|Http|] == v[..|Http|] && w[..|Https|] == v[..|Https|];
    assert HasScheme(w) && AuthorityStart(w) == AuthorityStart(v);
    DelimiterFromNone(v, AuthorityStart(v));
    DelimiterFromIs(w, AuthorityStart(w), NetlocEnd(v));
    SchemeFirst(w);
    TrimUnchanged(w, IsSpace);
    AsWrittenOnStripped(w);
  }

  /** Hence two passes differ from one whenever a query or fragment directly follows the
   * host, as it does for "a.jp?q". */
  lemma AsWrittenNotIdempotent(raw: string)
    requires Strip(raw) != ""
    requires var v := WithScheme(Strip(raw)); NetlocEnd(v) < |v| && PathEmpty(v)
    ensures NormalizeUrlAsWritten(NormalizeUrlAsWritten(raw)) == NormalizeUrlAsWritten(raw) + "/"
  {
    var v := WithScheme(Strip(raw));
    assert NormalizeUrlAsWritten(raw) == v + "/";
    AsWrittenGrowsOnQuery(v);
  }

  /** A result of the source's version has a scheme, and a path unless it ends in the appended "/". */
  lemma AsWrittenRooted(raw: string)
    requires Strip(raw) != ""
    ensures var r := NormalizeUrlAsWritten(raw);
      HasScheme(r) && (!PathEmpty(r) || r[|r| - 1] == '/')
  {
    var v := WithScheme(Strip(raw));
    assert NormalizeUrlAsWritten(raw) == if PathEmpty(v) then v + "/" else v;
    SlashKeepsScheme(v);
  }

  lemma SlashKeepsScheme(v: string)
    requires HasScheme(v)
    ensures HasScheme(v + "/")
  {
    var w := v + "/";
    assert w[..|Http|] == v[..|Http|];
    assert StartsWith(v, Https) ==> w[..|Https|] == v[..|Https|];
  }

  /** On a stripped URL with a scheme, the source's version only looks at the path. */
  lemma AsWrittenOnStripped(w: string)
    requires Strip(w) == w != "" && HasScheme(w)
    ensures NormalizeUrlAsWritten(w) == if PathEmpty(w) then w + "/" else w
  {
  }

  /** On the same input the corrected version yields the root path before the query. */
  lemma CorrectedKeepsQuery()
    ensures NormalizeUrl("a.jp?q") == "https://a.jp/?q"
  {
    var v := "https://a.jp?q";
    QueryExample();
    NormalizeUrlRooted("a.jp?q");
    assert NormalizeUrl("a.jp?q") == v[..12] + "/" + v[12..];
  }

  /**
   * The two versions agree exactly when the source's version does not touch a
   * query or fragment: unless the path is empty and something follows the
   * host, which happens only when a '?' or '#' directly follows it.
   */
  lemma AgreeWithoutQuery(raw: string)
    requires Strip(raw) != ""
    ensures var v := WithScheme(Strip(raw));
      NormalizeUrl(raw) == NormalizeUrlAsWritten(raw) <==> !(PathEmpty(v) && NetlocEnd(v) < |v|)
  {
    var v := WithScheme(Strip(raw));
    var k := NetlocEnd(v);
    NormalizeUrlRooted(raw);
    if PathEmpty(v) {
      var r := InsertRootPath(v);
      assert NormalizeUrl(raw) == r && NormalizeUrlAsWritten(raw) == v + "/";
      if k == |v| {
        assert r == v + "/";
      } else {
        assert r[k] == '/' && (v + "/")[k] == v[k] != '/';
      }
    }
  }
}
