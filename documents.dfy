/**
 * The fetched page as the extractors see it, and the outcome of the one GET
 * request made per domain. Parsing the markup is outside the model: a
 * Document holds what the parser's queries return.
 */
module Documents {
  import opened Text

  /**
   * One `<a href=...>` element: the attribute as written, `get_text()`,
   * `get_text(strip=True)`, the URL `urljoin(page, href.strip())` and that
   * URL's network location `urlparse(url).netloc` (before lowercasing).
   */
  datatype Anchor = Anchor(href: string, text: string, strippedText: string, url: string, host: string)

  /**
   * What `analyze_meta_seo` reads: the stripped `<title>` and description texts
   * (their lengths are `title_length` and `description_length`), the viewport,
   * Open Graph title, favicon and canonical tags, and the `<h1>` elements.
   */
  datatype SeoInfo = SeoInfo(
    title: string,
    description: string,
    hasViewport: bool,
    hasOgp: bool,
    h1Count: nat,
    h1Text: string,
    hasFavicon: bool,
    hasCanonical: bool)

  /** What `analyze_tech` reads. */
  datatype TechInfo = TechInfo(hasAnalytics: bool, hasStructuredData: bool, imageCount: nat, imagesWithoutAlt: nat)

  /**
   * A parsed page: the SEO and technical signals, every anchor that has an
   * href in document order, the page text `get_text()`, whether a `<form>`
   * exists, and the phone-number regex's matches over the text in order.
   */
  datatype Document = Document(
    seo: SeoInfo,
    anchors: seq<Anchor>,
    text: string,
    hasForm: bool,
    phoneMatches: seq<string>,
    tech: TechInfo)

  /** The exceptions `get_page_safely` catches, most specific first. */
  datatype FetchError =
    | ConnectionError
    | Timeout
    | HttpStatus(code: nat)
    | RequestError(detail: string)

  /** The return value of `get_page_safely`: a page or the error it was mapped to. */
  datatype FetchOutcome = Fetched(doc: Document) | FetchFailed(error: FetchError)

  /** The reason text reported for a failed fetch; never empty, so the caller's `if err:` always sees it. */
  function Reason(e: FetchError): (r: string)
    ensures |r| > 0
    ensures e.RequestError? ==> r == "エラー: " + Take(e.detail, 80)
    ensures e.HttpStatus? ==> r == "HTTP " + NatToString(e.code)
  {
    match e
    case ConnectionError => "接続エラー"
    case Timeout => "タイムアウト"
    case HttpStatus(code) => "HTTP " + NatToString(code)
    case RequestError(detail) => "エラー: " + Take(detail, 80)
  }

  /**
   * Failures of different kinds, and HTTP failures with different status
   * codes, are reported with different reasons; two request errors share a
   * reason exactly when their details agree on the first 80 characters.
   */
  lemma ReasonsDistinguishKinds(e1: FetchError, e2: FetchError)
    ensures e1.RequestError? && e2.RequestError? ==>
      (Reason(e1) == Reason(e2) <==> Take(e1.detail, 80) == Take(e2.detail, 80))
    ensures e1 != e2 && !(e1.RequestError? && e2.RequestError?) ==> Reason(e1) != Reason(e2)
  {
    if e1.HttpStatus? && e2.HttpStatus? && Reason(e1) == Reason(e2) {
      assert Reason(e1)[5..] == NatToString(e1.code);
      assert Reason(e2)[5..] == NatToString(e2.code);
      ParseNatToString(e1.code);
      ParseNatToString(e2.code);
    } else if e1.RequestError? && e2.RequestError? {
      var p := "エラー: ";
      if Reason(e1) == Reason(e2) {
        assert Reason(e1)[|p|..] == Take(e1.detail, 80);
        assert Reason(e2)[|p|..] == Take(e2.detail, 80);
      }
    } else {
      assert Reason(e1)[0] == Lead(e1) && Reason(e2)[0] == Lead(e2);
    }
  }

  /** The first character of each kind's reason. */
  function Lead(e: FetchError): char {
    match e
    case ConnectionError => '接'
    case Timeout => 'タ'
    case HttpStatus(_) => 'H'
    case RequestError(_) => 'エ'
  }
}
