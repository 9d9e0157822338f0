/**
 * `run_analysis`: normalise the input, fetch the page once, run the
 * extractors and the classifiers over it, score and judge it. The network is
 * a parameter, a map from URL to what `get_page_safely` returns for it, and
 * so is the timestamp.
 */
module Analysis {
  import opened Wrappers
  import opened Text
  import opened Urls
  import opened Documents
  import opened Links
  import opened Contact
  import opened Category
  import opened Scoring

  /** The message for an input with nothing but whitespace. */
  const EmptyInput: string := "URLを入力してください"

  /** `get_page_safely(url)`: a URL the map has no entry for cannot be reached. */
  function Fetch(web: map<string, FetchOutcome>, url: string): (r: FetchOutcome)
    ensures url in web ==> r == web[url]
    ensures url !in web ==> r.FetchFailed? && Reason(r.error) == "接続エラー"
  {
    if url in web then web[url] else FetchFailed(ConnectionError)
  }

  /** The result dictionary of one successful analysis. */
  datatype AnalysisResult = AnalysisResult(
    url: string,
    domain: string,
    score: nat,
    rank: string,
    caption: string,
    cls: string,
    details: seq<Detail>,
    seo: SeoInfo,
    links: LinkInfo,
    contact: ContactInfo,
    tech: TechInfo,
    category: string,
    analyzedAt: string)

  /** What `run_analysis` returns for a fetched page `doc` of the normalised URL `url`. */
  predicate ResultFor(url: string, doc: Document, stamp: string, a: AnalysisResult)
    requires HasScheme(url)
  {
    && a.url == url
    && a.domain == Netloc(url)
    && a.seo == doc.seo
    && a.links == LinksOf(doc.anchors, Netloc(url))
    && a.contact == ContactOf(doc)
    && a.tech == doc.tech
    && Detected(Categories, Lower(doc.text), a.category)
    && a.details == Details(url, doc.seo, a.links, a.contact, doc.tech)
    && a.score == Total(a.details)
    && Judge(a.score) == Judgement(a.rank, a.caption, a.cls)
    && a.analyzedAt == stamp
  }

  /** What `run_analysis(input)` may return when the network answers as `web` and the clock reads `stamp`. */
  predicate Analyzes(input: string, web: map<string, FetchOutcome>, stamp: string, r: Result<AnalysisResult, string>) {
    var url := NormalizeUrl(input);
    if url == "" then r == Failure(EmptyInput)
    else match Fetch(web, url)
      case FetchFailed(e) => r == Failure(Reason(e))
      case Fetched(doc) => r.Success? && ResultFor(url, doc, stamp, r.value)
  }

  /** The result of a fetched page, built as `run_analysis` builds it. */
  function ResultOf(url: string, doc: Document, stamp: string): AnalysisResult
    requires HasScheme(url)
  {
    var bd := Netloc(url);
    var lnk := LinksOf(doc.anchors, bd);
    var cnt := ContactOf(doc);
    var det := Details(url, doc.seo, lnk, cnt, doc.tech);
    var sc := Total(det);
    var j := Judge(sc);
    AnalysisResult(url, bd, sc, j.rank, j.caption, j.cls, det, doc.seo, lnk, cnt, doc.tech, CategoryOf(doc.text), stamp)
  }

  /** `run_analysis(input)` as a function of the input, the network and the clock. */
  function AnalysisOf(input: string, web: map<string, FetchOutcome>, stamp: string): Result<AnalysisResult, string> {
    var url := NormalizeUrl(input);
    if url == "" then Failure(EmptyInput)
    else match Fetch(web, url)
      case FetchFailed(e) => Failure(Reason(e))
      case Fetched(doc) => Success(ResultOf(url, doc, stamp))
  }

  /** The function meets the promise, and it is the only answer that does. */
  lemma AnalysisOfAnalyzes(input: string, web: map<string, FetchOutcome>, stamp: string, r: Result<AnalysisResult, string>)
    ensures Analyzes(input, web, stamp, AnalysisOf(input, web, stamp))
    ensures Analyzes(input, web, stamp, r) ==> r == AnalysisOf(input, web, stamp)
  {
    var url := NormalizeUrl(input);
    if url != "" && Fetch(web, url).Fetched? {
      CategoryOfDetected(Fetch(web, url).doc.text);
    }
    if Analyzes(input, web, stamp, r) {
      AnalysisDeterministic(input, web, stamp, r, AnalysisOf(input, web, stamp));
    }
  }

  /** `run_analysis`; `(result, None)` is `Success(result)` and `(None, err)` is `Failure(err)`. */
  method RunAnalysis(input: string, web: map<string, FetchOutcome>, stamp: string)
    returns (r: Result<AnalysisResult, string>)
    ensures r == AnalysisOf(input, web, stamp)
    ensures Analyzes(input, web, stamp, r)
    ensures r.Failure? ==> |r.error| > 0
  {
    var url := NormalizeUrl(input);
    if url == "" {
      return Failure(EmptyInput);
    }
    var outcome := Fetch(web, url);
    if outcome.FetchFailed? {
      return Failure(Reason(outcome.error));
    }
    var doc := outcome.doc;
    var bd := Netloc(url);
    var lnk := AnalyzeLinks(doc.anchors, bd);
    var cnt := AnalyzeContact(doc);
    var cat := DetectCategory(doc.text);
    var sc, det := CalculateScore(url, doc.seo, lnk, cnt, doc.tech);
    var j := Judge(sc);
    r := Success(AnalysisResult(url, bd, sc, j.rank, j.caption, j.cls, det, doc.seo, lnk, cnt, doc.tech, cat, stamp));
  }

  /** The analysis is a function of its inputs: two answers that meet its promise coincide. */
  lemma AnalysisDeterministic(input: string, web: map<string, FetchOutcome>, stamp: string,
                              r1: Result<AnalysisResult, string>, r2: Result<AnalysisResult, string>)
    requires Analyzes(input, web, stamp, r1) && Analyzes(input, web, stamp, r2)
    ensures r1 == r2
  {
    var url := NormalizeUrl(input);
    if url != "" && Fetch(web, url).Fetched? {
      DetectedUnique(Categories, Lower(Fetch(web, url).doc.text), r1.value.category, r2.value.category);
    }
  }

  /** A successful analysis scores at most 100, ranks by `judge`, and keeps the normalised URL. */
  lemma ResultFacts(input: string, web: map<string, FetchOutcome>, stamp: string, r: Result<AnalysisResult, string>)
    requires Analyzes(input, web, stamp, r) && r.Success?
    ensures r.value.score <= 100
    ensures r.value.url == NormalizeUrl(input) && HasScheme(r.value.url) && !PathEmpty(r.value.url)
    ensures r.value.rank == Judge(r.value.score).rank
    ensures r.value.details[0].points == 10 <==> CheckHttps(r.value.url)
  {
    var a := r.value;
    var doc := Fetch(web, a.url).doc;
    DetailsBounded(a.url, doc.seo, a.links, a.contact, doc.tech);
  }

  /** The facts every stored result keeps: a seven-detail total of at most 100, judged by `judge`, of a normalised URL. */
  predicate Sound(a: AnalysisResult) {
    && |a.details| == 7
    && a.score == Total(a.details) <= 100
    && Judge(a.score) == Judgement(a.rank, a.caption, a.cls)
    && HasScheme(a.url) && !PathEmpty(a.url) && a.domain == Netloc(a.url)
  }

  lemma AnalyzedSound(input: string, web: map<string, FetchOutcome>, stamp: string, r: Result<AnalysisResult, string>)
    requires Analyzes(input, web, stamp, r) && r.Success?
    ensures Sound(r.value)
  {
    ResultFacts(input, web, stamp, r);
  }

  /** What every successful analysis stores. */
  lemma ResultSound(input: string, web: map<string, FetchOutcome>, stamp: string)
    requires AnalysisOf(input, web, stamp).Success?
    ensures Sound(AnalysisOf(input, web, stamp).value)
  {
    var url := NormalizeUrl(input);
    var doc := Fetch(web, url).doc;
    var a := ResultOf(url, doc, stamp);
    DetailsBounded(url, doc.seo, a.links, a.contact, doc.tech);
  }

  /** An input made only of whitespace is refused before any fetch, whatever the fetch would answer. */
  lemma BlankInputRefused(input: string, web: map<string, FetchOutcome>, stamp: string, r: Result<AnalysisResult, string>)
    requires forall i :: 0 <= i < |input| ==> IsSpace(input[i])
    requires Analyzes(input, web, stamp, r)
    ensures r == Failure(EmptyInput)
  {
    NormalizeEmptyIff(input);
  }
}
