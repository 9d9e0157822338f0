# Digital maturity scorer: a verified model

This project models the scoring engine of a website "digital maturity" analysis tool (`app.py`) and proves properties of that model. The tool is used by a sales team to find companies whose websites leave room for improvement. Given a company URL, it:

- normalises the URL and fetches the page once;
- extracts SEO, link, contact and technology signals from the HTML;
- scores the page out of 100 in seven categories;
- ranks the score S (least mature, the best sales target) to D (digitally mature);
- classifies the company's industry by keywords.

The single-URL and batch screens keep results in a session. A batch takes its URLs from a text area or an uploaded CSV file, and results can be downloaded as CSV rows.

Modules, one per concern of the source:

- `Wrappers`: `Option` and `Result`.
- `Text`: the Python string operations the source relies on (`strip`, `split`, `join`, `lower`, `startswith`, `in`, `str(n)`).
- `Urls`: `normalize_url` and the parts of `urlparse` that it and `check_https` use.
- `Documents`: a fetched page as the extractors see it, and the error strings of `get_page_safely`.
- `Links`, `Contact`, `Category`: `analyze_links`, `analyze_contact`, `detect_category`.
- `Scoring`: `calculate_score` and `judge`.
- `Analysis`: `run_analysis`.
- `Summary`: the batch summary buckets and the score-ordered table.
- `App`: the session state, the single analysis, the batch loop and its pacing, and the clear buttons.
- `Intake`: the URL list from the text area and from an uploaded CSV.
- `Export`: the rows `generate_csv` writes.

Loops in the source are methods with loop invariants, proved equal to a function that specifies them. Properties of those functions are lemmas. The session is a class whose methods update its two lists.

## Model

| member | source | states |
|---|---|---|
| Urls.NormalizeUrl | app.py:86-91 | The result is empty exactly when the stripped input is empty; otherwise it has an `http://` or `https://` scheme and a non-empty path |
| Urls.CheckHttps | app.py:105 | A URL that passes has a scheme, and it is not plain `http://` |
| Urls.NormalizeUrlAsWritten | app.py:86-91 | As written, the result is empty exactly when the stripped input is empty |
| Urls.AsWrittenRooted | app.py:89-90 | As written, a non-blank input gets a scheme, and its path is non-empty or the URL ends in "/" |
| Urls.NormalizeEmptyIff | app.py:87-88 | The input is refused exactly when every character of it is whitespace |
| Urls.UnschemedIsHttps | app.py:89 | An input without a scheme becomes an `https://` URL, so it passes `check_https` |
| Urls.NormalizeKeepsHost | app.py:89-90 | Normalising keeps the scheme and host of the stripped input (`https` when it had none), and changes nothing when the input already has a path |
| Urls.NormalizedHasNoOuterSpace | app.py:87-91 | A normalised URL has no surrounding whitespace |
| Urls.NormalizeIdempotent | app.py:86-91 | Normalising an already normalised URL returns it unchanged |
| Urls.NormalizeFixed | app.py:86-91 | A stripped URL with a scheme and a non-empty path is its own normal form |
| Urls.InsertRootPath | app.py:90 | The corrected root-path step yields a URL with a scheme and a non-empty path |
| Urls.InsertRootPathKeeps | app.py:90 | That step inserts "/" at the end of the host, leaving the query and fragment as they were |
| Urls.DelimiterFrom | app.py:90 | The end of the host is the first '/', '?' or '#' after the scheme, or the end of the string |
| Urls.DelimiterFromIs | app.py:90 | Any position with that property is the host's end |
| Urls.AsWrittenAppendsToQuery | app.py:90 | As written, "a.jp?q" normalises to "https://a.jp?q/": the "/" lands in the query and the path stays empty |
| Urls.AsWrittenGrowsOnQuery | app.py:90 | As written, a URL with a query and no path gains another "/" every time it is normalised |
| Urls.AsWrittenNotIdempotent | app.py:86-91 | As written, normalising twice differs from normalising once whenever the input has a query or fragment and no path |
| Urls.CorrectedKeepsQuery | app.py:90 | The corrected normalisation turns "a.jp?q" into "https://a.jp/?q" |
| Urls.AgreeWithoutQuery | app.py:86-91 | For a non-blank input, the corrected and the as-written normalisation agree exactly when the URL does not have an empty path followed by a query or fragment |
| Documents.Reason | app.py:99-102 | Every fetch failure has a non-empty message: "HTTP " and the status code, or "エラー: " and at most 80 characters of the detail |
| Documents.ReasonsDistinguishKinds | app.py:99-102 | Failures of different kinds get different messages, and so do HTTP failures with different codes; two request errors share a message exactly when their details agree on the first 80 characters |
| Links.IsInternalAsWritten | app.py:127-128 | As written, the test agrees with the corrected one whenever the page host is already lowercase |
| Links.SnsNetwork | app.py:130-131 | A link's network is that of the first table entry whose domain occurs in its host, or none when no entry occurs; it is always a known network |
| Links.SnsFrom | app.py:130-131 | The table search from a given position finds the first match at or after it |
| Links.InternalExternalPartition | app.py:126-129 | Every link that is not skipped is counted as exactly one of internal or external |
| Links.ClassifyAnchor | app.py:125-134 | An anchor's classification is its specification; a skipped anchor has no network and no recruiting match |
| Links.ScanAnchors | app.py:124-134 | Folding the classified anchors gives the counts, the last URL per network in first-seen order, and the last recruiting URL |
| Links.LinksOf | app.py:121-135 | The total counts every anchor; the internal and external counts are those of the kept links, and together they are the kept links |
| Links.AnalyzeLinks | app.py:121-135 | The total counts every anchor, internal + external counts the kept ones, the networks found are exactly those tagged, each network maps to its last link's URL, keys are distinct and in first-seen order, and the recruiting flag and URL are those of the last matching link |
| Links.AsWrittenOwnHostExternal | app.py:122-128 | As written, a site typed as "Example.com" counts its own links as external |
| Links.OwnHostIsInternal | app.py:127-128 | With the corrected comparison, a link to the page's own host, in any letter case, is internal |
| Contact.HasMailto | app.py:142 | True exactly when some anchor's href starts with "mailto:" |
| Contact.ContactOf | app.py:137-146 | A phone is reported exactly when the text has a phone match, and then it is the first match; the e-mail flag is set exactly when some anchor is a `mailto:` link |
| Contact.AnalyzeContact | app.py:137-146 | A phone number is found exactly when the text has a phone match, and then it is the first match; the contact-page flag is set exactly when some anchor mentions a contact word |
| Category.Hits | app.py:151 | The count is at most the number of keywords, and is zero exactly when no lowercased keyword occurs in the text |
| Category.Winner | app.py:152-153 | The winner is a category position, or -1 |
| Category.WinnerIsFirstMax | app.py:152-153 | The winner is -1 exactly when no category has a hit; otherwise it has the most hits and beats every earlier category |
| Category.MaxIndex | app.py:153 | `max(sc, key=sc.get)` picks the first entry with the largest count |
| Category.DetectIn | app.py:148-153 | The loop's answer over any well-named table meets the classifier's promise |
| Category.DetectCategory | app.py:148-153 | The answer is "その他" exactly when no category has a hit; otherwise it is the first category with the most hits |
| Category.CategoryOfDetected | app.py:148-153 | The functional classifier meets that promise |
| Category.OtherIffNoHits | app.py:153 | "その他" is returned exactly when every count is zero |
| Category.FirstMaxUnique | app.py:153 | At most one category is the first maximum |
| Category.DetectedUnique | app.py:148-153 | The promise determines the answer |
| Category.HitBeatsOther | app.py:151-153 | A category with a hit rules out "その他", and the winner has at least as many hits |
| Scoring.HttpsPoints | app.py:167 | 10 points exactly when the URL starts with "https://", otherwise 0 |
| Scoring.SeoPoints | app.py:168-177 | At most 25, and 25 exactly when the title, description, viewport, single h1 and favicon all earn their full marks |
| Scoring.SnsPoints | app.py:178 | 5 points per network up to three, then 15; always a multiple of 5 |
| Scoring.RecruitPoints | app.py:197 | 10 points exactly when a recruiting link was found |
| Scoring.Details | app.py:165-198 | Seven details, in the source's order |
| Scoring.CalculateScore | app.py:165-198 | The score is the total of the seven details computed from the inputs |
| Scoring.SeoSubtotal | app.py:168-177 | The running SEO subtotal equals the SEO points |
| Scoring.ContentSubtotal | app.py:179-185 | The content subtotal equals the capped content points |
| Scoring.ContactSubtotal | app.py:186-191 | The contact subtotal equals the capped contact points |
| Scoring.TechSubtotal | app.py:192-196 | The technology subtotal equals the capped technology points |
| Scoring.BreakdownTotal | app.py:166-198 | The total is the sum of the seven points |
| Scoring.DetailsBounded | app.py:165-198 | No detail exceeds its maximum (10, 25, 15, 15, 15, 10, 10), so the score is at most 100 |
| Scoring.CapsNeverBind | app.py:179-196 | The `min` caps on content, contact and technology never change a value: the raw sums are already within them |
| Scoring.ContactMonotone | app.py:186-191 | More contact channels never lower the contact points |
| Scoring.ContentMonotone | app.py:179-185 | More links never lower the content points |
| Scoring.SnsMonotone | app.py:178 | More networks never lower the SNS points |
| Scoring.HttpsOnlyFromUrl | app.py:167 | The security detail depends only on the URL |
| Scoring.LadderMarks | app.py:177-196 | A detail is marked ✅ exactly at or above its upper threshold, and ❌ exactly below its lower one |
| Scoring.Judge | app.py:200-205 | S for at most 25, A for 26-40, B for 41-55, C for 56-70, D above 70 |
| Scoring.JudgeExhaustive | app.py:200-205 | Every score gets one of the five ranks, and the class is the lowercased rank |
| Scoring.JudgeMonotone | app.py:200-205 | A higher score never gets an earlier rank |
| Scoring.JudgeByRank | app.py:200-205 | The rank determines the label and the class |
| Analysis.Fetch | app.py:93-102 | A URL the network answers gets its outcome; any other URL fails with "接続エラー" |
| Analysis.RunAnalysis | app.py:228-236 | An empty input gives the input error, a failed fetch its reason, and a fetched page the result built from its extracted signals, score and judgement; every error message is non-empty |
| Analysis.AnalysisOfAnalyzes | app.py:228-236 | The functional analysis meets that promise, and no other answer does |
| Analysis.AnalysisDeterministic | app.py:228-236 | Two answers that meet the promise are equal |
| Analysis.ResultFacts | app.py:229-236 | A result scores at most 100, keeps the normalised URL, ranks by `judge`, and gets the security points exactly for an https URL |
| Analysis.AnalyzedSound | app.py:228-236 | A result that meets the promise is sound: seven details, total at most 100, judged by its score, host taken from its URL |
| Analysis.ResultSound | app.py:228-236 | Every successful analysis is sound |
| Analysis.BlankInputRefused | app.py:229-230 | An input made only of whitespace is refused before any fetch |
| Summary.BucketOf | app.py:469-471 | Target for at most 40, maybe for 41-55, safe above 55 |
| Summary.BucketByRank | app.py:469-471 | The target bucket is ranks S and A, the maybe bucket is rank B, the safe bucket is ranks C and D |
| Summary.InBucket | app.py:469-471 | A bucket keeps only results of that bucket, taken from the batch |
| Summary.BucketsPartition | app.py:469-471 | The three buckets together hold every result exactly once |
| Summary.Insert | app.py:485 | Inserting adds one element and keeps all others |
| Summary.SortBy | app.py:485 | Sorting permutes its input |
| Summary.InsertSorted | app.py:485 | Inserting into a sorted list keeps it sorted |
| Summary.SortSorted | app.py:485 | `sorted` orders by score, ascending |
| Summary.InsertStable | app.py:485 | Insertion keeps the order of results with equal scores |
| Summary.SortStable | app.py:485 | `sorted` is stable: results with equal scores keep their batch order |
| Summary.ScoreTable | app.py:485 | The table is the batch, ordered by score, stable and a permutation |
| App.PacingCounts | app.py:438-451 | After i of n items the loop has visited items 0 to i-1 in order, with a pause after each but the last |
| App.BatchPacing | app.py:449-451 | A batch of n URLs pauses n-1 times and ends with a visit to the last URL |
| App.SuccessesAppend | app.py:443-447 | The results of two runs in a row are the results of the first, then those of the second |
| App.FailuresAppend | app.py:443-444 | The same holds for the error lists |
| App.LandsOnce | app.py:442-447 | Each item lands in exactly one of the two lists: a result if it succeeded, its URL and reason if it failed |
| App.SplitCount | app.py:442-447 | Results plus errors account for every URL |
| App.OutcomesAt | app.py:438-442 | The i-th outcome of a batch is the analysis of the i-th URL |
| App.AnalysedOutcomes | app.py:438-447 | The loop's outcomes are those of analysing each URL in turn |
| App.AllSoundAppend | app.py:446-447 | Appending sound results keeps a list sound |
| App.AnalyzeSound | app.py:300-303 | The analysis of one input is the functional analysis, and a result it yields is sound |
| App.AnalyzeItem | app.py:442-447 | One batch step analyses the next URL, and a result it yields is sound |
| App.Batch | app.py:431-451 | The batch results are the successes in URL order, the errors are the failures with their URLs, and the pacing trace is one visit per URL with a pause between visits |
| App.Press | app.py:300-306 | Nothing happens for an empty input; otherwise the result is shown and a success is appended to the history |
| App.Session.constructor | app.py:264-265 | A new session has an empty history and no batch results |
| App.Session.AnalyzeOne | app.py:300-306 | A single analysis appends its success to the history and leaves the batch results alone |
| App.Session.RunBatch | app.py:431-451 | A non-empty batch replaces the batch results with its successes and appends them to the history; an empty one changes nothing |
| App.Session.ClearBatch | app.py:527-528 | Clearing the batch empties the batch results and keeps the history |
| App.Session.ClearHistory | app.py:547-548 | Clearing the history empties it and keeps the batch results |
| Intake.NonBlankClean | app.py:406 | Every URL taken from the text area is stripped, non-empty and on one line |
| Intake.TextUrls | app.py:406 | Every URL taken from the text area is stripped, non-empty and on one line |
| Intake.NonBlankKeeps | app.py:406 | Lines that are already stripped and non-empty are all kept, in order |
| Intake.TextUrlsRoundTrip | app.py:406 | Writing clean URLs one per line and reading the text area back gives the same list |
| Intake.LooksLikeUrl | app.py:417-418 | A cell without a "." passes only when it starts with "http://" or "https://" |
| Intake.RowUrlNone | app.py:415-420 | A row yields no URL exactly when none of its cleaned cells looks like a URL |
| Intake.RowUrlFound | app.py:415-420 | A row's URL is its first cell that looks like a URL, cleaned |
| Intake.ScanRow | app.py:415-420 | The cell loop with its `break` finds that first URL cell |
| Intake.LineUrlsFacts | app.py:413-420 | A CSV line contributes at most one URL, and only one that looks like a URL |
| Intake.ReadCsvUrls | app.py:410-420 | The upload scan collects each line's URL, in line order |
| Intake.CsvUrlsFacts | app.py:412-420 | The upload yields at most one URL per line, and each looks like a URL |
| Intake.CoJpRedundant | app.py:418 | The ".co.jp" entry of the suffix list never changes the outcome |
| Intake.CoJpIsJp | app.py:418 | A cell that ends in ".co.jp" or contains ".co.jp/" also matches ".jp" |
| Export.Record | app.py:241-260 | Every result's dictionary has exactly the header's names as its keys, in header order |
| Export.Lookup | app.py:244-260 | A key has no value exactly when no item carries it |
| Export.LookupAt | app.py:244-260 | In a dictionary, the value found under an item's key is that item's value |
| Export.WriteRow | app.py:244-260 | `writerow` refuses exactly the dictionaries that have a key outside the header |
| Export.WriteInOrder | app.py:242-260 | A dictionary keyed exactly by the header, in order, is written as its values |
| Export.RecordWritten | app.py:243-260 | No result's dictionary is refused, and each becomes a 25-cell row |
| Export.TableShape | app.py:239-261 | The output is the header and then one row per result, in order |
| Export.GenerateCsv | app.py:239-261 | The writer loop produces exactly that table |
| Export.ScoreCell | app.py:245 | The score column reads back as the score |
| Export.LinkCountCells | app.py:251-252 | The link and network count columns read back as the counts |
| Export.PageCountCells | app.py:250-259 | The h1 and image count columns read back as the counts |
| Export.HttpsCell | app.py:247 | For an analysed result the HTTPS column is "○" exactly when the security detail scored 10 |
| Export.SnsCell | app.py:252-253 | The network list column is empty exactly when the network count is zero |

## Left out

- The network is a map from URL to what `get_page_safely` returns. A URL missing from the map gives the connection error. Request headers, the 15-second timeout, redirects and encoding repair are not modelled.
- HTML parsing is left out. The SEO and technology extractors (`analyze_meta_seo`, `analyze_tech`) are fields of the fetched page. So are the anchors' hrefs, texts, resolved URLs (`urljoin`) and the page text.
- The hosts of resolved link URLs are given with each anchor rather than computed by `urlparse`, as are the phone-number matches of the regular expression. The model keeps the first match.
- Lowercasing covers ASCII letters only. Python's `lower` also maps other scripts, but the keywords here are ASCII or Japanese.
- Timestamps (`analyzed_at`) are parameters. The date format and download file names are not modelled.
- The Streamlit interface is left out: layout, progress bar, status text, data frames, radar chart and PDF downloads. `pdf_report.py` and `test.py` are not part of this model.
- The batch average (`avg_score`) uses floating point and is not modelled.
- `time.sleep(1)` is modelled as a pause event in a trace.
- App.Session.RunBatch appends all of a batch's results to the history after the loop, not one at a time. When no exception escapes the loop, the final state is the same.
- Urls.NormalizeUrl: `urlparse` raises `ValueError` for a host with an unmatched "[" or "]", and for a non-ASCII host whose NFKC form contains one of "/?#@:" (such as "https：//example.co.jp"); the model returns a URL for every non-blank input instead.
- Analysis.RunAnalysis: that `ValueError`, and the one `urljoin` raises for an href such as "http://[x", escapes `run_analysis`; the model answers every input with a result or an error message.
- App.Press: when that exception escapes, the source's button handler stops without showing a result or touching the history; the model treats every input as analysed or refused.
- App.Batch: when that exception escapes, the source's batch loop stops at that URL, so only the earlier URLs have results, and the errors gathered so far are never shown; the model analyses every URL.
- App.Session.AnalyzeOne: the same exception leaves the source's history unchanged and shows nothing; the model appends or shows an outcome for every input.
- App.Session.RunBatch: after such an exception the source keeps, in the batch results and the history, the results of the URLs before the failing one, and drops the error list; the model stores a result or an error for every URL.
- Reading the upload and its UTF-8 BOM decoding are left out. The content is given as a string.
- Export: `csv.DictWriter` quoting and the text it writes are left out. The model gives the rows of cells.
- A Python dictionary is modelled as its items in insertion order.
- The analysis pipeline (Analysis.RunAnalysis, Analysis.AnalysisOf, App.Batch, App.Session and the Export rows) uses the corrected Urls.NormalizeUrl and Links.IsInternal of the Findings below, not the code as written. The two differ on inputs such as "a.jp?q", which the source analyses as "https://a.jp?q/" and the model as "https://a.jp/?q", and "Example.com", whose own links the source counts as external and the model as internal. Urls.NormalizeUrlAsWritten and Links.IsInternalAsWritten model the code as written.
- Apart from those two findings, the model follows the code where a reader might expect otherwise:
  - The recruiting URL is that of the last matching link, not the first (app.py:128-134): the inner `break` leaves only the keyword loop.
  - `check_https` judges the normalised input URL, not the URL reached after redirects (app.py:105).

## Findings

| source | as written | input that shows it | evidently intended | confidence | as-written member | corrected member |
|---|---|---|---|---|---|---|
| app.py:90 | adds "/" at the end of the whole string when the path is empty | "a.jp?q" becomes "https://a.jp?q/": the query changes, the path stays empty, and normalising again adds another "/" | insert "/" where the host ends, giving "https://a.jp/?q" | medium, not executed | Urls.AsWrittenAppendsToQuery | Urls.CorrectedKeepsQuery |
| app.py:122-128 | compares the lowercased link host with the page host as typed | an input of "Example.com" makes every link to "example.com" external | compare the hosts without regard to letter case | medium, not executed | Links.AsWrittenOwnHostExternal | Links.OwnHostIsInternal |
