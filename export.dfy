/**
 * `generate_csv`: the header of twenty-five column names and, for every
 * result, the dictionary handed to `csv.DictWriter.writerow`. The writer puts
 * a row's values in header order, fills a missing column with the empty
 * string and refuses a dictionary with a key the header does not name.
 */
module Export {
  import opened Wrappers
  import opened Text
  import opened Urls
  import opened Links
  import opened Scoring
  import opened Analysis

  /** The `fieldnames` of the writer, in column order. */
  const Header: seq<string> := [
    "分析日時", "URL", "スコア", "ランク", "判定", "業種", "HTTPS", "タイトル", "description",
    "viewport", "OGP", "H1数", "リンク総数", "内部", "外部", "SNS数", "SNS一覧", "採用",
    "フォーム", "電話", "メール", "Analytics", "構造化データ", "画像数", "alt未設定"]

  /** `"○" if b else "×"` */
  function Mark(b: bool): string { if b then "○" else "×" }

  /**
   * The dictionary written for one result, as its items in the order of the
   * literal (a Python dictionary keeps insertion order).
   */
  function Record(r: AnalysisResult): (items: seq<(string, string)>)
    ensures Keys(items) == Header
  {
    [("分析日時", r.analyzedAt), ("URL", r.url), ("スコア", NatToString(r.score)),
     ("ランク", r.rank), ("判定", r.caption), ("業種", r.category),
     ("HTTPS", Mark(CheckHttps(r.url))), ("タイトル", r.seo.title),
     ("description", Mark(|r.seo.description| > 0)), ("viewport", Mark(r.seo.hasViewport)),
     ("OGP", Mark(r.seo.hasOgp)), ("H1数", NatToString(r.seo.h1Count)),
     ("リンク総数", NatToString(r.links.totalLinks)), ("内部", NatToString(r.links.internalLinks)),
     ("外部", NatToString(r.links.externalLinks)), ("SNS数", NatToString(r.links.SnsCount())),
     ("SNS一覧", Join(r.links.snsOrder, " / ")), ("採用", Mark(r.links.recruitFound)),
     ("フォーム", Mark(r.contact.hasForm)), ("電話", r.contact.phoneNumber),
     ("メール", Mark(r.contact.hasEmailLink)), ("Analytics", Mark(r.tech.hasAnalytics)),
     ("構造化データ", Mark(r.tech.hasStructuredData)), ("画像数", NatToString(r.tech.imageCount)),
     ("alt未設定", NatToString(r.tech.imagesWithoutAlt))]
  }

  /** The keys of a dictionary's items, in order. */
  function Keys<V>(items: seq<(string, V)>): (ks: seq<string>)
    ensures |ks| == |items|
  {
    seq(|items|, i requires 0 <= i < |items| => items[i].0)
  }

  /** The values of a dictionary's items, in order. */
  function Values<V>(items: seq<(string, V)>): (vs: seq<V>)
    ensures |vs| == |items|
  {
    seq(|items|, i requires 0 <= i < |items| => items[i].1)
  }

  /** No two items share a key, as in any dictionary. */
  predicate DistinctKeys<V>(items: seq<(string, V)>) {
    forall i, j :: 0 <= i < j < |items| ==> items[i].0 != items[j].0
  }

  /** `d.get(k)`: the value of the item with key `k`. */
  function Lookup<V>(items: seq<(string, V)>, k: string): (v: Option<V>)
    ensures v.None? <==> forall i :: 0 <= i < |items| ==> items[i].0 != k
  {
    if items == [] then None
    else if items[0].0 == k then Some(items[0].1)
    else
      var rest := Lookup(items[1..], k);
      assert forall i :: 1 <= i < |items| ==> items[i] == items[1..][i - 1];
      rest
  }

  /** The row `DictWriter` writes for `d`: its value in every column, `restval` ("") where it has none. */
  function Cells(fieldnames: seq<string>, d: seq<(string, string)>): (row: seq<string>)
    ensures |row| == |fieldnames|
  {
    seq(|fieldnames|, i requires 0 <= i < |fieldnames| =>
      match Lookup(d, fieldnames[i])
      case Some(v) => v
      case None => "")
  }

  /** `writerow(d)` with the default `extrasaction="raise"`. */
  function WriteRow(fieldnames: seq<string>, d: seq<(string, string)>): (r: Result<seq<string>, string>)
    ensures r.Failure? <==> exists j :: 0 <= j < |d| && d[j].0 !in fieldnames
  {
    if exists j :: 0 <= j < |d| && d[j].0 !in fieldnames then Failure("dict contains fields not in fieldnames")
    else Success(Cells(fieldnames, d))
  }

  /** The row of one result: the dictionary's values, in the order of its items. */
  function Row(r: AnalysisResult): seq<string> {
    Values(Record(r))
  }

  /** What `generate_csv(results)` writes: the header line, then one row per result, in order. */
  function Table(results: seq<AnalysisResult>): Result<seq<seq<string>>, string> {
    if results == [] then Success([Header])
    else match Table(results[..|results| - 1])
      case Failure(e) => Failure(e)
      case Success(rows) =>
        match WriteRow(Header, Record(results[|results| - 1]))
        case Failure(e) => Failure(e)
        case Success(row) => Success(rows + [row])
  }

  /** The column names are distinct, so each column gets exactly one key. */
  lemma HeaderDistinct()
    ensures |Header| == 25
    ensures forall i, j :: 0 <= i < j < |Header| ==> Header[i] != Header[j]
  {
  }

  /** In a dictionary the value found under an item's key is that item's value. */
  lemma {:induction false} LookupAt<V>(items: seq<(string, V)>, i: int)
    requires DistinctKeys(items) && 0 <= i < |items|
    ensures Lookup(items, items[i].0) == Some(items[i].1)
  {
    if i > 0 {
      assert items[0].0 != items[i].0;
      assert forall p, q :: 0 <= p < q < |items[1..]| ==> items[1..][p] == items[p + 1] && items[1..][q] == items[q + 1];
      LookupAt(items[1..], i - 1);
    }
  }

  /** A dictionary whose keys are exactly the field names, in order, is written as its values. */
  lemma WriteInOrder(fieldnames: seq<string>, d: seq<(string, string)>)
    requires Keys(d) == fieldnames && DistinctKeys(d)
    ensures WriteRow(fieldnames, d) == Success(Values(d))
  {
    assert forall j :: 0 <= j < |d| ==> d[j].0 == fieldnames[j] && fieldnames[j] in fieldnames;
    assert !exists j :: 0 <= j < |d| && d[j].0 !in fieldnames;
    var row := Cells(fieldnames, d);
    forall i | 0 <= i < |fieldnames| ensures row[i] == Values(d)[i] {
      LookupAt(d, i);
    }
    assert row == Values(d);
  }

  /** So `writerow` accepts every result's dictionary and writes each value under its own column. */
  lemma RecordWritten(r: AnalysisResult)
    ensures WriteRow(Header, Record(r)) == Success(Row(r))
    ensures |Row(r)| == |Header|
  {
    HeaderDistinct();
    var d := Record(r);
    assert DistinctKeys(d) by {
      forall i, j | 0 <= i < j < |d| ensures d[i].0 != d[j].0 {
        assert d[i].0 == Header[i] && d[j].0 == Header[j];
      }
    }
    WriteInOrder(Header, d);
  }

  /** The writer never fails on results, and writes one 25-cell row per result after the header. */
  lemma {:induction false} TableShape(results: seq<AnalysisResult>)
    ensures Table(results).Success?
    ensures |Table(results).value| == |results| + 1
    ensures Table(results).value[0] == Header
    ensures forall i :: 0 <= i < |results| ==> Table(results).value[i + 1] == Row(results[i])
  {
    if results != [] {
      var p := results[..|results| - 1];
      TableShape(p);
      RecordWritten(results[|results| - 1]);
      assert forall i :: 0 <= i < |p| ==> p[i] == results[i];
    }
  }

  /** The score is written as a numeral that reads back as the score. */
  lemma ScoreCell(r: AnalysisResult)
    ensures ParseDecimal(Row(r)[2]) == r.score
  {
    Numeral(Row(r), 2, r.score);
  }

  /** A cell holding the numeral of `n` reads back as `n`. */
  lemma Numeral(row: seq<string>, i: int, n: nat)
    requires 0 <= i < |row| && row[i] == NatToString(n)
    ensures ParseDecimal(row[i]) == n
  {
    ParseNatToString(n);
  }

  /** The link counts read back from their columns. */
  lemma LinkCountCells(r: AnalysisResult)
    ensures ParseDecimal(Row(r)[12]) == r.links.totalLinks
    ensures ParseDecimal(Row(r)[13]) == r.links.internalLinks
    ensures ParseDecimal(Row(r)[14]) == r.links.externalLinks
    ensures ParseDecimal(Row(r)[15]) == r.links.SnsCount()
  {
    var row := Row(r);
    Numeral(row, 12, r.links.totalLinks);
    Numeral(row, 13, r.links.internalLinks);
    Numeral(row, 14, r.links.externalLinks);
    Numeral(row, 15, r.links.SnsCount());
  }

  /** The heading and image counts read back from their columns. */
  lemma PageCountCells(r: AnalysisResult)
    ensures ParseDecimal(Row(r)[11]) == r.seo.h1Count
    ensures ParseDecimal(Row(r)[23]) == r.tech.imageCount
    ensures ParseDecimal(Row(r)[24]) == r.tech.imagesWithoutAlt
  {
    var row := Row(r);
    Numeral(row, 11, r.seo.h1Count);
    Numeral(row, 23, r.tech.imageCount);
    Numeral(row, 24, r.tech.imagesWithoutAlt);
  }

  /** For an analysed result the HTTPS column is "○" exactly when the security detail scored its 10 points. */
  lemma HttpsCell(r: AnalysisResult)
    requires r.details == Details(r.url, r.seo, r.links, r.contact, r.tech)
    ensures Row(r)[6] == "○" <==> r.details[0].points == 10
  {
    HttpsOnlyFromUrl(r.url, r.seo, r.links, r.contact, r.tech, r.seo, r.links, r.contact, r.tech);
  }

  /** Joining non-empty pieces gives the empty string only for no pieces. */
  lemma {:induction false} JoinEmpty(parts: seq<string>, sep: string)
    requires forall i :: 0 <= i < |parts| ==> parts[i] != ""
    ensures Join(parts, sep) == "" <==> parts == []
  {
    if |parts| > 1 {
      assert Join(parts, sep) == parts[0] + sep + Join(parts[1..], sep);
    }
  }

  /**
   * The SNS list column is empty exactly when the count column is zero, for
   * link records whose key order lists exactly the networks found.
   */
  lemma SnsCell(r: AnalysisResult)
    requires forall n :: n in r.links.sns <==> n in r.links.snsOrder
    requires r.links.sns.Keys <= NetworkNames
    ensures Row(r)[16] == "" <==> r.links.SnsCount() == 0
  {
    var order := r.links.snsOrder;
    assert "" !in NetworkNames;
    JoinEmpty(order, " / ");
    if order != [] {
      assert order[0] in r.links.sns;
    } else {
      assert forall n :: n !in r.links.sns;
      assert r.links.sns == map[];
    }
  }

  /** `generate_csv`: `writeheader()`, then `writerow` for each result in turn; no call refuses its dictionary. */
  method GenerateCsv(results: seq<AnalysisResult>) returns (rows: seq<seq<string>>)
    ensures Table(results) == Success(rows)
  {
    rows := [Header];
    for i := 0 to |results|
      invariant Table(results[..i]) == Success(rows)
    {
      var w := WriteRow(Header, Record(results[i]));
      RecordWritten(results[i]);
      assert results[..i + 1][..i] == results[..i];
      rows := rows + [w.value];
    }
    assert results[..|results|] == results;
  }
}
