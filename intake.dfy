/**
 * The two ways the batch tab reads its list of URLs: a text area holding one
 * URL per line, and an uploaded CSV file whose rows are scanned for the first
 * cell that looks like a URL.
 */
module Intake {
  import opened Wrappers
  import opened Text

  /** The stripped, non-blank lines of `lines`, in order. */
  function NonBlank(lines: seq<string>): seq<string> {
    if lines == [] then []
    else (if Strip(lines[0]) != "" then [Strip(lines[0])] else []) + NonBlank(lines[1..])
  }

  /**
   * `[u.strip() for u in url_text.strip().split("\n") if u.strip()]`: every URL
   * taken is non-empty, has no outer whitespace and is one line.
   */
  function TextUrls(text: string): (urls: seq<string>)
    ensures forall k :: 0 <= k < |urls| ==> OneLine(urls[k])
  {
    NonBlankClean(Split(Strip(text), '\n'));
    NonBlank(Split(Strip(text), '\n'))
  }

  /** A non-empty string without whitespace at either end: what `strip()` leaves of a non-blank line. */
  predicate Bare(u: string) {
    u != "" && !IsSpace(u[0]) && !IsSpace(u[|u| - 1])
  }

  /** A bare string of one line: what the text area yields per URL. */
  predicate OneLine(u: string) {
    Bare(u) && '\n' !in u
  }

  /** `strip()` leaves a bare string alone. */
  lemma BareStripped(u: string)
    requires Bare(u)
    ensures Strip(u) == u
  {
    TrimUnchanged(u, IsSpace);
  }

  /** A stripped piece of a line holds no line break. */
  lemma StripInside(line: string)
    requires '\n' !in line
    ensures '\n' !in Strip(line)
  {
    var t := TrimStart(line, IsSpace);
    assert forall m :: 0 <= m < |t| ==> t[m] == line[|line| - |t| + m];
  }

  lemma {:induction false} NonBlankClean(lines: seq<string>)
    requires forall k :: 0 <= k < |lines| ==> '\n' !in lines[k]
    ensures forall k :: 0 <= k < |NonBlank(lines)| ==> OneLine(NonBlank(lines)[k])
  {
    if lines != [] {
      var rest := lines[1..];
      assert forall k :: 0 <= k < |rest| ==> rest[k] == lines[k + 1];
      NonBlankClean(rest);
      var u := Strip(lines[0]);
      var nb := NonBlank(lines);
      if u != "" {
        StripEnds(lines[0]);
        StripInside(lines[0]);
        assert OneLine(u);
        assert nb == [u] + NonBlank(rest);
        forall k | 0 <= k < |nb| ensures OneLine(nb[k]) {
          if k > 0 {
            assert nb[k] == NonBlank(rest)[k - 1];
          }
        }
      } else {
        assert nb == NonBlank(rest);
      }
    }
  }

  lemma {:induction false} NonBlankKeeps(lines: seq<string>)
    requires forall k :: 0 <= k < |lines| ==> Bare(lines[k])
    ensures NonBlank(lines) == lines
  {
    if lines != [] {
      NonBlankKeeps(lines[1..]);
      NonBlankBare(lines);
    }
  }

  /** A bare first line is kept as it is. */
  lemma NonBlankBare(lines: seq<string>)
    requires lines != [] && Bare(lines[0])
    ensures NonBlank(lines) == [lines[0]] + NonBlank(lines[1..])
  {
    BareStripped(lines[0]);
  }

  lemma {:induction false} JoinFirst(parts: seq<string>, sep: string)
    requires |parts| >= 1 && parts[0] != ""
    ensures Join(parts, sep) != "" && Join(parts, sep)[0] == parts[0][0]
  {
  }

  lemma {:induction false} JoinLast(parts: seq<string>, sep: string)
    requires |parts| >= 1 && parts[|parts| - 1] != ""
    ensures Join(parts, sep) != "" && Join(parts, sep)[|Join(parts, sep)| - 1] == parts[|parts| - 1][|parts[|parts| - 1]| - 1]
  {
    if |parts| > 1 {
      JoinLast(parts[1..], sep);
      assert parts[1..][|parts[1..]| - 1] == parts[|parts| - 1];
    }
  }

  /** A list of bare one-line URLs typed one per line reads back as the same list. */
  lemma TextUrlsRoundTrip(urls: seq<string>)
    requires forall k :: 0 <= k < |urls| ==> OneLine(urls[k])
    ensures TextUrls(Join(urls, "\n")) == urls
  {
    var text := Join(urls, "\n");
    if urls == [] {
      assert Split(Strip(text), '\n') == [""];
    } else {
      JoinFirst(urls, "\n");
      JoinLast(urls, "\n");
      TrimUnchanged(text, IsSpace);
      assert Strip(text) == text;
      SplitJoin(urls, '\n');
      assert Split(text, '\n') == urls;
      NonBlankKeeps(urls);
    }
    assert TextUrls(text) == NonBlank(Split(Strip(text), '\n'));
  }

  /** The domain endings the CSV scan accepts. */
  const Suffixes: seq<string> := [".jp", ".com", ".co.jp", ".net", ".org", ".io"]

  /** `cell.strip().strip('"')` */
  function Clean(cell: string): string { StripQuotes(Strip(cell)) }

  /** `cell.endswith(d) or d + "/" in cell` */
  predicate InDomain(cell: string, d: string) {
    EndsWith(cell, d) || Contains(cell, d + "/")
  }

  /** `any(... for d in ds)` */
  predicate EndsInDomain(cell: string, ds: seq<string>) {
    exists k :: 0 <= k < |ds| && InDomain(cell, ds[k])
  }

  /**
   * The two tests a cleaned cell has to pass to be taken as a URL; a cell
   * without a dot passes only with an explicit `http://` or `https://`.
   */
  predicate LooksLikeUrl(cell: string): (b: bool)
    ensures b && '.' !in cell ==> StartsWith(cell, "http://") || StartsWith(cell, "https://")
  {
    && (StartsWith(cell, "http://") || StartsWith(cell, "https://") || '.' in cell)
    && (EndsInDomain(cell, Suffixes) || StartsWith(cell, "http"))
  }

  /** The value of the first element that `f` maps to a value. */
  function FirstSome<T, U>(s: seq<T>, f: T -> Option<U>): Option<U> {
    if s == [] then None else if f(s[0]).Some? then f(s[0]) else FirstSome(s[1..], f)
  }

  /** The search over a concatenation: the first part's value if it has one, else the second part's. */
  lemma {:induction false} FirstSomeAppend<T, U>(a: seq<T>, b: seq<T>, f: T -> Option<U>)
    ensures FirstSome(a + b, f) == if FirstSome(a, f).Some? then FirstSome(a, f) else FirstSome(b, f)
  {
    if a == [] {
      assert a + b == b;
    } else {
      FirstSomeAppend(a[1..], b, f);
      assert (a + b)[0] == a[0] && (a + b)[1..] == a[1..] + b;
    }
  }

  /** The search stops at the first element with a value. */
  lemma FirstSomeAt<T, U>(s: seq<T>, j: int, f: T -> Option<U>)
    requires 0 <= j < |s| && FirstSome(s[..j], f).None? && f(s[j]).Some?
    ensures FirstSome(s, f) == f(s[j])
  {
    assert s == s[..j] + s[j..];
    FirstSomeAppend(s[..j], s[j..], f);
  }

  /** An element without a value extends a search that found nothing. */
  lemma FirstSomePast<T, U>(s: seq<T>, j: int, f: T -> Option<U>)
    requires 0 <= j < |s| && FirstSome(s[..j], f).None? && f(s[j]).None?
    ensures FirstSome(s[..j + 1], f).None?
  {
    assert s[..j + 1] == s[..j] + [s[j]];
    FirstSomeAppend(s[..j], [s[j]], f);
  }

  lemma FirstSomeWhole<T, U>(s: seq<T>, f: T -> Option<U>)
    ensures FirstSome(s[..|s|], f) == FirstSome(s, f)
  {
    assert s[..|s|] == s;
  }

  lemma {:induction false} FirstSomeNone<T, U>(s: seq<T>, f: T -> Option<U>)
    ensures FirstSome(s, f).None? <==> forall k :: 0 <= k < |s| ==> f(s[k]).None?
  {
    if s != [] {
      FirstSomeNone(s[1..], f);
      assert forall k :: 1 <= k < |s| ==> s[k] == s[1..][k - 1];
    }
  }

  lemma {:induction false} FirstSomeFound<T, U>(s: seq<T>, f: T -> Option<U>)
    requires FirstSome(s, f).Some?
    ensures exists j :: 0 <= j < |s| && FirstSome(s, f) == f(s[j]) && forall k :: 0 <= k < j ==> f(s[k]).None?
  {
    if f(s[0]).None? {
      FirstSomeFound(s[1..], f);
      var j :| 0 <= j < |s[1..]| && FirstSome(s[1..], f) == f(s[1..][j]) && forall k :: 0 <= k < j ==> f(s[1..][k]).None?;
      forall k | 0 <= k < j + 1 ensures f(s[k]).None? {
        if k > 0 {
          assert s[k] == s[1..][k - 1];
        }
      }
      assert s[j + 1] == s[1..][j];
    }
  }

  /** A found value inherits what every element's value satisfies. */
  lemma {:induction false} FirstSomeKeeps<T, U>(s: seq<T>, f: T -> Option<U>, p: U -> bool)
    requires forall k :: 0 <= k < |s| && f(s[k]).Some? ==> p(f(s[k]).value)
    ensures FirstSome(s, f).Some? ==> p(FirstSome(s, f).value)
  {
    if s != [] && f(s[0]).None? {
      assert forall k :: 0 <= k < |s[1..]| ==> s[1..][k] == s[k + 1];
      FirstSomeKeeps(s[1..], f, p);
    }
  }

  /** A cell's URL: the cleaned cell, when it looks like one. */
  function CellUrl(cell: string): Option<string> {
    if LooksLikeUrl(Clean(cell)) then Some(Clean(cell)) else None
  }

  /** The first cell of a row that looks like a URL, cleaned. */
  function RowUrl(cells: seq<string>): Option<string> {
    FirstSome(cells, CellUrl)
  }

  /** What one line of the file contributes: its first URL-like cell, if any. */
  function LineUrls(line: string): seq<string> {
    Piece(RowUrl(Split(line, ',')))
  }

  /** The value of `o` as a list of at most one element. */
  function Piece<U>(o: Option<U>): seq<U> {
    match o
    case Some(u) => [u]
    case None => []
  }

  /** Every element of `s` satisfies `p`. */
  predicate AllOf<U>(s: seq<U>, p: U -> bool) {
    forall k :: 0 <= k < |s| ==> p(s[k])
  }

  lemma PieceOf<U>(o: Option<U>, p: U -> bool)
    requires o.Some? ==> p(o.value)
    ensures |Piece(o)| <= 1 && AllOf(Piece(o), p)
  {
  }

  /** The pieces `f` gives the elements of `s`, concatenated in order. */
  function Collect<T, U>(s: seq<T>, f: T -> seq<U>): seq<U> {
    if s == [] then [] else Collect(s[..|s| - 1], f) + f(s[|s| - 1])
  }

  /** The URLs the CSV scan takes from the decoded file content. */
  function CsvUrls(content: string): seq<string> {
    Collect(Split(Strip(content), '\n'), LineUrls)
  }

  /** Cell `j` is the first of the row that looks like a URL. */
  predicate FirstUrlCell(cells: seq<string>, j: int) {
    && 0 <= j < |cells| && LooksLikeUrl(Clean(cells[j]))
    && forall k :: 0 <= k < j ==> !LooksLikeUrl(Clean(cells[k]))
  }

  /** Every URL a cell gives looks like one. */
  lemma CellUrlLooks(cells: seq<string>)
    ensures forall k :: 0 <= k < |cells| && CellUrl(cells[k]).Some? ==> LooksLikeUrl(CellUrl(cells[k]).value)
  {
  }

  /** A row yields nothing exactly when none of its cells looks like a URL. */
  lemma RowUrlNone(cells: seq<string>)
    ensures RowUrl(cells).None? <==> forall k :: 0 <= k < |cells| ==> !LooksLikeUrl(Clean(cells[k]))
  {
    FirstSomeNone(cells, CellUrl);
  }

  /** Otherwise it yields its first URL-like cell, cleaned. */
  lemma RowUrlFound(cells: seq<string>)
    requires RowUrl(cells).Some?
    ensures LooksLikeUrl(RowUrl(cells).value)
    ensures exists j :: FirstUrlCell(cells, j) && RowUrl(cells).value == Clean(cells[j])
  {
    FirstSomeFound(cells, CellUrl);
    var j :| 0 <= j < |cells| && RowUrl(cells) == CellUrl(cells[j]) && forall k :: 0 <= k < j ==> CellUrl(cells[k]).None?;
    assert FirstUrlCell(cells, j);
  }

  /** One more element adds its piece at the end. */
  lemma CollectSnoc<T, U>(s: seq<T>, i: int, f: T -> seq<U>)
    requires 0 <= i < |s|
    ensures Collect(s[..i + 1], f) == Collect(s[..i], f) + f(s[i])
  {
    assert s[..i + 1][..i] == s[..i];
  }

  /** With pieces of at most one element each satisfying `p`, the result is no longer than `s` and satisfies `p`. */
  lemma {:induction false} CollectSmall<T, U>(s: seq<T>, f: T -> seq<U>, p: U -> bool)
    requires forall i :: 0 <= i < |s| ==> |f(s[i])| <= 1 && AllOf(f(s[i]), p)
    ensures |Collect(s, f)| <= |s|
    ensures AllOf(Collect(s, f), p)
  {
    if s != [] {
      var q := s[..|s| - 1];
      assert forall i :: 0 <= i < |q| ==> q[i] == s[i];
      CollectSmall(q, f, p);
    }
  }

  /** A line gives at most one URL, and it passes both tests. */
  lemma LineUrlsFacts(line: string)
    ensures |LineUrls(line)| <= 1 && AllOf(LineUrls(line), LooksLikeUrl)
  {
    var cells := Split(line, ',');
    CellUrlLooks(cells);
    FirstSomeKeeps(cells, CellUrl, LooksLikeUrl);
    PieceOf(RowUrl(cells), LooksLikeUrl);
  }

  /**
   * The scan of one row: its cells are cleaned in order and the first that
   * looks like a URL is taken; the `break` ends the scan of this row.
   */
  method ScanRow(cells: seq<string>) returns (u: Option<string>)
    ensures u == RowUrl(cells)
  {
    var j := 0;
    while j < |cells|
      invariant 0 <= j <= |cells|
      invariant FirstSome(cells[..j], CellUrl).None?
    {
      var cell := CellUrl(cells[j]);
      if cell.Some? {
        FirstSomeAt(cells, j, CellUrl);
        return cell;
      }
      FirstSomePast(cells, j, CellUrl);
      j := j + 1;
    }
    FirstSomeWhole(cells, CellUrl);
    return None;
  }

  /** The CSV branch of the batch tab: the lines of the stripped content are read in order. */
  method ReadCsvUrls(content: string) returns (urls: seq<string>)
    ensures urls == CsvUrls(content)
  {
    var lines := Split(Strip(content), '\n');
    urls := [];
    for i := 0 to |lines|
      invariant urls == Collect(lines[..i], LineUrls)
    {
      var u := ScanRow(Split(lines[i], ','));
      CollectLine(lines, i, u);
      if u.Some? {
        urls := urls + [u.value];
      }
    }
    CollectWhole(lines, LineUrls);
  }

  /** Collecting over the whole of `s` taken as a prefix. */
  lemma CollectWhole<T, U>(s: seq<T>, f: T -> seq<U>)
    ensures Collect(s[..|s|], f) == Collect(s, f)
  {
    assert s[..|s|] == s;
  }


  /** The URLs of one more line are those of the lines before it and the row's URL, if any. */
  lemma CollectLine(lines: seq<string>, i: int, u: Option<string>)
    requires 0 <= i < |lines| && u == RowUrl(Split(lines[i], ','))
    ensures Collect(lines[..i + 1], LineUrls) == Collect(lines[..i], LineUrls) + (if u.Some? then [u.value] else [])
  {
    CollectSnoc(lines, i, LineUrls);
  }

  /** At most one URL per line, and every URL taken passes both tests. */
  lemma CsvUrlsFacts(content: string)
    ensures |CsvUrls(content)| <= |Split(Strip(content), '\n')|
    ensures forall k :: 0 <= k < |CsvUrls(content)| ==> LooksLikeUrl(CsvUrls(content)[k])
  {
    var lines := Split(Strip(content), '\n');
    forall i | 0 <= i < |lines|
      ensures |LineUrls(lines[i])| <= 1 && AllOf(LineUrls(lines[i]), LooksLikeUrl)
    {
      LineUrlsFacts(lines[i]);
    }
    CollectSmall(lines, LineUrls, LooksLikeUrl);
  }

  /** The ".co.jp" entry never decides anything: every cell it accepts, ".jp" accepts too. */
  lemma CoJpRedundant(cell: string)
    ensures EndsInDomain(cell, Suffixes) <==> EndsInDomain(cell, [".jp", ".com", ".net", ".org", ".io"])
  {
    var others := [".jp", ".com", ".net", ".org", ".io"];
    if EndsInDomain(cell, Suffixes) {
      var k :| 0 <= k < |Suffixes| && InDomain(cell, Suffixes[k]);
      if k == 2 {
        CoJpIsJp(cell);
        assert InDomain(cell, others[0]);
      } else {
        var m := if k < 2 then k else k - 1;
        assert others[m] == Suffixes[k];
        assert InDomain(cell, others[m]);
      }
    }
    if EndsInDomain(cell, others) {
      var m :| 0 <= m < |others| && InDomain(cell, others[m]);
      var k := if m < 2 then m else m + 1;
      assert others[m] == Suffixes[k];
      assert InDomain(cell, Suffixes[k]);
    }
  }

  /** A string that ends with `a + b` ends with `b`; one that contains `a + b` contains `b`. */
  lemma Within(s: string, a: string, b: string)
    ensures EndsWith(s, a + b) ==> EndsWith(s, b)
    ensures Contains(s, a + b) ==> Contains(s, b)
  {
    if EndsWith(s, a + b) {
      assert s[|s| - |b|..] == s[|s| - |a + b|..][|a|..];
    }
    if Contains(s, a + b) {
      var i :| 0 <= i <= |s| - |a + b| && OccursAt(s, a + b, i);
      assert s[i + |a|..i + |a| + |b|] == s[i..i + |a + b|][|a|..];
      assert OccursAt(s, b, i + |a|);
    }
  }

  /** A cell that ends with ".co.jp", or has ".co.jp/" in it, does the same with ".jp". */
  lemma CoJpIsJp(cell: string)
    requires InDomain(cell, ".co.jp")
    ensures InDomain(cell, ".jp")
  {
    assert ".co.jp" == ".co" + ".jp";
    assert ".co.jp" + "/" == ".co" + (".jp" + "/");
    Within(cell, ".co", ".jp");
    Within(cell, ".co", ".jp" + "/");
  }
}
