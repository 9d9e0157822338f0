/**
 * The industry classifier `detect_category`: for each category of a fixed,
 * ordered table it counts the keywords found in the lowercased page text, and
 * picks the category with the most hits, the earliest one on a tie, or
 * "その他" when nothing is found.
 */
module Category {
  import opened Text

  /** `CATEGORY_KEYWORDS` in declaration order. */
  const Categories: seq<(string, seq<string>)> := [
    ("製造", ["製造", "工場", "製作所", "メーカー", "manufacturing", "factory"]),
    ("IT・Web", ["システム", "ソフトウェア", "IT", "Web", "アプリ", "デジタル", "tech"]),
    ("建設・不動産", ["建設", "建築", "不動産", "工務店", "リフォーム", "housing"]),
    ("飲食", ["飲食", "レストラン", "食堂", "カフェ", "料理", "food"]),
    ("小売", ["販売", "ショップ", "ストア", "store", "shop", "通販"]),
    ("医療・介護", ["医療", "クリニック", "病院", "介護", "福祉", "歯科"]),
    ("教育", ["教育", "学校", "スクール", "塾", "学習", "academy"]),
    ("士業", ["税理士", "会計士", "弁護士", "司法書士", "行政書士", "社労士"])]

  /** The answer when no keyword is found. */
  const Other: string := "その他"

  /** `sum(1 for k in kws if k.lower() in text)` */
  function Hits(text: string, kws: seq<string>): (n: nat)
    ensures n <= |kws|
    ensures n == 0 <==> forall k :: 0 <= k < |kws| ==> !Contains(text, Lower(kws[k]))
  {
    if kws == [] then 0
    else
      var rest := Hits(text, kws[1..]);
      assert forall k :: 1 <= k < |kws| ==> kws[k] == kws[1..][k - 1];
      (if Contains(text, Lower(kws[0])) then 1 else 0) + rest
  }

  /** The hit count of every category of `tbl`, in table order. */
  function Counts(tbl: seq<(string, seq<string>)>, text: string): (cs: seq<nat>)
    ensures |cs| == |tbl|
  {
    seq(|tbl|, i requires 0 <= i < |tbl| => Hits(text, tbl[i].1))
  }

  /** Category `w` has hits, at least as many as any other, and more than every earlier one. */
  predicate FirstMax(cs: seq<nat>, w: int) {
    && 0 <= w < |cs| && cs[w] > 0
    && (forall i :: 0 <= i < |cs| ==> cs[i] <= cs[w])
    && (forall i :: 0 <= i < w ==> cs[i] < cs[w])
  }

  /** What `detect_category` promises about its answer `c` over table `tbl` for the lowercased text `lt`. */
  predicate Detected(tbl: seq<(string, seq<string>)>, lt: string, c: string) {
    var cs := Counts(tbl, lt);
    if forall i :: 0 <= i < |cs| ==> cs[i] == 0 then c == Other
    else exists w :: 0 <= w < |cs| && FirstMax(cs, w) && c == tbl[w].0
  }

  /** The table's names are distinct and none of them is "その他". */
  predicate WellNamed(tbl: seq<(string, seq<string>)>) {
    && (forall w :: 0 <= w < |tbl| ==> tbl[w].0 != Other)
    && (forall v, w :: 0 <= v < w < |tbl| ==> tbl[v].0 != tbl[w].0)
  }

  lemma CategoriesWellNamed()
    ensures WellNamed(Categories)
  {
  }

  /** The first position of the largest positive count, or -1 when every count is zero. */
  function Winner(cs: seq<nat>): (w: int)
    ensures -1 <= w < |cs|
  {
    if cs == [] then -1
    else
      var w := Winner(cs[..|cs| - 1]);
      var last := |cs| - 1;
      if cs[last] > 0 && (w < 0 || cs[last] > cs[w]) then last else w
  }

  lemma {:induction false} WinnerIsFirstMax(cs: seq<nat>)
    ensures Winner(cs) < 0 <==> forall i :: 0 <= i < |cs| ==> cs[i] == 0
    ensures Winner(cs) >= 0 ==> FirstMax(cs, Winner(cs))
  {
    if cs != [] {
      var p := cs[..|cs| - 1];
      WinnerIsFirstMax(p);
      assert forall i :: 0 <= i < |p| ==> p[i] == cs[i];
    }
  }

  /** `detect_category` as a function of the page text. */
  function CategoryOf(text: string): string {
    var w := Winner(Counts(Categories, Lower(text)));
    if w < 0 then Other else Categories[w].0
  }

  /** The function meets the classifier's promise, so it is the answer `DetectCategory` computes. */
  lemma CategoryOfDetected(text: string)
    ensures Detected(Categories, Lower(text), CategoryOf(text))
  {
    var cs := Counts(Categories, Lower(text));
    WinnerIsFirstMax(cs);
    CategoriesWellNamed();
    if Winner(cs) >= 0 {
      DetectedAt(Categories, Lower(text), Winner(cs));
    }
  }

  /** `detect_category` */
  method DetectCategory(text: string) returns (c: string)
    ensures c == CategoryOf(text)
    ensures Detected(Categories, Lower(text), c)
    ensures c == Other <==> forall i :: 0 <= i < |Categories| ==> Counts(Categories, Lower(text))[i] == 0
  {
    CategoriesWellNamed();
    c := DetectIn(Categories, text);
    OtherIffNoHits(Categories, Lower(text), c);
    CategoryOfDetected(text);
    DetectedUnique(Categories, Lower(text), c, CategoryOf(text));
  }

  /**
   * The classifier over a table: the loop fills the dictionary `sc`
   * (modelled as its items in insertion order: the names are distinct, so no
   * entry is ever overwritten), and `max(sc, key=sc.get)` keeps the first of
   * several maximal keys.
   */
  method DetectIn(tbl: seq<(string, seq<string>)>, text: string) returns (c: string)
    requires WellNamed(tbl)
    ensures Detected(tbl, Lower(text), c)
  {
    var lt := Lower(text);
    ghost var cs := Counts(tbl, lt);
    var sc: seq<(string, nat)> := [];
    ghost var at: seq<int> := [];
    for i := 0 to |tbl|
      invariant |at| == |sc|
      invariant forall k :: 0 <= k < |sc| ==> 0 <= at[k] < i && sc[k] == (tbl[at[k]].0, cs[at[k]]) && cs[at[k]] > 0
      invariant forall k, l :: 0 <= k < l < |sc| ==> at[k] < at[l]
      invariant forall w :: 0 <= w < i && cs[w] > 0 ==> w in at
    {
      var n := Hits(lt, tbl[i].1);
      if n > 0 {
        sc := sc + [(tbl[i].0, n)];
        at := at + [i];
      }
    }
    if sc == [] {
      c := Other;
      DetectedNone(tbl, lt);
      return;
    }
    var b := MaxIndex(sc);
    c := sc[b].0;
    FirstOfEntries(tbl, cs, sc, at, b);
    DetectedAt(tbl, lt, at[b]);
  }

  /**
   * `max(items, key=...)` over a dictionary's items in insertion order: the
   * position of the first entry with the largest value.
   */
  function MaxIndex(items: seq<(string, nat)>): (b: nat)
    requires |items| > 0
    ensures b < |items|
    ensures forall k :: 0 <= k < |items| ==> items[k].1 <= items[b].1
    ensures forall k :: 0 <= k < b ==> items[k].1 < items[b].1
  {
    if |items| == 1 then 0
    else
      var last := |items| - 1;
      var b := MaxIndex(items[..last]);
      assert forall k :: 0 <= k < last ==> items[k] == items[..last][k];
      if items[last].1 > items[b].1 then last else b
  }

  lemma DetectedNone(tbl: seq<(string, seq<string>)>, lt: string)
    requires forall w :: 0 <= w < |tbl| && Counts(tbl, lt)[w] > 0 ==> false
    ensures Detected(tbl, lt, Other)
  {
  }

  lemma DetectedAt(tbl: seq<(string, seq<string>)>, lt: string, w: int)
    requires WellNamed(tbl) && FirstMax(Counts(tbl, lt), w)
    ensures Detected(tbl, lt, tbl[w].0)
  {
  }

  /** "その他" is the answer exactly when no category has a hit. */
  lemma OtherIffNoHits(tbl: seq<(string, seq<string>)>, lt: string, c: string)
    requires WellNamed(tbl) && Detected(tbl, lt, c)
    ensures c == Other <==> forall i :: 0 <= i < |tbl| ==> Counts(tbl, lt)[i] == 0
  {
  }

  /** Lifts the first maximal entry of the dictionary to the first maximal category. */
  lemma FirstOfEntries(tbl: seq<(string, seq<string>)>, cs: seq<nat>, sc: seq<(string, nat)>, at: seq<int>, b: int)
    requires |cs| == |tbl| && |at| == |sc| && 0 <= b < |sc|
    requires forall k :: 0 <= k < |sc| ==> 0 <= at[k] < |cs| && sc[k] == (tbl[at[k]].0, cs[at[k]]) && cs[at[k]] > 0
    requires forall k, l :: 0 <= k < l < |sc| ==> at[k] < at[l]
    requires forall w :: 0 <= w < |cs| && cs[w] > 0 ==> w in at
    requires forall k :: 0 <= k < |sc| ==> sc[k].1 <= sc[b].1
    requires forall k :: 0 <= k < b ==> sc[k].1 < sc[b].1
    ensures FirstMax(cs, at[b])
  {
    var w := at[b];
    forall i | 0 <= i < |cs|
      ensures cs[i] <= cs[w] && (i < w ==> cs[i] < cs[w])
    {
      if cs[i] > 0 {
        var k :| 0 <= k < |at| && at[k] == i;
      }
    }
  }

  /** There is at most one first maximum. */
  lemma FirstMaxUnique(cs: seq<nat>, w: int, v: int)
    requires FirstMax(cs, w) && FirstMax(cs, v)
    ensures w == v
  {
  }

  /** The classifier is a function of the text: two answers that meet its promise coincide. */
  lemma DetectedUnique(tbl: seq<(string, seq<string>)>, lt: string, c1: string, c2: string)
    requires Detected(tbl, lt, c1) && Detected(tbl, lt, c2)
    ensures c1 == c2
  {
    var cs := Counts(tbl, lt);
    if !forall i :: 0 <= i < |cs| ==> cs[i] == 0 {
      var w1 :| 0 <= w1 < |cs| && FirstMax(cs, w1) && c1 == tbl[w1].0;
      var w2 :| 0 <= w2 < |cs| && FirstMax(cs, w2) && c2 == tbl[w2].0;
      FirstMaxUnique(cs, w1, w2);
    }
  }

  /** A category with a hit rules out "その他", and the winner has at least as many hits. */
  lemma HitBeatsOther(tbl: seq<(string, seq<string>)>, lt: string, c: string, v: int)
    requires WellNamed(tbl) && Detected(tbl, lt, c) && 0 <= v < |tbl| && Counts(tbl, lt)[v] > 0
    ensures c != Other
    ensures exists w :: 0 <= w < |tbl| && c == tbl[w].0 && Counts(tbl, lt)[v] <= Counts(tbl, lt)[w]
  {
    var cs := Counts(tbl, lt);
    assert cs[v] != 0;
    var w :| 0 <= w < |cs| && FirstMax(cs, w) && c == tbl[w].0;
  }
}
