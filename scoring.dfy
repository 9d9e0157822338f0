/**
 * The composite scorer `calculate_score` and the rank classifier `judge`:
 * seven weighted details out of 100 points, and five letter bands over the
 * total.
 */
module Scoring {
  import opened Text
  import opened Urls
  import opened Documents
  import opened Links
  import opened Contact

  const Pass: string := "✅"
  const Warn: string := "⚠️"
  const Fail: string := "❌"

  /** One `(name, points, max, glyph)` tuple of the score breakdown. */
  datatype Detail = Detail(name: string, points: nat, max: nat, mark: string)

  /** The detail names in the order the scorer appends them. */
  const DetailNames: seq<string> :=
    ["HTTPS対応", "SEO基礎", "SNS連携", "コンテンツ充実度", "問い合わせ導線", "技術・運用", "採用ページ"]

  /** The detail maxima in the same order. */
  const DetailMaxima: seq<nat> := [10, 25, 15, 15, 15, 10, 10]

  function Min(a: nat, b: nat): nat { if a <= b then a else b }

  /** The glyph of an all-or-nothing detail. */
  function Binary(p: nat): string { if p == 10 then Pass else Fail }

  /** The glyph of a graded detail with thresholds `hi` and `lo`. */
  function Ladder(p: nat, hi: nat, lo: nat): string {
    if p >= hi then Pass else if p >= lo then Warn else Fail
  }

  function HttpsPoints(url: string): (p: nat)
    ensures p == 10 <==> CheckHttps(url)
    ensures p == 0 <==> !CheckHttps(url)
  {
    if CheckHttps(url) then 10 else 0
  }

  function TitlePoints(n: nat): nat {
    if 10 <= n <= 60 then 8 else if n > 0 then 4 else 0
  }

  function DescriptionPoints(n: nat): nat {
    if 50 <= n <= 160 then 7 else if n > 0 then 3 else 0
  }

  function H1Points(n: nat): nat {
    if n == 1 then 3 else if n > 1 then 1 else 0
  }

  /** The five SEO conditions that earn every SEO point. */
  predicate SeoComplete(seo: SeoInfo) {
    && 10 <= |seo.title| <= 60
    && 50 <= |seo.description| <= 160
    && seo.hasViewport
    && seo.h1Count == 1
    && seo.hasFavicon
  }

  /** The SEO subtotal; the source applies no cap to it, and none is needed. */
  function SeoPoints(seo: SeoInfo): (p: nat)
    ensures p <= 25
    ensures p == 25 <==> SeoComplete(seo)
  {
    TitlePoints(|seo.title|) + DescriptionPoints(|seo.description|)
    + (if seo.hasViewport then 5 else 0) + H1Points(seo.h1Count) + (if seo.hasFavicon then 2 else 0)
  }

  /** Five points per linked network, capped at 15. */
  function SnsPoints(n: nat): (p: nat)
    ensures p <= 15 && p % 5 == 0
    ensures n <= 3 ==> p == 5 * n
    ensures n >= 3 ==> p == 15
  {
    Min(n * 5, 15)
  }

  /** The content subtotal before its cap: a ladder over all links plus one over internal links. */
  function ContentRaw(total: nat, internal: nat): nat {
    (if total > 100 then 10 else if total > 50 then 7 else if total > 20 then 4 else 0)
    + (if internal > 30 then 5 else if internal > 10 then 3 else 0)
  }

  function ContentPoints(links: LinkInfo): nat {
    Min(ContentRaw(links.totalLinks, links.internalLinks), 15)
  }

  function ContactRaw(c: ContactInfo): nat {
    (if c.hasForm then 6 else 0) + (if c.hasPhone then 4 else 0)
    + (if c.hasEmailLink then 3 else 0) + (if c.hasContactPage then 2 else 0)
  }

  function ContactPoints(c: ContactInfo): nat { Min(ContactRaw(c), 15) }

  function TechRaw(t: TechInfo, hasOgp: bool): nat {
    (if t.hasAnalytics then 5 else 0) + (if t.hasStructuredData then 3 else 0) + (if hasOgp then 2 else 0)
  }

  function TechPoints(t: TechInfo, hasOgp: bool): nat { Min(TechRaw(t, hasOgp), 10) }

  function RecruitPoints(found: bool): (p: nat)
    ensures p == 10 <==> found
  {
    if found then 10 else 0
  }

  /** The breakdown `calculate_score` returns, in its order. */
  function Details(url: string, seo: SeoInfo, links: LinkInfo, contact: ContactInfo, tech: TechInfo): (ds: seq<Detail>)
    ensures |ds| == 7
  {
    Breakdown(HttpsPoints(url), SeoPoints(seo), SnsPoints(links.SnsCount()), ContentPoints(links),
              ContactPoints(contact), TechPoints(tech, seo.hasOgp), RecruitPoints(links.recruitFound))
  }

  /** The seven details from their points, with the maxima and glyph thresholds of the source. */
  function Breakdown(h: nat, s: nat, n: nat, c: nat, k: nat, t: nat, r: nat): (ds: seq<Detail>)
    ensures |ds| == 7
  {
    [Detail("HTTPS対応", h, 10, Binary(h)),
     Detail("SEO基礎", s, 25, Ladder(s, 18, 10)),
     Detail("SNS連携", n, 15, Ladder(n, 10, 5)),
     Detail("コンテンツ充実度", c, 15, Ladder(c, 10, 5)),
     Detail("問い合わせ導線", k, 15, Ladder(k, 10, 5)),
     Detail("技術・運用", t, 10, Ladder(t, 7, 3)),
     Detail("採用ページ", r, 10, Binary(r))]
  }

  /** The sum of the points of a seven-detail breakdown. */
  function Total(ds: seq<Detail>): nat
    requires |ds| == 7
  {
    ds[0].points + ds[1].points + ds[2].points + ds[3].points + ds[4].points + ds[5].points + ds[6].points
  }

  /** The sum of the maxima of a seven-detail breakdown. */
  function MaxTotal(ds: seq<Detail>): nat
    requires |ds| == 7
  {
    ds[0].max + ds[1].max + ds[2].max + ds[3].max + ds[4].max + ds[5].max + ds[6].max
  }

  /**
   * `calculate_score`: each detail's subtotal is added to `score` and the
   * detail is appended to `details`.
   */
  method CalculateScore(url: string, seo: SeoInfo, links: LinkInfo, contact: ContactInfo, tech: TechInfo)
    returns (score: nat, details: seq<Detail>)
    ensures details == Details(url, seo, links, contact, tech)
    ensures score == Total(details)
  {
    score := 0;
    details := [];
    var h := if CheckHttps(url) then 10 else 0;
    score := score + h;
    details := details + [Detail("HTTPS対応", h, 10, if h == 10 then Pass else Fail)];

    var s := SeoSubtotal(seo);
    score := score + s;
    details := details + [Detail("SEO基礎", s, 25, Ladder(s, 18, 10))];

    var n := Min(links.SnsCount() * 5, 15);
    score := score + n;
    details := details + [Detail("SNS連携", n, 15, Ladder(n, 10, 5))];

    var c := ContentSubtotal(links);
    score := score + c;
    details := details + [Detail("コンテンツ充実度", c, 15, Ladder(c, 10, 5))];

    var k := ContactSubtotal(contact);
    score := score + k;
    details := details + [Detail("問い合わせ導線", k, 15, Ladder(k, 10, 5))];

    var t := TechSubtotal(tech, seo.hasOgp);
    score := score + t;
    details := details + [Detail("技術・運用", t, 10, Ladder(t, 7, 3))];

    var r := if links.recruitFound then 10 else 0;
    score := score + r;
    details := details + [Detail("採用ページ", r, 10, if r == 10 then Pass else Fail)];

    assert details == Breakdown(h, s, n, c, k, t, r);
    BreakdownTotal(h, s, n, c, k, t, r);
  }

  /** The points of a breakdown add up to its total. */
  lemma BreakdownTotal(h: nat, s: nat, n: nat, c: nat, k: nat, t: nat, r: nat)
    ensures Total(Breakdown(h, s, n, c, k, t, r)) == h + s + n + c + k + t + r
  {
  }

  /** The SEO block of `calculate_score`: `s` grows by each condition's points. */
  method SeoSubtotal(seo: SeoInfo) returns (s: nat)
    ensures s == SeoPoints(seo)
  {
    s := 0;
    if 10 <= |seo.title| <= 60 {
      s := s + 8;
    } else if |seo.title| > 0 {
      s := s + 4;
    }
    if 50 <= |seo.description| <= 160 {
      s := s + 7;
    } else if |seo.description| > 0 {
      s := s + 3;
    }
    if seo.hasViewport {
      s := s + 5;
    }
    if seo.h1Count == 1 {
      s := s + 3;
    } else if seo.h1Count > 1 {
      s := s + 1;
    }
    if seo.hasFavicon {
      s := s + 2;
    }
  }

  /** The content block: two ladders, then `min(s, 15)`. */
  method ContentSubtotal(links: LinkInfo) returns (s: nat)
    ensures s == ContentPoints(links)
  {
    s := 0;
    if links.totalLinks > 100 {
      s := s + 10;
    } else if links.totalLinks > 50 {
      s := s + 7;
    } else if links.totalLinks > 20 {
      s := s + 4;
    }
    if links.internalLinks > 30 {
      s := s + 5;
    } else if links.internalLinks > 10 {
      s := s + 3;
    }
    s := Min(s, 15);
  }

  /** The contact block: one weight per signal, then `min(s, 15)`. */
  method ContactSubtotal(contact: ContactInfo) returns (s: nat)
    ensures s == ContactPoints(contact)
  {
    s := 0;
    if contact.hasForm {
      s := s + 6;
    }
    if contact.hasPhone {
      s := s + 4;
    }
    if contact.hasEmailLink {
      s := s + 3;
    }
    if contact.hasContactPage {
      s := s + 2;
    }
    s := Min(s, 15);
  }

  /** The technology block: analytics, structured data and Open Graph, then `min(s, 10)`. */
  method TechSubtotal(tech: TechInfo, hasOgp: bool) returns (s: nat)
    ensures s == TechPoints(tech, hasOgp)
  {
    s := 0;
    if tech.hasAnalytics {
      s := s + 5;
    }
    if tech.hasStructuredData {
      s := s + 3;
    }
    if hasOgp {
      s := s + 2;
    }
    s := Min(s, 10);
  }

  /** Every detail stays within its maximum; the maxima are the table above and sum to 100. */
  lemma DetailsBounded(url: string, seo: SeoInfo, links: LinkInfo, contact: ContactInfo, tech: TechInfo)
    ensures var ds := Details(url, seo, links, contact, tech);
      && (forall i :: 0 <= i < 7 ==> ds[i].points <= ds[i].max)
      && (forall i :: 0 <= i < 7 ==> ds[i].name == DetailNames[i] && ds[i].max == DetailMaxima[i])
      && MaxTotal(ds) == 100
      && Total(ds) <= 100
  {
  }

  /** The content, contact and technology caps never change a subtotal. */
  lemma CapsNeverBind(links: LinkInfo, contact: ContactInfo, tech: TechInfo, hasOgp: bool)
    ensures ContentRaw(links.totalLinks, links.internalLinks) <= 15
    ensures ContentPoints(links) == ContentRaw(links.totalLinks, links.internalLinks)
    ensures ContactRaw(contact) <= 15 && ContactPoints(contact) == ContactRaw(contact)
    ensures TechRaw(tech, hasOgp) <= 10 && TechPoints(tech, hasOgp) == TechRaw(tech, hasOgp)
  {
  }

  /** Dropping every contact or technology signal can only lower those subtotals. */
  lemma ContactMonotone(c1: ContactInfo, c2: ContactInfo)
    requires c1.hasForm ==> c2.hasForm
    requires c1.hasPhone ==> c2.hasPhone
    requires c1.hasEmailLink ==> c2.hasEmailLink
    requires c1.hasContactPage ==> c2.hasContactPage
    ensures ContactPoints(c1) <= ContactPoints(c2)
  {
  }

  /** More links never earn fewer content points. */
  lemma ContentMonotone(l1: LinkInfo, l2: LinkInfo)
    requires l1.totalLinks <= l2.totalLinks && l1.internalLinks <= l2.internalLinks
    ensures ContentPoints(l1) <= ContentPoints(l2)
  {
  }

  /** More networks never earn fewer social points. */
  lemma SnsMonotone(n1: nat, n2: nat)
    requires n1 <= n2
    ensures SnsPoints(n1) <= SnsPoints(n2)
  {
  }

  /** The security detail depends on nothing but the URL's scheme. */
  lemma HttpsOnlyFromUrl(url: string, seo1: SeoInfo, links1: LinkInfo, contact1: ContactInfo, tech1: TechInfo,
                         seo2: SeoInfo, links2: LinkInfo, contact2: ContactInfo, tech2: TechInfo)
    ensures Details(url, seo1, links1, contact1, tech1)[0] == Details(url, seo2, links2, contact2, tech2)[0]
    ensures Details(url, seo1, links1, contact1, tech1)[0].points == (if CheckHttps(url) then 10 else 0)
  {
  }

  /** A graded glyph is the pass glyph exactly at or above its upper threshold. */
  lemma LadderMarks(p: nat, hi: nat, lo: nat)
    requires lo < hi
    ensures Ladder(p, hi, lo) == Pass <==> p >= hi
    ensures Ladder(p, hi, lo) == Fail <==> p < lo
  {
  }

  /** `judge`'s `(rank, label, css class)`; the label is `caption`. */
  datatype Judgement = Judgement(rank: string, caption: string, cls: string)

  const Ranks: seq<string> := ["S", "A", "B", "C", "D"]

  /** `judge`: inclusive upper bounds 25, 40, 55 and 70. */
  function Judge(score: int): (j: Judgement)
    ensures j.rank == "S" <==> score <= 25
    ensures j.rank == "A" <==> 25 < score <= 40
    ensures j.rank == "B" <==> 40 < score <= 55
    ensures j.rank == "C" <==> 55 < score <= 70
    ensures j.rank == "D" <==> 70 < score
  {
    if score <= 25 then Judgement("S", "最優先ターゲット", "s")
    else if score <= 40 then Judgement("A", "営業対象（高確度）", "a")
    else if score <= 55 then Judgement("B", "営業対象（中確度）", "b")
    else if score <= 70 then Judgement("C", "要検討", "c")
    else Judgement("D", "対象外（デジタル成熟）", "d")
  }

  /** The position of a rank letter in S, A, B, C, D. */
  function RankIndex(rank: string): (i: int)
    ensures 0 <= i < |Ranks| ==> Ranks[i] == rank
  {
    if rank == "S" then 0 else if rank == "A" then 1 else if rank == "B" then 2 else if rank == "C" then 3
    else if rank == "D" then 4 else -1
  }

  /** Every score falls in exactly one band, and the class is the lowercased letter. */
  lemma JudgeExhaustive(score: int)
    ensures 0 <= RankIndex(Judge(score).rank) < |Ranks|
    ensures Judge(score).cls == Lower(Judge(score).rank)
  {
  }

  /** A higher score never gets an earlier (more urgent) rank. */
  lemma JudgeMonotone(s1: int, s2: int)
    requires s1 <= s2
    ensures RankIndex(Judge(s1).rank) <= RankIndex(Judge(s2).rank)
  {
  }

  /** The rank determines the caption and the class. */
  lemma JudgeByRank(s1: int, s2: int)
    requires Judge(s1).rank == Judge(s2).rank
    ensures Judge(s1) == Judge(s2)
  {
  }
}
