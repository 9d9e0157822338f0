/**
 * The link-graph extractor `analyze_links`: it walks the page's anchors once,
 * skipping fragment, `javascript:`, `mailto:` and `tel:` links, and classifies
 * the rest as internal or external, by social network, and as recruiting links.
 */
module Links {
  import opened Text
  import opened Wrappers
  import opened Documents

  /** `SNS_DOMAINS` in declaration order: (domain fragment, network name). */
  const SnsDomains: seq<(string, string)> := [
    ("twitter.com", "Twitter/X"), ("x.com", "X"), ("facebook.com", "Facebook"),
    ("instagram.com", "Instagram"), ("linkedin.com", "LinkedIn"), ("youtube.com", "YouTube"),
    ("tiktok.com", "TikTok"), ("line.me", "LINE"), ("note.com", "note")]

  const NetworkNames: set<string> :=
    {"Twitter/X", "X", "Facebook", "Instagram", "LinkedIn", "YouTube", "TikTok", "LINE", "note"}

  /** `RECRUIT_KEYWORDS` */
  const RecruitKeywords: seq<string> := [
    "recruit", "career", "careers", "jobs", "hiring", "採用", "求人", "リクルート",
    "新卒", "中途", "entry", "joblist", "employment"]

  /** The stripped hrefs the loop passes over with `continue`. */
  predicate Skipped(h: string) {
    h == "" || StartsWith(h, "#") || StartsWith(h, "javascript:") || StartsWith(h, "mailto:") || StartsWith(h, "tel:")
  }

  predicate Kept(a: Anchor) { !Skipped(Strip(a.href)) }

  /**
   * The source's test `ld == bd or not ld`, where `ld` is lowercased and `bd`
   * is not; it agrees with the corrected test when the page host is typed in
   * lower case.
   */
  predicate IsInternalAsWritten(ld: string, bd: string): (b: bool)
    ensures Lower(bd) == bd ==> (b <==> IsInternal(ld, bd))
  {
    ld == bd || ld == ""
  }

  /** The same test with the page host lowercased as well, so the comparison ignores case on both sides. */
  predicate IsInternal(ld: string, bd: string) { ld == Lower(bd) || ld == "" }

  /** Finding: with the page host typed in capitals, a link to the page's own host counts as external. */
  lemma AsWrittenOwnHostExternal()
    ensures !IsInternalAsWritten(Lower("Example.com"), "Example.com")
    ensures IsInternal(Lower("Example.com"), "Example.com")
  {
    assert Lower("Example.com")[0] == 'e' != "Example.com"[0];
  }

  /** A link to the page's own host is internal, whatever the letter case of either. */
  lemma OwnHostIsInternal(host: string, bd: string)
    requires Lower(host) == Lower(bd)
    ensures IsInternal(Lower(host), bd)
  {
  }

  /** `sd in ld` for the `j`-th table entry. */
  predicate DomainMatches(host: string, j: int)
    requires 0 <= j < |SnsDomains|
  {
    Contains(host, SnsDomains[j].0)
  }

  /** Entry `j` is the first one in table order whose domain occurs in `host`. */
  predicate FirstDomainMatch(host: string, j: int) {
    0 <= j < |SnsDomains| && DomainMatches(host, j) && forall i :: 0 <= i < j ==> !DomainMatches(host, i)
  }

  /** The table scan from entry `j` on, stopping at the first match (the inner `break`). */
  function SnsFrom(host: string, j: nat): (r: Option<string>)
    requires j <= |SnsDomains|
    ensures r.None? <==> forall i :: j <= i < |SnsDomains| ==> !DomainMatches(host, i)
    ensures r.Some? ==> exists m :: (j <= m < |SnsDomains| && DomainMatches(host, m) && r.value == SnsDomains[m].1
      && forall i :: j <= i < m ==> !DomainMatches(host, i))
    decreases |SnsDomains| - j
  {
    if j == |SnsDomains| then None
    else if DomainMatches(host, j) then Some(SnsDomains[j].1)
    else SnsFrom(host, j + 1)
  }

  /** The network a lowercased host belongs to: the first table entry whose domain it contains. */
  function SnsNetwork(host: string): (r: Option<string>)
    ensures r.None? <==> forall i :: 0 <= i < |SnsDomains| ==> !DomainMatches(host, i)
    ensures r.Some? ==> exists m :: FirstDomainMatch(host, m) && r.value == SnsDomains[m].1
    ensures r.Some? ==> r.value in NetworkNames
  {
    SnsFrom(host, 0)
  }

  /** The network an anchor is counted for, if it is kept at all. */
  function SnsOf(a: Anchor): Option<string> {
    if Kept(a) then SnsNetwork(Lower(a.host)) else None
  }

  /** The keyword scan of one link: some keyword of `kws` occurs in `hl` or in `tl`. */
  predicate AnyKeyword(kws: seq<string>, hl: string, tl: string) {
    kws != [] && (Contains(hl, kws[0]) || Contains(tl, kws[0]) || AnyKeyword(kws[1..], hl, tl))
  }

  /** A kept anchor whose lowercased stripped href or lowercased text holds a recruiting keyword. */
  predicate RecruitHit(a: Anchor) {
    Kept(a) && AnyKeyword(RecruitKeywords, Lower(Strip(a.href)), Lower(a.strippedText))
  }

  /** What the loop body finds out about one anchor: kept or skipped, internal or external, its network, whether it is a recruiting link, and its absolute URL. */
  datatype Kind = Kind(kept: bool, internal: bool, network: Option<string>, recruit: bool, url: string)

  function KindOf(a: Anchor, bd: string): Kind {
    Kind(Kept(a), IsInternal(Lower(a.host), bd), SnsOf(a), RecruitHit(a), a.url)
  }

  /** The kinds of all anchors, in document order. */
  function Kinds(s: seq<Anchor>, bd: string): (ks: seq<Kind>)
    ensures |ks| == |s|
  {
    seq(|s|, j requires 0 <= j < |s| => KindOf(s[j], bd))
  }

  /** The network each anchor is counted for, in document order. */
  function Tags(ks: seq<Kind>): (t: seq<Option<string>>)
    ensures |t| == |ks|
  {
    seq(|ks|, j requires 0 <= j < |ks| => ks[j].network)
  }

  /** Whether each anchor is a recruiting link, in document order. */
  function Flags(ks: seq<Kind>): (t: seq<bool>)
    ensures |t| == |ks|
  {
    seq(|ks|, j requires 0 <= j < |ks| => ks[j].recruit)
  }

  /** The absolute URL of each anchor, in document order. */
  function Urls(ks: seq<Kind>): (t: seq<string>)
    ensures |t| == |ks|
  {
    seq(|ks|, j requires 0 <= j < |ks| => ks[j].url)
  }

  /** Position `j` is the last one below `upto` holding `x`. */
  predicate LastAt<T(==)>(t: seq<T>, x: T, j: int, upto: int) {
    0 <= j < upto <= |t| && t[j] == x && forall m :: j < m < upto ==> t[m] != x
  }

  /** `x` occurs in `t` before the first occurrence of `y`. */
  predicate SeenBefore<T(==)>(t: seq<T>, x: T, y: T) {
    exists j :: 0 <= j < |t| && t[j] == x && forall m :: 0 <= m <= j ==> t[m] != y
  }

  function KeptCount(s: seq<Anchor>): nat {
    if s == [] then 0 else KeptCount(s[..|s| - 1]) + (if Kept(s[|s| - 1]) then 1 else 0)
  }

  function InternalCount(s: seq<Anchor>, bd: string): nat {
    if s == [] then 0
    else InternalCount(s[..|s| - 1], bd) + (if Kept(s[|s| - 1]) && IsInternal(Lower(s[|s| - 1].host), bd) then 1 else 0)
  }

  function ExternalCount(s: seq<Anchor>, bd: string): nat {
    if s == [] then 0
    else ExternalCount(s[..|s| - 1], bd) + (if Kept(s[|s| - 1]) && !IsInternal(Lower(s[|s| - 1].host), bd) then 1 else 0)
  }

  /** Every kept anchor is internal or external, never both, and none of the skipped ones is either. */
  lemma {:induction false} InternalExternalPartition(s: seq<Anchor>, bd: string)
    ensures InternalCount(s, bd) + ExternalCount(s, bd) == KeptCount(s) <= |s|
  {
    if s != [] {
      InternalExternalPartition(s[..|s| - 1], bd);
    }
  }

  /** The dictionary `analyze_links` returns; `snsOrder` is the key order of `sns_links`. */
  datatype LinkInfo = LinkInfo(
    totalLinks: nat,
    internalLinks: nat,
    externalLinks: nat,
    sns: map<string, string>,
    snsOrder: seq<string>,
    recruitFound: bool,
    recruitUrl: string)
  {
    /** `sns_count` */
    function SnsCount(): nat { |sns| }
  }

  /** The network table has nine distinct names. */
  lemma NetworkNamesCount()
    ensures |NetworkNames| == 9
  {
  }

  lemma {:induction false} SubsetCard<T>(a: set<T>, b: set<T>)
    requires a <= b
    ensures |a| <= |b|
    decreases |b|
  {
    if a != {} {
      var x :| x in a;
      SubsetCard(a - {x}, b - {x});
    }
  }

  /** The loop's running state: the two link counts, the SNS dictionary with its key order, and the recruiting flag and URL. */
  datatype Acc = Acc(internal: nat, external: nat, sns: map<string, string>, order: seq<string>, recruitFound: bool, recruitUrl: string)

  /** One pass of the anchor loop's body over an anchor of kind `k`. */
  function Step(acc: Acc, k: Kind): Acc {
    Acc(
      if k.kept && k.internal then acc.internal + 1 else acc.internal,
      if k.kept && !k.internal then acc.external + 1 else acc.external,
      SnsUpdate(acc.sns, k.network, k.url),
      OrderUpdate(acc.order, acc.sns, k.network),
      acc.recruitFound || k.recruit,
      if k.recruit then k.url else acc.recruitUrl)
  }

  /** `sns_links[name] = fu` for an anchor counted for a network; nothing otherwise. */
  function SnsUpdate(sns: map<string, string>, tag: Option<string>, url: string): map<string, string> {
    if tag.Some? then sns[tag.value := url] else sns
  }

  /** The key order of the dictionary: a network is appended when it is first stored. */
  function OrderUpdate(order: seq<string>, sns: map<string, string>, tag: Option<string>): seq<string> {
    if tag.Some? && tag.value !in sns then order + [tag.value] else order
  }

  /** The running state after the loop has passed over anchors of kinds `ks`. */
  function Scan(ks: seq<Kind>): Acc {
    if ks == [] then Acc(0, 0, map[], [], false, "")
    else Step(Scan(ks[..|ks| - 1]), ks[|ks| - 1])
  }

  /** Classifying one more anchor appends its kind. */
  lemma KindsSnoc(s: seq<Anchor>, i: int, bd: string)
    requires 0 <= i < |s|
    ensures Kinds(s[..i + 1], bd) == Kinds(s[..i], bd) + [KindOf(s[i], bd)]
  {
    assert s[..i + 1] == s[..i] + [s[i]];
  }

  /** Scanning one more kind is one more step. */
  lemma ScanSnoc(ks: seq<Kind>, k: Kind)
    ensures Scan(ks + [k]) == Step(Scan(ks), k)
  {
    assert (ks + [k])[..|ks|] == ks;
  }

  /** Scanning one more anchor is one more step. */
  lemma ScanPrefix(ks: seq<Kind>, i: int)
    requires 0 <= i < |ks|
    ensures Scan(ks[..i + 1]) == Step(Scan(ks[..i]), ks[i])
  {
    assert ks[..i + 1][..i] == ks[..i];
  }

  /** The scan's counts are the numbers of kept internal and kept external anchors. */
  lemma {:induction false} ScanCounts(s: seq<Anchor>, bd: string)
    ensures Scan(Kinds(s, bd)).internal == InternalCount(s, bd)
    ensures Scan(Kinds(s, bd)).external == ExternalCount(s, bd)
  {
    if s != [] {
      ScanCounts(s[..|s| - 1], bd);
      var ks := Kinds(s, bd);
      assert ks[..|s| - 1] == Kinds(s[..|s| - 1], bd);
    }
  }

  /** After `i` anchors the dictionary holds the networks tagged so far, each with the URL of its last anchor. */
  lemma {:induction false} ScanSns(ks: seq<Kind>, i: int)
    requires 0 <= i <= |ks|
    ensures SnsState(Tags(ks), i, Scan(ks[..i]).sns, Scan(ks[..i]).order, Urls(ks))
  {
    if i > 0 {
      ScanSns(ks, i - 1);
      ScanPrefix(ks, i - 1);
      var acc := Scan(ks[..i - 1]);
      TagStep(Tags(ks), i - 1, acc.sns, acc.order, Urls(ks));
    } else {
      assert ks[..0] == [];
    }
  }

  /** The dictionary's keys are among the networks the anchors are tagged with. */
  lemma {:induction false} ScanKeys(ks: seq<Kind>, names: set<string>)
    requires forall j :: 0 <= j < |ks| && ks[j].network.Some? ==> ks[j].network.value in names
    ensures Scan(ks).sns.Keys <= names
  {
    if ks != [] {
      ScanKeys(ks[..|ks| - 1], names);
    }
  }

  /** After `i` anchors the recruiting flag says whether a recruiting link was seen, and the URL is the last one's. */
  lemma {:induction false} ScanRecruit(ks: seq<Kind>, i: int)
    requires 0 <= i <= |ks|
    ensures var r := Scan(ks[..i]);
      && (r.recruitFound <==> true in Flags(ks)[..i])
      && (r.recruitFound ==> exists j :: LastAt(Flags(ks), true, j, i) && r.recruitUrl == ks[j].url)
      && (!r.recruitFound ==> r.recruitUrl == "")
  {
    if i > 0 {
      ScanRecruit(ks, i - 1);
      ScanPrefix(ks, i - 1);
      RecruitStep(Flags(ks), i - 1);
    } else {
      assert ks[..0] == [];
    }
  }

  /** What the scan of a page's anchors computes, stated on the anchors themselves. */
  lemma ScanAnchors(s: seq<Anchor>, bd: string)
    ensures var r := Scan(Kinds(s, bd));
      && r.internal == InternalCount(s, bd)
      && r.external == ExternalCount(s, bd)
      && r.internal + r.external == KeptCount(s) <= |s|
      && (forall n :: n in r.sns <==> Some(n) in Tags(Kinds(s, bd)))
      && (forall n :: n in r.sns ==> exists j :: LastAt(Tags(Kinds(s, bd)), Some(n), j, |s|) && r.sns[n] == s[j].url)
      && r.sns.Keys <= NetworkNames && |r.sns| <= 9
      && (forall n :: n in r.sns <==> n in r.order)
      && (forall p, q :: 0 <= p < q < |r.order| ==> r.order[p] != r.order[q])
      && (forall p, q :: 0 <= p < q < |r.order| ==> SeenBefore(Tags(Kinds(s, bd)), Some(r.order[p]), Some(r.order[q])))
      && (r.recruitFound <==> true in Flags(Kinds(s, bd)))
      && (r.recruitFound ==> exists j :: LastAt(Flags(Kinds(s, bd)), true, j, |s|) && r.recruitUrl == s[j].url)
      && (!r.recruitFound ==> r.recruitUrl == "")
  {
    var ks := Kinds(s, bd);
    var r := Scan(ks);
    assert ks[..|s|] == ks;
    assert Tags(ks)[..|s|] == Tags(ks);
    assert Flags(ks)[..|s|] == Flags(ks);
    ScanCounts(s, bd);
    ScanSns(ks, |s|);
    ScanRecruit(ks, |s|);
    KindUrls(s, bd);
    KindNetworks(s, bd);
    ScanKeys(ks, NetworkNames);
    InternalExternalPartition(s, bd);
    NetworkNamesCount();
    SubsetCard(r.sns.Keys, NetworkNames);
  }

  lemma KindUrls(s: seq<Anchor>, bd: string)
    ensures forall j :: 0 <= j < |s| ==> Urls(Kinds(s, bd))[j] == s[j].url
  {
  }

  lemma KindNetworks(s: seq<Anchor>, bd: string)
    ensures forall j :: 0 <= j < |s| && Kinds(s, bd)[j].network.Some? ==> Kinds(s, bd)[j].network.value in NetworkNames
  {
  }

  /** The body of the anchor loop for one anchor, up to the updates of the result. */
  method ClassifyAnchor(a: Anchor, bd: string) returns (k: Kind)
    ensures k == KindOf(a, bd)
    ensures !k.kept ==> k.network == None && !k.recruit
  {
    var h := Strip(a.href);
    var fu := a.url;
    var kept := !Skipped(h);
    var ld := Lower(a.host);
    var internal := IsInternal(ld, bd);
    var network := None;
    var recruit := false;
    if kept {
      network := SnsNetwork(ld);
      recruit := AnyKeyword(RecruitKeywords, Lower(h), Lower(a.strippedText));
    }
    k := Kind(kept, internal, network, recruit, fu);
  }

  /** The dictionary `analyze_links` builds: the anchor count and the loop's final state. */
  function LinksOf(anchors: seq<Anchor>, bd: string): (info: LinkInfo)
    ensures info.totalLinks == |anchors|
    ensures info.internalLinks == InternalCount(anchors, bd)
    ensures info.externalLinks == ExternalCount(anchors, bd)
    ensures info.internalLinks + info.externalLinks == KeptCount(anchors) <= info.totalLinks
  {
    ScanCounts(anchors, bd);
    InternalExternalPartition(anchors, bd);
    var r := Scan(Kinds(anchors, bd));
    LinkInfo(|anchors|, r.internal, r.external, r.sns, r.order, r.recruitFound, r.recruitUrl)
  }

  /**
   * `analyze_links(soup, page)`, given the page's anchors and `bd = urlparse(page).netloc`.
   * `Tags(Kinds(anchors, bd))[j]` is `SnsOf(anchors[j])` and `Flags(Kinds(anchors, bd))[j]`
   * is `RecruitHit(anchors[j])`.
   */
  method AnalyzeLinks(anchors: seq<Anchor>, bd: string) returns (info: LinkInfo)
    ensures info == LinksOf(anchors, bd)
    ensures info.totalLinks == |anchors|
    ensures info.internalLinks == InternalCount(anchors, bd)
    ensures info.externalLinks == ExternalCount(anchors, bd)
    ensures info.internalLinks + info.externalLinks == KeptCount(anchors) <= info.totalLinks
    ensures forall n :: n in info.sns <==> Some(n) in Tags(Kinds(anchors, bd))
    ensures forall n :: n in info.sns ==>
      exists j :: LastAt(Tags(Kinds(anchors, bd)), Some(n), j, |anchors|) && info.sns[n] == anchors[j].url
    ensures info.sns.Keys <= NetworkNames && info.SnsCount() <= 9
    ensures forall n :: n in info.sns <==> n in info.snsOrder
    ensures forall p, q :: 0 <= p < q < |info.snsOrder| ==> info.snsOrder[p] != info.snsOrder[q]
    ensures forall p, q :: 0 <= p < q < |info.snsOrder| ==>
      SeenBefore(Tags(Kinds(anchors, bd)), Some(info.snsOrder[p]), Some(info.snsOrder[q]))
    ensures info.recruitFound <==> true in Flags(Kinds(anchors, bd))
    ensures info.recruitFound ==>
      exists j :: LastAt(Flags(Kinds(anchors, bd)), true, j, |anchors|) && info.recruitUrl == anchors[j].url
    ensures !info.recruitFound ==> info.recruitUrl == ""
  {
    ghost var ks: seq<Kind> := [];
    var il: seq<string> := [];
    var el: seq<string> := [];
    var sns: map<string, string> := map[];
    var order: seq<string> := [];
    var rf := false;
    var ru := "";
    var i := 0;
    assert anchors[..0] == [];
    while i < |anchors|
      invariant 0 <= i <= |anchors|
      invariant ks == Kinds(anchors[..i], bd)
      invariant Scan(ks) == Acc(|il|, |el|, sns, order, rf, ru)
    {
      var k := ClassifyAnchor(anchors[i], bd);
      KindsSnoc(anchors, i, bd);
      ScanSnoc(ks, k);
      if k.kept {
        if k.internal {
          il := il + [k.url];
        } else {
          el := el + [k.url];
        }
        if k.network.Some? {
          order := if k.network.value !in sns then order + [k.network.value] else order;
          sns := sns[k.network.value := k.url];
        }
        if k.recruit {
          rf := true;
          ru := k.url;
        }
      }
      ks := ks + [k];
      i := i + 1;
    }
    assert anchors[..|anchors|] == anchors;
    ScanAnchors(anchors, bd);
    info := LinkInfo(|anchors|, |il|, |el|, sns, order, rf, ru);
  }

  /**
   * The state of the SNS dictionary after the first `i` tags: its keys are the
   * networks seen, each holding the URL of its last anchor, and `order` lists
   * the keys once each in order of first appearance.
   */
  ghost predicate SnsState(t: seq<Option<string>>, i: int, sns: map<string, string>, order: seq<string>, urls: seq<string>) {
    && 0 <= i <= |t| == |urls|
    && (forall n :: n in sns <==> Some(n) in t[..i])
    && (forall n :: n in sns ==> exists j :: LastAt(t, Some(n), j, i) && sns[n] == urls[j])
    && (forall n :: n in sns <==> n in order)
    && (forall p, q :: 0 <= p < q < |order| ==> order[p] != order[q])
    && (forall p, q :: 0 <= p < q < |order| ==> SeenBefore(t, Some(order[p]), Some(order[q])))
  }

  /** One step of the dictionary over tag `t[i]` keeps the dictionary's invariant. */
  lemma TagStep(t: seq<Option<string>>, i: int, sns: map<string, string>, order: seq<string>, urls: seq<string>)
    requires SnsState(t, i, sns, order, urls) && i < |t|
    ensures SnsState(t, i + 1, SnsUpdate(sns, t[i], urls[i]), OrderUpdate(order, sns, t[i]), urls)
  {
    if t[i].Some? {
      SnsStep(t, i, sns, order, urls, t[i].value, urls[i], OrderUpdate(order, sns, t[i]));
    } else {
      NoSnsStep(t, i, sns, order, urls);
    }
  }

  /** A step over an anchor counted for no network leaves the dictionary as it is. */
  lemma NoSnsStep(t: seq<Option<string>>, i: int, sns: map<string, string>, order: seq<string>, urls: seq<string>)
    requires SnsState(t, i, sns, order, urls) && i < |t| && t[i] == None
    ensures SnsState(t, i + 1, sns, order, urls)
  {
    assert t[..i + 1] == t[..i] + [None];
    forall n | n in sns
      ensures exists j :: LastAt(t, Some(n), j, i + 1) && sns[n] == urls[j]
    {
      var j :| LastAt(t, Some(n), j, i) && sns[n] == urls[j];
      LastAtExtend(t, Some(n), j, i);
    }
  }

  /** A step over an anchor counted for `n0` stores its URL under `n0`, appending `n0` to the order when new. */
  lemma SnsStep(t: seq<Option<string>>, i: int, sns: map<string, string>, order: seq<string>, urls: seq<string>,
                n0: string, url: string, order': seq<string>)
    requires SnsState(t, i, sns, order, urls) && i < |t| && t[i] == Some(n0) && urls[i] == url
    requires order' == if n0 !in sns then order + [n0] else order
    ensures SnsState(t, i + 1, sns[n0 := url], order', urls)
  {
    KeysStep(t, i, sns, n0, url);
    LastStep(t, i, sns, urls, n0);
    if n0 !in sns {
      OrderStep(t, i, sns, order, urls, n0);
    }
  }

  /** Adding the entry of tag `t[i]` keeps the keys equal to the tags seen so far. */
  lemma KeysStep(t: seq<Option<string>>, i: int, sns: map<string, string>, n0: string, url: string)
    requires 0 <= i < |t| && t[i] == Some(n0)
    requires forall n :: n in sns <==> Some(n) in t[..i]
    ensures forall n :: n in sns[n0 := url] <==> Some(n) in t[..i + 1]
  {
    assert t[..i + 1] == t[..i] + [Some(n0)];
  }

  /** Overwriting the entry of tag `t[i]` keeps every entry at the URL of its tag's last occurrence. */
  lemma LastStep(t: seq<Option<string>>, i: int, sns: map<string, string>, urls: seq<string>, n0: string)
    requires 0 <= i < |t| == |urls| && t[i] == Some(n0)
    requires forall n :: n in sns ==> exists j :: LastAt(t, Some(n), j, i) && sns[n] == urls[j]
    ensures var sns' := sns[n0 := urls[i]];
      forall n :: n in sns' ==> exists j :: LastAt(t, Some(n), j, i + 1) && sns'[n] == urls[j]
  {
    var sns' := sns[n0 := urls[i]];
    forall n | n in sns'
      ensures exists j :: LastAt(t, Some(n), j, i + 1) && sns'[n] == urls[j]
    {
      if n == n0 {
        assert LastAt(t, Some(n), i, i + 1);
      } else {
        var j :| LastAt(t, Some(n), j, i) && sns[n] == urls[j];
        LastAtExtend(t, Some(n), j, i);
      }
    }
  }

  /** Appending a network seen for the first time keeps the order duplicate-free and in order of first appearance. */
  lemma OrderStep(t: seq<Option<string>>, i: int, sns: map<string, string>, order: seq<string>, urls: seq<string>, n0: string)
    requires SnsState(t, i, sns, order, urls) && i < |t| && t[i] == Some(n0) && n0 !in sns
    ensures forall p, q :: 0 <= p < q < |order + [n0]| ==> (order + [n0])[p] != (order + [n0])[q]
    ensures forall p, q :: 0 <= p < q < |order + [n0]| ==> SeenBefore(t, Some((order + [n0])[p]), Some((order + [n0])[q]))
  {
    var order' := order + [n0];
    forall p, q | 0 <= p < q < |order'|
      ensures SeenBefore(t, Some(order'[p]), Some(order'[q]))
    {
      if q == |order| {
        assert order'[p] == order[p] && order[p] in sns;
        assert Some(order[p]) in t[..i];
        var j :| 0 <= j < i && t[..i][j] == Some(order[p]);
        assert forall m :: 0 <= m <= j ==> t[m] != Some(n0) by {
          assert Some(n0) !in t[..i];
          forall m | 0 <= m <= j ensures t[m] != Some(n0) { assert t[m] == t[..i][m]; }
        }
      } else {
        assert order'[p] == order[p] && order'[q] == order[q];
      }
    }
    forall p, q | 0 <= p < q < |order'| ensures order'[p] != order'[q] {
      if q == |order| { assert order'[p] == order[p] && order[p] in sns; }
    }
  }

  /** The last occurrence stays the last one past a position that holds something else. */
  lemma LastAtExtend<T>(t: seq<T>, x: T, j: int, i: int)
    requires LastAt(t, x, j, i) && i < |t| && t[i] != x
    ensures LastAt(t, x, j, i + 1)
  {
  }

  /** A step over a recruiting link makes it the last one; a step over any other link keeps the last one. */
  lemma RecruitStep(t: seq<bool>, i: int)
    requires 0 <= i < |t|
    ensures (true in t[..i + 1]) <==> t[i] || true in t[..i]
    ensures t[i] ==> LastAt(t, true, i, i + 1)
    ensures !t[i] ==> forall j :: LastAt(t, true, j, i) ==> LastAt(t, true, j, i + 1)
  {
    assert t[..i + 1] == t[..i] + [t[i]];
  }
}
