/**
 * The contact part of the extractors, `analyze_contact`: a form, the first
 * phone-number match, a `mailto:` link, and a link whose href and text
 * mention an inquiry page.
 */
module Contact {
  import opened Text
  import opened Documents

  /** The words the contact-page scan looks for. */
  const ContactWords: seq<string> := ["問い合わせ", "お問合せ", "contact", "inquiry"]

  datatype ContactInfo = ContactInfo(
    hasForm: bool,
    hasPhone: bool,
    phoneNumber: string,
    hasEmailLink: bool,
    hasContactPage: bool)

  /** `any(w in ht for w in [...])` */
  predicate MentionsContact(ht: string) {
    exists k :: 0 <= k < |ContactWords| && Contains(ht, ContactWords[k])
  }

  /** The lowercased concatenation of the raw href and the unstripped text of an anchor. */
  function LinkText(a: Anchor): string { Lower(a.href + a.text) }

  predicate ContactLink(a: Anchor) { MentionsContact(LinkText(a)) }

  /** `href=re.compile(r"^mailto:")`: the raw attribute starts with `mailto:`. */
  predicate MailtoLink(a: Anchor) { StartsWith(a.href, "mailto:") }

  /** `soup.find("a", href=re.compile(r"^mailto:")) is not None` */
  function HasMailto(s: seq<Anchor>): (b: bool)
    ensures b <==> exists j :: 0 <= j < |s| && MailtoLink(s[j])
  {
    if s == [] then false
    else if MailtoLink(s[0]) then true
    else
      var b := HasMailto(s[1..]);
      assert forall j :: 1 <= j < |s| ==> s[j] == s[1..][j - 1];
      b
  }

  /** What `analyze_contact` returns for a page. */
  function ContactOf(doc: Document): (info: ContactInfo)
    ensures info.hasPhone <==> |doc.phoneMatches| > 0
    ensures info.hasPhone ==> info.phoneNumber == doc.phoneMatches[0]
    ensures info.hasEmailLink <==> exists j :: 0 <= j < |doc.anchors| && MailtoLink(doc.anchors[j])
  {
    ContactInfo(
      doc.hasForm,
      |doc.phoneMatches| > 0,
      if |doc.phoneMatches| > 0 then doc.phoneMatches[0] else "",
      HasMailto(doc.anchors),
      exists j :: 0 <= j < |doc.anchors| && ContactLink(doc.anchors[j]))
  }

  /**
   * `analyze_contact`: the anchors are scanned in order and the scan stops at
   * the first one that mentions a contact page.
   */
  method AnalyzeContact(doc: Document) returns (info: ContactInfo)
    ensures info == ContactOf(doc)
    ensures info.hasPhone <==> |doc.phoneMatches| > 0
    ensures info.hasContactPage <==> exists j :: 0 <= j < |doc.anchors| && ContactLink(doc.anchors[j])
  {
    var hasPhone := false;
    var phone := "";
    if |doc.phoneMatches| > 0 {
      hasPhone := true;
      phone := doc.phoneMatches[0];
    }
    var hasEmail := HasMailto(doc.anchors);
    var hasPage := false;
    var i := 0;
    while i < |doc.anchors|
      invariant 0 <= i <= |doc.anchors|
      invariant forall j :: 0 <= j < i ==> !ContactLink(doc.anchors[j])
    {
      var ht := LinkText(doc.anchors[i]);
      if MentionsContact(ht) {
        hasPage := true;
        break;
      }
      i := i + 1;
    }
    info := ContactInfo(doc.hasForm, hasPhone, phone, hasEmail, hasPage);
  }
}
