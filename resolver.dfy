/** `linkResults(in:)`: the label's list of link results, assembled from the
    text-link search and the three detectors in a fixed order. */
module Resolver {
  import opened Optionals
  import opened Utf16
  import opened Detection
  import opened TextLinks
  import opened Detectors

  /** What the foreign engines report for one label text: the hits of the user
      handle and hashtag patterns (None when the pattern does not compile)
      and the matches of the data detector (None when it cannot be created). */
  datatype Engines = Engines(
    handleHits: Option<seq<NSRange>>,
    hashtagHits: Option<seq<NSRange>>,
    urlHits: Option<seq<DetectorHit>>)

  /** The length of the range the regex helper scans: `text.characters.count`
      in the older file, the UTF-16 length (`nsString.length`) in the newer
      one. The variant of the selection tells the two versions apart. */
  function RegexWindow(sel: KindSelection, t: LabelText): (w: nat)
    ensures sel.LegacyMask? ==> w == t.charCount
    ensures sel.KindList? ==> w == |t.units|
  {
    if sel.LegacyMask? then t.charCount else |t.units|
  }

  predicate RegexHitsFit(hits: Option<seq<NSRange>>, window: nat) {
    hits.Some? ==> HitsInside(hits.value, window)
  }

  /** The data detector scans `(0, plainText.characters.count)` and reports
      non-empty matches inside it. */
  predicate UrlHitsFit(hits: Option<seq<DetectorHit>>, t: LabelText) {
    hits.Some? ==> forall k :: 0 <= k < |hits.value| ==> 0 < hits.value[k].range.length && hits.value[k].range.End() <= t.charCount
  }

  /** What `linkResults(in:)` needs to run without trapping. `selfText` is the
      label's `text` (an implicitly unwrapped optional, read by the text-link
      search and the regex helper); `argText` is the string of the attributed
      string being built, read by the URL helper. */
  predicate CanResolve(selfText: Option<LabelText>, textLinks: Option<seq<TextLink>>, sel: KindSelection,
                       argText: LabelText, engines: Engines)
  {
    && (selfText.Some? ==> WellFormedText(selfText.value))
    && WellFormedText(argText)
    && (textLinks.Some? && textLinks.value != [] ==> selfText.Some?)
    && (Enabled(sel, UserHandle) || Enabled(sel, Hashtag) ==> selfText.Some?)
    && (selfText.Some? ==>
          && RegexHitsFit(engines.handleHits, RegexWindow(sel, selfText.value))
          && RegexHitsFit(engines.hashtagHits, RegexWindow(sel, selfText.value)))
    && UrlHitsFit(engines.urlHits, argText)
  }

  /** The text-link block: every registered link is searched for whenever
      `textLinks` is set, whatever the selection says about `TextLink`. */
  function TextLinkPart(selfText: Option<LabelText>, textLinks: Option<seq<TextLink>>): seq<LinkResult>
    requires selfText.Some? ==> WellFormedText(selfText.value)
    requires textLinks.Some? && textLinks.value != [] ==> selfText.Some?
  {
    if textLinks.Some? && textLinks.value != [] then
      AllTextLinkMatches(selfText.value.units, selfText.value.charCount, textLinks.value)
    else []
  }

  /** The block of one regex detector: empty when its kind is not enabled or
      its pattern does not compile. */
  function RegexPart(kind: LinkDetectionType, selfText: Option<LabelText>, sel: KindSelection, hits: Option<seq<NSRange>>): seq<LinkResult>
    requires Enabled(sel, kind) ==> selfText.Some?
    requires selfText.Some? ==> WellFormedText(selfText.value) && RegexHitsFit(hits, RegexWindow(sel, selfText.value))
  {
    if Enabled(sel, kind) && hits.Some? then
      RegexResults(kind, selfText.value.units, hits.value)
    else []
  }

  /** The URL block. The attributed string is freshly built from plain text,
      so it carries no link attribute. */
  function UrlPart(sel: KindSelection, argText: LabelText, hits: Option<seq<DetectorHit>>): seq<LinkResult> {
    if Enabled(sel, Url) && hits.Some? then UrlResults(argText.units, map[], hits.value) else []
  }

  /** The list `linkResults(in:)` returns. */
  function Detected(selfText: Option<LabelText>, textLinks: Option<seq<TextLink>>, sel: KindSelection,
                    argText: LabelText, engines: Engines): seq<LinkResult>
    requires CanResolve(selfText, textLinks, sel, argText, engines)
  {
    TextLinkPart(selfText, textLinks)
      + RegexPart(UserHandle, selfText, sel, engines.handleHits)
      + RegexPart(Hashtag, selfText, sel, engines.hashtagHits)
      + UrlPart(sel, argText, engines.urlHits)
  }

  /** `linkResults(in:)`: the text links first, then each enabled detector in
      the order user handles, hashtags, URLs. */
  method LinkResultsIn(selfText: Option<LabelText>, textLinks: Option<seq<TextLink>>, sel: KindSelection,
                       argText: LabelText, engines: Engines)
    returns (linkResults: seq<LinkResult>)
    requires CanResolve(selfText, textLinks, sel, argText, engines)
    ensures linkResults == Detected(selfText, textLinks, sel, argText, engines)
  {
    linkResults := [];
    if textLinks.Some? {
      if textLinks.value != [] {
        var t := selfText.value;
        var found := LinkResultsForTextLinks(t.units, t.charCount, textLinks.value);
        linkResults := linkResults + found;
      }
    }
    assert linkResults == TextLinkPart(selfText, textLinks);
    ghost var before := linkResults;
    if Enabled(sel, UserHandle) {
      var t := selfText.value;
      var found := LinkResultsForRegex(UserHandle, t.units, RegexWindow(sel, t), argText.units, engines.handleHits);
      linkResults := linkResults + found;
    }
    assert linkResults == before + RegexPart(UserHandle, selfText, sel, engines.handleHits);
    before := linkResults;
    if Enabled(sel, Hashtag) {
      var t := selfText.value;
      var found := LinkResultsForRegex(Hashtag, t.units, RegexWindow(sel, t), argText.units, engines.hashtagHits);
      linkResults := linkResults + found;
    }
    assert linkResults == before + RegexPart(Hashtag, selfText, sel, engines.hashtagHits);
    before := linkResults;
    if Enabled(sel, Url) {
      if engines.urlHits.Some? {
        forall k | 0 <= k < |engines.urlHits.value|
          ensures engines.urlHits.value[k].range.location < |argText.units|
        {
        }
      }
      var found := LinkResultsForURLs(argText.units, map[], engines.urlHits);
      linkResults := linkResults + found;
    }
    assert linkResults == before + UrlPart(sel, argText, engines.urlHits);
  }

  /** The position of a kind in the fixed block order. */
  function Rank(k: LinkDetectionType): nat {
    match k
    case TextLinkType => 0
    case UserHandle => 1
    case Hashtag => 2
    case Url => 3
    case NoneType => 4
  }

  predicate AllOfKind(rs: seq<LinkResult>, kind: LinkDetectionType) {
    forall k :: 0 <= k < |rs| ==> rs[k].detectionType == kind
  }

  lemma TextLinkPartKinds(selfText: Option<LabelText>, textLinks: Option<seq<TextLink>>)
    requires selfText.Some? ==> WellFormedText(selfText.value)
    requires textLinks.Some? && textLinks.value != [] ==> selfText.Some?
    ensures AllOfKind(TextLinkPart(selfText, textLinks), TextLinkType)
    ensures forall k :: 0 <= k < |TextLinkPart(selfText, textLinks)| ==>
              && TextLinkPart(selfText, textLinks)[k].textLink.Some?
              && textLinks.Some? && TextLinkPart(selfText, textLinks)[k].textLink.value in textLinks.value
  {
    if textLinks.Some? && textLinks.value != [] {
      AllTextLinkMatchesSound(selfText.value.units, selfText.value.charCount, textLinks.value);
    }
  }

  lemma RegexPartKinds(kind: LinkDetectionType, selfText: Option<LabelText>, sel: KindSelection, hits: Option<seq<NSRange>>)
    requires Enabled(sel, kind) ==> selfText.Some?
    requires selfText.Some? ==> WellFormedText(selfText.value) && RegexHitsFit(hits, RegexWindow(sel, selfText.value))
    ensures AllOfKind(RegexPart(kind, selfText, sel, hits), kind)
    ensures !Enabled(sel, kind) ==> RegexPart(kind, selfText, sel, hits) == []
  {
    var rs := RegexPart(kind, selfText, sel, hits);
    forall k | 0 <= k < |rs|
      ensures rs[k].detectionType == kind
    {
      RegexResultsSound(kind, selfText.value.units, hits.value, k);
    }
  }

  lemma UrlPartKinds(sel: KindSelection, argText: LabelText, hits: Option<seq<DetectorHit>>)
    ensures AllOfKind(UrlPart(sel, argText, hits), Url)
    ensures !Enabled(sel, Url) ==> UrlPart(sel, argText, hits) == []
  {
    var rs := UrlPart(sel, argText, hits);
    forall k | 0 <= k < |rs|
      ensures rs[k].detectionType == Url
    {
      UrlResultsFromLinkHits(argText.units, map[], hits.value, k);
    }
  }

  /** Four blocks, each of one kind and in increasing rank, concatenate to a
      list ordered by rank. */
  lemma BlocksRanked(a: seq<LinkResult>, b: seq<LinkResult>, c: seq<LinkResult>, d: seq<LinkResult>,
                     ka: LinkDetectionType, kb: LinkDetectionType, kc: LinkDetectionType, kd: LinkDetectionType)
    requires AllOfKind(a, ka) && AllOfKind(b, kb) && AllOfKind(c, kc) && AllOfKind(d, kd)
    requires Rank(ka) < Rank(kb) < Rank(kc) < Rank(kd)
    ensures forall k, k' :: 0 <= k < k' < |a + b + c + d| ==>
              Rank((a + b + c + d)[k].detectionType) <= Rank((a + b + c + d)[k'].detectionType)
  {
    var rs := a + b + c + d;
    assert forall k :: 0 <= k < |rs| ==>
      rs[k].detectionType == (if k < |a| then ka
                              else if k < |a| + |b| then kb
                              else if k < |a| + |b| + |c| then kc
                              else kd);
  }

  /** The list is made of the four blocks in order: text links first, then
      user handles, hashtags and URLs, so a result never follows one of a
      higher rank. */
  lemma DetectedOrder(selfText: Option<LabelText>, textLinks: Option<seq<TextLink>>, sel: KindSelection,
                      argText: LabelText, engines: Engines, k: nat, k': nat)
    requires CanResolve(selfText, textLinks, sel, argText, engines)
    requires k < k' < |Detected(selfText, textLinks, sel, argText, engines)|
    ensures Rank(Detected(selfText, textLinks, sel, argText, engines)[k].detectionType)
              <= Rank(Detected(selfText, textLinks, sel, argText, engines)[k'].detectionType)
  {
    var a := TextLinkPart(selfText, textLinks);
    var b := RegexPart(UserHandle, selfText, sel, engines.handleHits);
    var c := RegexPart(Hashtag, selfText, sel, engines.hashtagHits);
    var d := UrlPart(sel, argText, engines.urlHits);
    TextLinkPartKinds(selfText, textLinks);
    RegexPartKinds(UserHandle, selfText, sel, engines.handleHits);
    RegexPartKinds(Hashtag, selfText, sel, engines.hashtagHits);
    UrlPartKinds(sel, argText, engines.urlHits);
    BlocksRanked(a, b, c, d, TextLinkType, UserHandle, Hashtag, Url);
  }

  /** Every result is of a detected kind, never `None`; a detector result is
      only present when its kind is enabled; and a text-link result carries
      one of the registered links. */
  lemma DetectedKinds(selfText: Option<LabelText>, textLinks: Option<seq<TextLink>>, sel: KindSelection,
                      argText: LabelText, engines: Engines, k: nat)
    requires CanResolve(selfText, textLinks, sel, argText, engines)
    requires k < |Detected(selfText, textLinks, sel, argText, engines)|
    ensures Detected(selfText, textLinks, sel, argText, engines)[k].detectionType != NoneType
    ensures Detected(selfText, textLinks, sel, argText, engines)[k].detectionType != TextLinkType ==>
              Enabled(sel, Detected(selfText, textLinks, sel, argText, engines)[k].detectionType)
    ensures Detected(selfText, textLinks, sel, argText, engines)[k].detectionType == TextLinkType ==>
              && textLinks.Some?
              && Detected(selfText, textLinks, sel, argText, engines)[k].textLink.Some?
              && Detected(selfText, textLinks, sel, argText, engines)[k].textLink.value in textLinks.value
  {
    var a := TextLinkPart(selfText, textLinks);
    var b := RegexPart(UserHandle, selfText, sel, engines.handleHits);
    var c := RegexPart(Hashtag, selfText, sel, engines.hashtagHits);
    var d := UrlPart(sel, argText, engines.urlHits);
    var rs := Detected(selfText, textLinks, sel, argText, engines);
    assert rs == a + b + c + d;
    BlockAt(a, b, c, d, k);
    if k < |a| {
      TextLinkPartKinds(selfText, textLinks);
    } else if k < |a| + |b| {
      RegexPartKinds(UserHandle, selfText, sel, engines.handleHits);
    } else if k < |a| + |b| + |c| {
      RegexPartKinds(Hashtag, selfText, sel, engines.hashtagHits);
    } else {
      UrlPartKinds(sel, argText, engines.urlHits);
    }
  }

  /** Position `k` of four concatenated blocks is a position of one of them. */
  lemma BlockAt(a: seq<LinkResult>, b: seq<LinkResult>, c: seq<LinkResult>, d: seq<LinkResult>, k: nat)
    requires k < |a + b + c + d|
    ensures k < |a| ==> (a + b + c + d)[k] == a[k]
    ensures |a| <= k < |a| + |b| ==> (a + b + c + d)[k] == b[k - |a|]
    ensures |a| + |b| <= k < |a| + |b| + |c| ==> (a + b + c + d)[k] == c[k - |a| - |b|]
    ensures |a| + |b| + |c| <= k ==> (a + b + c + d)[k] == d[k - |a| - |b| - |c|]
  {
  }

  /** The text-link block comes first and is the same under every selection:
      text links are searched for even when the `TextLink` kind is off. */
  lemma TextLinksUngated(selfText: Option<LabelText>, textLinks: Option<seq<TextLink>>, sel: KindSelection,
                         argText: LabelText, engines: Engines)
    requires CanResolve(selfText, textLinks, sel, argText, engines)
    ensures |TextLinkPart(selfText, textLinks)| <= |Detected(selfText, textLinks, sel, argText, engines)|
    ensures Detected(selfText, textLinks, sel, argText, engines)[..|TextLinkPart(selfText, textLinks)|]
              == TextLinkPart(selfText, textLinks)
    ensures !Enabled(sel, UserHandle) && !Enabled(sel, Hashtag) && !Enabled(sel, Url) ==>
              Detected(selfText, textLinks, sel, argText, engines) == TextLinkPart(selfText, textLinks)
  {
    var a := TextLinkPart(selfText, textLinks);
    var rest := RegexPart(UserHandle, selfText, sel, engines.handleHits)
      + RegexPart(Hashtag, selfText, sel, engines.hashtagHits)
      + UrlPart(sel, argText, engines.urlHits);
    assert Detected(selfText, textLinks, sel, argText, engines) == a + rest;
    assert (a + rest)[..|a|] == a;
  }

  /** The two versions produce the same list from the same kinds when every
      character of the label's text is a single code unit, where the two
      regex windows coincide. */
  lemma VersionsAgree(selfText: Option<LabelText>, textLinks: Option<seq<TextLink>>, kinds: seq<LinkDetectionType>,
                      argText: LabelText, engines: Engines)
    requires CanResolve(selfText, textLinks, KindList(kinds), argText, engines)
    requires selfText.Some? ==> selfText.value.charCount == |selfText.value.units|
    ensures CanResolve(selfText, textLinks, LegacyMask(MaskOf(kinds)), argText, engines)
    ensures Detected(selfText, textLinks, LegacyMask(MaskOf(kinds)), argText, engines)
              == Detected(selfText, textLinks, KindList(kinds), argText, engines)
  {
    SelectionsAgree(kinds, UserHandle);
    SelectionsAgree(kinds, Hashtag);
    SelectionsAgree(kinds, Url);
  }

  /** Four blocks that each fit in `n` code units concatenate to a list that
      fits. */
  lemma BlocksFit(a: seq<LinkResult>, b: seq<LinkResult>, c: seq<LinkResult>, d: seq<LinkResult>, n: nat)
    requires ResultsFit(a, n) && ResultsFit(b, n) && ResultsFit(c, n) && ResultsFit(d, n)
    ensures ResultsFit(a + b + c + d, n)
  {
    var rs := a + b + c + d;
    forall k | 0 <= k < |rs|
      ensures rs[k].range.End() <= n
    {
      if k < |a| {
        assert rs[k] == a[k];
      } else if k < |a| + |b| {
        assert rs[k] == b[k - |a|];
      } else if k < |a| + |b| + |c| {
        assert rs[k] == c[k - |a| - |b|];
      } else {
        assert rs[k] == d[k - |a| - |b| - |c|];
      }
    }
  }

  lemma TextLinkPartFits(t: LabelText, textLinks: Option<seq<TextLink>>)
    requires WellFormedText(t)
    ensures ResultsFit(TextLinkPart(Some(t), textLinks), |t.units|)
  {
    if textLinks.Some? && textLinks.value != [] {
      AllTextLinkMatchesSound(t.units, t.charCount, textLinks.value);
    }
  }

  lemma RegexPartFits(kind: LinkDetectionType, t: LabelText, sel: KindSelection, hits: Option<seq<NSRange>>)
    requires WellFormedText(t) && RegexHitsFit(hits, RegexWindow(sel, t))
    ensures ResultsFit(RegexPart(kind, Some(t), sel, hits), |t.units|)
  {
    var rs := RegexPart(kind, Some(t), sel, hits);
    forall k | 0 <= k < |rs|
      ensures rs[k].range.End() <= |t.units|
    {
      RegexResultsSound(kind, t.units, hits.value, k);
    }
  }

  lemma UrlPartFits(sel: KindSelection, t: LabelText, hits: Option<seq<DetectorHit>>)
    requires WellFormedText(t) && UrlHitsFit(hits, t)
    ensures ResultsFit(UrlPart(sel, t, hits), t.charCount)
  {
    var rs := UrlPart(sel, t, hits);
    forall k | 0 <= k < |rs|
      ensures rs[k].range.End() <= t.charCount
    {
      UrlResultsFromLinkHits(t.units, map[], hits.value, k);
    }
  }

  /** When the attributed string is built from the label's own text, every
      result lies inside that text. */
  lemma DetectedFit(t: LabelText, textLinks: Option<seq<TextLink>>, sel: KindSelection, engines: Engines)
    requires CanResolve(Some(t), textLinks, sel, t, engines)
    ensures ResultsFit(Detected(Some(t), textLinks, sel, t, engines), |t.units|)
  {
    TextLinkPartFits(t, textLinks);
    RegexPartFits(UserHandle, t, sel, engines.handleHits);
    RegexPartFits(Hashtag, t, sel, engines.hashtagHits);
    UrlPartFits(sel, t, engines.urlHits);
    BlocksFit(TextLinkPart(Some(t), textLinks), RegexPart(UserHandle, Some(t), sel, engines.handleHits),
              RegexPart(Hashtag, Some(t), sel, engines.hashtagHits), UrlPart(sel, t, engines.urlHits), |t.units|);
  }
}
