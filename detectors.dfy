/** The two detector helpers of the label: the regular-expression helper used
    for user handles and hashtags, and the URL helper built on the data
    detector. The engines themselves are foreign; what they report is passed
    in as a list of hits. */
module Detectors {
  import opened Optionals
  import opened Utf16
  import opened Detection

  /** Every hit lies inside the first `len` code units. */
  predicate HitsInside(hits: seq<NSRange>, len: nat) {
    forall k :: 0 <= k < |hits| ==> hits[k].End() <= len
  }

  /** The hits the regex helper keeps: those longer than one code unit, in
      the engine's order. */
  function LongHits(hits: seq<NSRange>): (kept: seq<NSRange>)
    ensures |kept| <= |hits|
  {
    if hits == [] then []
    else LongHits(hits[..|hits| - 1]) + (if hits[|hits| - 1].length > 1 then [hits[|hits| - 1]] else [])
  }

  /** A range is kept exactly when the engine reported it and it is longer
      than one code unit. */
  lemma {:induction false} LongHitsMembership(hits: seq<NSRange>, r: NSRange)
    ensures r in LongHits(hits) <==> r in hits && r.length > 1
  {
    if hits != [] {
      var init, last := hits[..|hits| - 1], hits[|hits| - 1];
      LongHitsMembership(init, r);
      assert hits == init + [last];
    }
  }

  /** The result the regex helper records for a hit: the kind, the range and
      the label's text under the range, with no text link. */
  function RegexResult(kind: LinkDetectionType, text: seq<CodeUnit>, r: NSRange): LinkResult
    requires r.End() <= |text|
  {
    LinkResult(kind, r, Substring(text, r), None)
  }

  /** The results of the regex helper for the hits of a compiled pattern: one
      per kept hit, in the engine's order. */
  function RegexResults(kind: LinkDetectionType, text: seq<CodeUnit>, hits: seq<NSRange>): (rs: seq<LinkResult>)
    requires HitsInside(hits, |text|)
    ensures |rs| == |LongHits(hits)|
  {
    if hits == [] then []
    else
      var last := hits[|hits| - 1];
      RegexResults(kind, text, hits[..|hits| - 1]) + (if last.length > 1 then [RegexResult(kind, text, last)] else [])
  }

  /** The k-th result records the k-th kept hit and the text under it. */
  lemma {:induction false} RegexResultsAreKeptHits(kind: LinkDetectionType, text: seq<CodeUnit>, hits: seq<NSRange>, k: nat)
    requires HitsInside(hits, |text|)
    requires k < |RegexResults(kind, text, hits)|
    ensures LongHits(hits)[k].End() <= |text|
    ensures RegexResults(kind, text, hits)[k] == RegexResult(kind, text, LongHits(hits)[k])
  {
    var init, last := hits[..|hits| - 1], hits[|hits| - 1];
    if k < |RegexResults(kind, text, init)| {
      RegexResultsAreKeptHits(kind, text, init, k);
    }
  }

  /** Every result of the regex helper is of the helper's kind, longer than one
      code unit, carries no text link, and records exactly the label's text
      under its range. */
  lemma RegexResultsSound(kind: LinkDetectionType, text: seq<CodeUnit>, hits: seq<NSRange>, k: nat)
    requires HitsInside(hits, |text|)
    requires k < |RegexResults(kind, text, hits)|
    ensures var r := RegexResults(kind, text, hits)[k];
            && r.detectionType == kind
            && r.range in hits
            && r.range.length > 1
            && r.textLink.None?
            && r.range.End() <= |text|
            && r.text == Substring(text, r.range)
  {
    RegexResultsAreKeptHits(kind, text, hits, k);
    LongHitsMembership(hits, LongHits(hits)[k]);
  }

  /** `linkResults(for:regexPattern:string:)`: the engine is run over the
      label's own text, and the `inString` argument (the source's `string`)
      is not used; `hits` is None when the pattern does not compile, which
      yields no results. `window` is
      the length of the range the engine is asked to scan: the character
      count in the older file, the UTF-16 length in the newer one; the engine
      reports hits inside it. */
  method LinkResultsForRegex(kind: LinkDetectionType, text: seq<CodeUnit>, window: nat, inString: seq<CodeUnit>,
                             hits: Option<seq<NSRange>>)
    returns (linkResults: seq<LinkResult>)
    requires window <= |text|
    requires hits.Some? ==> HitsInside(hits.value, window)
    ensures hits.None? ==> linkResults == []
    ensures hits.Some? ==> linkResults == RegexResults(kind, text, hits.value)
  {
    linkResults := [];
    if hits.Some? {
      var matches := hits.value;
      for n := 0 to |matches|
        invariant linkResults == RegexResults(kind, text, matches[..n])
      {
        var matchRange := matches[n];
        var matchString := Substring(text, matchRange);
        if matchRange.length > 1 {
          linkResults := linkResults + [LinkResult(kind, matchRange, matchString, None)];
        }
        assert matches[..n + 1][..n] == matches[..n];
      }
      assert matches[..|matches|] == matches;
    }
  }

  /** One match of the data detector: its range and whether its result type
      is `.link`. */
  datatype DetectorHit = DetectorHit(range: NSRange, isLink: bool)

  /** The value of an `NSLinkAttributeName` attribute: a string, or some
      other object (such as a URL) that the `as? String` cast rejects. */
  datatype LinkAttribute = StringLink(url: seq<CodeUnit>) | OtherLink

  /** The text recorded for a URL hit: the link attribute at the hit's start
      when there is one, otherwise the text under the hit when the hit can be
      converted to a string range; None when the cast to a string fails. */
  function UrlText(text: seq<CodeUnit>, attributes: map<nat, LinkAttribute>, r: NSRange): (s: Option<seq<CodeUnit>>)
    ensures r.location !in attributes ==>
              (s.Some? <==> RangeFromNSRange(text, r).Some?) &&
              (s.Some? ==> r.End() <= |text| && s.value == Substring(text, r))
    ensures r.location in attributes ==> (s.Some? <==> attributes[r.location].StringLink?)
    ensures r.location in attributes && attributes[r.location].StringLink? ==> s == Some(attributes[r.location].url)
  {
    if r.location in attributes then
      match attributes[r.location]
      case StringLink(url) => Some(url)
      case OtherLink => None
    else
      match RangeFromNSRange(text, r)
      case Some(range) => Some(text[range.lower..range.upper])
      case None => None
  }

  /** A detector hit is turned into a result: it is a link and its text is a
      string. */
  predicate KeptUrl(text: seq<CodeUnit>, attributes: map<nat, LinkAttribute>, hit: DetectorHit) {
    hit.isLink && UrlText(text, attributes, hit.range).Some?
  }

  function UrlResult(text: seq<CodeUnit>, attributes: map<nat, LinkAttribute>, hit: DetectorHit): LinkResult
    requires KeptUrl(text, attributes, hit)
  {
    LinkResult(Url, hit.range, UrlText(text, attributes, hit.range).value, None)
  }

  /** The results of the URL helper for the detector's hits, in order. */
  function UrlResults(text: seq<CodeUnit>, attributes: map<nat, LinkAttribute>, hits: seq<DetectorHit>): (rs: seq<LinkResult>)
    ensures |rs| <= |hits|
  {
    if hits == [] then []
    else
      var last := hits[|hits| - 1];
      UrlResults(text, attributes, hits[..|hits| - 1])
        + (if KeptUrl(text, attributes, last) then [UrlResult(text, attributes, last)] else [])
  }

  /** A result of the URL helper is exactly the result of a kept hit. */
  lemma {:induction false} UrlResultsMembership(text: seq<CodeUnit>, attributes: map<nat, LinkAttribute>, hits: seq<DetectorHit>, r: LinkResult)
    ensures r in UrlResults(text, attributes, hits) <==>
              exists k :: 0 <= k < |hits| && KeptUrl(text, attributes, hits[k]) && r == UrlResult(text, attributes, hits[k])
  {
    if hits != [] {
      var init, last := hits[..|hits| - 1], hits[|hits| - 1];
      UrlResultsMembership(text, attributes, init, r);
      if r in UrlResults(text, attributes, hits) && r !in UrlResults(text, attributes, init) {
        assert hits[|hits| - 1] == last;
      }
      if exists k :: 0 <= k < |hits| && KeptUrl(text, attributes, hits[k]) && r == UrlResult(text, attributes, hits[k]) {
        var k :| 0 <= k < |hits| && KeptUrl(text, attributes, hits[k]) && r == UrlResult(text, attributes, hits[k]);
        if k < |init| {
          assert init[k] == hits[k];
        }
      }
    }
  }

  /** A hit that is not a link, or that has no attribute and cannot be
      converted to a string range (it ends past the text or splits a
      surrogate pair), produces no result. Without attributes every result
      records the text under its range. */
  lemma UrlResultsSound(text: seq<CodeUnit>, attributes: map<nat, LinkAttribute>, hits: seq<DetectorHit>, k: nat)
    requires k < |hits|
    ensures !hits[k].isLink ==> !KeptUrl(text, attributes, hits[k])
    ensures hits[k].range.location !in attributes && RangeFromNSRange(text, hits[k].range).None? ==>
              !KeptUrl(text, attributes, hits[k])
    ensures KeptUrl(text, attributes, hits[k]) ==> UrlResult(text, attributes, hits[k]) in UrlResults(text, attributes, hits)
    ensures attributes == map[] && KeptUrl(text, attributes, hits[k]) ==>
              hits[k].range.End() <= |text| && UrlResult(text, attributes, hits[k]).text == Substring(text, hits[k].range)
  {
    if KeptUrl(text, attributes, hits[k]) {
      UrlResultsMembership(text, attributes, hits, UrlResult(text, attributes, hits[k]));
    }
  }

  /** Every result of the URL helper is a URL result with no text link,
      recorded over the range of one of the detector's link hits. */
  lemma UrlResultsFromLinkHits(text: seq<CodeUnit>, attributes: map<nat, LinkAttribute>, hits: seq<DetectorHit>, k: nat)
    requires k < |UrlResults(text, attributes, hits)|
    ensures UrlResults(text, attributes, hits)[k].detectionType == Url
    ensures UrlResults(text, attributes, hits)[k].textLink.None?
    ensures exists j :: 0 <= j < |hits| && hits[j].isLink && hits[j].range == UrlResults(text, attributes, hits)[k].range
  {
    var r := UrlResults(text, attributes, hits)[k];
    UrlResultsMembership(text, attributes, hits, r);
  }

  /** `linkResultsForURLs(inAttributedString:)`: `hits` is None when the data
      detector cannot be created, which yields no results. Reading the link
      attribute at a hit's location demands that location lie inside the
      string. */
  method LinkResultsForURLs(text: seq<CodeUnit>, attributes: map<nat, LinkAttribute>, hits: Option<seq<DetectorHit>>)
    returns (linkResults: seq<LinkResult>)
    requires hits.Some? ==> forall k :: 0 <= k < |hits.value| ==> hits.value[k].range.location < |text|
    ensures hits.None? ==> linkResults == []
    ensures hits.Some? ==> linkResults == UrlResults(text, attributes, hits.value)
  {
    linkResults := [];
    if hits.Some? {
      var matches := hits.value;
      for n := 0 to |matches|
        invariant linkResults == UrlResults(text, attributes, matches[..n])
      {
        var matchRange := matches[n].range;
        var realURL: Option<LinkAttribute> := if matchRange.location in attributes then Some(attributes[matchRange.location]) else None;
        if realURL.None? {
          var range := RangeFromNSRange(text, matchRange);
          if range.Some? {
            realURL := Some(StringLink(text[range.value.lower..range.value.upper]));
          }
        }
        if matches[n].isLink {
          if realURL.Some? && realURL.value.StringLink? {
            linkResults := linkResults + [LinkResult(Url, matchRange, realURL.value.url, None)];
          }
        }
        assert matches[..n + 1][..n] == matches[..n];
      }
      assert matches[..|matches|] == matches;
    }
  }
}
