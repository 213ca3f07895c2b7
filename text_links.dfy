/** The literal text-link search (`linkResultsForTextLinks`): for each
    registered text link, in registration order, every occurrence of its phrase
    found by repeatedly searching the rest of the text. */
module TextLinks {
  import opened Optionals
  import opened Utf16
  import opened Detection
  import opened TextSearch

  /** `textLink.range ?? NSMakeRange(0, count)`, where `count` is the length
      the label measures its text with. */
  function LinkRange(link: TextLink, count: nat): NSRange {
    link.range.GetOr(NSRange(0, count))
  }

  /** The result recorded for an occurrence of `link` at offset `i`: the phrase
      itself as the text, and the link it came from. */
  function ResultFor(link: TextLink, i: nat): LinkResult {
    LinkResult(TextLinkType, NSRange(i, |link.text|), link.text, Some(link))
  }

  /** What the search loop appends for one link once its search window is
      `(sLoc, sLen)`: a hit that ends inside the link's range is recorded and
      the next window runs from the end of the hit to `count`; a miss, or a hit
      that ends past the range, ends the loop. */
  function MatchesFrom(text: seq<CodeUnit>, count: nat, link: TextLink, range: NSRange, sLoc: nat, sLen: nat): seq<LinkResult>
    requires sLoc + sLen <= count <= |text|
    requires range.End() <= count
    decreases count - sLoc
  {
    match FindFirst(text, link.text, link.options, sLoc, sLen)
    case None => []
    case Some(i) =>
      var end := i + |link.text|;
      if end <= range.End() then [ResultFor(link, i)] + MatchesFrom(text, count, link, range, end, count - end)
      else []
  }

  /** One step of the loop that records a hit: the results still to come
      are the hit's result followed by those of the search from its end, so
      appending the hit keeps "recorded + still to come" unchanged. */
  lemma MatchesFromHit(text: seq<CodeUnit>, count: nat, link: TextLink, range: NSRange, sLoc: nat, sLen: nat, i: nat,
                       target: seq<LinkResult>, recorded: seq<LinkResult>)
    requires sLoc + sLen <= count <= |text|
    requires range.End() <= count
    requires FindFirst(text, link.text, link.options, sLoc, sLen) == Some(i)
    requires i + |link.text| <= range.End()
    requires target == recorded + MatchesFrom(text, count, link, range, sLoc, sLen)
    ensures MatchesFrom(text, count, link, range, sLoc, sLen)
            == [ResultFor(link, i)] + MatchesFrom(text, count, link, range, i + |link.text|, count - (i + |link.text|))
    ensures target == (recorded + [ResultFor(link, i)]) + MatchesFrom(text, count, link, range, i + |link.text|, count - (i + |link.text|))
  {
    var rest := MatchesFrom(text, count, link, range, i + |link.text|, count - (i + |link.text|));
    assert MatchesFrom(text, count, link, range, sLoc, sLen) == [ResultFor(link, i)] + rest;
    assert recorded + ([ResultFor(link, i)] + rest) == (recorded + [ResultFor(link, i)]) + rest;
  }

  /** The step of the loop that ends it: a miss or a hit past the range. */
  lemma MatchesFromStop(text: seq<CodeUnit>, count: nat, link: TextLink, range: NSRange, sLoc: nat, sLen: nat)
    requires sLoc + sLen <= count <= |text|
    requires range.End() <= count
    requires var f := FindFirst(text, link.text, link.options, sLoc, sLen);
             f.None? || f.value + |link.text| > range.End()
    ensures MatchesFrom(text, count, link, range, sLoc, sLen) == []
  {
  }

  /** The results for one text link: none at all when its range reaches past
      `count`, otherwise the loop started on the link's range. */
  function TextLinkMatches(text: seq<CodeUnit>, count: nat, link: TextLink): seq<LinkResult>
    requires count <= |text|
  {
    var range := LinkRange(link, count);
    if range.End() <= count then MatchesFrom(text, count, link, range, range.location, range.length) else []
  }

  /** The concatenation of `f(x)` over `xs`, in order. */
  function ConcatMap<A, B>(f: A -> seq<B>, xs: seq<A>): seq<B> {
    if xs == [] then [] else ConcatMap(f, xs[..|xs| - 1]) + f(xs[|xs| - 1])
  }

  /** The results for a list of text links: each link's results, in
      registration order. */
  function AllTextLinkMatches(text: seq<CodeUnit>, count: nat, links: seq<TextLink>): seq<LinkResult>
    requires count <= |text|
  {
    ConcatMap((l: TextLink) => if count <= |text| then TextLinkMatches(text, count, l) else [], links)
  }

  /** `linkResultsForTextLinks(textLinks)` run on a text whose measured length
      is `count` (the source passes `text.characters.count`): the results of
      every link, in registration order. */
  method LinkResultsForTextLinks(text: seq<CodeUnit>, count: nat, textLinks: seq<TextLink>) returns (linkResults: seq<LinkResult>)
    requires count <= |text|
    ensures linkResults == AllTextLinkMatches(text, count, textLinks)
  {
    linkResults := [];
    for n := 0 to |textLinks|
      invariant linkResults == AllTextLinkMatches(text, count, textLinks[..n])
    {
      linkResults := AppendTextLinkMatches(text, count, textLinks[n], linkResults);
      assert textLinks[..n + 1] == textLinks[..n] + [textLinks[n]];
    }
    assert textLinks[..|textLinks|] == textLinks;
  }

  /** The body of the loop over the text links: search for one link's phrase
      again and again, each time from the end of the previous hit to `count`,
      and append a result for each hit that ends inside the link's range. The
      remaining window `count - location` is a natural number at every step. */
  method AppendTextLinkMatches(text: seq<CodeUnit>, count: nat, textLink: TextLink, before: seq<LinkResult>)
    returns (linkResults: seq<LinkResult>)
    requires count <= |text|
    ensures linkResults == before + TextLinkMatches(text, count, textLink)
  {
    ghost var target := before + TextLinkMatches(text, count, textLink);
    linkResults := before;
    var matchString := textLink.text;
    var range := textLink.range.GetOr(NSRange(0, count));
    var searchRange := range;
    var matchRange: Option<NSRange> := Some(NSRange(0, 0));
    if count >= range.location + range.length {
      while matchRange.Some?
        invariant searchRange.End() <= count
        invariant target == linkResults + MatchesFrom(text, count, textLink, range, searchRange.location, searchRange.length)
        invariant matchRange.None? ==> MatchesFrom(text, count, textLink, range, searchRange.location, searchRange.length) == []
        decreases count - searchRange.location
      {
        var found := FindFirst(text, matchString, textLink.options, searchRange.location, searchRange.length);
        matchRange := if found.Some? then Some(NSRange(found.value, |matchString|)) else None;
        if matchRange.Some? && matchRange.value.End() <= range.End() {
          var location := matchRange.value.End();
          var length: nat := count - location;
          MatchesFromHit(text, count, textLink, range, searchRange.location, searchRange.length, found.value, target, linkResults);
          linkResults := linkResults + [LinkResult(TextLinkType, matchRange.value, matchString, Some(textLink))];
          searchRange := NSRange(location, length);
        } else {
          MatchesFromStop(text, count, textLink, range, searchRange.location, searchRange.length);
          assert linkResults + [] == linkResults;
          return;
        }
      }
    }
  }

  /** `r` is the result `ResultFor` the link records for an occurrence of its
      phrase that lies between `lo` and `hi`. */
  ghost predicate Placed(text: seq<CodeUnit>, link: TextLink, lo: nat, hi: nat, r: LinkResult)
    requires hi <= |text|
  {
    && r == ResultFor(link, r.range.location)
    && lo <= r.range.location
    && r.range.End() <= hi
    && OccursAt(text, link.text, link.options, r.range.location)
  }

  ghost predicate WellPlaced(text: seq<CodeUnit>, link: TextLink, lo: nat, hi: nat, results: seq<LinkResult>)
    requires hi <= |text|
  {
    forall k :: 0 <= k < |results| ==> Placed(text, link, lo, hi, results[k])
  }

  /** Results in strictly increasing, non-overlapping order. */
  ghost predicate Ordered(results: seq<LinkResult>) {
    forall k, k' :: 0 <= k < k' < |results| ==> results[k].range.End() <= results[k'].range.location
  }

  /** Soundness of the search from one window on: every result is placed
      between the window's start and the end of the link's range. */
  lemma {:induction false} MatchesFromPlaced(text: seq<CodeUnit>, count: nat, link: TextLink, range: NSRange, sLoc: nat, sLen: nat)
    requires sLoc + sLen <= count <= |text|
    requires range.End() <= count
    ensures WellPlaced(text, link, sLoc, range.End(), MatchesFrom(text, count, link, range, sLoc, sLen))
    decreases count - sLoc
  {
    var found := FindFirst(text, link.text, link.options, sLoc, sLen);
    if found.Some? && found.value + |link.text| <= range.End() {
      FindFirstCorrect(text, link.text, link.options, sLoc, sLen);
      var end := found.value + |link.text|;
      var rest := MatchesFrom(text, count, link, range, end, count - end);
      MatchesFromPlaced(text, count, link, range, end, count - end);
      var rs := [ResultFor(link, found.value)] + rest;
      assert rs == MatchesFrom(text, count, link, range, sLoc, sLen);
      forall k | 0 <= k < |rs|
        ensures Placed(text, link, sLoc, range.End(), rs[k])
      {
        if k > 0 {
          assert rs[k] == rest[k - 1];
          assert Placed(text, link, end, range.End(), rest[k - 1]);
        }
      }
    }
  }

  /** The results of the search from one window on go left to right without
      overlapping. */
  lemma {:induction false} MatchesFromOrdered(text: seq<CodeUnit>, count: nat, link: TextLink, range: NSRange, sLoc: nat, sLen: nat)
    requires sLoc + sLen <= count <= |text|
    requires range.End() <= count
    ensures Ordered(MatchesFrom(text, count, link, range, sLoc, sLen))
    decreases count - sLoc
  {
    var found := FindFirst(text, link.text, link.options, sLoc, sLen);
    if found.Some? && found.value + |link.text| <= range.End() {
      var end := found.value + |link.text|;
      var rest := MatchesFrom(text, count, link, range, end, count - end);
      MatchesFromOrdered(text, count, link, range, end, count - end);
      MatchesFromPlaced(text, count, link, range, end, count - end);
      var rs := [ResultFor(link, found.value)] + rest;
      assert rs == MatchesFrom(text, count, link, range, sLoc, sLen);
      forall k, k' | 0 <= k < k' < |rs|
        ensures rs[k].range.End() <= rs[k'].range.location
      {
        assert rs[k'] == rest[k' - 1];
        assert Placed(text, link, end, range.End(), rest[k' - 1]);
        if k > 0 {
          assert rs[k] == rest[k - 1];
        }
      }
    }
  }

  /** Soundness of one link's results: each is an occurrence of the phrase
      inside the link's range, records the phrase and the link, and the
      results go left to right without overlapping. A range that reaches past
      `count`, or an empty phrase, yields nothing. */
  lemma TextLinkMatchesSound(text: seq<CodeUnit>, count: nat, link: TextLink)
    requires count <= |text|
    ensures LinkRange(link, count).End() > count ==> TextLinkMatches(text, count, link) == []
    ensures |link.text| == 0 ==> TextLinkMatches(text, count, link) == []
    ensures LinkRange(link, count).End() <= count ==>
              WellPlaced(text, link, LinkRange(link, count).location, LinkRange(link, count).End(), TextLinkMatches(text, count, link))
    ensures Ordered(TextLinkMatches(text, count, link))
  {
    var range := LinkRange(link, count);
    if range.End() <= count {
      MatchesFromPlaced(text, count, link, range, range.location, range.length);
      MatchesFromOrdered(text, count, link, range, range.location, range.length);
      FindFirstCorrect(text, link.text, link.options, range.location, range.length);
    }
  }

  /** Result `k` starts at or before offset `j` and ends after it. */
  predicate Covers(rs: seq<LinkResult>, k: nat, j: nat)
    requires k < |rs|
  {
    rs[k].range.location <= j < rs[k].range.End()
  }

  /** Completeness of the search from one window on: an occurrence inside
      the window and the link's range is covered by one of the results. */
  lemma {:induction false} MatchesFromComplete(text: seq<CodeUnit>, count: nat, link: TextLink, range: NSRange, sLoc: nat, sLen: nat, j: nat)
    requires sLoc + sLen <= count <= |text|
    requires range.End() <= count && range.End() <= sLoc + sLen
    requires |link.text| > 0
    requires sLoc <= j && j + |link.text| <= range.End()
    requires OccursAt(text, link.text, link.options, j)
    ensures exists k :: 0 <= k < |MatchesFrom(text, count, link, range, sLoc, sLen)|
                        && Covers(MatchesFrom(text, count, link, range, sLoc, sLen), k, j)
    decreases count - sLoc
  {
    FindFirstCorrect(text, link.text, link.options, sLoc, sLen);
    var found := FindFirst(text, link.text, link.options, sLoc, sLen);
    FindFirstFinds(text, link.text, link.options, sLoc, sLen, j);
    var i := found.value;
    var end := i + |link.text|;
      var rs := MatchesFrom(text, count, link, range, sLoc, sLen);
      assert end <= range.End();
      var rest := MatchesFrom(text, count, link, range, end, count - end);
      assert rs == [ResultFor(link, i)] + rest;
      if j < end {
        assert rs[0] == ResultFor(link, i);
        assert Covers(rs, 0, j);
      } else {
        MatchesFromComplete(text, count, link, range, end, count - end, j);
        var k :| 0 <= k < |rest| && Covers(rest, k, j);
        assert rs[k + 1] == rest[k];
        assert Covers(rs, k + 1, j);
      }
  }

  /** Completeness of one link's results: every occurrence of a non-empty
      phrase that lies inside the link's range starts within one of the
      results. Together with soundness, the results are the greedy
      left-to-right non-overlapping occurrences. */
  lemma TextLinkMatchesComplete(text: seq<CodeUnit>, count: nat, link: TextLink, j: nat)
    requires count <= |text|
    requires |link.text| > 0
    requires LinkRange(link, count).End() <= count
    requires LinkRange(link, count).location <= j && j + |link.text| <= LinkRange(link, count).End()
    requires OccursAt(text, link.text, link.options, j)
    ensures exists k :: 0 <= k < |TextLinkMatches(text, count, link)| && Covers(TextLinkMatches(text, count, link), k, j)
  {
    var range := LinkRange(link, count);
    MatchesFromComplete(text, count, link, range, range.location, range.length, j);
    assert TextLinkMatches(text, count, link) == MatchesFrom(text, count, link, range, range.location, range.length);
  }

  /** With the empty option set each result's range holds exactly the phrase. */
  lemma LiteralResultsMatchText(text: seq<CodeUnit>, count: nat, link: TextLink, k: nat)
    requires count <= |text|
    requires !link.options.caseInsensitive
    requires k < |TextLinkMatches(text, count, link)|
    ensures var r := TextLinkMatches(text, count, link)[k];
            r.range.End() <= |text| && Substring(text, r.range) == r.text
  {
    TextLinkMatchesSound(text, count, link);
    var r := TextLinkMatches(text, count, link)[k];
    LiteralOccurrenceIsSubstring(text, link.text, r.range.location);
  }

  /** Dropping the last element of `a + b`, for a non-empty `b`, drops the
      last element of `b`. */
  lemma AppendDropLast<T>(a: seq<T>, b: seq<T>)
    requires b != []
    ensures (a + b)[..|a + b| - 1] == a + b[..|b| - 1]
    ensures (a + b)[|a + b| - 1] == b[|b| - 1]
  {
    assert (a + b)[..|a + b| - 1] == a + b[..|b| - 1];
  }

  /** Concatenating over `a + b` is concatenating over `a`, then over `b`. */
  lemma {:induction false} ConcatMapAppend<A, B>(f: A -> seq<B>, a: seq<A>, b: seq<A>)
    ensures ConcatMap(f, a + b) == ConcatMap(f, a) + ConcatMap(f, b)
    decreases |b|
  {
    if b == [] {
      assert a + b == a;
    } else {
      AppendDropLast(a, b);
      ConcatMapAppend(f, a, b[..|b| - 1]);
    }
  }

  /** The results are grouped by link in registration order: the results of
      link `n` come after those of all earlier links and before those of all
      later ones. */
  lemma GroupedByLink(text: seq<CodeUnit>, count: nat, links: seq<TextLink>, n: nat)
    requires count <= |text|
    requires n < |links|
    ensures AllTextLinkMatches(text, count, links)
            == AllTextLinkMatches(text, count, links[..n])
             + TextLinkMatches(text, count, links[n])
             + AllTextLinkMatches(text, count, links[n + 1..])
  {
    var f := (l: TextLink) => if count <= |text| then TextLinkMatches(text, count, l) else [];
    assert links == links[..n] + [links[n]] + links[n + 1..];
    ConcatMapAppend(f, links[..n] + [links[n]], links[n + 1..]);
    ConcatMapAppend(f, links[..n], [links[n]]);
    assert [links[n]][..0] == [];
  }

  /** `r` is a text-link result for one of `links`, recording its phrase, and
      ends within `count`. */
  ghost predicate FromRegisteredLink(r: LinkResult, links: seq<TextLink>, count: nat) {
    && r.textLink.Some? && r.textLink.value in links
    && r == ResultFor(r.textLink.value, r.range.location)
    && r.range.End() <= count
  }

  /** Every result of a list of text links is a text-link result for one of the
      registered links, recording its phrase, and ends within `count`. */
  lemma {:induction false} AllTextLinkMatchesSound(text: seq<CodeUnit>, count: nat, links: seq<TextLink>)
    requires count <= |text|
    ensures forall k :: 0 <= k < |AllTextLinkMatches(text, count, links)| ==>
              FromRegisteredLink(AllTextLinkMatches(text, count, links)[k], links, count)
  {
    if links != [] {
      var init, last := links[..|links| - 1], links[|links| - 1];
      AllTextLinkMatchesSound(text, count, init);
      TextLinkMatchesSound(text, count, last);
      var left, right := AllTextLinkMatches(text, count, init), TextLinkMatches(text, count, last);
      var rs := AllTextLinkMatches(text, count, links);
      assert rs == left + right;
      forall k | 0 <= k < |rs|
        ensures FromRegisteredLink(rs[k], links, count)
      {
        if k < |left| {
          assert rs[k] == left[k];
          assert FromRegisteredLink(left[k], init, count);
          assert left[k].textLink.value in init;
        } else {
          var r := right[k - |left|];
          assert rs[k] == r;
          var range := LinkRange(last, count);
          assert Placed(text, last, range.location, range.End(), r);
        }
      }
    }
  }
}
