/** The text-link search on concrete texts: the repeated-phrase sentence
    "one two three one two three one two one", searched without and with a
    range, and a text whose emoji makes the character count shorter than the
    UTF-16 length. */
module TextLinkExamples {
  import opened Optionals
  import opened Utf16
  import opened Detection
  import opened TextSearch
  import opened TextLinks

  /** "one two three " as UTF-16 code units. */
  function Block(): seq<CodeUnit> {
    [111, 110, 101, 32, 116, 119, 111, 32, 116, 104, 114, 101, 101, 32]
  }

  /** "one two one" as UTF-16 code units. */
  function Tail(): seq<CodeUnit> {
    [111, 110, 101, 32, 116, 119, 111, 32, 111, 110, 101]
  }

  /** "one two three one two three one two one": 39 code units. */
  function Sample(): seq<CodeUnit> {
    Block() + Block() + Tail()
  }

  function One(): seq<CodeUnit> { [111, 110, 101] }
  function Two(): seq<CodeUnit> { [116, 119, 111] }
  function Three(): seq<CodeUnit> { [116, 104, 114, 101, 101] }

  const Literal := CompareOptions(false)

  /** "one two three on": the range the second test restricts the links to. */
  const Prefix := NSRange(0, 16)

  /** The three links of the first test (no range) and of the second test
      (range `Prefix`). */
  function Link(id: nat, phrase: seq<CodeUnit>, range: Option<NSRange>): TextLink {
    TextLink(id, phrase, range, Literal)
  }

  /** Every occurrence of `pattern` that ends within `count` is at an offset
      in `occ`. */
  ghost predicate AllOccurrencesIn(text: seq<CodeUnit>, count: nat, pattern: seq<CodeUnit>, opts: CompareOptions, occ: set<nat>)
    requires count <= |text|
  {
    forall j: nat :: j + |pattern| <= count && OccursAt(text, pattern, opts, j) ==> j in occ
  }

  /** One recorded hit: when the first offset of `occ` at or after `sLoc` is
      `i`, an occurrence that ends inside both the window and the link's
      range, the search from `sLoc` records `i` and goes on from its end. */
  lemma ChainHit(text: seq<CodeUnit>, count: nat, link: TextLink, range: NSRange, sLoc: nat, sLen: nat, i: nat,
                 occ: set<nat>, rest: seq<LinkResult>)
    requires sLoc + sLen <= count <= |text| && range.End() <= count
    requires |link.text| > 0 && sLoc <= i && i + |link.text| <= sLoc + sLen && i + |link.text| <= range.End()
    requires OccursAt(text, link.text, link.options, i)
    requires AllOccurrencesIn(text, count, link.text, link.options, occ)
    requires forall j :: j in occ && sLoc <= j ==> i <= j
    requires MatchesFrom(text, count, link, range, i + |link.text|, count - (i + |link.text|)) == rest
    ensures MatchesFrom(text, count, link, range, sLoc, sLen) == [ResultFor(link, i)] + rest
  {
    FindFirstFinds(text, link.text, link.options, sLoc, sLen, i);
    FindFirstCorrect(text, link.text, link.options, sLoc, sLen);
    var target := MatchesFrom(text, count, link, range, sLoc, sLen);
    assert [] + target == target;
    MatchesFromHit(text, count, link, range, sLoc, sLen, i, target, []);
  }

  /** The end of the loop: every offset of `occ` at or after `sLoc` ends past
      the link's range, so the search from `sLoc` records nothing. */
  lemma ChainStop(text: seq<CodeUnit>, count: nat, link: TextLink, range: NSRange, sLoc: nat, sLen: nat, occ: set<nat>)
    requires sLoc + sLen <= count <= |text| && range.End() <= count
    requires AllOccurrencesIn(text, count, link.text, link.options, occ)
    requires forall j :: j in occ && sLoc <= j ==> j + |link.text| > range.End()
    ensures MatchesFrom(text, count, link, range, sLoc, sLen) == []
  {
    FindFirstCorrect(text, link.text, link.options, sLoc, sLen);
    MatchesFromStop(text, count, link, range, sLoc, sLen);
  }

  /** The results recorded for occurrences at `hits`, in order. */
  function ResultsAt(link: TextLink, hits: seq<nat>): (rs: seq<LinkResult>)
    ensures |rs| == |hits|
    ensures forall k :: 0 <= k < |hits| ==> rs[k] == ResultFor(link, hits[k])
  {
    if hits == [] then [] else [ResultFor(link, hits[0])] + ResultsAt(link, hits[1..])
  }

  /** The whole loop from `(sLoc, sLen)`: when `hits` are occurrences, in
      order and without overlap, that end inside the link's range (the first
      one inside the window too), and every other occurrence at or after
      `sLoc` lies after all of them and ends past the range, the search
      records exactly `hits`. */
  lemma {:induction false} ChainAll(text: seq<CodeUnit>, count: nat, link: TextLink, range: NSRange, sLoc: nat, sLen: nat,
                                    hits: seq<nat>, occ: set<nat>)
    requires sLoc + sLen <= count <= |text| && range.End() <= count && |link.text| > 0
    requires AllOccurrencesIn(text, count, link.text, link.options, occ)
    requires forall k :: 0 <= k < |hits| ==>
               sLoc <= hits[k] && hits[k] + |link.text| <= range.End() && OccursAt(text, link.text, link.options, hits[k])
    requires forall k, k' :: 0 <= k < k' < |hits| ==> hits[k] + |link.text| <= hits[k']
    requires |hits| > 0 ==> hits[0] + |link.text| <= sLoc + sLen
    requires forall j :: j in occ && sLoc <= j ==>
               j in hits || (j + |link.text| > range.End() && forall k :: 0 <= k < |hits| ==> hits[k] + |link.text| <= j)
    ensures MatchesFrom(text, count, link, range, sLoc, sLen) == ResultsAt(link, hits)
    decreases |hits|
  {
    if hits == [] {
      ChainStop(text, count, link, range, sLoc, sLen, occ);
    } else {
      var end := hits[0] + |link.text|;
      var rest := hits[1..];
      LaterOccurrences(link.text, occ, sLoc, range, hits);
      ChainAll(text, count, link, range, end, count - end, rest, occ);
      ChainHit(text, count, link, range, sLoc, sLen, hits[0], occ, ResultsAt(link, rest));
    }
  }

  /** After the first hit, the occurrences left are the remaining hits and
      the ones past the range. */
  lemma LaterOccurrences(p: seq<CodeUnit>, occ: set<nat>, sLoc: nat, range: NSRange, hits: seq<nat>)
    requires hits != [] && |p| > 0
    requires forall k :: 0 <= k < |hits| ==> sLoc <= hits[k]
    requires forall k, k' :: 0 <= k < k' < |hits| ==> hits[k] + |p| <= hits[k']
    requires forall j :: j in occ && sLoc <= j ==>
               j in hits || (j + |p| > range.End() && forall k :: 0 <= k < |hits| ==> hits[k] + |p| <= j)
    ensures forall j :: j in occ && hits[0] + |p| <= j ==>
              j in hits[1..] || (j + |p| > range.End() && forall k :: 0 <= k < |hits[1..]| ==> hits[1..][k] + |p| <= j)
  {
    var rest := hits[1..];
    assert forall k :: 0 <= k < |rest| ==> rest[k] == hits[k + 1];
    forall j | j in occ && hits[0] + |p| <= j
      ensures j in rest || (j + |p| > range.End() && forall k :: 0 <= k < |rest| ==> rest[k] + |p| <= j)
    {
      if j in hits {
        var k :| 0 <= k < |hits| && hits[k] == j;
        assert k != 0;
        assert rest[k - 1] == j;
      }
    }
  }

  /** An occurrence in `a` is an occurrence in `a + b` at the same offset. */
  lemma OccursInPrefix(a: seq<CodeUnit>, b: seq<CodeUnit>, p: seq<CodeUnit>, i: nat)
    requires i + |p| <= |a| && OccursAt(a, p, Literal, i)
    ensures OccursAt(a + b, p, Literal, i)
  {
    OccursAtUnitwise(a, p, Literal, i);
    OccursAtUnitwise(a + b, p, Literal, i);
  }

  /** An occurrence in `b` is an occurrence in `a + b`, shifted by `|a|`. */
  lemma OccursInSuffix(a: seq<CodeUnit>, b: seq<CodeUnit>, p: seq<CodeUnit>, i: nat)
    requires i + |p| <= |b| && OccursAt(b, p, Literal, i)
    ensures OccursAt(a + b, p, Literal, |a| + i)
  {
    OccursAtUnitwise(b, p, Literal, i);
    OccursAtUnitwise(a + b, p, Literal, |a| + i);
  }

  /** An occurrence starts with the phrase's first two units. */
  lemma OccurrenceStart(text: seq<CodeUnit>, p: seq<CodeUnit>, j: nat)
    requires |p| >= 2 && j + |p| <= |text|
    requires OccursAt(text, p, Literal, j)
    ensures text[j] == p[0] && text[j + 1] == p[1]
  {
    OccursAtUnitwise(text, p, Literal, j);
    assert SameUnit(text[j + 0], p[0], Literal) && SameUnit(text[j + 1], p[1], Literal);
  }

  /** The offsets where "on" starts in the sample. */
  lemma OnStarts(j: nat)
    requires j + 1 < 39 && Sample()[j] == 111 && Sample()[j + 1] == 110
    ensures j in {0, 14, 28, 36}
  {
  }

  /** The offsets where "tw" starts in the sample. */
  lemma TwStarts(j: nat)
    requires j + 1 < 39 && Sample()[j] == 116 && Sample()[j + 1] == 119
    ensures j in {4, 18, 32}
  {
  }

  /** The offsets where "th" starts in the sample. */
  lemma ThStarts(j: nat)
    requires j + 1 < 39 && Sample()[j] == 116 && Sample()[j + 1] == 104
    ensures j in {8, 22}
  {
  }

  /** "one" occurs in the sample nowhere but at 0, 14, 28 and 36. */
  lemma OneOccursOnly()
    ensures AllOccurrencesIn(Sample(), 39, One(), Literal, {0, 14, 28, 36})
  {
    forall j: nat | j + 3 <= 39 && OccursAt(Sample(), One(), Literal, j)
      ensures j in {0, 14, 28, 36}
    {
      OccurrenceStart(Sample(), One(), j);
      OnStarts(j);
    }
  }

  /** "one" occurs in the sample at 0, 14, 28 and 36. */
  lemma OneOccurs()
    ensures OccursAt(Sample(), One(), Literal, 0) && OccursAt(Sample(), One(), Literal, 14) && OccursAt(Sample(), One(), Literal, 28) && OccursAt(Sample(), One(), Literal, 36)
  {
    var twice := Block() + Block();
    assert OccursAt(Block(), One(), Literal, 0);
    OccursInPrefix(Block(), Block(), One(), 0);
    OccursInSuffix(Block(), Block(), One(), 0);
    OccursInPrefix(twice, Tail(), One(), 0);
    OccursInPrefix(twice, Tail(), One(), 14);
    assert OccursAt(Tail(), One(), Literal, 0);
    assert OccursAt(Tail(), One(), Literal, 8);
    OccursInSuffix(twice, Tail(), One(), 0);
    OccursInSuffix(twice, Tail(), One(), 8);
  }

  /** "two" occurs in the sample nowhere but at 4, 18 and 32. */
  lemma TwoOccursOnly()
    ensures AllOccurrencesIn(Sample(), 39, Two(), Literal, {4, 18, 32})
  {
    forall j: nat | j + 3 <= 39 && OccursAt(Sample(), Two(), Literal, j)
      ensures j in {4, 18, 32}
    {
      OccurrenceStart(Sample(), Two(), j);
      TwStarts(j);
    }
  }

  /** "two" occurs in the sample at 4, 18 and 32. */
  lemma TwoOccurs()
    ensures OccursAt(Sample(), Two(), Literal, 4) && OccursAt(Sample(), Two(), Literal, 18) && OccursAt(Sample(), Two(), Literal, 32)
  {
    var twice := Block() + Block();
    assert OccursAt(Block(), Two(), Literal, 4);
    OccursInPrefix(Block(), Block(), Two(), 4);
    OccursInSuffix(Block(), Block(), Two(), 4);
    OccursInPrefix(twice, Tail(), Two(), 4);
    OccursInPrefix(twice, Tail(), Two(), 18);
    assert OccursAt(Tail(), Two(), Literal, 4);
    OccursInSuffix(twice, Tail(), Two(), 4);
  }

  /** "three" occurs in the sample nowhere but at 8 and 22. */
  lemma ThreeOccursOnly()
    ensures AllOccurrencesIn(Sample(), 39, Three(), Literal, {8, 22})
  {
    forall j: nat | j + 5 <= 39 && OccursAt(Sample(), Three(), Literal, j)
      ensures j in {8, 22}
    {
      OccurrenceStart(Sample(), Three(), j);
      ThStarts(j);
    }
  }

  /** "three" occurs in the sample at 8 and 22. */
  lemma ThreeOccurs()
    ensures OccursAt(Sample(), Three(), Literal, 8) && OccursAt(Sample(), Three(), Literal, 22)
  {
    var twice := Block() + Block();
    assert OccursAt(Block(), Three(), Literal, 8);
    OccursInPrefix(Block(), Block(), Three(), 8);
    OccursInSuffix(Block(), Block(), Three(), 8);
    OccursInPrefix(twice, Tail(), Three(), 8);
    OccursInPrefix(twice, Tail(), Three(), 22);
  }

  /** Without a range, "one" is found four times, at 0, 14, 28 and 36. */
  lemma OneWithoutRange(id: nat)
    ensures TextLinkMatches(Sample(), 39, Link(id, One(), None))
              == [ResultFor(Link(id, One(), None), 0), ResultFor(Link(id, One(), None), 14),
                  ResultFor(Link(id, One(), None), 28), ResultFor(Link(id, One(), None), 36)]
  {
    OneOccursOnly();
    OneOccurs();
    ChainAll(Sample(), 39, Link(id, One(), None), NSRange(0, 39), 0, 39, [0, 14, 28, 36], {0, 14, 28, 36});
  }

  /** Without a range, "two" is found three times, at 4, 18 and 32. */
  lemma TwoWithoutRange(id: nat)
    ensures TextLinkMatches(Sample(), 39, Link(id, Two(), None))
              == [ResultFor(Link(id, Two(), None), 4), ResultFor(Link(id, Two(), None), 18),
                  ResultFor(Link(id, Two(), None), 32)]
  {
    TwoOccursOnly();
    TwoOccurs();
    ChainAll(Sample(), 39, Link(id, Two(), None), NSRange(0, 39), 0, 39, [4, 18, 32], {4, 18, 32});
  }

  /** Without a range, "three" is found twice, at 8 and 22. */
  lemma ThreeWithoutRange(id: nat)
    ensures TextLinkMatches(Sample(), 39, Link(id, Three(), None))
              == [ResultFor(Link(id, Three(), None), 8), ResultFor(Link(id, Three(), None), 22)]
  {
    ThreeOccursOnly();
    ThreeOccurs();
    ChainAll(Sample(), 39, Link(id, Three(), None), NSRange(0, 39), 0, 39, [8, 22], {8, 22});
  }

  /** The results of three links are the results of each, in order. */
  lemma ThreeLinks(text: seq<CodeUnit>, count: nat, a: TextLink, b: TextLink, c: TextLink)
    requires count <= |text|
    ensures AllTextLinkMatches(text, count, [a, b, c])
              == TextLinkMatches(text, count, a) + TextLinkMatches(text, count, b) + TextLinkMatches(text, count, c)
  {
    GroupedByLink(text, count, [a, b, c], 2);
    GroupedByLink(text, count, [a, b], 1);
    GroupedByLink(text, count, [a], 0);
    assert [a, b, c][..2] == [a, b] && [a, b][..1] == [a] && [a][..0] == [];
    assert [a, b, c][3..] == [] && [a, b][2..] == [] && [a][1..] == [];
  }

  /** Registered together, the three links give their 4 + 3 + 2 results one
      link after the other. */
  lemma AllThreeWithoutRange()
    ensures |TextLinkMatches(Sample(), 39, Link(0, One(), None))| == 4
    ensures |TextLinkMatches(Sample(), 39, Link(1, Two(), None))| == 3
    ensures |TextLinkMatches(Sample(), 39, Link(2, Three(), None))| == 2
    ensures |AllTextLinkMatches(Sample(), 39, [Link(0, One(), None), Link(1, Two(), None), Link(2, Three(), None)])| == 9
  {
    ThreeLinks(Sample(), 39, Link(0, One(), None), Link(1, Two(), None), Link(2, Three(), None));
    OneWithoutRange(0);
    TwoWithoutRange(1);
    ThreeWithoutRange(2);
  }

  /** With the range `(0, 16)`, "one" is found once: its next occurrence, at
      14, ends at 17, past the range, and stops the loop. */
  lemma OneWithRange(id: nat)
    ensures TextLinkMatches(Sample(), 39, Link(id, One(), Some(Prefix))) == [ResultFor(Link(id, One(), Some(Prefix)), 0)]
  {
    var l, occ := Link(id, One(), Some(Prefix)), {0, 14, 28, 36};
    OneOccursOnly();
    OneOccurs();
    ChainAll(Sample(), 39, l, Prefix, 0, 16, [0], occ);
  }

  /** With the range `(0, 16)`, "two" is found once, at 4. */
  lemma TwoWithRange(id: nat)
    ensures TextLinkMatches(Sample(), 39, Link(id, Two(), Some(Prefix))) == [ResultFor(Link(id, Two(), Some(Prefix)), 4)]
  {
    var l, occ := Link(id, Two(), Some(Prefix)), {4, 18, 32};
    TwoOccursOnly();
    TwoOccurs();
    ChainAll(Sample(), 39, l, Prefix, 0, 16, [4], occ);
  }

  /** With the range `(0, 16)`, "three" is found once, at 8. */
  lemma ThreeWithRange(id: nat)
    ensures TextLinkMatches(Sample(), 39, Link(id, Three(), Some(Prefix))) == [ResultFor(Link(id, Three(), Some(Prefix)), 8)]
  {
    var l, occ := Link(id, Three(), Some(Prefix)), {8, 22};
    ThreeOccursOnly();
    ThreeOccurs();
    ChainAll(Sample(), 39, l, Prefix, 0, 16, [8], occ);
  }

  /** Registered together with the range, the three links give 1 + 1 + 1
      results. */
  lemma AllThreeWithRange()
    ensures |AllTextLinkMatches(Sample(), 39, [Link(0, One(), Some(Prefix)), Link(1, Two(), Some(Prefix)),
                                               Link(2, Three(), Some(Prefix))])| == 3
  {
    ThreeLinks(Sample(), 39, Link(0, One(), Some(Prefix)), Link(1, Two(), Some(Prefix)), Link(2, Three(), Some(Prefix)));
    OneWithRange(0);
    TwoWithRange(1);
    ThreeWithRange(2);
  }

  /** "😊 one": an emoji (a surrogate pair) counts as one character, so the
      character count is 5 while the text has 6 code units. */
  function EmojiText(): seq<CodeUnit> { [0xD83D, 0xDE0A, 32, 111, 110, 101] }

  /** Measured by its character count, the text's default search range stops
      one code unit short and the "one" at its end is not found; measured by
      its UTF-16 length, it is found at 3. */
  lemma CharacterCountMissesTail(id: nat)
    ensures TextLinkMatches(EmojiText(), 5, Link(id, One(), None)) == []
    ensures TextLinkMatches(EmojiText(), 6, Link(id, One(), None)) == [ResultFor(Link(id, One(), None), 3)]
  {
    var l, t, occ := Link(id, One(), None), EmojiText(), {3};
    forall j: nat | j + 3 <= 6 && OccursAt(t, One(), Literal, j)
      ensures j in occ
    {
      OccursAtUnitwise(t, One(), Literal, j);
      assert SameUnit(t[j + 0], One()[0], Literal);
    }
    OccursAtUnitwise(t, One(), Literal, 3);
    ChainStop(t, 5, l, NSRange(0, 5), 0, 5, occ);
    ChainStop(t, 6, l, NSRange(0, 6), 6, 0, occ);
    ChainHit(t, 6, l, NSRange(0, 6), 0, 6, 3, occ, []);
  }
}
