# ContextLabel link engine in Dafny

This project models the link engine of ContextLabel, a `UILabel` subclass
that finds links in its text, styles them and hit-tests touches against them.
The repository ships two copies of the label. `ContextLabel/ContextLabel.swift`
is the older one, with a bit-set `LinkDetectionType` and per-kind colour
closures. `Source/ContextLabel.swift` is the newer one, with an enum array and
one colour closure. The model covers both. `Styling.Version` (`Legacy` or
`Current`) and the variant of `Detection.KindSelection` (`LegacyMask` or
`KindList`) tell them apart.

The pieces, one module each:

- `Optionals`: the file-private optional `<` and `<=`.
- `Utf16`: text as UTF-16 code units, `NSRange`, `substring(with:)`, and the
  `String` extension's `rangeFromNSRange` / `NSRangeFromRange`.
- `Detection`: the detection kinds, the legacy 64-bit option set, `TextLink`,
  `LinkResult` and the label text. The text is its code units plus the
  Swift `characters.count`.
- `TextSearch`: `NSString.range(of:options:range:)` as a first-occurrence
  search. It is literal or ASCII case-insensitive.
- `TextLinks`: `linkResultsForTextLinks`. The method and its inner search loop
  are imperative; `MatchesFrom` and `TextLinkMatches` specify them.
- `Detectors`: the regex helper (`linkResults(for:regexPattern:string:)`) and
  `linkResultsForURLs`. The regex engine and the data detector are foreign,
  so what they report is passed in as hit lists.
- `Resolver`: `linkResults(in:)`. It concatenates the text-link results, then
  the user handles, hashtags and URLs.
- `Styling`: `addLinkAttributesTo`, one style per code unit, overwritten range
  by range in list order.
- `Lookup`: `linkResult(at:)`. The layout manager's character index and
  bounding-rectangle test are passed in.
- `Label`: the label's state as a class (`text`, `linkDetectionTypes`,
  `textLinks`, `contextLabelData`, `attributedText`, the text storage) and the
  property observers and setters that keep the cached link results and the
  styled string in step.
- `TextLinkExamples`: the repeated-phrase test sentences of the test suite,
  worked out by proof, and an emoji text.

Four behaviours of the code are kept as written:

- Text links are searched for whenever `textLinks` is set and non-empty. The
  `TextLink` kind in the selection does not gate them (`Resolver.TextLinksUngated`).
- The text-link search window is measured in Swift Characters, not UTF-16
  code units. A phrase in the code units past the character count is never
  found (`TextLinkExamples.CharacterCountMissesTail`).
- `NSRangeFromRange` always yields location 0, so it does not undo
  `rangeFromNSRange` (`Utf16.ConversionRoundTrip`).
- `text` is an implicitly unwrapped optional. The text-link search and the
  regex helper read it unchecked, so computing links while it is nil traps.
  That includes `setText(_:withTextLinks:)` on a label whose `text` was never
  set, since it searches the label's current text. The model states "`text`
  is set" as a precondition wherever the code would read it
  (`Resolver.CanResolve`).

## Model

| member | source | states |
|---|---|---|
| Optionals.OptLess | ContextLabel/ContextLabel.swift:12-21 | `lhs < rhs` holds exactly when `rhs` is present and `lhs` is absent or smaller |
| Optionals.OptLessEq | ContextLabel/ContextLabel.swift:23-30 | `lhs <= rhs` holds exactly when `lhs` is absent or both are present and `lhs` is not larger |
| Optionals.LessEqIsNotGreater | Source/ContextLabel.swift:23-30 | `<=` is "not `>`" in every case, including the arm that does not go through `<`; `<` implies `<=` |
| Utf16.Substring | Source/ContextLabel.swift:602 | `substring(with:)` has the range's length, and unit k is the text's unit at `location + k` |
| Utf16.RangeFromNSRange | Source/ContextLabel.swift:728-737 | a conversion succeeds exactly when the range lies inside the text and both ends are character boundaries; it then spans the same offsets |
| Utf16.NSRangeFromRange | Source/ContextLabel.swift:739-745 | the result's location is always 0, since it is the distance from the range's start to itself, and its length is the UTF-16 length of the range |
| Utf16.ConversionRoundTrip | Source/ContextLabel.swift:728-745 | converting to a string range and back keeps the length but yields location 0, so the round trip holds exactly for ranges at offset 0 |
| Utf16.SplitPairNotConverted | Source/ContextLabel.swift:728-737 | a range starting inside a surrogate pair is never converted |
| Detection.BitsAreDistinctSingleBits | ContextLabel/ContextLabel.swift:129-133 | `None` is 0, every other constant is a single bit, and different kinds share no bit |
| Detection.MaskOfContains | ContextLabel/ContextLabel.swift:119-133 | the option set built from an array literal intersects `.K` exactly when K is listed and is not `None` |
| Detection.SelectionsAgree | ContextLabel/ContextLabel.swift:531-541 | the legacy `intersection(.K) != []` test and the newer `contains(.k)` test agree for the same list of kinds |
| TextSearch.LiteralOccurrenceIsSubstring | Source/ContextLabel.swift:557 | with empty options, an occurrence is the phrase itself as a substring of the text |
| TextSearch.OccursAtUnitwise | Source/ContextLabel.swift:557 | the phrase occurs at i exactly when every unit compares equal to the text's unit at the same offset from i |
| TextSearch.FindFirst | Source/ContextLabel.swift:557 | a found occurrence lies entirely inside the search window |
| TextSearch.FindFirstCorrect | Source/ContextLabel.swift:557 | a hit is an occurrence with none before it in the window; a miss means an empty phrase or no occurrence in the window |
| TextSearch.FindFirstFinds | Source/ContextLabel.swift:557 | an occurrence of a non-empty phrase in the window is found, at its offset or earlier |
| TextLinks.MatchesFromHit | Source/ContextLabel.swift:559-565 | a hit inside the link's range is recorded, and the search goes on from its end to the end of the text |
| TextLinks.MatchesFromStop | Source/ContextLabel.swift:559-568 | a miss, or a hit that ends past the link's range, ends the loop with nothing more recorded |
| TextLinks.LinkResultsForTextLinks | Source/ContextLabel.swift:545-574 | the loop over the links returns every link's results, concatenated in registration order |
| TextLinks.AppendTextLinkMatches | Source/ContextLabel.swift:548-571 | the repeated search for one link appends exactly that link's results; it runs only when the link's range fits the character count |
| TextLinks.MatchesFromPlaced | Source/ContextLabel.swift:556-569 | every result from a window on is an occurrence recorded as the link's phrase, between the window's start and the end of the link's range |
| TextLinks.MatchesFromOrdered | Source/ContextLabel.swift:556-569 | the results go left to right and never overlap |
| TextLinks.TextLinkMatchesSound | Source/ContextLabel.swift:552-570 | a range past the character count or an empty phrase gives nothing; otherwise every result is an occurrence inside the range, and the results are ordered and disjoint |
| TextLinks.MatchesFromComplete | Source/ContextLabel.swift:556-569 | every occurrence inside the window and the range is covered by a recorded result |
| TextLinks.TextLinkMatchesComplete | Source/ContextLabel.swift:552-570 | every occurrence of a non-empty phrase inside the link's range is covered by one of its results |
| TextLinks.LiteralResultsMatchText | Source/ContextLabel.swift:557-560 | with empty options, the text under each result's range is the result's recorded text |
| TextLinks.GroupedByLink | Source/ContextLabel.swift:548-571 | the results of link n come after those of the earlier links and before those of the later ones |
| TextLinks.AllTextLinkMatchesSound | Source/ContextLabel.swift:545-574 | every result carries one of the registered links, records its phrase and ends within the character count |
| Detectors.LongHits | Source/ContextLabel.swift:604-606 | the kept hits are no more than the engine's hits |
| Detectors.LongHitsMembership | Source/ContextLabel.swift:600-607 | a range is kept exactly when the engine reported it and it is longer than one code unit |
| Detectors.RegexResults | Source/ContextLabel.swift:600-607 | there is one result per kept hit |
| Detectors.RegexResultsAreKeptHits | Source/ContextLabel.swift:600-607 | result k records kept hit k and the text under it, in the engine's order |
| Detectors.RegexResultsSound | Source/ContextLabel.swift:600-607 | every regex result has the helper's kind, a reported range longer than one unit, no text link, and the label text under its range |
| Detectors.LinkResultsForRegex | Source/ContextLabel.swift:588-610 | a pattern that does not compile gives no results; otherwise the loop returns one result per kept hit, in order |
| Detectors.UrlText | Source/ContextLabel.swift:632-638 | a link attribute at the hit's start wins: when it is a string the recorded text is that string, and any other attribute gives nothing; without one, the text under the hit is used when the range converts |
| Detectors.UrlResults | Source/ContextLabel.swift:629-645 | there are no more URL results than detector matches |
| Detectors.UrlResultsMembership | Source/ContextLabel.swift:629-645 | a URL result is exactly the result of a match that is a link and has string text |
| Detectors.UrlResultsSound | Source/ContextLabel.swift:633-644 | a non-link match, or an unattributed match that does not convert, gives no result; without attributes a result records the text under its range |
| Detectors.UrlResultsFromLinkHits | Source/ContextLabel.swift:640-643 | every URL result is of kind URL, has no text link, and covers the range of a link match |
| Detectors.LinkResultsForURLs | Source/ContextLabel.swift:612-649 | no detector gives no results; otherwise the loop returns the URL results of the matches, in order |
| Resolver.RegexWindow | ContextLabel/ContextLabel.swift:605-606 | the regex helper scans the character count in the older file and the UTF-16 length in the newer one (Source/ContextLabel.swift:596-597) |
| Resolver.LinkResultsIn | Source/ContextLabel.swift:519-539 | the result list is the text-link block, then the enabled user-handle, hashtag and URL blocks |
| Resolver.TextLinkPartKinds | Source/ContextLabel.swift:522-524 | the text-link block holds only text-link results, each carrying one of the registered links |
| Resolver.RegexPartKinds | Source/ContextLabel.swift:526-532 | a regex block holds only its kind, and is empty when the kind is not enabled |
| Resolver.UrlPartKinds | Source/ContextLabel.swift:534-536 | the URL block holds only URL results, and is empty when URLs are not enabled |
| Resolver.DetectedOrder | Source/ContextLabel.swift:519-539 | a result never follows one of a higher rank: text links, user handles, hashtags, URLs |
| Resolver.DetectedKinds | Source/ContextLabel.swift:519-539 | no result is of kind `None`; a detector result only appears when its kind is enabled; a text-link result carries a registered link |
| Resolver.TextLinksUngated | Source/ContextLabel.swift:522-524 | the text-link block is the list's prefix whatever the selection; with the three detectors off it is the whole list |
| Resolver.VersionsAgree | ContextLabel/ContextLabel.swift:524-544 | when every character is one code unit, the legacy bit set and the newer kind list built from the same kinds give the same list |
| Resolver.DetectedFit | Source/ContextLabel.swift:519-539 | every result of a computation over a text lies inside that text |
| Styling.PlainText | Source/ContextLabel.swift:425 | a fresh attributed string has the text's units and the base attributes everywhere |
| Styling.LinkAttributes | ContextLabel/ContextLabel.swift:664-697 | the newer file always uses its single colour and underline closures (Source/ContextLabel.swift:654-657); the older file gives each kind its own pair, colours URLs with the text-link colour closure and sets nothing for kind `None` |
| Styling.RestyledLastWriter | Source/ContextLabel.swift:653-660 | a position ends with the attributes of the last result in the list that covers it |
| Styling.RestyledUntouched | Source/ContextLabel.swift:653-660 | a position no result covers keeps its attributes |
| Styling.RestyledAppend | Source/ContextLabel.swift:163-181 | styling with one list and then another equals styling with the two lists concatenated |
| Styling.AddLinkAttributesTo | Source/ContextLabel.swift:651-662 | the copy keeps the text, and its attributes are the input's restyled by the results in list order |
| Styling.SetAttributes | Source/ContextLabel.swift:659 | every position of the range gets the new attributes and no other position changes |
| Lookup.IndexInRange | Source/ContextLabel.swift:685-686 | the signed test `loc <= i && loc + len - 1 >= i` holds exactly when i is in the half-open range, so it never holds for an empty range |
| Lookup.FirstHit | Source/ContextLabel.swift:681-696 | a found result is in the list, holds the index and contains the touch point |
| Lookup.FirstHitIsFirst | Source/ContextLabel.swift:681-696 | the found result is the first hit in list order; nothing is found only when nothing is hit |
| Lookup.LinkResultAtSpec | Source/ContextLabel.swift:675-701 | no text storage, an index past its length, or no label data gives nil; a result is otherwise a hit from the label data |
| Lookup.LinkResultAt | Source/ContextLabel.swift:675-701 | the scan with early return finds the first hit |
| Label.DefaultSelection | ContextLabel/ContextLabel.swift:207 | the older file starts with a bit set and the newer with a kind list (Source/ContextLabel.swift:156) |
| Label.DefaultSelectionEnablesAll | Source/ContextLabel.swift:156 | a new label has every kind except `None` enabled, in both versions |
| Label.ContextLabelData.constructor | Source/ContextLabel.swift:39-43 | the record holds the given string and results |
| Label.ContextLabel.constructor | Source/ContextLabel.swift:278-282 | a new label has the default selection, no text, no links, no label data and an empty storage |
| Label.ContextLabel.ContextLabelDataWithText | Source/ContextLabel.swift:423-432 | nil gives nil; otherwise a fresh record holds the detected results and the plain text styled with them |
| Label.ContextLabel.SetContextLabelData | Source/ContextLabel.swift:187-197 | new data is shown and written to the storage; nil changes nothing else |
| Label.ContextLabel.SetContextLabelDataWithText | Source/ContextLabel.swift:411-421 | the argument, or else the label's text, is recomputed and set; with neither, the old data stays |
| Label.ContextLabel.SetText | Source/ContextLabel.swift:256-260 | a new text is recomputed and stored; nil leaves the old data and results in place |
| Label.ContextLabel.SetLinkDetectionTypes | Source/ContextLabel.swift:156-160 | a new selection recomputes the data from the label's text; with no text, only the property changes |
| Label.ContextLabel.SetTextLinks | Source/ContextLabel.swift:163-181 | with label data, the links' results are appended and styled on top, the storage is not touched, and "styled from its results" is preserved |
| Label.ContextLabel.SetTextWithTextLinks | Source/ContextLabel.swift:434-438 | the `textLinks` observer first appends the new links' results to the old label data and styles them onto it; the new data then holds the results detected with the new links, searched in the label's current text |
| Label.ContextLabel.LinkResultAt | Source/ContextLabel.swift:679-680 | the label's lookup is bounded by the storage length and scans the label data's results |
| TextLinkExamples.OneWithoutRange | ContextLabelTests/ContextLabelTests.swift:161-174 | "one" is found at 0, 14, 28 and 36 in "one two three one two three one two one" |
| TextLinkExamples.TwoWithoutRange | ContextLabelTests/ContextLabelTests.swift:161-175 | "two" is found at 4, 18 and 32 |
| TextLinkExamples.ThreeWithoutRange | ContextLabelTests/ContextLabelTests.swift:161-176 | "three" is found at 8 and 22 |
| TextLinkExamples.ThreeLinks | ContextLabelTests/ContextLabelTests.swift:172 | three links together give each link's results in turn |
| TextLinkExamples.AllThreeWithoutRange | ContextLabelTests/ContextLabelTests.swift:161-178 | the counts are 4, 3 and 2, and 9 for the three links together |
| TextLinkExamples.OneWithRange | ContextLabelTests/ContextLabelTests.swift:180-195 | with range (0, 16) "one" is found only at 0; the occurrence at 14 ends past the range and stops the loop |
| TextLinkExamples.TwoWithRange | ContextLabelTests/ContextLabelTests.swift:180-196 | with range (0, 16) "two" is found only at 4 |
| TextLinkExamples.ThreeWithRange | ContextLabelTests/ContextLabelTests.swift:180-197 | with range (0, 16) "three" is found only at 8 |
| TextLinkExamples.AllThreeWithRange | ContextLabelTests/ContextLabelTests.swift:180-199 | the three ranged links together give 3 results |
| TextLinkExamples.CharacterCountMissesTail | Source/ContextLabel.swift:552-564 | in "😊 one" the character-count window misses the final "one", which a UTF-16 window finds at 3 |

## Left out

- Drawing, layout and touches: the touch handlers, highlighting state, copy
  menu, gesture recognisers and intrinsic size are UI, not link logic.
- The layout manager: `characterIndex(for:)` and the bounding-rectangle test
  of `linkResult(at:)` are parameters (an index and a predicate on ranges).
- The regular-expression engine and `NSDataDetector`: their matches are
  inputs. The model assumes they report ranges inside the window they are
  given and, for the data detector, non-empty ones.
- Real colours and fonts: `attributesFromProperties`, the colour and
  underline closures and the 0.5-alpha highlight colour are represented by
  which closure supplies the value and a highlighted flag.
- `addLinkAttributesToLinkResult(withTouches:highlighted:)` and
  `linkResult(with:)`: they only feed the touch location into
  `linkResult(at:)` and restyle one result, covered by `AddLinkAttributesTo`.
- `addAttributes(_:range:)` and `automaticLinkDetectionEnabled`: the property
  only triggers the same recomputation as `linkDetectionTypes`.
- UIKit keeps `text` and `attributedText` in sync; the model keeps them as
  separate fields and does not model that coupling.
- The text storage is always present in the model; the optional-chained
  `textStorage?` being nil is modelled only through `Lookup.LinkResultAtSpec`.
- Grapheme clusters: a character boundary is "not inside a surrogate pair";
  combining sequences and other multi-scalar clusters are not modelled.
- TextSearch.FindFirst: `NSString.range(of:options:range:)` is modelled as
  code-unit equality, with `.caseInsensitive` folding ASCII letters only.
  Foundation's default search matches by canonical equivalence and its case
  folding covers all of Unicode; the model does neither. A match's length is
  always the phrase's length (`TextLinks.ResultFor`), which Foundation does not
  promise. Other comparison options are not modelled.
- Out-of-range ranges, which raise in Foundation, are preconditions
  (`requires`) rather than modelled crashes.
- Resolver.CanResolve, Label.ContextLabel.SetTextLinks and
  Label.ContextLabel.SetTextWithTextLinks require `text` to be set wherever
  the code reads the implicitly unwrapped `text`. In the code a nil `text`
  traps there (Source/ContextLabel.swift:552, 555 and 596). The trap is not
  modelled, so `SetTextWithTextLinks` on a label with no text and a
  detector or text link enabled is outside the model.
- `Source/ContextLabel.swift:252-254` is a stray `else` branch outside any
  statement; it is not modelled.
- `TouchResult`, `didTouch`, `didCopy` and the label's `object` payload on
  `TextLink` (a link's identity is an `id` number).
