/** The values the link engine works with: detection kinds (the older bit-set
    option type and the newer enum array), text links, link results and the
    label text. */
module Detection {
  import opened Optionals
  import opened Utf16

  /** The kinds of link a result can carry. */
  datatype LinkDetectionType = NoneType | UserHandle | Hashtag | Url | TextLinkType

  /** The older `LinkDetectionType` option set: a 64-bit unsigned raw value. */
  type Mask = bv64

  /** The raw value of each named constant: `None` is 0 and the four kinds are
      the bits `1 << 0` to `1 << 3`. */
  function BitOf(k: LinkDetectionType): Mask {
    match k
    case NoneType => 0
    case UserHandle => 1 << 0
    case Hashtag => 1 << 1
    case Url => 1 << 2
    case TextLinkType => 1 << 3
  }

  /** The four kinds are distinct single bits and `None` is the empty set. */
  lemma BitsAreDistinctSingleBits(k: LinkDetectionType, k': LinkDetectionType)
    ensures k == NoneType <==> BitOf(k) == 0
    ensures BitOf(k) & (BitOf(k) - 1) == 0
    ensures k != k' ==> BitOf(k) & BitOf(k') == 0
  {
  }

  /** The option set built from an array literal such as
      `[.UserHandle, .Hashtag, .URL, .TextLink]`: the union of the members. */
  function MaskOf(kinds: seq<LinkDetectionType>): Mask {
    if kinds == [] then 0 else MaskOf(kinds[..|kinds| - 1]) | BitOf(kinds[|kinds| - 1])
  }

  /** `linkDetectionTypes.intersection(.K) != []`. */
  predicate MaskContains(mask: Mask, k: LinkDetectionType) {
    mask & BitOf(k) != 0
  }

  /** The set built from a list of kinds contains exactly the listed kinds,
      except `None`, which no set contains. */
  lemma {:induction false} MaskOfContains(kinds: seq<LinkDetectionType>, k: LinkDetectionType)
    ensures MaskContains(MaskOf(kinds), k) <==> k != NoneType && k in kinds
  {
    if kinds != [] {
      var init, last := kinds[..|kinds| - 1], kinds[|kinds| - 1];
      MaskOfContains(init, k);
      BitsAreDistinctSingleBits(k, last);
      assert kinds == init + [last];
    }
  }

  /** Which detectors are switched on: the older file's bit set or the newer
      file's array of kinds. */
  datatype KindSelection = LegacyMask(bits: Mask) | KindList(kinds: seq<LinkDetectionType>)

  /** The test the resolver makes before running a detector: a non-empty
      intersection with the bit, or `linkDetectionTypes.contains(k)`. */
  predicate Enabled(sel: KindSelection, k: LinkDetectionType) {
    match sel
    case LegacyMask(bits) => MaskContains(bits, k)
    case KindList(kinds) => k in kinds
  }

  /** The same list of kinds switches on the same detectors in both
      versions: the bit set built from it and the array agree on every kind
      other than `None`. */
  lemma SelectionsAgree(kinds: seq<LinkDetectionType>, k: LinkDetectionType)
    requires k != NoneType
    ensures Enabled(LegacyMask(MaskOf(kinds)), k) <==> Enabled(KindList(kinds), k)
  {
    MaskOfContains(kinds, k);
  }

  /** The comparison options a text link may carry. Only the empty option set
      and ASCII case-insensitive comparison are represented. */
  datatype CompareOptions = CompareOptions(caseInsensitive: bool)

  /** A caller-registered literal phrase with an optional range restriction.
      The action closure and payload object are opaque; `id` stands for the
      identity of the registered value. */
  datatype TextLink = TextLink(id: nat, text: seq<CodeUnit>, range: Option<NSRange>, options: CompareOptions)

  /** One detected link. */
  datatype LinkResult = LinkResult(
    detectionType: LinkDetectionType,
    range: NSRange,
    text: seq<CodeUnit>,
    textLink: Option<TextLink>)

  /** The label's text: its UTF-16 code units and the number of Swift
      Characters (`text.characters.count`), which is never more than the number
      of code units. */
  datatype LabelText = LabelText(units: seq<CodeUnit>, charCount: nat)

  predicate WellFormedText(t: LabelText) {
    t.charCount <= |t.units|
  }

  /** Every result lies inside a text of `len` code units. */
  predicate ResultsFit(results: seq<LinkResult>, len: nat) {
    forall k :: 0 <= k < |results| ==> results[k].range.End() <= len
  }
}
