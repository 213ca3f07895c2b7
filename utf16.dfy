/** Text as the label's Foundation string sees it: a sequence of UTF-16 code
    units, NSRange offsets into it, and the two `String` extension helpers that
    convert between NSRange and a range of string indices. */
module Utf16 {
  import opened Optionals

  /** One UTF-16 code unit. */
  type CodeUnit = u: int | 0 <= u < 0x1_0000

  predicate IsHighSurrogate(u: CodeUnit) { 0xD800 <= u <= 0xDBFF }
  predicate IsLowSurrogate(u: CodeUnit) { 0xDC00 <= u <= 0xDFFF }

  /** An NSRange: a location and a length, both counted in code units. */
  datatype NSRange = NSRange(location: nat, length: nat) {
    function End(): nat { location + length }
  }

  /** A `Range<String.Index>`; an index is represented by its code-unit offset. */
  datatype StringRange = StringRange(lower: nat, upper: nat)

  /** Offset `i` is a position a `String.Index` can denote. Grapheme clusters
      are simplified to "does not fall between the two halves of a surrogate
      pair". */
  predicate IsCharacterBoundary(s: seq<CodeUnit>, i: nat)
    requires i <= |s|
  {
    i == 0 || i == |s| || !(IsHighSurrogate(s[i - 1]) && IsLowSurrogate(s[i]))
  }

  /** NSString.substring(with:): the code units covered by `r`. */
  function Substring(s: seq<CodeUnit>, r: NSRange): (sub: seq<CodeUnit>)
    requires r.End() <= |s|
    ensures |sub| == r.length
    ensures forall k :: 0 <= k < r.length ==> sub[k] == s[r.location + k]
  {
    s[r.location..r.End()]
  }

  /** `rangeFromNSRange`: offset the UTF-16 view by `location` and then by
      `length`, each step limited by the end of the text, and convert both
      UTF-16 indices to string indices, which fails off a character boundary. */
  function RangeFromNSRange(s: seq<CodeUnit>, r: NSRange): (res: Option<StringRange>)
    ensures res.Some? <==>
              r.End() <= |s| && IsCharacterBoundary(s, r.location) && IsCharacterBoundary(s, r.End())
    ensures res.Some? ==> res.value == StringRange(r.location, r.End())
  {
    if r.location <= |s| then
      var from16 := r.location;
      if r.length <= |s| - from16 then
        var to16 := from16 + r.length;
        if IsCharacterBoundary(s, from16) && IsCharacterBoundary(s, to16) then
          Some(StringRange(from16, to16))
        else None
      else None
    else None
  }

  /** `NSRangeFromRange`: the location is the distance from `from` to itself,
      so it is always 0; the length is the UTF-16 distance of the range. */
  function NSRangeFromRange(s: seq<CodeUnit>, range: StringRange): (r: NSRange)
    requires range.lower <= range.upper <= |s|
    ensures r.location == 0 && r.length == range.upper - range.lower
  {
    NSRange(range.lower - range.lower, range.upper - range.lower)
  }

  /** Converting an NSRange to a string range and back keeps the length but
      moves the location to 0, so the pair is a round trip exactly for the
      ranges that start at offset 0. */
  lemma ConversionRoundTrip(s: seq<CodeUnit>, r: NSRange)
    requires RangeFromNSRange(s, r).Some?
    ensures NSRangeFromRange(s, RangeFromNSRange(s, r).value) == NSRange(0, r.length)
    ensures NSRangeFromRange(s, RangeFromNSRange(s, r).value) == r <==> r.location == 0
  {
  }

  /** A range that splits a surrogate pair is never converted. */
  lemma SplitPairNotConverted(s: seq<CodeUnit>, r: NSRange)
    requires 0 < r.location < |s|
    requires IsHighSurrogate(s[r.location - 1]) && IsLowSurrogate(s[r.location])
    ensures RangeFromNSRange(s, r).None?
  {
  }
}
