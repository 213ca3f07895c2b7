/** `addLinkAttributesTo(_:with:highlighted:)`: the attributes of an attributed
    string, one style per code unit, overwritten over each result's range in
    list order by `setAttributes(_:range:)`. Colours and underline styles
    are represented by the closure that supplies them. */
module Styling {
  import opened Optionals
  import opened Utf16
  import opened Detection

  /** The two copies of the label: the older one with per-kind colour and
      underline closures, the newer one with one closure of each. */
  datatype Version = Legacy | Current

  /** The closure that supplies a link's text colour. */
  datatype ColourSource = ForegroundColor | TextLinkTextColor | UserHandleTextColor | HashtagTextColor

  /** The closure that supplies a link's underline style. */
  datatype UnderlineSource =
    | UnderlineStyle
    | TextLinkUnderlineStyle
    | UserHandleUnderlineStyle
    | HashtagUnderlineStyle
    | LinkUnderlineStyle

  /** The attributes over one code unit: the label's base attributes, or the
      attribute set `attributesWithTextColor(_:underlineStyle:)` built for a
      result, with the colour taken from the closure's highlighted colour when
      `highlighted` is set. */
  datatype Style =
    | Base
    | LinkStyle(colour: ColourSource, underline: UnderlineSource, highlighted: bool, result: LinkResult)

  /** An attributed string: code units and one style per code unit. */
  datatype AttributedText = AttributedText(units: seq<CodeUnit>, styles: seq<Style>)

  predicate ValidText(a: AttributedText) {
    |a.styles| == |a.units|
  }

  /** `NSMutableAttributedString(string:attributes:)` with the base attributes. */
  function PlainText(units: seq<CodeUnit>): (a: AttributedText)
    ensures ValidText(a) && a.units == units
    ensures forall i :: 0 <= i < |units| ==> a.styles[i] == Base
  {
    AttributedText(units, seq(|units|, _ => Base))
  }

  /** The attributes installed for one result, or None when the older file's
      chain of `if`s sets none (a result of kind `None`). The older file
      colours URLs with the text-link colour closure. */
  function LinkAttributes(version: Version, r: LinkResult, highlighted: bool): (s: Option<Style>)
    ensures s.Some? ==> s.value.LinkStyle? && s.value.result == r && s.value.highlighted == highlighted
    ensures s.None? <==> version == Legacy && r.detectionType == NoneType
    ensures version == Current ==> s == Some(LinkStyle(ForegroundColor, UnderlineStyle, highlighted, r))
    ensures version == Legacy && r.detectionType == TextLinkType ==>
              s.value.colour == TextLinkTextColor && s.value.underline == TextLinkUnderlineStyle
    ensures version == Legacy && r.detectionType == UserHandle ==>
              s.value.colour == UserHandleTextColor && s.value.underline == UserHandleUnderlineStyle
    ensures version == Legacy && r.detectionType == Hashtag ==>
              s.value.colour == HashtagTextColor && s.value.underline == HashtagUnderlineStyle
    ensures version == Legacy && r.detectionType == Url ==>
              s.value.colour == TextLinkTextColor && s.value.underline == LinkUnderlineStyle
  {
    match version
    case Current => Some(LinkStyle(ForegroundColor, UnderlineStyle, highlighted, r))
    case Legacy =>
      match r.detectionType
      case TextLinkType => Some(LinkStyle(TextLinkTextColor, TextLinkUnderlineStyle, highlighted, r))
      case UserHandle => Some(LinkStyle(UserHandleTextColor, UserHandleUnderlineStyle, highlighted, r))
      case Hashtag => Some(LinkStyle(HashtagTextColor, HashtagUnderlineStyle, highlighted, r))
      case Url => Some(LinkStyle(TextLinkTextColor, LinkUnderlineStyle, highlighted, r))
      case NoneType => None
  }

  /** Result `r` sets the attributes of position `i`. */
  predicate Restyles(version: Version, r: LinkResult, i: nat) {
    r.range.location <= i < r.range.End() && LinkAttributes(version, r, false).Some?
  }

  /** One `setAttributes(_:range:)` call, or none. */
  function Overwrite(styles: seq<Style>, range: NSRange, s: Option<Style>): (out: seq<Style>)
    requires range.End() <= |styles|
    ensures |out| == |styles|
  {
    if s.None? then styles
    else seq(|styles|, i requires 0 <= i < |styles| => if range.location <= i < range.End() then s.value else styles[i])
  }

  /** The styles after the results, in list order, have set their attributes. */
  function Restyled(styles: seq<Style>, results: seq<LinkResult>, version: Version, highlighted: bool): (out: seq<Style>)
    requires ResultsFit(results, |styles|)
    ensures |out| == |styles|
  {
    if results == [] then styles
    else
      var last := results[|results| - 1];
      Overwrite(Restyled(styles, results[..|results| - 1], version, highlighted), last.range,
                LinkAttributes(version, last, highlighted))
  }

  /** Last writer wins: a position ends with the attributes of the last result
      in the list that sets attributes over it. */
  lemma {:induction false} RestyledLastWriter(styles: seq<Style>, results: seq<LinkResult>, version: Version, highlighted: bool,
                                              i: nat, k: nat)
    requires ResultsFit(results, |styles|)
    requires i < |styles| && k < |results|
    requires Restyles(version, results[k], i)
    requires forall k' :: k < k' < |results| ==> !Restyles(version, results[k'], i)
    ensures LinkAttributes(version, results[k], highlighted).Some?
    ensures Restyled(styles, results, version, highlighted)[i] == LinkAttributes(version, results[k], highlighted).value
  {
    var init := results[..|results| - 1];
    if k < |results| - 1 {
      RestyledLastWriter(styles, init, version, highlighted, i, k);
      assert !Restyles(version, results[|results| - 1], i);
    }
  }

  /** A position no result sets attributes over keeps its attributes. */
  lemma {:induction false} RestyledUntouched(styles: seq<Style>, results: seq<LinkResult>, version: Version, highlighted: bool, i: nat)
    requires ResultsFit(results, |styles|)
    requires i < |styles|
    requires forall k :: 0 <= k < |results| ==> !Restyles(version, results[k], i)
    ensures Restyled(styles, results, version, highlighted)[i] == styles[i]
  {
    if results != [] {
      var init := results[..|results| - 1];
      assert !Restyles(version, results[|results| - 1], i);
      RestyledUntouched(styles, init, version, highlighted, i);
    }
  }

  /** Styling with one list and then with another is styling with the two
      lists one after the other. */
  lemma {:induction false} RestyledAppend(styles: seq<Style>, a: seq<LinkResult>, b: seq<LinkResult>, version: Version, highlighted: bool)
    requires ResultsFit(a, |styles|) && ResultsFit(b, |styles|)
    ensures ResultsFit(a + b, |styles|)
    ensures Restyled(Restyled(styles, a, version, highlighted), b, version, highlighted)
              == Restyled(styles, a + b, version, highlighted)
    decreases |b|
  {
    assert forall k :: 0 <= k < |a + b| ==> (a + b)[k] == if k < |a| then a[k] else b[k - |a|];
    if b == [] {
      assert a + b == a;
    } else {
      var init := b[..|b| - 1];
      RestyledAppend(styles, a, init, version, highlighted);
      assert (a + b)[..|a + b| - 1] == a + init;
    }
  }

  /** `addLinkAttributesTo(_:with:highlighted:)`: a mutable copy of the
      attributed string whose attributes are replaced over each result's range
      in list order. Every range must lie inside the string
      (`setAttributes(_:range:)` raises otherwise). */
  method AddLinkAttributesTo(attributed: AttributedText, linkResults: seq<LinkResult>, version: Version, highlighted: bool)
    returns (out: AttributedText)
    requires ValidText(attributed)
    requires ResultsFit(linkResults, |attributed.units|)
    ensures ValidText(out) && out.units == attributed.units
    ensures out.styles == Restyled(attributed.styles, linkResults, version, highlighted)
  {
    var buffer := new Style[|attributed.styles|](i requires 0 <= i < |attributed.styles| => attributed.styles[i]);
    assert buffer[..] == attributed.styles;
    for n := 0 to |linkResults|
      invariant buffer[..] == Restyled(attributed.styles, linkResults[..n], version, highlighted)
    {
      var linkResult := linkResults[n];
      var attributes := LinkAttributes(version, linkResult, highlighted);
      assert linkResults[..n + 1][..n] == linkResults[..n];
      if attributes.Some? {
        SetAttributes(buffer, attributes.value, linkResult.range);
      }
    }
    assert linkResults[..|linkResults|] == linkResults;
    out := AttributedText(attributed.units, buffer[..]);
  }

  /** `setAttributes(_:range:)` on the buffer: every position of the range
      gets the new attributes and no other position changes. */
  method SetAttributes(buffer: array<Style>, s: Style, range: NSRange)
    requires range.End() <= buffer.Length
    modifies buffer
    ensures buffer[..] == Overwrite(old(buffer[..]), range, Some(s))
  {
    ghost var before := buffer[..];
    for j := range.location to range.End()
      invariant forall p :: 0 <= p < buffer.Length ==> buffer[p] == (if range.location <= p < j then s else before[p])
    {
      buffer[j] := s;
    }
  }
}
