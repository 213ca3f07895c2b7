/** The label's state and the setters that keep it up to date: the text, the
    selection of detectors, the registered text links, the cached label data
    (attributed string and link results), the attributed text shown and the
    text storage used for layout. */
module Label {
  import opened Optionals
  import opened Utf16
  import opened Detection
  import opened TextLinks
  import opened Resolver
  import opened Styling
  import opened Lookup

  /** The kinds enabled on a new label: `[.UserHandle, .Hashtag, .URL, .TextLink]`. */
  const DefaultKinds: seq<LinkDetectionType> := [UserHandle, Hashtag, Url, TextLinkType]

  /** The selection a new label starts with, in each version. */
  function DefaultSelection(version: Version): (sel: KindSelection)
    ensures version == Legacy <==> sel.LegacyMask?
  {
    if version == Legacy then LegacyMask(MaskOf(DefaultKinds)) else KindList(DefaultKinds)
  }

  /** Both versions start with every detector on. */
  lemma DefaultSelectionEnablesAll(version: Version, k: LinkDetectionType)
    ensures Enabled(DefaultSelection(version), k) <==> k != NoneType
  {
    MaskOfContains(DefaultKinds, k);
  }

  /** The cachable record of one computation: the styled attributed string and
      the results it was styled with. */
  class ContextLabelData {
    var attributedString: AttributedText
    var linkResults: seq<LinkResult>

    constructor (attributedString: AttributedText, linkResults: seq<LinkResult>)
      ensures this.attributedString == attributedString && this.linkResults == linkResults
    {
      this.attributedString := attributedString;
      this.linkResults := linkResults;
    }
  }

  /** `a` is plain text styled with `results` in list order. */
  predicate StyledFrom(version: Version, a: AttributedText, results: seq<LinkResult>) {
    && ValidText(a)
    && ResultsFit(results, |a.units|)
    && a.styles == Restyled(PlainText(a.units).styles, results, version, false)
  }

  class ContextLabel {
    /** Which copy of the label: decides the selection type, the regex window
        and the style closures. */
    const version: Version
    /** UILabel's `text`. */
    var text: Option<LabelText>
    var linkDetectionTypes: KindSelection
    var textLinks: Option<seq<TextLink>>
    var contextLabelData: ContextLabelData?
    /** UILabel's `attributedText`. */
    var attributedText: Option<AttributedText>
    /** The text storage's string. */
    var storage: AttributedText

    ghost predicate Valid()
      reads this, contextLabelData
    {
      && (version == Legacy <==> linkDetectionTypes.LegacyMask?)
      && (text.Some? ==> WellFormedText(text.value))
      && ValidText(storage)
      && (contextLabelData != null ==>
            && ValidText(contextLabelData.attributedString)
            && attributedText == Some(contextLabelData.attributedString)
            && storage.units == contextLabelData.attributedString.units)
    }

    /** What a computation over `t` needs: the detectors can run and every
        result lies inside `t`, where the attributes are set. */
    ghost predicate Resolvable(t: LabelText, engines: Engines)
      reads this
    {
      && CanResolve(text, textLinks, linkDetectionTypes, t, engines)
      && ResultsFit(Detected(text, textLinks, linkDetectionTypes, t, engines), |t.units|)
    }

    /** `init(frame:)` followed by `setup()`: with no text there is nothing to
        compute. */
    constructor (version: Version)
      ensures Valid()
      ensures this.version == version && linkDetectionTypes == DefaultSelection(version)
      ensures text.None? && textLinks.None? && contextLabelData == null && attributedText.None?
      ensures storage == PlainText([])
    {
      this.version := version;
      text := None;
      linkDetectionTypes := DefaultSelection(version);
      textLinks := None;
      contextLabelData := null;
      attributedText := None;
      storage := PlainText([]);
    }

    /** `contextLabelDataWithText(_:)`: detect the links and style a fresh
        attributed string of `argText` with them. The text-link search and the
        regex helper read the label's own `text`, not `argText`. */
    method ContextLabelDataWithText(argText: Option<LabelText>, engines: Engines) returns (data: ContextLabelData?)
      requires Valid()
      requires argText.Some? ==> Resolvable(argText.value, engines)
      ensures argText.None? ==> data == null
      ensures argText.Some? ==>
                && data != null && fresh(data)
                && data.linkResults == Detected(text, textLinks, linkDetectionTypes, argText.value, engines)
                && data.attributedString.units == argText.value.units
                && StyledFrom(version, data.attributedString, data.linkResults)
    {
      if argText.None? {
        return null;
      }
      var t := argText.value;
      var linkResults := LinkResultsIn(text, textLinks, linkDetectionTypes, t, engines);
      var attributedString := AddLinkAttributesTo(PlainText(t.units), linkResults, version, false);
      data := new ContextLabelData(attributedString, linkResults);
    }

    /** The `contextLabelData` setter and its observer: new data is shown and
        put into the text storage; nil changes nothing else. */
    method SetContextLabelData(data: ContextLabelData?)
      requires Valid()
      requires data != null ==> ValidText(data.attributedString)
      modifies this
      ensures Valid()
      ensures contextLabelData == data
      ensures text == old(text) && textLinks == old(textLinks) && linkDetectionTypes == old(linkDetectionTypes)
      ensures data != null ==> attributedText == Some(data.attributedString) && storage == data.attributedString
      ensures data == null ==> attributedText == old(attributedText) && storage == old(storage)
    {
      contextLabelData := data;
      if data != null {
        attributedText := Some(data.attributedString);
        storage := data.attributedString;
      }
    }

    /** `setContextLabelDataWithText(_:)`: recompute from `argText`, or from
        the label's `text` when `argText` is nil; with neither, keep the old
        data. */
    method SetContextLabelDataWithText(argText: Option<LabelText>, engines: Engines)
      requires Valid()
      requires argText.Some? ==> Resolvable(argText.value, engines)
      requires argText.None? && text.Some? ==> Resolvable(text.value, engines)
      modifies this
      ensures Valid()
      ensures text == old(text) && textLinks == old(textLinks) && linkDetectionTypes == old(linkDetectionTypes)
      ensures argText.None? && text.None? ==>
                contextLabelData == old(contextLabelData) && attributedText == old(attributedText) && storage == old(storage)
      ensures argText.Some? || text.Some? ==>
                var t := if argText.Some? then argText.value else text.value;
                && contextLabelData != null && fresh(contextLabelData)
                && contextLabelData.linkResults == Detected(text, textLinks, linkDetectionTypes, t, engines)
                && contextLabelData.attributedString.units == t.units
                && StyledFrom(version, contextLabelData.attributedString, contextLabelData.linkResults)
    {
      var t := argText;
      if t.None? {
        t := text;
      }
      if t.Some? {
        var data := ContextLabelDataWithText(t, engines);
        SetContextLabelData(data);
      }
    }

    /** The `text` setter and its observer. Setting nil leaves the old label
        data, results and attributed text in place. */
    method SetText(newText: Option<LabelText>, engines: Engines)
      requires Valid()
      requires newText.Some? ==> WellFormedText(newText.value)
                                 && CanResolve(newText, textLinks, linkDetectionTypes, newText.value, engines)
      modifies this
      ensures Valid()
      ensures text == newText && textLinks == old(textLinks) && linkDetectionTypes == old(linkDetectionTypes)
      ensures newText.None? ==>
                contextLabelData == old(contextLabelData) && attributedText == old(attributedText) && storage == old(storage)
      ensures newText.Some? ==>
                && contextLabelData != null && fresh(contextLabelData)
                && contextLabelData.linkResults == Detected(newText, textLinks, linkDetectionTypes, newText.value, engines)
                && storage.units == newText.value.units
                && StyledFrom(version, contextLabelData.attributedString, contextLabelData.linkResults)
    {
      text := newText;
      if newText.Some? {
        DetectedFit(newText.value, textLinks, linkDetectionTypes, engines);
      }
      SetContextLabelDataWithText(newText, engines);
    }

    /** The `linkDetectionTypes` setter and its observer: recompute from the
        label's text with the new selection. */
    method SetLinkDetectionTypes(sel: KindSelection, engines: Engines)
      requires Valid()
      requires sel.LegacyMask? == linkDetectionTypes.LegacyMask?
      requires text.Some? ==> CanResolve(text, textLinks, sel, text.value, engines)
      modifies this
      ensures Valid()
      ensures linkDetectionTypes == sel && text == old(text) && textLinks == old(textLinks)
      ensures text.None? ==>
                contextLabelData == old(contextLabelData) && attributedText == old(attributedText) && storage == old(storage)
      ensures text.Some? ==>
                && contextLabelData != null && fresh(contextLabelData)
                && contextLabelData.linkResults == Detected(text, textLinks, sel, text.value, engines)
                && StyledFrom(version, contextLabelData.attributedString, contextLabelData.linkResults)
    {
      linkDetectionTypes := sel;
      if text.Some? {
        DetectedFit(text.value, textLinks, linkDetectionTypes, engines);
      }
      SetContextLabelDataWithText(None, engines);
    }

    /** The `textLinks` setter and its observer: when there is label data, the
        new links' results are appended to its results, styled onto its
        attributed string and shown; the text storage is not updated. Without
        label data, or when the links are set to nil, only the property
        changes. */
    method SetTextLinks(links: Option<seq<TextLink>>)
      requires Valid()
      requires links.Some? && links.value != [] && contextLabelData != null ==>
                 && text.Some?
                 && ResultsFit(AllTextLinkMatches(text.value.units, text.value.charCount, links.value),
                               |contextLabelData.attributedString.units|)
      modifies this, contextLabelData
      ensures Valid()
      ensures textLinks == links && text == old(text) && linkDetectionTypes == old(linkDetectionTypes)
      ensures contextLabelData == old(contextLabelData) && storage == old(storage)
      ensures contextLabelData == null || links.None? ==>
                && attributedText == old(attributedText)
                && (contextLabelData != null ==> unchanged(contextLabelData))
      ensures contextLabelData != null && links.Some? ==>
                && contextLabelData.linkResults == old(contextLabelData.linkResults) + TextLinkPart(text, links)
                && contextLabelData.attributedString.units == old(contextLabelData.attributedString.units)
                && contextLabelData.attributedString.styles
                     == Restyled(old(contextLabelData.attributedString.styles), TextLinkPart(text, links), version, false)
      ensures contextLabelData != null && links.Some?
              && StyledFrom(version, old(contextLabelData.attributedString), old(contextLabelData.linkResults)) ==>
                StyledFrom(version, contextLabelData.attributedString, contextLabelData.linkResults)
    {
      textLinks := links;
      if links.Some? {
        var data := contextLabelData;
        if data != null {
          var linkResults: seq<LinkResult> := [];
          if links.value != [] {
            var t := text.value;
            linkResults := LinkResultsForTextLinks(t.units, t.charCount, links.value);
          }
          ghost var oldResults := data.linkResults;
          ghost var oldString := data.attributedString;
          data.linkResults := data.linkResults + linkResults;
          var attributedString := AddLinkAttributesTo(data.attributedString, linkResults, version, false);
          data.attributedString := attributedString;
          attributedText := Some(data.attributedString);
          if StyledFrom(version, oldString, oldResults) {
            RestyledAppend(PlainText(oldString.units).styles, oldResults, linkResults, version, false);
          }
        }
      }
    }

    /** `setText(_:withTextLinks:)`: register the links, then compute and set
        label data for `newText`. The text links and the regex helper are run
        over the label's current `text`, which this call does not change. */
    method SetTextWithTextLinks(newText: LabelText, links: seq<TextLink>, engines: Engines)
      requires Valid()
      requires links != [] && contextLabelData != null ==>
                 && text.Some?
                 && ResultsFit(AllTextLinkMatches(text.value.units, text.value.charCount, links),
                               |contextLabelData.attributedString.units|)
      requires CanResolve(text, Some(links), linkDetectionTypes, newText, engines)
      requires ResultsFit(Detected(text, Some(links), linkDetectionTypes, newText, engines), |newText.units|)
      modifies this, contextLabelData
      ensures Valid()
      ensures textLinks == Some(links) && text == old(text) && linkDetectionTypes == old(linkDetectionTypes)
      ensures contextLabelData != null && fresh(contextLabelData)
      ensures contextLabelData.linkResults == Detected(text, Some(links), linkDetectionTypes, newText, engines)
      ensures storage.units == newText.units
      ensures StyledFrom(version, contextLabelData.attributedString, contextLabelData.linkResults)
      ensures old(contextLabelData) != null ==>
                && old(contextLabelData).linkResults == old(contextLabelData.linkResults) + TextLinkPart(text, Some(links))
                && old(contextLabelData).attributedString.styles
                     == Restyled(old(contextLabelData.attributedString.styles), TextLinkPart(text, Some(links)), version, false)
    {
      SetTextLinks(Some(links));
      var data := ContextLabelDataWithText(Some(newText), engines);
      SetContextLabelData(data);
    }

    /** `linkResult(at:)` on the label: the text storage's length bounds the
        index and the label data's results are scanned. */
    method LinkResultAt(characterIndex: nat, rectContains: NSRange -> bool) returns (hit: Option<LinkResult>)
      requires Valid()
      ensures hit == LinkResultAtSpec(characterIndex, Some(|storage.units|),
                                      if contextLabelData == null then None else Some(contextLabelData.linkResults),
                                      rectContains)
    {
      var linkResults: Option<seq<LinkResult>> := None;
      if contextLabelData != null {
        linkResults := Some(contextLabelData.linkResults);
      }
      hit := Lookup.LinkResultAt(characterIndex, Some(|storage.units|), linkResults, rectContains);
    }
  }
}
