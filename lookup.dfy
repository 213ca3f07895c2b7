/** `linkResult(at:)`: which link result a touch falls on. The layout
    manager's character index and its bounding-rectangle test are foreign;
    they are passed in as the index and as a predicate on character ranges. */
module Lookup {
  import opened Optionals
  import opened Utf16
  import opened Detection

  /** The scan's index test, `rangeLocation <= characterIndex &&
      rangeLocation + rangeLength - 1 >= characterIndex`, in signed
      arithmetic: the index lies in the half-open range, and an empty range
      contains no index. */
  predicate IndexInRange(r: NSRange, characterIndex: nat): (b: bool)
    ensures b <==> r.location <= characterIndex < r.End()
    ensures r.length == 0 ==> !b
  {
    r.location <= characterIndex && r.location as int + r.length as int - 1 >= characterIndex
  }

  /** The result a touch at `characterIndex` selects: the first one in list
      order whose range holds the index and whose bounding rectangle holds the
      touch point. */
  function FirstHit(linkResults: seq<LinkResult>, characterIndex: nat, rectContains: NSRange -> bool): (r: Option<LinkResult>)
    ensures r.Some? ==> r.value in linkResults && IndexInRange(r.value.range, characterIndex) && rectContains(r.value.range)
  {
    if linkResults == [] then None
    else if IndexInRange(linkResults[0].range, characterIndex) && rectContains(linkResults[0].range) then Some(linkResults[0])
    else FirstHit(linkResults[1..], characterIndex, rectContains)
  }

  /** The result found is the first hit in the list; no result is found only
      when no result is hit. */
  lemma {:induction false} FirstHitIsFirst(linkResults: seq<LinkResult>, characterIndex: nat, rectContains: NSRange -> bool)
    ensures FirstHit(linkResults, characterIndex, rectContains).Some? ==>
              exists k :: 0 <= k < |linkResults| && linkResults[k] == FirstHit(linkResults, characterIndex, rectContains).value
                && forall j :: 0 <= j < k ==>
                     !(IndexInRange(linkResults[j].range, characterIndex) && rectContains(linkResults[j].range))
    ensures FirstHit(linkResults, characterIndex, rectContains).None? ==>
              forall k :: 0 <= k < |linkResults| ==>
                !(IndexInRange(linkResults[k].range, characterIndex) && rectContains(linkResults[k].range))
  {
    if linkResults != [] && !(IndexInRange(linkResults[0].range, characterIndex) && rectContains(linkResults[0].range)) {
      var rest := linkResults[1..];
      FirstHitIsFirst(rest, characterIndex, rectContains);
      if FirstHit(rest, characterIndex, rectContains).Some? {
        var k :| 0 <= k < |rest| && rest[k] == FirstHit(rest, characterIndex, rectContains).value
                 && forall j :: 0 <= j < k ==> !(IndexInRange(rest[j].range, characterIndex) && rectContains(rest[j].range));
        assert linkResults[k + 1] == rest[k];
        assert forall j :: 1 <= j < k + 1 ==> linkResults[j] == rest[j - 1];
      } else {
        assert forall k :: 1 <= k < |linkResults| ==> linkResults[k] == rest[k - 1];
      }
    }
  }

  /** What `linkResult(at:)` returns: the first hit among the label data's
      results; nothing when there is no label data; and nothing when there is
      no text storage or the index is past its length, since the optional
      `<=` is false against nil. */
  function LinkResultAtSpec(characterIndex: nat, storageLength: Option<nat>, linkResults: Option<seq<LinkResult>>,
                            rectContains: NSRange -> bool): (r: Option<LinkResult>)
    ensures storageLength.None? || storageLength.value < characterIndex ==> r.None?
    ensures linkResults.None? ==> r.None?
    ensures r.Some? ==> linkResults.Some? && r.value in linkResults.value
                        && IndexInRange(r.value.range, characterIndex) && rectContains(r.value.range)
  {
    if OptLessEq(Some(characterIndex), storageLength) && linkResults.Some? then
      FirstHit(linkResults.value, characterIndex, rectContains)
    else None
  }

  /** `linkResult(at:)`: a linear scan that returns at the first hit. */
  method LinkResultAt(characterIndex: nat, storageLength: Option<nat>, linkResults: Option<seq<LinkResult>>,
                      rectContains: NSRange -> bool)
    returns (hit: Option<LinkResult>)
    ensures hit == LinkResultAtSpec(characterIndex, storageLength, linkResults, rectContains)
  {
    var inStorage := OptLessEq(Some(characterIndex), storageLength);
    if inStorage {
      if linkResults.Some? {
        var results := linkResults.value;
        for n := 0 to |results|
          invariant FirstHit(results, characterIndex, rectContains) == FirstHit(results[n..], characterIndex, rectContains)
        {
          var linkResult := results[n];
          var rangeLocation := linkResult.range.location;
          var rangeLength := linkResult.range.length;
          assert results[n..][1..] == results[n + 1..];
          if rangeLocation <= characterIndex && rangeLocation + rangeLength - 1 >= characterIndex {
            if rectContains(NSRange(rangeLocation, rangeLength)) {
              return Some(linkResult);
            }
          }
        }
        return None;
      }
    }
    return None;
  }
}
