/** NSString.range(of:options:range:) as the text-link search uses it: the
    first occurrence of a phrase inside a search window of the text. */
module TextSearch {
  import opened Optionals
  import opened Utf16
  import opened Detection

  /** ASCII case folding of one code unit. */
  function FoldUnit(u: CodeUnit): CodeUnit {
    if 'A' as int <= u <= 'Z' as int then u + 32 else u
  }

  /** Two code units compare equal under the comparison options. */
  predicate SameUnit(a: CodeUnit, b: CodeUnit, opts: CompareOptions) {
    if opts.caseInsensitive then FoldUnit(a) == FoldUnit(b) else a == b
  }

  /** `pattern` occurs in `text` at offset `i` under the comparison options:
      unit by unit, the text from `i` on compares equal to the phrase. */
  predicate OccursAt(text: seq<CodeUnit>, pattern: seq<CodeUnit>, opts: CompareOptions, i: nat)
    requires i + |pattern| <= |text|
    decreases |pattern|
  {
    |pattern| == 0 || (SameUnit(text[i], pattern[0], opts) && OccursAt(text, pattern[1..], opts, i + 1))
  }

  /** Under the empty option set an occurrence is the phrase itself. */
  lemma {:induction false} LiteralOccurrenceIsSubstring(text: seq<CodeUnit>, pattern: seq<CodeUnit>, i: nat)
    requires i + |pattern| <= |text|
    requires OccursAt(text, pattern, CompareOptions(false), i)
    ensures Substring(text, NSRange(i, |pattern|)) == pattern
    decreases |pattern|
  {
    if |pattern| > 0 {
      LiteralOccurrenceIsSubstring(text, pattern[1..], i + 1);
      assert text[i..i + |pattern|] == [text[i]] + text[i + 1..i + 1 + |pattern[1..]|];
      assert pattern == [pattern[0]] + pattern[1..];
    }
  }

  /** An occurrence is a unit-by-unit match: the phrase occurs at `i` exactly
      when each of its code units compares equal to the text's code unit at
      the same offset from `i`. */
  lemma {:induction false} OccursAtUnitwise(text: seq<CodeUnit>, pattern: seq<CodeUnit>, opts: CompareOptions, i: nat)
    requires i + |pattern| <= |text|
    ensures OccursAt(text, pattern, opts, i) <==>
              forall k :: 0 <= k < |pattern| ==> SameUnit(text[i + k], pattern[k], opts)
    decreases |pattern|
  {
    if |pattern| > 0 {
      OccursAtUnitwise(text, pattern[1..], opts, i + 1);
      assert forall k :: 1 <= k < |pattern| ==> pattern[k] == pattern[1..][k - 1] && i + k == (i + 1) + (k - 1);
    }
  }

  /** The location of the first occurrence of `pattern` that lies entirely in
      the window `[loc, loc + len)`, or None (NSNotFound). The window must lie
      inside the text, as the Foundation method demands (it raises a range
      exception otherwise). What is found is characterised by
      `FindFirstCorrect`. */
  function FindFirst(text: seq<CodeUnit>, pattern: seq<CodeUnit>, opts: CompareOptions, loc: nat, len: nat): (r: Option<nat>)
    requires loc + len <= |text|
    ensures r.Some? ==> loc <= r.value && r.value + |pattern| <= loc + len
    decreases len
  {
    if |pattern| == 0 || len < |pattern| then None
    else if OccursAt(text, pattern, opts, loc) then Some(loc)
    else FindFirst(text, pattern, opts, loc + 1, len - 1)
  }

  /** A hit is an occurrence of the phrase in the window with no occurrence
      before it in the window; a miss means the phrase is empty (never found)
      or does not occur anywhere in the window. */
  lemma {:induction false} FindFirstCorrect(text: seq<CodeUnit>, pattern: seq<CodeUnit>, opts: CompareOptions, loc: nat, len: nat)
    requires loc + len <= |text|
    ensures FindFirst(text, pattern, opts, loc, len).Some? ==>
              && |pattern| > 0
              && OccursAt(text, pattern, opts, FindFirst(text, pattern, opts, loc, len).value)
              && forall j :: loc <= j < FindFirst(text, pattern, opts, loc, len).value ==> !OccursAt(text, pattern, opts, j)
    ensures FindFirst(text, pattern, opts, loc, len).None? ==>
              |pattern| == 0 || forall j :: loc <= j && j + |pattern| <= loc + len ==> !OccursAt(text, pattern, opts, j)
    decreases len
  {
    if |pattern| != 0 && len >= |pattern| && !OccursAt(text, pattern, opts, loc) {
      FindFirstCorrect(text, pattern, opts, loc + 1, len - 1);
    }
  }

  /** An occurrence of a non-empty phrase in the window is found, at its
      own offset or earlier. */
  lemma {:induction false} FindFirstFinds(text: seq<CodeUnit>, pattern: seq<CodeUnit>, opts: CompareOptions, loc: nat, len: nat, j: nat)
    requires loc + len <= |text|
    requires |pattern| > 0 && loc <= j && j + |pattern| <= loc + len
    requires OccursAt(text, pattern, opts, j)
    ensures FindFirst(text, pattern, opts, loc, len).Some?
    ensures FindFirst(text, pattern, opts, loc, len).value <= j
    decreases len
  {
    if !OccursAt(text, pattern, opts, loc) {
      FindFirstFinds(text, pattern, opts, loc + 1, len - 1, j);
    }
  }
}
