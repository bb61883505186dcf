/** Whether a text holds a value as whole words, folding case and spacing. */
module Mentions {
  import opened Wrappers

  /** How texts are compared: folding of case and spacing, and which characters make up words. */
  datatype Folding = Folding(fold: string -> string, isWord: char -> bool)

  predicate OccursAt(haystack: string, needle: string, i: nat) {
    i + |needle| <= |haystack| && haystack[i..i + |needle|] == needle
  }

  function IndexFrom(haystack: string, needle: string, offset: nat): (r: Option<nat>)
    ensures r.Some? ==> offset <= r.value && OccursAt(haystack, needle, r.value)
    ensures forall i | offset <= i && (r.None? || i < r.value) :: !OccursAt(haystack, needle, i)
    decreases |haystack| - offset
  {
    if offset + |needle| > |haystack| then None
    else if OccursAt(haystack, needle, offset) then Some(offset)
    else IndexFrom(haystack, needle, offset + 1)
  }

  // An occurrence that does not cut a word in two, at either end.
  predicate BoundariesOK(haystack: string, needle: string, start: nat, isWord: char -> bool)
    requires needle != "" && OccursAt(haystack, needle, start)
  {
    var end := start + |needle|;
    && !(isWord(needle[0]) && start > 0 && isWord(haystack[start - 1]))
    && !(isWord(needle[|needle| - 1]) && end < |haystack| && isWord(haystack[end]))
  }

  // Somewhere the folded text holds the folded value as whole words.
  ghost predicate Mentioned(text: string, value: string, f: Folding) {
    var haystack, needle := f.fold(text), f.fold(value);
    needle != "" && exists i: nat :: OccursAt(haystack, needle, i) && BoundariesOK(haystack, needle, i, f.isWord)
  }

  method ContainsLiteral(text: string, value: string, f: Folding) returns (found: bool)
    ensures found <==> Mentioned(text, value, f)
  {
    var haystack, needle := f.fold(text), f.fold(value);
    if needle == "" {
      return false;
    }
    var offset := 0;
    while offset + |needle| <= |haystack|
      invariant forall i: nat | i < offset && OccursAt(haystack, needle, i) ::
                !BoundariesOK(haystack, needle, i, f.isWord)
      decreases |haystack| - offset
    {
      var at := IndexFrom(haystack, needle, offset);
      if at.None? {
        return false;
      }
      if BoundariesOK(haystack, needle, at.value, f.isWord) {
        return true;
      }
      offset := at.value + 1;
    }
    return false;
  }

  // In other words: the folded text is the folded value with something before and after it, neither of which
  // runs on in the same word.
  lemma MentionedIff(text: string, value: string, f: Folding)
    ensures Mentioned(text, value, f) <==>
            && f.fold(value) != ""
            && exists before, after ::
                 && f.fold(text) == before + f.fold(value) + after
                 && !RunsOn(before, f.fold(value), f.isWord) && !RunsOn(f.fold(value), after, f.isWord)
  {
    hide OccursAt, BoundariesOK, RunsOn;
    var haystack, needle := f.fold(text), f.fold(value);
    if Mentioned(text, value, f) {
      var i: nat :| OccursAt(haystack, needle, i) && BoundariesOK(haystack, needle, i, f.isWord);
      var before, after := SplitAround(haystack, needle, i);
      BoundariesIff(before, needle, after, f.isWord);
    }
    if needle != "" {
      forall before, after | haystack == before + needle + after
                             && !RunsOn(before, needle, f.isWord) && !RunsOn(needle, after, f.isWord)
        ensures Mentioned(text, value, f)
      {
        BoundariesIff(before, needle, after, f.isWord);
      }
    }
  }

  // a ends and b begins inside one word.
  predicate RunsOn(a: string, b: string, isWord: char -> bool) {
    a != "" && b != "" && isWord(a[|a| - 1]) && isWord(b[0])
  }

  lemma SplitAround(haystack: string, needle: string, i: nat) returns (before: string, after: string)
    requires OccursAt(haystack, needle, i)
    ensures |before| == i && haystack == before + needle + after
  {
    before, after := haystack[..i], haystack[i + |needle|..];
  }

  lemma BoundariesIff(before: string, needle: string, after: string, isWord: char -> bool)
    requires needle != ""
    ensures var haystack := before + needle + after;
            && OccursAt(haystack, needle, |before|)
            && (BoundariesOK(haystack, needle, |before|, isWord) <==>
                !RunsOn(before, needle, isWord) && !RunsOn(needle, after, isWord))
  {
  }
}
