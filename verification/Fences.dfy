/** Markdown code fences anywhere in a text, found leftmost first and without overlap. */
module FencedBlocks {
  import opened Wrappers
  import opened Text

  /** A whole fence raw[start..end] around the body raw[bodyStart..bodyEnd]. */
  datatype Fence = Fence(start: nat, bodyStart: nat, bodyEnd: nat, end: nat)

  predicate TicksAt(s: string, i: nat) {
    i + 3 <= |s| && s[i..i + 3] == "```"
  }

  function FindTicks(s: string, i: nat): (r: Option<nat>)
    ensures r.Some? ==> i <= r.value && TicksAt(s, r.value)
    ensures forall k | i <= k && (r.None? || k < r.value) :: !TicksAt(s, k)
    decreases |s| - i
  {
    if i + 3 > |s| then None else if TicksAt(s, i) then Some(i) else FindTicks(s, i + 1)
  }

  function PastLetters(s: string, i: nat): (j: nat)
    ensures i <= j && (i <= |s| ==> j <= |s|)
    decreases |s| - i
  {
    if i < |s| && IsLetter(s[i]) then PastLetters(s, i + 1) else i
  }

  predicate IsBlank(c: char) {
    c == ' ' || c == '\t'
  }

  function PastBlanks(s: string, i: nat): (j: nat)
    ensures i <= j && (i <= |s| ==> j <= |s|)
    decreases |s| - i
  {
    if i < |s| && IsBlank(s[i]) then PastBlanks(s, i + 1) else i
  }

  // ```[a-zA-Z]*[ \t]*\n, the shortest body, ```
  function FenceAt(s: string, i: nat): (f: Option<Fence>)
    ensures f.Some? ==> f.value.start == i < f.value.bodyStart <= f.value.bodyEnd < f.value.end <= |s|
  {
    if !TicksAt(s, i) then None
    else
      var j := PastBlanks(s, PastLetters(s, i + 3));
      if j >= |s| || s[j] != '\n' then None
      else
        var close := FindTicks(s, j + 1);
        if close.None? then None else Some(Fence(i, j + 1, close.value, close.value + 3))
  }

  function Fences(s: string, i: nat): (fs: seq<Fence>)
    ensures forall k | 0 <= k < |fs| :: i <= fs[k].start < fs[k].bodyStart <= fs[k].bodyEnd < fs[k].end <= |s|
    ensures forall k, l | 0 <= k < l < |fs| :: fs[k].end <= fs[l].start
    decreases |s| - i
  {
    if i >= |s| then []
    else
      var f := FenceAt(s, i);
      if f.Some? then [f.value] + Fences(s, f.value.end) else Fences(s, i + 1)
  }

  predicate InsideFence(fences: seq<Fence>, i: int) {
    exists k | 0 <= k < |fences| :: fences[k].start <= i < fences[k].end
  }

  // ----- what the scan finds -----

  // Letters up to j, blanks up to k, and there the line ends.
  ghost predicate IsOpening(s: string, i: nat, j: nat, k: nat) {
    && i <= j <= k < |s| && s[k] == '\n'
    && (forall x | i <= x < j :: IsLetter(s[x])) && forall x | j <= x < k :: IsBlank(s[x])
  }

  ghost predicate HasOpening(s: string, i: nat, k: nat) {
    exists j :: i <= j <= k && IsOpening(s, i, j, k)
  }

  // One whole fence, its body ending at the first closing ticks.
  ghost predicate IsFence(s: string, f: Fence) {
    && TicksAt(s, f.start) && f.start + 3 < f.bodyStart <= f.bodyEnd && f.end == f.bodyEnd + 3
    && HasOpening(s, f.start + 3, f.bodyStart - 1)
    && TicksAt(s, f.bodyEnd) && forall k | f.bodyStart <= k < f.bodyEnd :: !TicksAt(s, k)
  }

  lemma {:induction false} LettersAreMaximal(s: string, i: nat)
    requires i <= |s|
    ensures forall x | i <= x < PastLetters(s, i) :: IsLetter(s[x])
    ensures PastLetters(s, i) < |s| ==> !IsLetter(s[PastLetters(s, i)])
    decreases |s| - i
  {
    hide IsLetter;
    if i < |s| {
      LettersAreMaximal(s, i + 1);
    }
  }

  lemma {:induction false} BlanksAreMaximal(s: string, i: nat)
    requires i <= |s|
    ensures forall x | i <= x < PastBlanks(s, i) :: IsBlank(s[x])
    ensures PastBlanks(s, i) < |s| ==> !IsBlank(s[PastBlanks(s, i)])
    decreases |s| - i
  {
    hide IsBlank;
    if i < |s| {
      BlanksAreMaximal(s, i + 1);
    }
  }

  // There is one opening at most, and it is the one that is scanned.
  lemma OpeningIsScanned(s: string, i: nat, k: nat)
    requires i <= |s|
    ensures HasOpening(s, i, k) <==> k == PastBlanks(s, PastLetters(s, i)) && k < |s| && s[k] == '\n'
  {
    hide PastLetters, PastBlanks;
    var j := PastLetters(s, i);
    LettersAreMaximal(s, i);
    BlanksAreMaximal(s, j);
    if j' :| i <= j' <= k && IsOpening(s, i, j', k) {
      assert s[j'] == '\n' || IsBlank(s[j']);
      assert j' == j;
    }
    if k == PastBlanks(s, j) && k < |s| && s[k] == '\n' {
      assert IsOpening(s, i, j, k);
    }
  }

  // The scan at one place finds a fence exactly when one is there.
  lemma FenceAtIsExact(s: string, f: Fence)
    ensures FenceAt(s, f.start) == Some(f) <==> IsFence(s, f)
  {
    hide HasOpening, TicksAt, PastLetters, PastBlanks, FindTicks;
    if TicksAt(s, f.start) {
      TicksInText(s, f.start);
      OpeningIsScanned(s, f.start + 3, if f.bodyStart > 0 then f.bodyStart - 1 else 0);
      if f.bodyEnd >= f.bodyStart && TicksAt(s, f.bodyEnd) {
        TicksInText(s, f.bodyEnd);
      }
    }
  }

  lemma TicksInText(s: string, i: nat)
    requires TicksAt(s, i)
    ensures i + 3 <= |s|
  {
  }

  ghost predicate BeginsInside(fences: seq<Fence>, i: int) {
    exists k | 0 <= k < |fences| :: fences[k].start < i < fences[k].end
  }

  lemma {:induction false} FencesAreFences(s: string, i: nat)
    ensures forall k | 0 <= k < |Fences(s, i)| :: IsFence(s, Fences(s, i)[k])
    decreases |s| - i
  {
    hide FenceAt, IsFence;
    if i < |s| {
      var found := FenceAt(s, i);
      if found.Some? {
        FenceAtIsExact(s, found.value);
        FencesAreFences(s, found.value.end);
      } else {
        FencesAreFences(s, i + 1);
      }
    }
  }

  // Leftmost and complete: a fence is found unless it begins inside one that is.
  lemma {:induction false} FenceIsFound(s: string, i: nat, f: Fence)
    requires IsFence(s, f) && i <= f.start
    ensures f in Fences(s, i) || BeginsInside(Fences(s, i), f.start)
    decreases |s| - i
  {
    hide FenceAt, IsFence;
    FenceAtIsExact(s, f);
    FenceInText(s, f);
    var found := FenceAt(s, i);
    if found.Some? && f != found.value {
      if found.value.end <= f.start {
        FenceIsFound(s, found.value.end, f);
      }
      OneMoreFence(found.value, Fences(s, found.value.end), f);
    } else if found.None? {
      FenceIsFound(s, i + 1, f);
    }
  }

  lemma OneMoreFence(first: Fence, rest: seq<Fence>, f: Fence)
    ensures f in rest ==> f in [first] + rest
    ensures first.start < f.start < first.end || BeginsInside(rest, f.start) ==> BeginsInside([first] + rest, f.start)
  {
    var fs := [first] + rest;
    assert fs[0] == first && forall k | 0 <= k < |rest| :: fs[k + 1] == rest[k];
  }

  lemma FenceInText(s: string, f: Fence)
    requires IsFence(s, f)
    ensures f.start < |s|
  {
  }
}
