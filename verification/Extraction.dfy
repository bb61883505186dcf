/** Finding the model's final JSON object inside whatever text it came with. */
module Extraction {
  import opened Wrappers
  import opened Text
  import opened Permutations
  import opened Contract
  import opened FencedBlocks

  /** How an answer was found. */
  datatype Method = DirectObject | OuterFence | FencedBlock | BalancedObject

  datatype Extracted = Extracted(final: string, nonFinal: string, how: Method)

  // A decoded prefix is a non-empty part of the text it was read from.
  ghost predicate JudgeOK(judge: Judge) {
    forall s :: judge.decodePrefix(s).Some? ==> 1 <= judge.decodePrefix(s).value <= |s|
  }

  predicate HasOperational(m: Object) {
    exists i | 0 <= i < |OPERATIONAL| :: OPERATIONAL[i] in m
  }

  predicate FullyTyped(m: Object) {
    forall i | 0 <= i < |OPERATIONAL| :: OPERATIONAL[i] in m && TypeOK(OPERATIONAL[i], m[OPERATIONAL[i]])
  }

  // t is a contiguous part of s.
  ghost predicate IsSpan(t: string, s: string) {
    exists lo: nat, hi: nat | lo <= hi <= |s| :: t == s[lo..hi]
  }

  lemma SpanIntro(s: string, lo: nat, hi: nat)
    requires lo <= hi <= |s|
    ensures IsSpan(s[lo..hi], s)
  {
  }

  // ----- candidates -----

  datatype Candidate = Candidate(text: string, start: nat, end: nat, how: Method)

  function FencedCandidate(raw: string, judge: Judge): Fence -> seq<Candidate> {
    (f: Fence) =>
      if f.bodyStart <= f.bodyEnd <= |raw| && judge.decode(TrimSpace(raw[f.bodyStart..f.bodyEnd])).Some?
      then [Candidate(TrimSpace(raw[f.bodyStart..f.bodyEnd]), f.start, f.end, FencedBlock)]
      else []
  }

  // Balanced objects outside the fences, left to right, never inside one another.
  ghost function BalancedFrom(raw: string, fences: seq<Fence>, judge: Judge, i: nat): seq<Candidate>
    requires JudgeOK(judge)
    decreases |raw| - i
  {
    if i >= |raw| then []
    else if raw[i] != '{' || InsideFence(fences, i) || judge.decodePrefix(raw[i..]).None? then
      BalancedFrom(raw, fences, judge, i + 1)
    else
      var n := judge.decodePrefix(raw[i..]).value;
      [Candidate(raw[i..i + n], i, i + n, BalancedObject)] + BalancedFrom(raw, fences, judge, i + n)
  }

  ghost function Candidates(raw: string, judge: Judge): seq<Candidate>
    requires JudgeOK(judge)
  {
    var fences := Fences(raw, 0);
    FlatMap(fences, FencedCandidate(raw, judge)) + BalancedFrom(raw, fences, judge, 0)
  }

  predicate Acceptable(c: Candidate, judge: Judge) {
    var m := judge.decode(c.text);
    m.Some? && FullyTyped(m.value)
  }

  // The acceptable candidate that starts last.
  ghost predicate IsBest(cands: seq<Candidate>, judge: Judge, c: Candidate) {
    && c in cands && Acceptable(c, judge)
    && forall d | d in cands && Acceptable(d, judge) :: d.start <= c.start
  }

  ghost predicate NoneAcceptable(cands: seq<Candidate>, judge: Judge) {
    forall c | c in cands :: !Acceptable(c, judge)
  }

  // ----- where candidates lie -----

  predicate OtherStart(c: Candidate, d: Candidate) {
    c.start != d.start
  }

  // Where a balanced candidate lies, looking from i on.
  ghost predicate BalancedAt(c: Candidate, raw: string, fences: seq<Fence>, i: nat) {
    i <= c.start < c.end <= |raw| && c.text == raw[c.start..c.end] && !InsideFence(fences, c.start)
  }

  lemma {:induction false} BalancedShape(raw: string, fences: seq<Fence>, judge: Judge, i: nat)
    requires JudgeOK(judge)
    ensures forall c | c in BalancedFrom(raw, fences, judge, i) :: BalancedAt(c, raw, fences, i)
    ensures Pairwise(BalancedFrom(raw, fences, judge, i), OtherStart)
    decreases |raw| - i
  {
    hide InsideFence, JudgeOK, BalancedFrom, BalancedAt;
    if i >= |raw| {
      BalancedEnd(raw, fences, judge, i);
      assert BalancedFrom(raw, fences, judge, i) == [];
    } else {
      BalancedStep(raw, fences, judge, i);
      if raw[i] != '{' || InsideFence(fences, i) || judge.decodePrefix(raw[i..]).None? {
        BalancedShape(raw, fences, judge, i + 1);
        BalancedLater(raw, fences, BalancedFrom(raw, fences, judge, i + 1), i, i + 1);
      } else {
        var n := judge.decodePrefix(raw[i..]).value;
        var first, rest := Candidate(raw[i..i + n], i, i + n, BalancedObject), BalancedFrom(raw, fences, judge, i + n);
        BalancedShape(raw, fences, judge, i + n);
        BalancedLater(raw, fences, rest, i, i + n);
        assert BalancedAt(first, raw, fences, i) by {
          AtItself(first, raw, fences, i);
        }
        PairwiseConcat([first], rest, OtherStart);
      }
    }
  }

  // A brace outside every fence from which one value decodes.
  ghost predicate ObjectAt(raw: string, fences: seq<Fence>, judge: Judge, i: nat) {
    i < |raw| && raw[i] == '{' && !InsideFence(fences, i) && judge.decodePrefix(raw[i..]).Some?
  }

  // Whether a candidate is the object decoded at its start.
  ghost predicate IsObject(c: Candidate, raw: string, fences: seq<Fence>, judge: Judge) {
    && ObjectAt(raw, fences, judge, c.start) && c.end == c.start + judge.decodePrefix(raw[c.start..]).value <= |raw|
    && c.text == raw[c.start..c.end] && c.how == BalancedObject
  }

  ghost predicate ObjectBeginsInside(found: seq<Candidate>, i: int) {
    exists c | c in found :: c.start < i < c.end
  }

  // Every balanced candidate is such an object,
  lemma {:induction false} BalancedAreObjects(raw: string, fences: seq<Fence>, judge: Judge, i: nat)
    requires JudgeOK(judge)
    ensures forall c | c in BalancedFrom(raw, fences, judge, i) :: i <= c.start && IsObject(c, raw, fences, judge)
    decreases |raw| - i
  {
    hide InsideFence, JudgeOK, BalancedFrom;
    if i >= |raw| {
      BalancedEnd(raw, fences, judge, i);
    } else {
      BalancedStep(raw, fences, judge, i);
      if ObjectAt(raw, fences, judge, i) {
        BalancedAreObjects(raw, fences, judge, i + judge.decodePrefix(raw[i..]).value);
      } else {
        BalancedAreObjects(raw, fences, judge, i + 1);
      }
    }
  }

  // and every such object is a candidate unless it begins strictly inside one.
  lemma {:induction false} ObjectIsFound(raw: string, fences: seq<Fence>, judge: Judge, i: nat, at: nat)
    requires JudgeOK(judge) && ObjectAt(raw, fences, judge, at) && i <= at
    ensures var found := BalancedFrom(raw, fences, judge, i);
            (exists c | c in found :: c.start == at && IsObject(c, raw, fences, judge)) || ObjectBeginsInside(found, at)
    decreases |raw| - i
  {
    hide InsideFence, JudgeOK, BalancedFrom;
    BalancedStep(raw, fences, judge, i);
    if ObjectAt(raw, fences, judge, i) {
      var n := judge.decodePrefix(raw[i..]).value;
      var first, rest := Candidate(raw[i..i + n], i, i + n, BalancedObject), BalancedFrom(raw, fences, judge, i + n);
      assert first in BalancedFrom(raw, fences, judge, i) && IsObject(first, raw, fences, judge);
      if i + n <= at {
        ObjectIsFound(raw, fences, judge, i + n, at);
        assert forall c | c in rest :: c in BalancedFrom(raw, fences, judge, i);
      }
    } else {
      ObjectIsFound(raw, fences, judge, i + 1, at);
    }
  }

  lemma AtItself(c: Candidate, raw: string, fences: seq<Fence>, i: nat)
    requires c.start == i < c.end <= |raw| && c.text == raw[i..c.end] && !InsideFence(fences, i)
    ensures BalancedAt(c, raw, fences, i)
  {
  }

  // Candidates from j on lie from i on, and start elsewhere than at i.
  lemma BalancedLater(raw: string, fences: seq<Fence>, found: seq<Candidate>, i: nat, j: nat)
    requires i < j && forall c | c in found :: BalancedAt(c, raw, fences, j)
    ensures forall c | c in found :: BalancedAt(c, raw, fences, i) && c.start != i
  {
  }

  lemma FencedShape(raw: string, judge: Judge, c: Candidate)
    requires c in FlatMap(Fences(raw, 0), FencedCandidate(raw, judge))
    ensures InsideFence(Fences(raw, 0), c.start) && c.start < c.end <= |raw|
    ensures IsSpan(c.text, raw)
  {
    hide TrimSpace, Fences, FlatMap, Blank, IsSpan;
    var fences := Fences(raw, 0);
    var i := FlatMapSource(fences, FencedCandidate(raw, judge), c);
    var f := fences[i];
    assert c == Candidate(TrimSpace(raw[f.bodyStart..f.bodyEnd]), f.start, f.end, FencedBlock);
    TrimIsSpan(raw[f.bodyStart..f.bodyEnd]);
    SpanIntro(raw, f.bodyStart, f.bodyEnd);
    SpanTransitive(raw, raw[f.bodyStart..f.bodyEnd], c.text);
  }

  // A fence whose trimmed body decodes is a candidate: that body, with the fence's own bounds,
  lemma FenceIsCandidate(raw: string, judge: Judge, f: Fence)
    requires JudgeOK(judge) && f in Fences(raw, 0)
    requires judge.decode(TrimSpace(raw[f.bodyStart..f.bodyEnd])).Some?
    ensures Candidate(TrimSpace(raw[f.bodyStart..f.bodyEnd]), f.start, f.end, FencedBlock) in Candidates(raw, judge)
  {
    hide TrimSpace, Fences, FlatMap, BalancedFrom, JudgeOK;
    var fences := Fences(raw, 0);
    var i :| 0 <= i < |fences| && fences[i] == f;
    var c := Candidate(TrimSpace(raw[f.bodyStart..f.bodyEnd]), f.start, f.end, FencedBlock);
    assert FencedCandidate(raw, judge)(f) == [c];
    InFlatMap(fences, FencedCandidate(raw, judge), i, c);
  }

  // and every candidate that starts inside a fence is one of these.
  lemma CandidateInFence(raw: string, judge: Judge, c: Candidate) returns (f: Fence)
    requires JudgeOK(judge) && c in Candidates(raw, judge) && InsideFence(Fences(raw, 0), c.start)
    ensures f in Fences(raw, 0) && c.start == f.start && c.end == f.end && c.how == FencedBlock
    ensures c.text == TrimSpace(raw[f.bodyStart..f.bodyEnd]) && judge.decode(c.text).Some?
  {
    hide TrimSpace, Fences, FlatMap, BalancedFrom, JudgeOK, InsideFence;
    var fences := Fences(raw, 0);
    BalancedShape(raw, fences, judge, 0);
    var i := FlatMapSource(fences, FencedCandidate(raw, judge), c);
    f := fences[i];
  }

  // Every operational field is present with its type.
  ghost predicate IsCompleteAnswer(m: Object) {
    !Missing(m) && !WrongType(m)
  }

  lemma FullyTypedIsComplete(m: Object)
    ensures FullyTyped(m) <==> IsCompleteAnswer(m)
  {
    hide TypeOK;
  }

  // So a complete answer in a fence amid prose is never lost.
  lemma FencedAnswerIsFound(raw: string, judge: Judge, f: Fence, r: Option<Extracted>)
    requires JudgeOK(judge) && Extracts(raw, judge, r) && f in Fences(raw, 0)
    requires var m := judge.decode(TrimSpace(raw[f.bodyStart..f.bodyEnd])); m.Some? && IsCompleteAnswer(m.value)
    ensures r.Some?
  {
    hide TrimSpace, Fences, Candidates, Direct, FullyTyped, IsCompleteAnswer;
    FenceIsCandidate(raw, judge, f);
    FullyTypedIsComplete(judge.decode(TrimSpace(raw[f.bodyStart..f.bodyEnd])).value);
  }

  // No two candidates start at the same place, so "starts last" names one.
  lemma StartsDistinct(raw: string, judge: Judge)
    requires JudgeOK(judge)
    ensures Pairwise(Candidates(raw, judge), OtherStart)
  {
    hide TrimSpace, Fences, BalancedFrom;
    var fences := Fences(raw, 0);
    var fenced, balanced := FlatMap(fences, FencedCandidate(raw, judge)), BalancedFrom(raw, fences, judge, 0);
    PairwiseFlatMap(fences, FencedCandidate(raw, judge), OtherStart);
    BalancedShape(raw, fences, judge, 0);
    forall c, d | c in fenced && d in balanced ensures OtherStart(c, d) {
      FencedShape(raw, judge, c);
    }
    PairwiseConcat(fenced, balanced, OtherStart);
  }

  // ----- the scan -----

  method ScanFenced(raw: string, fences: seq<Fence>, judge: Judge) returns (found: seq<Candidate>)
    requires forall k | 0 <= k < |fences| :: fences[k].bodyStart <= fences[k].bodyEnd <= |raw|
    ensures found == FlatMap(fences, FencedCandidate(raw, judge))
  {
    hide TrimSpace;
    found := [];
    ghost var f := FencedCandidate(raw, judge);
    for i := 0 to |fences|
      invariant found == FlatMap(fences[..i], f)
    {
      FlatMapNext(fences, f, i);
      var body := TrimSpace(raw[fences[i].bodyStart..fences[i].bodyEnd]);
      if judge.decode(body).Some? {
        found := found + [Candidate(body, fences[i].start, fences[i].end, FencedBlock)];
      }
    }
    assert fences[..|fences|] == fences;
  }

  method ScanBalanced(raw: string, fences: seq<Fence>, judge: Judge) returns (found: seq<Candidate>)
    requires JudgeOK(judge)
    ensures found == BalancedFrom(raw, fences, judge, 0)
  {
    hide InsideFence, BalancedFrom, JudgeOK;
    found := [];
    var i := 0;
    while i < |raw|
      invariant BalancedFrom(raw, fences, judge, 0) == found + BalancedFrom(raw, fences, judge, i)
      decreases |raw| - i
    {
      BalancedStep(raw, fences, judge, i);
      if raw[i] != '{' || InsideFence(fences, i) {
        i := i + 1;
        continue;
      }
      var consumed := judge.decodePrefix(raw[i..]);
      if consumed.None? {
        i := i + 1;
        continue;
      }
      found := found + [Candidate(raw[i..i + consumed.value], i, i + consumed.value, BalancedObject)];
      i := i + consumed.value;
    }
    BalancedEnd(raw, fences, judge, i);
  }

  lemma BalancedStep(raw: string, fences: seq<Fence>, judge: Judge, i: nat)
    requires JudgeOK(judge) && i < |raw|
    ensures raw[i] != '{' || InsideFence(fences, i) || judge.decodePrefix(raw[i..]).None? ==>
              BalancedFrom(raw, fences, judge, i) == BalancedFrom(raw, fences, judge, i + 1)
    ensures judge.decodePrefix(raw[i..]).Some? ==> 1 <= judge.decodePrefix(raw[i..]).value <= |raw| - i
    ensures raw[i] == '{' && !InsideFence(fences, i) && judge.decodePrefix(raw[i..]).Some? ==>
              var n := judge.decodePrefix(raw[i..]).value;
              BalancedFrom(raw, fences, judge, i) ==
                [Candidate(raw[i..i + n], i, i + n, BalancedObject)] + BalancedFrom(raw, fences, judge, i + n)
  {
    hide InsideFence;
  }

  lemma BalancedEnd(raw: string, fences: seq<Fence>, judge: Judge, i: nat)
    requires JudgeOK(judge) && |raw| <= i
    ensures BalancedFrom(raw, fences, judge, i) == []
  {
  }

  method ScanCandidates(raw: string, judge: Judge) returns (cands: array<Candidate>)
    requires JudgeOK(judge)
    ensures fresh(cands)
    ensures multiset(cands[..]) == multiset(Candidates(raw, judge))
    ensures SortedBelow(cands[..], cands.Length)
  {
    hide Fences, FlatMap, BalancedFrom;
    var fences := Fences(raw, 0);
    var fenced := ScanFenced(raw, fences, judge);
    var balanced := ScanBalanced(raw, fences, judge);
    var found := fenced + balanced;
    cands := new Candidate[|found|](k requires 0 <= k < |found| => found[k]);
    assert cands[..] == found;
    SortByStart(cands);
  }

  ghost predicate SortedBelow(s: seq<Candidate>, n: int) {
    forall i, j | 0 <= i < j < n <= |s| :: s[i].start <= s[j].start
  }

  // Sorted below n once the entry at hole is left out.
  ghost predicate SortedExcept(s: seq<Candidate>, n: nat, hole: nat) {
    && hole < n <= |s|
    && forall i, j | 0 <= i < j < n && i != hole && j != hole :: s[i].start <= s[j].start
  }

  // Nothing between the hole and n starts before the entry at hole.
  ghost predicate FirstFrom(s: seq<Candidate>, n: nat, hole: nat) {
    hole < n <= |s| && forall k | hole < k < n :: s[hole].start <= s[k].start
  }

  function Swapped(s: seq<Candidate>, j: nat): seq<Candidate>
    requires 0 < j < |s|
  {
    s[j := s[j - 1]][j - 1 := s[j]]
  }

  lemma OpenHole(s: seq<Candidate>, i: nat)
    requires i < |s| && SortedBelow(s, i)
    ensures SortedExcept(s, i + 1, i) && FirstFrom(s, i + 1, i)
  {
  }

  lemma SwapKeeps(s: seq<Candidate>, n: nat, j: nat)
    requires 0 < j && SortedExcept(s, n, j) && FirstFrom(s, n, j) && s[j].start < s[j - 1].start
    ensures multiset(Swapped(s, j)) == multiset(s)
    ensures SortedExcept(Swapped(s, j), n, j - 1) && FirstFrom(Swapped(s, j), n, j - 1)
  {
  }

  // In-place insertion sort by start.
  method SortByStart(a: array<Candidate>)
    modifies a
    ensures multiset(a[..]) == multiset(old(a[..]))
    ensures SortedBelow(a[..], a.Length)
  {
    if a.Length == 0 {
      return;
    }
    for i := 1 to a.Length
      invariant multiset(a[..]) == multiset(old(a[..]))
      invariant SortedBelow(a[..], i)
    {
      Sink(a, i);
    }
  }

  method Sink(a: array<Candidate>, i: nat)
    requires 0 < i < a.Length && SortedBelow(a[..], i)
    modifies a
    ensures multiset(a[..]) == multiset(old(a[..]))
    ensures SortedBelow(a[..], i + 1)
  {
    hide SortedBelow, SortedExcept, FirstFrom, Swapped;
    var j := i;
    OpenHole(a[..], i);
    while j > 0 && a[j].start < a[j - 1].start
      invariant 0 <= j <= i && SortedExcept(a[..], i + 1, j) && FirstFrom(a[..], i + 1, j)
      invariant multiset(a[..]) == multiset(old(a[..]))
    {
      SwapKeeps(a[..], i + 1, j);
      SwapStep(a, j);
      j := j - 1;
    }
    HoleFits(a[..], i + 1, j);
  }

  method SwapStep(a: array<Candidate>, j: nat)
    requires 0 < j < a.Length
    modifies a
    ensures a[..] == Swapped(old(a[..]), j)
  {
    a[j], a[j - 1] := a[j - 1], a[j];
  }

  lemma HoleFits(s: seq<Candidate>, n: nat, j: nat)
    requires SortedExcept(s, n, j) && FirstFrom(s, n, j) && (j > 0 ==> s[j - 1].start <= s[j].start)
    ensures SortedBelow(s, n)
  {
  }

  // ----- extraction -----

  function Direct(raw: string, judge: Judge): Option<Extracted> {
    var trimmed := TrimSpace(raw);
    var stripped := TrimSpace(StripFences(trimmed));
    var m, m' := judge.decode(trimmed), judge.decode(stripped);
    if m.Some? && HasOperational(m.value) then Some(Extracted(trimmed, "", DirectObject))
    else if stripped != trimmed && m'.Some? && HasOperational(m'.value) then Some(Extracted(stripped, "", OuterFence))
    else None
  }

  function NonFinalAround(raw: string, c: Candidate): string
    requires c.start <= c.end <= |raw|
  {
    var before, after := TrimSpace(raw[..c.start]), TrimSpace(raw[c.end..]);
    if before == "" then after else if after == "" then before else before + "\n" + after
  }

  // What extraction yields: the whole input if that is an answer, else the acceptable
  // embedded object that starts last, else nothing.
  ghost predicate Extracts(raw: string, judge: Judge, r: Option<Extracted>)
    requires JudgeOK(judge)
  {
    var cands := Candidates(raw, judge);
    if Direct(raw, judge).Some? then r == Direct(raw, judge)
    else if r.None? then NoneAcceptable(cands, judge)
    else exists c :: && IsBest(cands, judge, c) && c.start <= c.end <= |raw|
                     && r.value == Extracted(c.text, NonFinalAround(raw, c), c.how)
  }

  method ExtractFinal(raw: string, judge: Judge) returns (r: Option<Extracted>)
    requires JudgeOK(judge)
    ensures Extracts(raw, judge, r)
  {
    hide TrimSpace, StripFences, HasOperational, FullyTyped, Candidates;
    var trimmed := TrimSpace(raw);
    var m := judge.decode(trimmed);
    if m.Some? && HasOperational(m.value) {
      return Some(Extracted(trimmed, "", DirectObject));
    }
    var stripped := TrimSpace(StripFences(trimmed));
    if stripped != trimmed {
      m := judge.decode(stripped);
      if m.Some? && HasOperational(m.value) {
        return Some(Extracted(stripped, "", OuterFence));
      }
    }
    var cands := ScanCandidates(raw, judge);
    ghost var all := Candidates(raw, judge);
    var i := cands.Length;
    while i > 0
      invariant 0 <= i <= cands.Length
      invariant forall k | i <= k < cands.Length :: !Acceptable(cands[k], judge)
    {
      i := i - 1;
      var c := cands[i];
      if Acceptable(c, judge) {
        LastIsBest(cands[..], all, judge, i);
        CandidateInside(raw, judge, c);
        return Some(Extracted(c.text, NonFinalAround(raw, c), c.how));
      }
    }
    NoneIn(cands[..], all, judge);
    return None;
  }

  lemma LastIsBest(s: seq<Candidate>, all: seq<Candidate>, judge: Judge, i: nat)
    requires multiset(s) == multiset(all) && i < |s| && Acceptable(s[i], judge)
    requires SortedBelow(s, |s|)
    requires forall k | i < k < |s| :: !Acceptable(s[k], judge)
    ensures IsBest(all, judge, s[i])
  {
    hide Acceptable;
    assert s[i] in multiset(all);
    forall d | d in all && Acceptable(d, judge) ensures d.start <= s[i].start {
      assert d in multiset(s);
      var k := IndexOf(s, d);
    }
  }

  lemma NoneIn(s: seq<Candidate>, all: seq<Candidate>, judge: Judge)
    requires multiset(s) == multiset(all) && forall k | 0 <= k < |s| :: !Acceptable(s[k], judge)
    ensures NoneAcceptable(all, judge)
  {
    hide Acceptable;
    forall c | c in all ensures !Acceptable(c, judge) {
      assert c in multiset(s);
      var k := IndexOf(s, c);
    }
  }

  lemma CandidateInside(raw: string, judge: Judge, c: Candidate)
    requires JudgeOK(judge) && c in Candidates(raw, judge)
    ensures c.start < c.end <= |raw| && IsSpan(c.text, raw)
  {
    var fences := Fences(raw, 0);
    if c in FlatMap(fences, FencedCandidate(raw, judge)) {
      FencedShape(raw, judge, c);
    } else {
      BalancedShape(raw, fences, judge, 0);
    }
  }

  // ----- what follows -----

  // Extraction has one answer.
  lemma ExtractionIsUnique(raw: string, judge: Judge, r: Option<Extracted>, r': Option<Extracted>)
    requires JudgeOK(judge) && Extracts(raw, judge, r) && Extracts(raw, judge, r')
    ensures r == r'
  {
    hide Candidates, Acceptable, Direct;
    var cands := Candidates(raw, judge);
    StartsDistinct(raw, judge);
    forall c, d | IsBest(cands, judge, c) && IsBest(cands, judge, d) ensures c == d {
      BestIsUnique(cands, judge, c, d);
    }
  }

  lemma BestIsUnique(cands: seq<Candidate>, judge: Judge, c: Candidate, d: Candidate)
    requires Pairwise(cands, OtherStart) && IsBest(cands, judge, c) && IsBest(cands, judge, d)
    ensures c == d
  {
  }

  // Extraction selects and never builds: the final text is a contiguous part of the raw
  // output and decodes as one object with operational fields.
  lemma FinalIsSpan(raw: string, judge: Judge, r: Option<Extracted>)
    requires JudgeOK(judge) && Extracts(raw, judge, r) && r.Some?
    ensures IsSpan(r.value.final, raw)
    ensures judge.decode(r.value.final).Some? && HasOperational(judge.decode(r.value.final).value)
  {
    hide Candidates, TypeOK, TrimSpace, StripFences, NonFinalAround, IsSpan;
    if Direct(raw, judge).Some? {
      DirectIsSpan(raw, judge);
    } else {
      var c :| && IsBest(Candidates(raw, judge), judge, c) && c.start <= c.end <= |raw|
               && r.value == Extracted(c.text, NonFinalAround(raw, c), c.how);
      CandidateInside(raw, judge, c);
      assert OPERATIONAL[0] in judge.decode(c.text).value;
    }
  }

  lemma StripIsSpan(s: string) returns (lo: nat, hi: nat)
    ensures lo <= hi <= |s| && StripFences(s) == s[lo..hi]
  {
    hide StripOpenFence, StripCloseFence;
    var t := StripOpenFence(s);
    OpenFenceLeavesTail(s);
    lo := |s| - |t|;
    hi := lo + |StripCloseFence(t)|;
    SliceOfSlice(s, lo, |StripCloseFence(t)|);
  }

  lemma SpanOfSpan(s: string, lo: nat, hi: nat, lo': nat, hi': nat)
    requires lo <= hi <= |s| && lo' <= hi' <= hi - lo
    ensures s[lo..hi][lo'..hi'] == s[lo + lo'..lo + hi']
  {
    var t, u := s[lo..hi][lo'..hi'], s[lo + lo'..lo + hi'];
    assert |t| == |u|;
    forall i | 0 <= i < |t| ensures t[i] == u[i] {
      assert t[i] == s[lo..hi][lo' + i] == s[lo + lo' + i];
    }
  }

  lemma TrimIsSpan(s: string)
    ensures IsSpan(TrimSpace(s), s)
  {
    hide TrimSpace, Blank;
    var lo, hi := TrimSpaceIsSpan(s);
    SpanIntro(s, lo, hi);
  }

  lemma StrippedIsSpan(s: string)
    ensures IsSpan(StripFences(s), s)
  {
    hide StripFences;
    var lo, hi := StripIsSpan(s);
    SpanIntro(s, lo, hi);
  }

  lemma SpanTransitive(s: string, t: string, u: string)
    requires IsSpan(u, t) && IsSpan(t, s)
    ensures IsSpan(u, s)
  {
    var lo: nat, hi: nat :| lo <= hi <= |s| && t == s[lo..hi];
    var lo': nat, hi': nat :| lo' <= hi' <= |t| && u == t[lo'..hi'];
    SpanOfSpan(s, lo, hi, lo', hi');
    SpanIntro(s, lo + lo', lo + hi');
  }

  lemma DirectIsSpan(raw: string, judge: Judge)
    requires Direct(raw, judge).Some?
    ensures IsSpan(Direct(raw, judge).value.final, raw)
  {
    hide TrimSpace, StripFences, IsSpan;
    var trimmed := TrimSpace(raw);
    var stripped := StripFences(trimmed);
    TrimIsSpan(raw);
    StrippedIsSpan(trimmed);
    SpanTransitive(raw, trimmed, stripped);
    TrimIsSpan(stripped);
    SpanTransitive(raw, stripped, TrimSpace(stripped));
  }

  // An answer that is not the whole output is complete: every operational field, each of its type.
  lemma EmbeddedIsComplete(raw: string, judge: Judge, r: Extracted)
    requires JudgeOK(judge) && Extracts(raw, judge, Some(r)) && (r.how == FencedBlock || r.how == BalancedObject)
    ensures judge.decode(r.final).Some? && IsCompleteAnswer(judge.decode(r.final).value)
  {
    hide Candidates, TypeOK, TrimSpace, StripFences, NonFinalAround, FullyTyped, IsCompleteAnswer;
    var c :| && IsBest(Candidates(raw, judge), judge, c) && c.start <= c.end <= |raw|
             && r == Extracted(c.text, NonFinalAround(raw, c), c.how);
    FullyTypedIsComplete(judge.decode(c.text).value);
  }

  // An output that is one object with an operational field is the answer as it stands, and so is one wrapped
  // in a fence from end to end.
  lemma WholeAnswerIsFound(raw: string, judge: Judge, r: Option<Extracted>)
    requires JudgeOK(judge) && Extracts(raw, judge, r)
    ensures Operational(TrimSpace(raw), judge) ==> r == Some(Extracted(TrimSpace(raw), "", DirectObject))
    ensures var stripped := TrimSpace(StripFences(TrimSpace(raw)));
            !Operational(TrimSpace(raw), judge) && Operational(stripped, judge) ==>
              r == Some(Extracted(stripped, "", OuterFence))
  {
    hide TrimSpace, StripFences, Candidates, HasOperational;
    var trimmed, stripped := TrimSpace(raw), TrimSpace(StripFences(TrimSpace(raw)));
    OperationalIff(trimmed, judge);
    OperationalIff(stripped, judge);
  }

  lemma OperationalIff(s: string, judge: Judge)
    ensures Operational(s, judge) <==> judge.decode(s).Some? && HasOperational(judge.decode(s).value)
  {
    if judge.decode(s).Some? {
      var m := judge.decode(s).value;
      assert forall i | 0 <= i < |OPERATIONAL| :: OPERATIONAL[i] in OPERATIONAL;
      if name :| name in OPERATIONAL && name in m {
        var i :| 0 <= i < |OPERATIONAL| && OPERATIONAL[i] == name;
      }
    }
  }

  // s decodes as one object with some operational field.
  ghost predicate Operational(s: string, judge: Judge) {
    judge.decode(s).Some? && exists name | name in OPERATIONAL :: name in judge.decode(s).value
  }

  // A body between whole-line fences is what stripping leaves, when it starts and ends with braces.
  lemma FenceStripsOff(body: string)
    requires |body| >= 2 && body[0] == '{' && body[|body| - 1] == '}'
    ensures StripFences("```json\n" + body + "\n```") == body && StripFences(body) == body
  {
    hide StripOpenFence, StripCloseFence;
    OpenStripsOff(body + "\n```");
    assert "```json\n" + body + "\n```" == "```json\n" + (body + "\n```");
    CloseStripsOff(body);
    NoFenceToStrip(body);
  }

  lemma OpenStripsOff(rest: string)
    requires rest != "" && rest[0] == '{'
    ensures StripOpenFence("```json\n" + rest) == rest
  {
    hide SkipLetters, SkipSpaces;
    var s, line := "```json\n" + rest, "json" + ("\n" + rest);
    StartsWithTicks(rest);
    SpacesSkipped("", s);
    assert s[3..] == line;
    LettersSkipped("json", "\n" + rest);
    SpacesSkipped("\n", rest);
  }

  lemma StartsWithTicks(rest: string)
    ensures var s := "```json\n" + rest; HasPrefix(s, "```") && !IsAsciiSpace(s[0]) && "" + s == s
  {
  }

  lemma {:induction false} LettersSkipped(letters: string, rest: string)
    requires forall i | 0 <= i < |letters| :: IsLetter(letters[i])
    requires rest != "" && !IsLetter(rest[0])
    ensures SkipLetters(letters + rest) == rest
  {
    if letters == "" {
      assert letters + rest == rest;
    } else {
      assert (letters + rest)[1..] == letters[1..] + rest;
      LettersSkipped(letters[1..], rest);
    }
  }

  lemma {:induction false} SpacesSkipped(spaces: string, rest: string)
    requires forall i | 0 <= i < |spaces| :: IsAsciiSpace(spaces[i])
    requires rest != "" && !IsAsciiSpace(rest[0])
    ensures SkipSpaces(spaces + rest) == rest
  {
    if spaces == "" {
      assert spaces + rest == rest;
    } else {
      assert (spaces + rest)[1..] == spaces[1..] + rest;
      SpacesSkipped(spaces[1..], rest);
    }
  }

  lemma CloseStripsOff(body: string)
    requires body != "" && body[|body| - 1] == '}'
    ensures StripCloseFence(body + "\n```") == body
  {
    var s := body + "\n```";
    assert s[|s| - 1] == '`' && s[|s| - 3..] == "```" && DropSpacesRight(s) == s && HasSuffix(s, "```");
    var t := s[..|s| - 3];
    assert t == body + "\n" && t[..|t| - 1] == body;
    assert DropSpacesRight(body) == body;
  }

  lemma NoFenceToStrip(body: string)
    requires |body| >= 2 && body[0] == '{' && body[|body| - 1] == '}'
    ensures StripOpenFence(body) == body && StripCloseFence(body) == body
  {
    assert SkipSpaces(body) == body && DropSpacesRight(body) == body;
    assert "```"[0] == '`' && (|body| >= 3 ==> body[|body| - 3..][2] == '}' && "```"[2] == '`');
  }

  // ----- what is left over -----

  function SolidText(s: string): string {
    if s == "" then "" else (if IsSpace(s[0]) then "" else [s[0]]) + SolidText(s[1..])
  }

  lemma {:induction false} SolidConcat(a: string, b: string)
    ensures SolidText(a + b) == SolidText(a) + SolidText(b)
  {
    if a == "" {
      assert a + b == b;
    } else {
      assert (a + b)[1..] == a[1..] + b;
      SolidConcat(a[1..], b);
    }
  }

  lemma {:induction false} BlankIsNotSolid(s: string)
    requires Blank(s)
    ensures SolidText(s) == ""
  {
    if s != "" {
      BlankIsNotSolid(s[1..]);
    }
  }

  lemma TrimKeepsSolid(s: string)
    ensures SolidText(TrimSpace(s)) == SolidText(s)
  {
    hide TrimSpace, Blank, SolidText;
    var lo, hi := TrimSpaceIsSpan(s);
    BlankIsNotSolid(s[..lo]);
    BlankIsNotSolid(s[hi..]);
    assert s == s[..lo] + (s[lo..hi] + s[hi..]);
    SolidConcat(s[..lo], s[lo..hi] + s[hi..]);
    SolidConcat(s[lo..hi], s[hi..]);
  }

  // The remainder is all the output around the answer, in order, white space aside.
  lemma RemainderIsKept(raw: string, c: Candidate)
    requires c.start <= c.end <= |raw|
    ensures SolidText(NonFinalAround(raw, c)) == SolidText(raw[..c.start]) + SolidText(raw[c.end..])
  {
    hide TrimSpace, SolidText;
    var before, after := TrimSpace(raw[..c.start]), TrimSpace(raw[c.end..]);
    TrimKeepsSolid(raw[..c.start]);
    TrimKeepsSolid(raw[c.end..]);
    BlankIsNotSolid("");
    BlankIsNotSolid("\n");
    SolidConcat(before + "\n", after);
    SolidConcat(before, "\n");
  }
}
