/** Answers written amid a model's prose: which of them an output is read as. */
module Transcripts {
  import opened Wrappers
  import opened Text
  import opened Permutations
  import opened FencedBlocks
  import opened Contract
  import opened Extraction

  // What is found amid other text is a complete answer, and no complete answer starts after it.
  lemma LastAnswerWins(raw: string, judge: Judge, r: Extracted) returns (c: Candidate)
    requires JudgeOK(judge) && Extracts(raw, judge, Some(r)) && (r.how == FencedBlock || r.how == BalancedObject)
    ensures c in Candidates(raw, judge) && c.text == r.final && c.how == r.how
    ensures judge.decode(c.text).Some? && IsCompleteAnswer(judge.decode(c.text).value)
    ensures forall d | d in Candidates(raw, judge) && judge.decode(d.text).Some?
                       && IsCompleteAnswer(judge.decode(d.text).value) :: d.start <= c.start
  {
    hide Candidates, TrimSpace, StripFences, NonFinalAround, FullyTyped, IsCompleteAnswer, HasOperational;
    c :| IsBest(Candidates(raw, judge), judge, c) && r.final == c.text && r.how == c.how;
    forall m ensures FullyTyped(m) <==> IsCompleteAnswer(m) {
      FullyTypedIsComplete(m);
    }
  }

  // ----- a fence as models write it -----

  function Fenced(word: string, body: string): string {
    "```" + word + "\n" + body + "```"
  }

  function FenceOf(before: string, word: string, body: string): Fence {
    var start := |before|;
    var bodyStart := start + 4 + |word|;
    Fence(start, bodyStart, bodyStart + |body|, bodyStart + |body| + 3)
  }

  predicate Word(s: string) {
    forall i | 0 <= i < |s| :: 'a' <= s[i] <= 'z' || 'A' <= s[i] <= 'Z'
  }

  lemma PartsOfFence(before: string, word: string, body: string, after: string)
    ensures var s, f := before + Fenced(word, body) + after, FenceOf(before, word, body);
            && |s| == f.end + |after| && s[f.bodyStart..f.bodyEnd] == body
            && s[f.start..f.start + 3] == "```" && s[f.bodyEnd..f.end] == "```" && s[f.bodyStart - 1] == '\n'
            && (forall i | 0 <= i < |before| :: s[i] == before[i])
            && (forall i | 0 <= i < |word| :: s[f.start + 3 + i] == word[i])
            && (forall i | 0 <= i < |body| :: s[f.bodyStart + i] == body[i])
            && forall i | 0 <= i < |after| :: s[f.end + i] == after[i]
  {
  }

  lemma WrittenFenceIsFence(before: string, word: string, body: string, after: string)
    requires Word(word) && '`' !in body
    ensures IsFence(before + Fenced(word, body) + after, FenceOf(before, word, body))
  {
    hide Fenced;
    var s, f := before + Fenced(word, body) + after, FenceOf(before, word, body);
    PartsOfFence(before, word, body, after);
    forall x | f.start + 3 <= x < f.bodyStart - 1 ensures IsLetter(s[x]) {
      assert s[x] == word[x - f.start - 3];
    }
    assert IsOpening(s, f.start + 3, f.bodyStart - 1, f.bodyStart - 1);
    forall k | f.bodyStart <= k < f.bodyEnd ensures !TicksAt(s, k) {
      assert s[k] == body[k - f.bodyStart] != '`';
      assert k + 3 <= |s| ==> s[k..k + 3][0] == s[k];
    }
  }

  // It is found wherever it follows a text without ticks.
  lemma WrittenFenceIsFound(before: string, word: string, body: string, after: string)
    requires Word(word) && '`' !in body && '`' !in before
    ensures FenceOf(before, word, body) in Fences(before + Fenced(word, body) + after, 0)
  {
    hide Fenced, IsFence, Fences, FenceOf;
    var s, f := before + Fenced(word, body) + after, FenceOf(before, word, body);
    WrittenFenceIsFence(before, word, body, after);
    FenceIsFound(s, 0, f);
    FencesAreFences(s, 0);
    if BeginsInside(Fences(s, 0), f.start) {
      var k :| 0 <= k < |Fences(s, 0)| && Fences(s, 0)[k].start < f.start < Fences(s, 0)[k].end;
      NoFenceBefore(before, word, body, after, Fences(s, 0)[k]);
    }
  }

  lemma NoFenceBefore(before: string, word: string, body: string, after: string, g: Fence)
    requires '`' !in before && IsFence(before + Fenced(word, body) + after, g)
    ensures g.start >= FenceOf(before, word, body).start
  {
    hide Fenced, HasOpening;
    var s := before + Fenced(word, body) + after;
    PartsOfFence(before, word, body, after);
    assert s[g.start..g.start + 3][0] == s[g.start];
    assert forall i | 0 <= i < |before| :: s[i] == before[i] && before[i] in before;
  }

  // A complete answer in a fence, with no ticks before it and nothing but plain words after it, is the answer,
  // unless the whole output is one.
  lemma FencedAnswerIsRead(before: string, word: string, body: string, after: string, judge: Judge,
                           r: Option<Extracted>)
    requires Word(word) && '`' !in body && '`' !in before && '`' !in after && '{' !in after
    requires JudgeOK(judge) && Extracts(before + Fenced(word, body) + after, judge, r)
    requires var m := judge.decode(TrimSpace(body)); m.Some? && IsCompleteAnswer(m.value)
    ensures r.Some?
    ensures r.value.how == FencedBlock || r.value.how == BalancedObject ==>
              r.value.final == TrimSpace(body) && r.value.how == FencedBlock
  {
    hide Fenced, FenceOf, IsFence, Fences, Candidates, TrimSpace, Extracts, IsCompleteAnswer;
    var s, f := before + Fenced(word, body) + after, FenceOf(before, word, body);
    WrittenFenceIsFound(before, word, body, after);
    BodyOf(before, word, body, after);
    FencedAnswerIsFound(s, judge, f, r);
    FenceIsCandidate(s, judge, f);
    if r.value.how == FencedBlock || r.value.how == BalancedObject {
      var c := LastAnswerWins(s, judge, r.value);
      var mine := Candidate(TrimSpace(body), f.start, f.end, FencedBlock);
      NothingStartsAfter(before, word, body, after, judge, c);
      assert c.start == f.start;
      StartsDistinct(s, judge);
      SameStart(Candidates(s, judge), c, mine);
    }
  }

  lemma BodyOf(before: string, word: string, body: string, after: string)
    ensures var s, f := before + Fenced(word, body) + after, FenceOf(before, word, body);
            f.bodyStart <= f.bodyEnd <= |s| && s[f.bodyStart..f.bodyEnd] == body
  {
    PartsOfFence(before, word, body, after);
  }

  lemma SameStart(cands: seq<Candidate>, c: Candidate, d: Candidate)
    requires Pairwise(cands, OtherStart) && c in cands && d in cands && c.start == d.start
    ensures c == d
  {
    var i :| 0 <= i < |cands| && cands[i] == c;
    var j :| 0 <= j < |cands| && cands[j] == d;
    StartsDiffer(cands);
  }

  lemma StartsDiffer(cands: seq<Candidate>)
    requires Pairwise(cands, OtherStart)
    ensures forall i, j | 0 <= i < j < |cands| :: cands[i].start != cands[j].start
  {
    forall i, j | 0 <= i < j < |cands| ensures cands[i].start != cands[j].start {
      assert OtherStart(cands[i], cands[j]);
    }
  }

  // A candidate starts at ticks or at a brace, and no other starts within a fence.
  lemma StartsAtMark(raw: string, judge: Judge, c: Candidate)
    requires JudgeOK(judge) && c in Candidates(raw, judge)
    ensures c.start < |raw| && (raw[c.start] == '`' || raw[c.start] == '{')
    ensures forall f | f in Fences(raw, 0) :: !(f.start < c.start < f.end)
  {
    hide Fences, Candidates, IsFence, TrimSpace;
    var fences := Fences(raw, 0);
    if InsideFence(fences, c.start) {
      var g := CandidateInFence(raw, judge, c);
      FenceTicks(raw, g);
      FencesApart(raw, g);
    } else {
      OutsideIsObject(raw, judge, c);
    }
  }

  lemma FenceTicks(raw: string, g: Fence)
    requires g in Fences(raw, 0)
    ensures g.start < |raw| && raw[g.start] == '`'
  {
    hide HasOpening, Fences;
    FencesAreFences(raw, 0);
    var k :| 0 <= k < |Fences(raw, 0)| && Fences(raw, 0)[k] == g;
    assert raw[g.start..g.start + 3][0] == raw[g.start];
  }

  lemma FencesApart(raw: string, g: Fence)
    requires g in Fences(raw, 0)
    ensures forall f | f in Fences(raw, 0) :: !(f.start < g.start < f.end)
  {
    hide IsFence;
    var fences := Fences(raw, 0);
    var k :| 0 <= k < |fences| && fences[k] == g;
  }

  lemma OutsideIsObject(raw: string, judge: Judge, c: Candidate)
    requires JudgeOK(judge) && c in Candidates(raw, judge) && !InsideFence(Fences(raw, 0), c.start)
    ensures c.start < |raw| && raw[c.start] == '{'
  {
    hide JudgeOK, Fences, FlatMap, BalancedFrom, InsideFence, FencedCandidate;
    var fences := Fences(raw, 0);
    BalancedAreObjects(raw, fences, judge, 0);
    if c in FlatMap(fences, FencedCandidate(raw, judge)) {
      FencedStartsInside(raw, fences, judge, c);
    }
  }

  lemma FencedStartsInside(raw: string, fences: seq<Fence>, judge: Judge, c: Candidate)
    requires c in FlatMap(fences, FencedCandidate(raw, judge))
    requires forall k | 0 <= k < |fences| :: fences[k].start < fences[k].end
    ensures InsideFence(fences, c.start)
  {
    hide TrimSpace, FlatMap;
    var i := FlatMapSource(fences, FencedCandidate(raw, judge), c);
    assert fences[i].start == c.start;
  }

  lemma NothingStartsAfter(before: string, word: string, body: string, after: string, judge: Judge, c: Candidate)
    requires Word(word) && '`' !in body && '`' !in before && '`' !in after && '{' !in after
    requires JudgeOK(judge) && c in Candidates(before + Fenced(word, body) + after, judge)
    ensures c.start <= FenceOf(before, word, body).start
  {
    hide Fenced, FenceOf, IsFence, Fences, Candidates, Word;
    WrittenFenceIsFound(before, word, body, after);
    StartsAtMark(before + Fenced(word, body) + after, judge, c);
    PlainAfter(before, word, body, after);
  }

  lemma PlainAfter(before: string, word: string, body: string, after: string)
    requires '`' !in after && '{' !in after
    ensures var s, f := before + Fenced(word, body) + after, FenceOf(before, word, body);
            f.start < f.end && forall x | f.end <= x < |s| :: s[x] != '`' && s[x] != '{'
  {
    hide Fenced;
    var s, f := before + Fenced(word, body) + after, FenceOf(before, word, body);
    PartsOfFence(before, word, body, after);
    forall x | f.end <= x < |s| ensures s[x] != '`' && s[x] != '{' {
      assert s[x] == after[x - f.end] && after[x - f.end] in after;
    }
  }
}
