/** When one more model call is worth making, and what to tell the model then. */
module Retry {
  import opened Wrappers
  import opened Text
  import opened Permutations
  import opened KnowledgeBase
  import opened Registry
  import opened Media
  import opened Contract
  import opened Extraction

  datatype RetryReason = NoRetry | ContractShape | MediaNotFound

  // Shape problems win over media problems.
  ghost function ReasonFor(ext: Option<Extracted>, req: Request, judge: Judge): RetryReason {
    if ext.None? || NoResponse(ext.value.final, judge)
        || !ShapeClean(Decoded(ext.value.final, judge).value) then ContractShape
    else if !AllResolve(ResponseOf(ext.value.final, req, judge).mediaFilesToSend, req.kb, req.media) then MediaNotFound
    else NoRetry
  }

  ghost predicate Classifies(raw: string, req: Request, judge: Judge, reason: RetryReason)
    requires JudgeOK(judge)
  {
    exists ext :: Extracts(raw, judge, ext) && reason == ReasonFor(ext, req, judge)
  }

  method HasAnyCode(issues: seq<Issue>, codes: set<Code>) returns (found: bool)
    ensures found <==> HasCode(issues, codes)
  {
    for i := 0 to |issues|
      invariant !HasCode(issues[..i], codes)
    {
      if issues[i].code in codes {
        return true;
      }
    }
    assert issues[..|issues|] == issues;
    return false;
  }

  method ClassifyRetry(raw: string, req: Request, judge: Judge) returns (reason: RetryReason)
    requires JudgeOK(judge)
    ensures Classifies(raw, req, judge, reason)
  {
    hide JudgeOK, Extracts, NoResponse, ShapeClean, ResponseOf, Clean, HasCode, AllResolve, MediaKnown, Decoded;
    var ext := ExtractFinal(raw, judge);
    if ext.None? {
      return ContractShape;
    }
    var resp, issues := ValidateResponse(ext.value.final, req, judge);
    if resp.None? {
      return ContractShape;
    }
    var shape := HasAnyCode(issues, SHAPE_CODES);
    if shape {
      return ContractShape;
    }
    var unknown := HasAnyCode(issues, {UnknownMediaToken});
    if unknown {
      UnknownDoesNotResolve(resp.value.mediaFilesToSend, req);
      return MediaNotFound;
    }
    if |resp.value.mediaFilesToSend| > 0 {
      var sent := ResolveSend(resp.value.mediaFilesToSend, req.kb, req.media);
      if sent.Failure? {
        return MediaNotFound;
      }
    } else {
      NothingResolves(req);
    }
    return NoRetry;
  }

  lemma UnknownDoesNotResolve(tokens: seq<string>, req: Request)
    requires !MediaKnown(tokens, req.media)
    ensures !AllResolve(tokens, req.kb, req.media)
  {
  }

  lemma NothingResolves(req: Request)
    ensures AllResolve([], req.kb, req.media)
  {
  }

  // ----- feedback -----

  function BadToken(kb: KB, media: seq<MediaEntry>): string -> seq<string> {
    token => if TokenIDs(token, kb, media).Failure? then [token] else []
  }

  // Every requested token that does not resolve on its own, in order.
  function BadTokens(tokens: seq<string>, kb: KB, media: seq<MediaEntry>): seq<string> {
    FlatMap(tokens, BadToken(kb, media))
  }

  const FEEDBACK_BEFORE :=
    "\n\nВАЖНО — медиа не найдено, исправь и попробуй снова: в предыдущем ответе поле \"media_files_to_send\" "
    + "содержало значения, для которых сейчас нет медиафайла: "
  const FEEDBACK_AFTER :=
    ". Скопируй нужный токен ТОЧНО из блока товара или темы выше — не изменяй, не сокращай и не придумывай "
    + "новый; если подходящего медиа действительно нет, верни пустой список."

  function FeedbackText(bad: seq<string>): string {
    FEEDBACK_BEFORE + Join(bad, ", ") + FEEDBACK_AFTER
  }

  // The names occur in the text one after another, none overlapping another.
  ghost predicate NamesInOrder(text: string, names: seq<string>) {
    names != [] ==>
      exists i: nat :: && NameAt(text, i, names[0]) && NamesInOrder(text[i + |names[0]|..], names[1..])
  }

  predicate NameAt(text: string, i: nat, name: string) {
    i + |name| <= |text| && text[i..i + |name|] == name
  }

  lemma {:induction false} JoinNamesAll(names: seq<string>, sep: string, before: string, after: string)
    ensures NamesInOrder(before + Join(names, sep) + after, names)
  {
    if names != [] {
      var rest := names[1..];
      var gap := if rest == [] then "" else sep;
      JoinNamesAll(rest, sep, gap, after);
      JoinHead(names, sep, before, after);
      NameBetween(before, names[0], gap + Join(rest, sep) + after);
    }
  }

  lemma JoinHead(names: seq<string>, sep: string, before: string, after: string)
    requires names != []
    ensures var gap := if names[1..] == [] then "" else sep;
            before + Join(names, sep) + after == before + names[0] + (gap + Join(names[1..], sep) + after)
  {
    var gap := if names[1..] == [] then "" else sep;
    assert Join(names, sep) == names[0] + (gap + Join(names[1..], sep));
  }

  lemma NameBetween(before: string, name: string, tail: string)
    ensures NameAt(before + name + tail, |before|, name) && (before + name + tail)[|before| + |name|..] == tail
  {
  }

  // Each of the names is in the text.
  lemma {:induction false} NamesAreContained(text: string, names: seq<string>)
    requires NamesInOrder(text, names)
    ensures forall name | name in names :: ContainsText(text, name)
  {
    if names != [] {
      var i: nat :| NameAt(text, i, names[0]) && NamesInOrder(text[i + |names[0]|..], names[1..]);
      var rest := text[i + |names[0]|..];
      NamesAreContained(rest, names[1..]);
      forall name | name in names ensures ContainsText(text, name) {
        if name == names[0] {
          assert name <= text[i..];
        } else {
          assert name in names[1..];
          var k :| 0 <= k <= |rest| && name <= rest[k..];
          assert text[i + |names[0]| + k..] == rest[k..];
        }
      }
    }
  }

  // A list fails exactly when some token on it fails alone, so there is always one to name.
  lemma SomeTokenIsBad(tokens: seq<string>, kb: KB, media: seq<MediaEntry>)
    ensures AllResolve(tokens, kb, media) <==> BadTokens(tokens, kb, media) == []
    ensures forall token :: token in BadTokens(tokens, kb, media) <==>
              token in tokens && !AllResolve([token], kb, media)
  {
    hide TokenIDs, FlatMap;
    var f := BadToken(kb, media);
    forall token | token in BadTokens(tokens, kb, media) ensures token in tokens && !AllResolve([token], kb, media) {
      var i := FlatMapSource(tokens, f, token);
      assert [token][0] == token;
    }
    forall token | token in tokens && !AllResolve([token], kb, media) ensures token in BadTokens(tokens, kb, media) {
      var i :| 0 <= i < |tokens| && tokens[i] == token;
      InFlatMap(tokens, f, i, token);
    }
    if !AllResolve(tokens, kb, media) {
      var i :| 0 <= i < |tokens| && TokenIDs(tokens[i], kb, media).Failure?;
      InFlatMap(tokens, f, i, tokens[i]);
    }
    if BadTokens(tokens, kb, media) != [] {
      var token := BadTokens(tokens, kb, media)[0];
      var i := FlatMapSource(tokens, f, token);
    }
  }

  // The corrective text for a media retry; empty for every other output.
  ghost predicate IsFeedback(raw: string, req: Request, judge: Judge, text: string)
    requires JudgeOK(judge)
  {
    exists ext :: && Extracts(raw, judge, ext)
      && if ReasonFor(ext, req, judge) != MediaNotFound then text == ""
         else var bad := BadTokens(ResponseOf(ext.value.final, req, judge).mediaFilesToSend, req.kb, req.media);
              && bad != [] && text == FeedbackText(bad) && NamesInOrder(text, bad)
              && forall token | token in ResponseOf(ext.value.final, req, judge).mediaFilesToSend
                                && !AllResolve([token], req.kb, req.media) :: ContainsText(text, token)
  }

  method RetryFeedback(raw: string, req: Request, judge: Judge) returns (text: string)
    requires JudgeOK(judge)
    ensures IsFeedback(raw, req, judge, text)
  {
    hide JudgeOK, Extracts, NoResponse, ShapeClean, ResponseOf, Clean, AllResolve, Decoded, BadTokens, ReasonFor,
         FeedbackText, HasCode, MediaKnown, NamesInOrder, ContainsText;
    var reason := ClassifyRetry(raw, req, judge);
    var ext := ExtractFinal(raw, judge);
    ghost var ext' :| Extracts(raw, judge, ext') && reason == ReasonFor(ext', req, judge);
    ExtractionIsUnique(raw, judge, ext, ext');
    if reason != MediaNotFound {
      return "";
    }
    MediaNotFoundMeans(ext, req, judge);
    var resp, issues := ValidateResponse(ext.value.final, req, judge);
    var bad := CollectBad(resp.value.mediaFilesToSend, req);
    SomeTokenIsBad(resp.value.mediaFilesToSend, req.kb, req.media);
    FeedbackNames(bad);
    NamesAreContained(FeedbackText(bad), bad);
    return FeedbackText(bad);
  }

  lemma FeedbackNames(bad: seq<string>)
    ensures NamesInOrder(FeedbackText(bad), bad)
  {
    hide FEEDBACK_BEFORE, FEEDBACK_AFTER, NamesInOrder;
    JoinNamesAll(bad, ", ", FEEDBACK_BEFORE, FEEDBACK_AFTER);
  }

  lemma MediaNotFoundMeans(ext: Option<Extracted>, req: Request, judge: Judge)
    requires ReasonFor(ext, req, judge) == MediaNotFound
    ensures ext.Some? && !NoResponse(ext.value.final, judge)
    ensures !AllResolve(ResponseOf(ext.value.final, req, judge).mediaFilesToSend, req.kb, req.media)
  {
  }

  method CollectBad(tokens: seq<string>, req: Request) returns (bad: seq<string>)
    ensures bad == BadTokens(tokens, req.kb, req.media)
  {
    hide TokenIDs;
    ghost var f := BadToken(req.kb, req.media);
    bad := [];
    for i := 0 to |tokens|
      invariant bad == FlatMap(tokens[..i], f)
    {
      FlatMapNext(tokens, f, i);
      assert [tokens[i]][0] == tokens[i];
      if MediaByToken(req.media, tokens[i]).None? {
        UnknownIsBad(tokens[i], req);
        bad := bad + [tokens[i]];
        continue;
      }
      var alone := ResolveSend([tokens[i]], req.kb, req.media);
      if alone.Failure? {
        bad := bad + [tokens[i]];
      }
    }
    assert tokens[..|tokens|] == tokens;
  }

  lemma UnknownIsBad(token: string, req: Request)
    requires MediaByToken(req.media, token).None?
    ensures TokenIDs(token, req.kb, req.media).Failure?
  {
  }
}
