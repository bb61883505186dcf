/** One grounded reply: compile, call, at most one retry, extract, validate, rewrite. */
module Engines {
  import opened Wrappers
  import opened Text
  import opened Placeholders
  import opened KnowledgeBase
  import opened Registry
  import opened Mentions
  import opened Resolver
  import opened Literals
  import opened Media
  import opened Catalogs
  import opened Agreement
  import opened Readback
  import opened MediaCatalog
  import opened Contract
  import opened Extraction
  import opened Retry

  datatype ModelRef = ModelRef(provider: string, model: string)

  datatype Call = Call(model: ModelRef, prompt: string)

  /** The providers: which models resolve, and what each call answers, given every call before it. */
  class Providers {
    const known: ModelRef -> bool
    const answer: (seq<Call>, Call) -> Result<string>
    var calls: seq<Call>

    constructor (known: ModelRef -> bool, answer: (seq<Call>, Call) -> Result<string>)
      ensures this.known == known && this.answer == answer && calls == []
    {
      this.known, this.answer, calls := known, answer, [];
    }

    method Complete(call: Call) returns (r: Result<string>)
      modifies this`calls
      ensures calls == old(calls) + [call] && r == answer(old(calls), call)
    {
      r := answer(calls, call);
      calls := calls + [call];
    }
  }

  datatype LLMParams = LLMParams(defaultModel: ModelRef, visionModel: ModelRef, retryEnabled: bool)

  /** tail is the customer context, history and message that follow the rendered knowledge base. */
  datatype GenerateRequest = GenerateRequest(
    kb: Option<KB>, channel: string, tail: string, hasImage: bool, modelOverride: Option<ModelRef>)

  datatype GenerateResult = GenerateResult(
    finalText: string, replyLanguage: string, escalate: bool, diagnostics: Diagnostics)

  /** Prompt rendering and its leak checks, with everything the contract takes as given. */
  datatype Setup = Setup(
    judge: Judge, folding: Folding,
    render: (KB, seq<FactEntry>, seq<MediaEntry>, string) -> Result<string>)

  // An explicit override wins; an image goes to the vision model when one is configured.
  function ChooseModel(req: GenerateRequest, params: LLMParams): ModelRef {
    if req.modelOverride.Some? then req.modelOverride.value
    else if req.hasImage && params.visionModel.model != "" then params.visionModel
    else params.defaultModel
  }

  function RequestFor(kb: KB): Request {
    Request(kb, CompiledFacts(kb), CompiledMedia(kb))
  }

  // The accepted reading of a raw output: clean, and needing no retry.
  ghost predicate Grounds(raw: string, req: Request, judge: Judge, resp: Response)
    requires JudgeOK(judge)
  {
    exists ext ::
      && Extracts(raw, judge, Some(ext)) && ReasonFor(Some(ext), req, judge) == NoRetry
      && Clean(ext.final, req, judge) && resp == ResponseOf(ext.final, req, judge)
  }

  ghost predicate RewritesClean(resp: Response, req: Request) {
    !HasBrace(Rewritten(resp.replyText, req.kb, req.facts, resp.replyLanguage))
  }

  ghost predicate Yields(resp: Response, req: Request, r: GenerateResult) {
    && r.finalText == Rewritten(resp.replyText, req.kb, req.facts, resp.replyLanguage)
    && r.replyLanguage == resp.replyLanguage && r.escalate == resp.escalate && r.diagnostics == resp.diagnostics
  }

  // What one raw output comes to: its accepted reading rewritten, or an error.
  ghost predicate Judged(raw: string, req: Request, judge: Judge, r: Result<GenerateResult>)
    requires JudgeOK(judge)
  {
    if r.Success? then
      exists resp :: Grounds(raw, req, judge, resp) && RewritesClean(resp, req) && Yields(resp, req, r.value)
    else forall resp :: Grounds(raw, req, judge, resp) ==> !RewritesClean(resp, req)
  }

  method Judgement(raw: string, req: Request, judge: Judge) returns (r: Result<GenerateResult>)
    requires JudgeOK(judge)
    ensures Judged(raw, req, judge, r)
  {
    hide JudgeOK, Extracts, NoResponse, ResponseOf, Clean, AllResolve, Decoded, ShapeClean, SlotsResolve, HasCode,
         MediaKnown, Rewritten, HasBrace, ReasonFor, Grounds;
    var ext := ExtractFinal(raw, judge);
    if ext.None? {
      NotGrounded(raw, req, judge, ext);
      return Failure("model output has no extractable final answer");
    }
    var resp, issues := ValidateResponse(ext.value.final, req, judge);
    if resp.None? {
      NotGrounded(raw, req, judge, ext);
      return Failure("response fails the contract shape");
    }
    if |issues| > 0 {
      NotGrounded(raw, req, judge, ext);
      return Failure("response fails validation");
    }
    var finalText := SubstituteFacts(resp.value.replyText, req.kb, req.facts, resp.value.replyLanguage);
    CleanResolves(ext.value, req, judge);
    if finalText.Failure? {
      OnlyReading(raw, req, judge, ext.value);
      return Failure(finalText.error);
    }
    var sent := ResolveSend(resp.value.mediaFilesToSend, req.kb, req.media);
    if sent.Failure? {
      NotGrounded(raw, req, judge, ext);
      return Failure(sent.error);
    }
    CleanGrounds(raw, req, judge, ext.value);
    return Success(GenerateResult(
                     finalText.value, resp.value.replyLanguage, resp.value.escalate, resp.value.diagnostics));
  }

  lemma NotGrounded(raw: string, req: Request, judge: Judge, ext: Option<Extracted>)
    requires JudgeOK(judge) && Extracts(raw, judge, ext)
    requires || ext.None? || NoResponse(ext.value.final, judge) || !Clean(ext.value.final, req, judge)
             || !AllResolve(ResponseOf(ext.value.final, req, judge).mediaFilesToSend, req.kb, req.media)
    ensures forall resp :: !Grounds(raw, req, judge, resp)
  {
    hide JudgeOK, Extracts, WrongType, ResponseOf, Clean, AllResolve, Decoded, ShapeClean;
    forall resp | Grounds(raw, req, judge, resp) ensures false {
      var ext' :| && Extracts(raw, judge, Some(ext')) && ReasonFor(Some(ext'), req, judge) == NoRetry
                  && Clean(ext'.final, req, judge) && resp == ResponseOf(ext'.final, req, judge);
      ExtractionIsUnique(raw, judge, ext, Some(ext'));
    }
  }

  // There is only one reading of a raw output.
  lemma OnlyReading(raw: string, req: Request, judge: Judge, ext: Extracted)
    requires JudgeOK(judge) && Extracts(raw, judge, Some(ext)) && !NoResponse(ext.final, judge)
    ensures forall resp :: Grounds(raw, req, judge, resp) ==> resp == ResponseOf(ext.final, req, judge)
  {
    hide JudgeOK, Extracts, WrongType, ResponseOf, Clean, AllResolve, Decoded, ShapeClean;
    forall resp | Grounds(raw, req, judge, resp) ensures resp == ResponseOf(ext.final, req, judge) {
      var ext' :| && Extracts(raw, judge, Some(ext')) && ReasonFor(Some(ext'), req, judge) == NoRetry
                  && Clean(ext'.final, req, judge) && resp == ResponseOf(ext'.final, req, judge);
      ExtractionIsUnique(raw, judge, Some(ext), Some(ext'));
    }
  }

  lemma CleanResolves(ext: Extracted, req: Request, judge: Judge)
    requires !NoResponse(ext.final, judge) && Clean(ext.final, req, judge)
    ensures var resp := ResponseOf(ext.final, req, judge);
            SlotsResolve(resp.replyText, req.kb, req.facts, resp.replyLanguage)
  {
    hide WrongType, ShapeClean, MediaKnown, GateClean, Decoded;
    var resp := ResponseOf(ext.final, req, judge);
    GateImpliesRewrite(resp.replyText, req.kb, req.facts, req.media, resp.replyLanguage, judge);
  }

  lemma CleanGrounds(raw: string, req: Request, judge: Judge, ext: Extracted)
    requires JudgeOK(judge) && Extracts(raw, judge, Some(ext))
    requires !NoResponse(ext.final, judge) && Clean(ext.final, req, judge)
    requires AllResolve(ResponseOf(ext.final, req, judge).mediaFilesToSend, req.kb, req.media)
    ensures Grounds(raw, req, judge, ResponseOf(ext.final, req, judge))
  {
    hide JudgeOK, Extracts, WrongType, MediaKnown, GateClean, Decoded, AllResolve;
  }

  // ----- the engine -----

  // The calls of one generation and the answer they end with: the prompt once, and once more with feedback
  // exactly when the first answer asks for a retry and retries are on.
  ghost predicate CallsMade(made: seq<Call>, r: Result<string>, p: Providers, before: seq<Call>, first: Call,
                            req: Request, judge: Judge, retryEnabled: bool)
    requires JudgeOK(judge)
  {
    && 1 <= |made| <= 2 && made[0] == first
    && var r0 := p.answer(before, first);
       && (|made| == 2 <==> retryEnabled && r0.Success? && !Classifies(r0.value, req, judge, NoRetry))
       && (|made| == 1 ==> r == r0)
       && (|made| == 2 ==>
             && made[1].model == first.model
             && (exists text :: IsFeedback(r0.value, req, judge, text) && made[1].prompt == first.prompt + text)
             && r == p.answer(before + [first], made[1]))
  }

  class Engine {
    const providers: Providers
    const setup: Setup
    var params: LLMParams
    var status: seq<(string, bool)>  // every completion reported: provider, and whether it succeeded

    constructor (providers: Providers, setup: Setup, params: LLMParams)
      ensures this.providers == providers && this.setup == setup && this.params == params && status == []
    {
      this.providers, this.setup, this.params, status := providers, setup, params, [];
    }

    method Complete(call: Call) returns (r: Result<string>)
      modifies this`status, providers`calls
      ensures providers.calls == old(providers.calls) + [call] && r == providers.answer(old(providers.calls), call)
      ensures status == old(status) + [(call.model.provider, r.Success?)]
    {
      r := providers.Complete(call);
      status := status + [(call.model.provider, r.Success?)];
    }

    // One answer, or a second one when the first is worth retrying.
    method Ask(first: Call, req: Request) returns (r: Result<string>)
      requires JudgeOK(setup.judge)
      modifies this`status, providers`calls
      ensures old(providers.calls) <= providers.calls
      ensures var made := providers.calls[|old(providers.calls)|..];
              && |made| <= 2 && |status| == |old(status)| + |made|
              && CallsMade(made, r, providers, old(providers.calls), first, req, setup.judge, params.retryEnabled)
    {
      hide JudgeOK, Classifies, IsFeedback;
      ghost var before := providers.calls;
      r := Complete(first);
      if r.Failure? {
        assert providers.calls[|before|..] == [first];
        return;
      }
      var raw0 := r.value;
      var reason := ClassifyRetry(raw0, req, setup.judge);
      OneReason(raw0, req, setup.judge, reason);
      if reason != NoRetry && params.retryEnabled {
        var feedback := RetryFeedback(raw0, req, setup.judge);
        var second := Call(first.model, first.prompt + feedback);
        assert providers.calls == before + [first];
        r := Complete(second);
        assert providers.calls[|before|..] == [first, second];
      } else {
        assert providers.calls[|before|..] == [first];
      }
    }

    // For any model output whatsoever: at most two completions, and a result only when the
    // last output has an accepted reading whose rewriting is free of braces.
    method Generate(req: GenerateRequest) returns (r: Result<GenerateResult>)
      requires JudgeOK(setup.judge)
      modifies this`status, providers`calls
      ensures old(providers.calls) <= providers.calls
      ensures |providers.calls| <= |old(providers.calls)| + 2
      ensures |status| - |old(status)| == |providers.calls| - |old(providers.calls)|
      ensures r.Success? ==> req.kb.Some? && Accepted(req.kb.value, setup.judge.folding)
      ensures r.Success? ==>
                GeneratedFrom(providers.calls[|old(providers.calls)|..], providers, old(providers.calls), req, setup,
                              params, r.value)
      ensures r.Failure? ==>
                NothingFrom(providers.calls[|old(providers.calls)|..], providers, old(providers.calls), req, setup,
                            params)
    {
      hide JudgeOK, Accepted, CompiledFacts, CompiledMedia, CallsMade, Judged;
      if req.kb.None? {
        return Failure("knowledge base is required");
      }
      var kb := req.kb.value;
      var cat := BuildCatalog(kb, setup.judge.folding);
      if cat.Failure? {
        return Failure(cat.error);
      }
      var rendered := setup.render(kb, cat.value.facts, cat.value.media, req.channel);
      if rendered.Failure? {
        return Failure(rendered.error);
      }
      var model := ChooseModel(req, params);
      if !providers.known(model) {
        return Failure("resolve model client");
      }
      var request := Request(kb, cat.value.facts, cat.value.media);
      assert request == RequestFor(kb);
      var raw := Ask(Call(model, rendered.value + req.tail), request);
      assert CallsMade(providers.calls[|old(providers.calls)|..], raw, providers, old(providers.calls),
                       Call(ChooseModel(req, params), rendered.value + req.tail), RequestFor(kb), setup.judge,
                       params.retryEnabled);
      if raw.Failure? {
        return Failure(raw.error);
      }
      r := Judgement(raw.value, request, setup.judge);
      assert Judged(raw.value, RequestFor(kb), setup.judge, r);
    }
  }

  // The result is the judgement of the last output of a well-formed exchange.
  ghost predicate GeneratedFrom(made: seq<Call>, p: Providers, before: seq<Call>, req: GenerateRequest, setup: Setup,
                                params: LLMParams, r: GenerateResult)
    requires JudgeOK(setup.judge) && req.kb.Some?
  {
    var kb := req.kb.value;
    var rendered := setup.render(kb, CompiledFacts(kb), CompiledMedia(kb), req.channel);
    && rendered.Success? && p.known(ChooseModel(req, params))
    && exists raw ::
         && CallsMade(made, Success(raw), p, before, Call(ChooseModel(req, params), rendered.value + req.tail),
                      RequestFor(kb), setup.judge, params.retryEnabled)
         && Judged(raw, RequestFor(kb), setup.judge, Success(r))
  }

  // Every way to end without a result.
  ghost predicate NothingFrom(made: seq<Call>, p: Providers, before: seq<Call>, req: GenerateRequest, setup: Setup,
                              params: LLMParams)
    requires JudgeOK(setup.judge)
  {
    if req.kb.None? || !Accepted(req.kb.value, setup.judge.folding) then made == []
    else
      var kb := req.kb.value;
      var rendered := setup.render(kb, CompiledFacts(kb), CompiledMedia(kb), req.channel);
      if rendered.Failure? || !p.known(ChooseModel(req, params)) then made == []
      else
        exists r ::
          && CallsMade(made, r, p, before, Call(ChooseModel(req, params), rendered.value + req.tail),
                       RequestFor(kb), setup.judge, params.retryEnabled)
          && (r.Success? ==> exists error :: Judged(r.value, RequestFor(kb), setup.judge, Failure(error)))
  }

  // An exchange ends with the call that gave its answer.
  lemma LastAnswers(made: seq<Call>, r: Result<string>, p: Providers, before: seq<Call>, first: Call,
                    req: Request, judge: Judge, retryEnabled: bool)
    requires JudgeOK(judge) && CallsMade(made, r, p, before, first, req, judge, retryEnabled)
    ensures made != [] && p.answer(before + made[..|made| - 1], made[|made| - 1]) == r
  {
    hide JudgeOK, Classifies, IsFeedback;
    assert |made| == 1 ==> before + made[..0] == before;
    assert |made| == 2 ==> before + made[..1] == before + [made[0]];
  }

  // A retry goes where the first call went, and adds to its prompt.
  lemma RetryFollowsFirst(made: seq<Call>, r: Result<string>, p: Providers, before: seq<Call>, first: Call,
                          req: Request, judge: Judge, retryEnabled: bool)
    requires JudgeOK(judge) && CallsMade(made, r, p, before, first, req, judge, retryEnabled)
    ensures forall i | 0 <= i < |made| :: made[i].model == first.model && first.prompt <= made[i].prompt
  {
    hide JudgeOK, Classifies, IsFeedback;
  }

  // Whatever becomes of an exchange, its calls go to the chosen model with the rendered base.
  lemma CallsFollowRequest(made: seq<Call>, p: Providers, before: seq<Call>, req: GenerateRequest, setup: Setup,
                           params: LLMParams, i: nat)
    requires JudgeOK(setup.judge) && req.kb.Some? && i < |made|
    requires NothingFrom(made, p, before, req, setup, params)
             || exists r :: GeneratedFrom(made, p, before, req, setup, params, r)
    ensures var kb := req.kb.value;
            var rendered := setup.render(kb, CompiledFacts(kb), CompiledMedia(kb), req.channel);
            && made[i].model == ChooseModel(req, params)
            && rendered.Success? && rendered.value + req.tail <= made[i].prompt
  {
    hide JudgeOK, Accepted, CompiledFacts, CompiledMedia, Judged, CallsMade, ChooseModel;
    var kb := req.kb.value;
    var rendered := setup.render(kb, CompiledFacts(kb), CompiledMedia(kb), req.channel);
    assert rendered.Success?;
    var first := Call(ChooseModel(req, params), rendered.value + req.tail);
    var r :| CallsMade(made, r, p, before, first, RequestFor(kb), setup.judge, params.retryEnabled);
    RetryFollowsFirst(made, r, p, before, first, RequestFor(kb), setup.judge, params.retryEnabled);
  }

  // The same exchange never both yields a result and justifies an error.
  lemma OneOutcome(made: seq<Call>, p: Providers, before: seq<Call>, req: GenerateRequest, setup: Setup,
                   params: LLMParams, r: GenerateResult)
    requires JudgeOK(setup.judge) && req.kb.Some? && Accepted(req.kb.value, setup.judge.folding)
    requires GeneratedFrom(made, p, before, req, setup, params, r)
    ensures !NothingFrom(made, p, before, req, setup, params)
  {
    hide JudgeOK, Accepted, CompiledFacts, CompiledMedia, Judged, CallsMade;
    var kb := req.kb.value;
    var rendered := setup.render(kb, CompiledFacts(kb), CompiledMedia(kb), req.channel);
    var first := Call(ChooseModel(req, params), rendered.value + req.tail);
    var raw :| && CallsMade(made, Success(raw), p, before, first, RequestFor(kb), setup.judge, params.retryEnabled)
               && Judged(raw, RequestFor(kb), setup.judge, Success(r));
    LastAnswers(made, Success(raw), p, before, first, RequestFor(kb), setup.judge, params.retryEnabled);
    forall answer | CallsMade(made, answer, p, before, first, RequestFor(kb), setup.judge, params.retryEnabled)
      ensures answer == Success(raw)
    {
      LastAnswers(made, answer, p, before, first, RequestFor(kb), setup.judge, params.retryEnabled);
    }
    forall error ensures !Judged(raw, RequestFor(kb), setup.judge, Failure(error)) {
      OneJudgement(raw, RequestFor(kb), setup.judge, r, error);
    }
  }

  lemma OneJudgement(raw: string, req: Request, judge: Judge, r: GenerateResult, error: string)
    requires JudgeOK(judge)
    ensures !(Judged(raw, req, judge, Success(r)) && Judged(raw, req, judge, Failure(error)))
  {
    hide JudgeOK, Grounds, RewritesClean;
  }

  // A raw output has one classification.
  lemma OneReason(raw: string, req: Request, judge: Judge, reason: RetryReason)
    requires JudgeOK(judge) && Classifies(raw, req, judge, reason)
    ensures forall other :: Classifies(raw, req, judge, other) ==> other == reason
  {
    hide JudgeOK, Extracts, ReasonFor;
    var ext :| Extracts(raw, judge, ext) && reason == ReasonFor(ext, req, judge);
    forall other | Classifies(raw, req, judge, other) ensures other == reason {
      var ext' :| Extracts(raw, judge, ext') && other == ReasonFor(ext', req, judge);
      ExtractionIsUnique(raw, judge, ext, ext');
    }
  }

  // A retry for media names, in its prompt, every token of the first answer that resolves to nothing alone.
  lemma RetryPromptNamesBadTokens(made: seq<Call>, r: Result<string>, p: Providers, before: seq<Call>, first: Call,
                                  req: Request, judge: Judge, retryEnabled: bool)
    requires JudgeOK(judge) && CallsMade(made, r, p, before, first, req, judge, retryEnabled) && |made| == 2
    requires Classifies(p.answer(before, first).value, req, judge, MediaNotFound)
    ensures exists ext ::
              && Extracts(p.answer(before, first).value, judge, Some(ext)) && Decoded(ext.final, judge).Some?
              && forall token | token in ResponseOf(ext.final, req, judge).mediaFilesToSend
                                && !AllResolve([token], req.kb, req.media) :: ContainsText(made[1].prompt, token)
  {
    hide JudgeOK, Extracts, ResponseOf, Decoded, AllResolve, ContainsText, ReasonFor, NamesInOrder, FeedbackText,
         FEEDBACK_BEFORE, FEEDBACK_AFTER;
    var raw0 := p.answer(before, first).value;
    var text :| IsFeedback(raw0, req, judge, text) && made[1].prompt == first.prompt + text;
    var ext :| Extracts(raw0, judge, ext) && MediaNotFound == ReasonFor(ext, req, judge);
    forall other | Extracts(raw0, judge, other) ensures other == ext {
      ExtractionIsUnique(raw0, judge, ext, other);
    }
    MediaNotFoundMeans(ext, req, judge);
    DecodedWhenResponse(ext.value.final, judge);
    forall token | ContainsText(text, token) ensures ContainsText(first.prompt + text, token) {
      ContainedAfter(first.prompt, text, token);
    }
    assert Some(ext.value) == ext;
  }

  lemma DecodedWhenResponse(raw: string, judge: Judge)
    requires !NoResponse(raw, judge)
    ensures Decoded(raw, judge).Some?
  {
  }

  lemma ContainedAfter(before: string, text: string, name: string)
    requires ContainsText(text, name)
    ensures ContainsText(before + text, name)
  {
    var i :| 0 <= i <= |text| && name <= text[i..];
    assert (before + text)[|before| + i..] == text[i..];
  }

  // ----- what a delivered text is made of -----

  // Each placeholder of the accepted reply names a fact of the catalog, and stands replaced by
  // the value the approved row and column hold now.
  ghost predicate QuotesStored(reply: string, lang: string, kb: KB) {
    forall token | Slot(token) in Scan(reply) ::
      exists x | x in CompiledFacts(kb) ::
          x.token == token && Holds(kb, x, lang, ResolveFact(token, kb, CompiledFacts(kb), lang))
  }

  lemma GroundedQuotesStored(raw: string, kb: KB, judge: Judge, resp: Response)
    requires JudgeOK(judge) && Grounds(raw, RequestFor(kb), judge, resp)
    ensures QuotesStored(resp.replyText, resp.replyLanguage, kb)
  {
    hide JudgeOK, Extracts, NoResponse, Decoded, CompiledFacts, CompiledMedia, ResolveFact, Holds, ShapeClean,
         MediaKnown, ReasonFor, DecodeResponse, ContainsText;
    var facts := CompiledFacts(kb);
    forall token | Slot(token) in Scan(resp.replyText)
      ensures exists x | x in facts ::
              x.token == token && Holds(kb, x, resp.replyLanguage, ResolveFact(token, kb, facts, resp.replyLanguage))
    {
      assert SlotOK(token, kb, facts, resp.replyLanguage);
      ResolvedValueIsStored(kb, facts, token, resp.replyLanguage);
    }
  }

  // A base that stores no brace under its catalog never loses an issue-free reply to the rewrite.
  lemma BraceFreeBaseRewrites(reply: string, kb: KB, facts: seq<FactEntry>, media: seq<MediaEntry>, lang: string,
                              judge: Judge)
    requires GateClean(reply, kb, facts, media, lang, judge)
    requires forall x, v | x in facts && Stored(kb, x, lang, v) :: !HasBrace(v)
    ensures SlotsResolve(reply, kb, facts, lang) && !HasBrace(Rewritten(reply, kb, facts, lang))
  {
    hide GateClean, ResolveFact, Stored, Rewritten, HasBrace, Scan, Blank;
    GateImpliesRewrite(reply, kb, facts, media, lang, judge);
    forall token | Slot(token) in Scan(reply) && ResolveFact(token, kb, facts, lang).Success?
      ensures !HasBrace(ResolveFact(token, kb, facts, lang).value)
    {
      ResolvedValueIsStored(kb, facts, token, lang);
    }
  }

  // Whatever the models said, a delivered text is an accepted, retry-free reading of some raw
  // output, without braces, quoting only values stored now.
  lemma DeliveredIsGrounded(made: seq<Call>, p: Providers, before: seq<Call>, req: GenerateRequest, setup: Setup,
                            params: LLMParams, r: GenerateResult) returns (raw: string, resp: Response)
    requires JudgeOK(setup.judge) && req.kb.Some?
    requires GeneratedFrom(made, p, before, req, setup, params, r)
    ensures 1 <= |made| <= 2 && p.answer(before + made[..|made| - 1], made[|made| - 1]) == Success(raw)
    ensures Grounds(raw, RequestFor(req.kb.value), setup.judge, resp)
            && QuotesStored(resp.replyText, resp.replyLanguage, req.kb.value)
    ensures r.finalText == Rewritten(resp.replyText, req.kb.value, CompiledFacts(req.kb.value), resp.replyLanguage)
    ensures '{' !in r.finalText && '}' !in r.finalText
    ensures r.escalate == resp.escalate && r.replyLanguage == resp.replyLanguage
    ensures (r.replyLanguage == "ru" || r.replyLanguage == "kk")
    ensures AllResolve(resp.mediaFilesToSend, req.kb.value, CompiledMedia(req.kb.value))
    ensures Classifies(raw, RequestFor(req.kb.value), setup.judge, NoRetry)
    ensures WritesNoValue(resp, req.kb.value, setup.judge) && KeepsRules(resp, req.kb.value, setup.judge)
    ensures r.diagnostics == resp.diagnostics
  {
    hide JudgeOK, CompiledFacts, CompiledMedia, Grounds, Rewritten, HasBrace, AllResolve, Classifies, IsFeedback,
         WritesNoValue, KeepsRules;
    var kb := req.kb.value;
    var rendered := setup.render(kb, CompiledFacts(kb), CompiledMedia(kb), req.channel);
    raw :| && CallsMade(made, Success(raw), p, before, Call(ChooseModel(req, params), rendered.value + req.tail),
                        RequestFor(kb), setup.judge, params.retryEnabled)
           && Judged(raw, RequestFor(kb), setup.judge, Success(r));
    resp :| Grounds(raw, RequestFor(kb), setup.judge, resp) && RewritesClean(resp, RequestFor(kb))
            && Yields(resp, RequestFor(kb), r);
    GroundedQuotesStored(raw, kb, setup.judge, resp);
    GroundedMeans(raw, RequestFor(kb), setup.judge, resp);
    GroundedWritesNoValue(raw, kb, setup.judge, resp);
    GroundedKeepsRules(raw, kb, setup.judge, resp);
    HasBraceIff(r.finalText);
    LastAnswers(made, Success(raw), p, before, Call(ChooseModel(req, params), rendered.value + req.tail),
                RequestFor(kb), setup.judge, params.retryEnabled);
  }

  lemma GroundedMeans(raw: string, req: Request, judge: Judge, resp: Response)
    requires JudgeOK(judge) && Grounds(raw, req, judge, resp)
    ensures LanguageOK(resp.replyLanguage) && AllResolve(resp.mediaFilesToSend, req.kb, req.media)
    ensures Classifies(raw, req, judge, NoRetry)
  {
    hide JudgeOK, Extracts, WrongType, Decoded, AllResolve, GateClean, MediaKnown, Missing, HasUnknown;
  }

  // Outside its placeholders the reply mentions no value that one token of the catalog alone resolves to.
  ghost predicate WritesNoValue(resp: Response, kb: KB, judge: Judge) {
    var facts, f := CompiledFacts(kb), judge.folding;
    forall k, value | 0 <= k < |facts| && HasOwnValue(kb, facts, resp.replyLanguage, f, k, value) ::
      !Mentioned(Without(Scan(resp.replyText)), value, f)
  }

  // The reply names no media token in its text, and no phrase check objects to it.
  ghost predicate KeepsRules(resp: Response, kb: KB, judge: Judge) {
    && (forall x | x in CompiledMedia(kb) :: !ContainsText(resp.replyText, x.token))
    && judge.phraseIssues(kb, Without(Scan(resp.replyText))) == []
  }

  lemma GroundedKeepsRules(raw: string, kb: KB, judge: Judge, resp: Response)
    requires JudgeOK(judge) && Grounds(raw, RequestFor(kb), judge, resp)
    ensures KeepsRules(resp, kb, judge)
  {
    hide JudgeOK, Extracts, WrongType, Decoded, AllResolve, MediaKnown, ShapeClean, CompiledFacts, CompiledMedia,
         LeaksNothing, CatalogLiterals, Scan, ContainsText, SlotOK;
  }

  lemma GroundedWritesNoValue(raw: string, kb: KB, judge: Judge, resp: Response)
    requires JudgeOK(judge) && Grounds(raw, RequestFor(kb), judge, resp)
    ensures WritesNoValue(resp, kb, judge)
  {
    hide JudgeOK, Extracts, WrongType, Decoded, AllResolve, MediaKnown, ShapeClean, CompiledFacts, CompiledMedia,
         LeaksNothing, CatalogLiterals, Scan, ContainsText, SlotOK, HasOwnValue, Mentioned, Without;
    LeaksNothingIff(Without(Scan(resp.replyText)), kb, CompiledFacts(kb), resp.replyLanguage, judge.folding);
  }
}
