/** The channel-neutral entry point: one suggested draft per request, grounded or holding. */
module Services {
  import opened Wrappers
  import opened KnowledgeBase
  import opened Contract
  import opened Media
  import opened MediaCatalog
  import opened Extraction
  import opened Catalogs
  import opened Engines

  const HOLDING_TEXT := "Сейчас у меня нет этой информации — передаю ваш вопрос менеджеру и вернусь с точным ответом."

  /** What is stored about a conversation; tail is its rendered customer context, history and message. */
  datatype ConversationContext = ConversationContext(
    organizationID: string, channel: string, triggerMessageID: string, tail: string, hasImage: bool)

  datatype RespondOptions = RespondOptions(modelOverride: Option<ModelRef>, kbOverride: Option<KB>)

  datatype Draft = Draft(
    conversationID: string, channel: string, triggerMessageID: string, text: string, replyLanguage: string,
    confidence: Option<real>, escalate: bool, escalationReason: string, kbGap: Option<KBGap>)

  datatype PersistedDraft = PersistedDraft(id: string, draft: Draft)

  /** The draft store: what it was handed, in order, and how it answers each time. */
  class DraftRepository {
    const answer: (seq<Draft>, Draft) -> Result<seq<PersistedDraft>>
    var handed: seq<Draft>

    constructor (answer: (seq<Draft>, Draft) -> Result<seq<PersistedDraft>>)
      ensures this.answer == answer && handed == []
    {
      this.answer, handed := answer, [];
    }

    method ReplaceSuggested(draft: Draft) returns (r: Result<seq<PersistedDraft>>)
      modifies this`handed
      ensures handed == old(handed) + [draft] && r == answer(old(handed), draft)
    {
      r := answer(handed, draft);
      handed := handed + [draft];
    }
  }

  // For the right conversation: the canned text in Russian, escalated, the cause recorded, stamped as the
  // engine's own failure and attributed to nothing in the knowledge base.
  ghost predicate HoldsFor(d: Draft, id: string, ctx: ConversationContext, cause: string) {
    && d.conversationID == id && d.channel == ctx.channel && d.triggerMessageID == ctx.triggerMessageID
    && d.text == HOLDING_TEXT && d.replyLanguage == "ru" && d.confidence.None? && d.escalate
    && d.escalationReason == "engine_error: " + cause
    && d.kbGap.Some? && d.kbGap.value.reasonCode == "engine_error" && d.kbGap.value.source == "engine"
    && d.kbGap.value.targetType == "" && d.kbGap.value.targetRef == "" && d.kbGap.value.missingFields == []
  }

  ghost predicate IsHolding(d: Draft, id: string, ctx: ConversationContext) {
    exists cause :: HoldsFor(d, id, ctx, cause)
  }

  // For the right conversation: exactly what the engine returned.
  ghost predicate Carries(d: Draft, id: string, ctx: ConversationContext, r: GenerateResult) {
    && d.conversationID == id && d.channel == ctx.channel && d.triggerMessageID == ctx.triggerMessageID
    && d.text == r.finalText && d.replyLanguage == r.replyLanguage && d.escalate == r.escalate
    && d.escalationReason == r.diagnostics.escalationReason && d.kbGap == r.diagnostics.kbGap
    && d.confidence == if r.diagnostics.confidence == 0.0 then None else Some(r.diagnostics.confidence)
  }

  class Service {
    const load: string -> Result<ConversationContext>
    const loadKB: string -> Result<KB>
    const drafts: DraftRepository
    const engine: Engine

    constructor (load: string -> Result<ConversationContext>, loadKB: string -> Result<KB>,
                 drafts: DraftRepository, engine: Engine)
      ensures this.load == load && this.loadKB == loadKB && this.drafts == drafts && this.engine == engine
    {
      this.load, this.loadKB, this.drafts, this.engine := load, loadKB, drafts, engine;
    }

    // The override when there is one, else the organization's live base.
    function KBFor(ctx: ConversationContext, opts: RespondOptions): Result<KB> {
      if opts.kbOverride.Some? then Success(opts.kbOverride.value) else loadKB(ctx.organizationID)
    }

    function RequestOf(kb: KB, ctx: ConversationContext, opts: RespondOptions): GenerateRequest {
      GenerateRequest(Some(kb), ctx.channel, ctx.tail, ctx.hasImage, opts.modelOverride)
    }

    // The base does not load, or the exchange ends without a result.
    ghost predicate YieldsNothing(ctx: ConversationContext, opts: RespondOptions, made: seq<Call>, before: seq<Call>,
                                  params: LLMParams)
      requires JudgeOK(engine.setup.judge)
    {
      var kb := KBFor(ctx, opts);
      kb.Success? ==>
        NothingFrom(made, engine.providers, before, RequestOf(kb.value, ctx, opts), engine.setup, params)
    }

    // The draft an exchange earns: its grounded result when it has one, and the holding draft otherwise.
    ghost predicate Earned(d: Draft, id: string, ctx: ConversationContext, opts: RespondOptions,
                           made: seq<Call>, before: seq<Call>, params: LLMParams)
      requires JudgeOK(engine.setup.judge)
    {
      var kb := KBFor(ctx, opts);
      if kb.Failure? then made == [] && HoldsFor(d, id, ctx, kb.error)
      else
        var req := RequestOf(kb.value, ctx, opts);
        || (NothingFrom(made, engine.providers, before, req, engine.setup, params) && IsHolding(d, id, ctx))
        || exists r ::
             && Accepted(kb.value, engine.setup.judge.folding)
             && GeneratedFrom(made, engine.providers, before, req, engine.setup, params, r)
             && Carries(d, id, ctx, r)
    }

    method Generate(id: string, ctx: ConversationContext, opts: RespondOptions) returns (draft: Draft)
      requires JudgeOK(engine.setup.judge)
      modifies engine`status, engine.providers`calls
      ensures old(engine.providers.calls) <= engine.providers.calls
      ensures |engine.providers.calls| <= |old(engine.providers.calls)| + 2
      ensures Earned(draft, id, ctx, opts, engine.providers.calls[|old(engine.providers.calls)|..],
                     old(engine.providers.calls), engine.params)
    {
      hide JudgeOK, Accepted, NothingFrom, GeneratedFrom;
      draft := Draft(id, ctx.channel, ctx.triggerMessageID, "", "", None, false, "", None);
      var kb := opts.kbOverride;
      if kb.None? {
        var loaded := loadKB(ctx.organizationID);
        if loaded.Failure? {
          draft := HoldingDraft(draft, loaded.error, ctx);
          return;
        }
        kb := Some(loaded.value);
      }
      var result := engine.Generate(GenerateRequest(kb, ctx.channel, ctx.tail, ctx.hasImage, opts.modelOverride));
      if result.Failure? {
        draft := HoldingDraft(draft, result.error, ctx);
        return;
      }
      var r := result.value;
      draft := draft.(text := r.finalText, replyLanguage := r.replyLanguage, escalate := r.escalate,
                      escalationReason := r.diagnostics.escalationReason, kbGap := r.diagnostics.kbGap);
      if r.diagnostics.confidence != 0.0 {
        draft := draft.(confidence := Some(r.diagnostics.confidence));
      }
      assert Carries(draft, id, ctx, r);
    }

    method HoldingDraft(draft: Draft, cause: string, ghost ctx: ConversationContext) returns (d: Draft)
      requires draft.channel == ctx.channel && draft.triggerMessageID == ctx.triggerMessageID
               && draft.confidence == None
      ensures HoldsFor(d, draft.conversationID, ctx, cause)
    {
      d := draft.(text := HOLDING_TEXT, replyLanguage := "ru", escalate := true,
                  escalationReason := "engine_error: " + cause,
                  kbGap := Some(KBGap("engine_error", "", "", [], "engine")));
    }

    ghost predicate Responded(channel: string, id: string, opts: RespondOptions, r: Result<seq<PersistedDraft>>,
                              handedBefore: seq<Draft>, handed: seq<Draft>, before: seq<Call>, calls: seq<Call>,
                              params: LLMParams)
      requires JudgeOK(engine.setup.judge)
    {
      var ctx := load(id);
      if ctx.Failure? || ctx.value.channel != channel then r.Failure? && handed == handedBefore && calls == before
      else
        && |handed| == |handedBefore| + 1 && handedBefore <= handed
        && before <= calls && |calls| <= |before| + 2
        && Earned(handed[|handedBefore|], id, ctx.value, opts, calls[|before|..], before, params)
        && var stored := drafts.answer(handedBefore, handed[|handedBefore|]);
           if stored.Success? then r == stored else r.Failure?
    }

    // A conversation that does not load, or lives on another channel, gets nothing: no model call and
    // no draft. Any other gets exactly one draft, the one its exchange earned.
    method Respond(channel: string, id: string, opts: RespondOptions) returns (r: Result<seq<PersistedDraft>>)
      requires JudgeOK(engine.setup.judge)
      modifies engine`status, engine.providers`calls, drafts`handed
      ensures Responded(channel, id, opts, r, old(drafts.handed), drafts.handed,
                        old(engine.providers.calls), engine.providers.calls, engine.params)
    {
      hide JudgeOK, Earned;
      var ctx := load(id);
      if ctx.Failure? {
        return Failure("load conversation: " + ctx.error);
      }
      if ctx.value.channel != channel {
        return Failure("conversation belongs to another channel");
      }
      var draft := Generate(id, ctx.value, opts);
      assert old(engine.providers.calls) <= engine.providers.calls;
      r := drafts.ReplaceSuggested(draft);
      if r.Failure? {
        r := Failure("persist draft: " + r.error);
      }
    }
  }

  // Fail closed: when the base does not load or the engine yields nothing, whatever the models answered, the
  // draft is the canned text in Russian, escalated and stamped as the engine's own failure; otherwise it is a
  // grounded, brace-free reply in Russian or Kazakh that quotes only the values stored now and writes out none
  // of them, with media that all resolve.
  lemma EveryDraftIsSafe(s: Service, d: Draft, id: string, ctx: ConversationContext, opts: RespondOptions,
                         made: seq<Call>, before: seq<Call>, params: LLMParams)
    requires JudgeOK(s.engine.setup.judge)
    requires s.Earned(d, id, ctx, opts, made, before, params)
    ensures d.conversationID == id && d.channel == ctx.channel && d.triggerMessageID == ctx.triggerMessageID
    ensures s.YieldsNothing(ctx, opts, made, before, params) ==>
              && d.escalate && d.text == HOLDING_TEXT && d.replyLanguage == "ru" && d.confidence.None?
              && "engine_error: " <= d.escalationReason
              && d.kbGap.Some? && d.kbGap.value.reasonCode == "engine_error" && d.kbGap.value.source == "engine"
    ensures !s.YieldsNothing(ctx, opts, made, before, params) ==> Grounded(d, s.KBFor(ctx, opts), s.engine.setup.judge)
  {
    hide JudgeOK, Accepted, GeneratedFrom, NothingFrom, Grounds, QuotesStored, Rewritten, AllResolve,
         WritesNoValue, KeepsRules, GroundedIn, Carries;
    var kb := s.KBFor(ctx, opts);
    if kb.Success? {
      var req := s.RequestOf(kb.value, ctx, opts);
      if r :| && Accepted(kb.value, s.engine.setup.judge.folding)
              && GeneratedFrom(made, s.engine.providers, before, req, s.engine.setup, params, r)
              && Carries(d, id, ctx, r)
      {
        OneOutcome(made, s.engine.providers, before, req, s.engine.setup, params, r);
        var raw, resp := DeliveredIsGrounded(made, s.engine.providers, before, req, s.engine.setup, params, r);
        CarriedIsGrounded(d, id, ctx, r, kb.value, s.engine.setup.judge, raw, resp);
      }
    }
  }

  lemma CarriedIsGrounded(d: Draft, id: string, ctx: ConversationContext, r: GenerateResult, kb: KB, judge: Judge,
                          raw: string, resp: Response)
    requires JudgeOK(judge) && Carries(d, id, ctx, r) && Grounds(raw, RequestFor(kb), judge, resp)
    requires r.finalText == Rewritten(resp.replyText, kb, CompiledFacts(kb), resp.replyLanguage)
    requires '{' !in r.finalText && '}' !in r.finalText && r.escalate == resp.escalate
    requires r.diagnostics == resp.diagnostics
    requires r.replyLanguage == resp.replyLanguage && r.replyLanguage in {"ru", "kk"}
    requires QuotesStored(resp.replyText, resp.replyLanguage, kb) && WritesNoValue(resp, kb, judge)
    requires AllResolve(resp.mediaFilesToSend, kb, CompiledMedia(kb)) && KeepsRules(resp, kb, judge)
    ensures GroundedIn(d, kb, judge, raw, resp)
    ensures d.conversationID == id && d.channel == ctx.channel && d.triggerMessageID == ctx.triggerMessageID
  {
    hide JudgeOK, Grounds, QuotesStored, Rewritten, AllResolve, WritesNoValue, KeepsRules, CompiledFacts, CompiledMedia;
  }

  // What a call of such an exchange asks, and whom: an override of the model wins, an image goes to the vision
  // model when one is configured, and everything else to the default one.
  ghost predicate WellAddressed(call: Call, rendered: Result<string>, ctx: ConversationContext, opts: RespondOptions,
                                params: LLMParams) {
    && (opts.modelOverride.Some? ==> call.model == opts.modelOverride.value)
    && (opts.modelOverride.None? && ctx.hasImage && params.visionModel.model != "" ==>
          call.model == params.visionModel)
    && (opts.modelOverride.None? && (!ctx.hasImage || params.visionModel.model == "") ==>
          call.model == params.defaultModel)
    && rendered.Success? && rendered.value + ctx.tail <= call.prompt
  }

  // Whatever becomes of it, the calls are about the base the draft stands on, for the conversation's channel.
  lemma CallsAreWellAddressed(s: Service, d: Draft, id: string, ctx: ConversationContext, opts: RespondOptions,
                              made: seq<Call>, before: seq<Call>, params: LLMParams, i: nat)
    requires JudgeOK(s.engine.setup.judge) && s.Earned(d, id, ctx, opts, made, before, params) && i < |made|
    ensures s.KBFor(ctx, opts).Success?
    ensures var kb := s.KBFor(ctx, opts).value;
            WellAddressed(made[i], s.engine.setup.render(kb, CompiledFacts(kb), CompiledMedia(kb), ctx.channel),
                          ctx, opts, params)
  {
    hide JudgeOK, Accepted, NothingFrom, GeneratedFrom, IsHolding, HoldsFor, Carries, CompiledFacts, CompiledMedia;
    var req := s.RequestOf(s.KBFor(ctx, opts).value, ctx, opts);
    CallsFollowRequest(made, s.engine.providers, before, req, s.engine.setup, params, i);
  }

  // An override stands in for the store: services that read the same base for the organization, or are given
  // one, earn the same drafts.
  lemma OnlyItsBaseMatters(s: Service, t: Service, d: Draft, id: string, ctx: ConversationContext,
                           opts: RespondOptions, made: seq<Call>, before: seq<Call>, params: LLMParams)
    requires s.engine == t.engine && JudgeOK(s.engine.setup.judge)
    requires opts.kbOverride.Some? || s.loadKB(ctx.organizationID) == t.loadKB(ctx.organizationID)
    ensures s.Earned(d, id, ctx, opts, made, before, params) <==> t.Earned(d, id, ctx, opts, made, before, params)
  {
    hide JudgeOK, Accepted, GeneratedFrom, NothingFrom, IsHolding;
  }

  ghost predicate Grounded(d: Draft, kb: Result<KB>, judge: Judge)
    requires JudgeOK(judge)
  {
    kb.Success? && exists raw, resp :: GroundedIn(d, kb.value, judge, raw, resp)
  }

  // d's text is the reading resp of raw, rewritten over kb.
  ghost predicate GroundedIn(d: Draft, kb: KB, judge: Judge, raw: string, resp: Response)
    requires JudgeOK(judge)
  {
    && Grounds(raw, RequestFor(kb), judge, resp) && QuotesStored(resp.replyText, resp.replyLanguage, kb)
    && d.text == Rewritten(resp.replyText, kb, CompiledFacts(kb), resp.replyLanguage)
    && '{' !in d.text && '}' !in d.text && d.escalate == resp.escalate && WritesNoValue(resp, kb, judge)
    && AllResolve(resp.mediaFilesToSend, kb, CompiledMedia(kb)) && KeepsRules(resp, kb, judge)
    && d.escalationReason == resp.diagnostics.escalationReason && d.kbGap == resp.diagnostics.kbGap
    && (d.confidence.None? <==> resp.diagnostics.confidence == 0.0)
    && (d.confidence.Some? ==> d.confidence.value == resp.diagnostics.confidence)
    && d.replyLanguage == resp.replyLanguage && d.replyLanguage in {"ru", "kk"}
  }
}
