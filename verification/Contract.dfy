/** The response contract: shape, the fact gate, and the rewrite the gate is meant to protect. */
module Contract {
  import opened Wrappers
  import opened Text
  import opened Permutations
  import opened Placeholders
  import opened KnowledgeBase
  import opened Registry
  import opened Resolver
  import opened Literals
  import opened Media
  import opened Mentions

  datatype Json =
    | JNull | JBool(b: bool) | JNumber(n: real) | JString(s: string)
    | JArray(items: seq<Json>) | JObject(fields: map<string, Json>)

  type Object = map<string, Json>

  datatype KBGap = KBGap(reasonCode: string, targetType: string, targetRef: string, missingFields: seq<string>,
                         source: string)

  /** Telemetry only: never shown to a customer and never a reason to reject. */
  datatype Diagnostics = Diagnostics(escalationReason: string, confidence: real, kbGap: Option<KBGap>)

  datatype Response = Response(
    replyText: string, replyLanguage: string, mediaFilesToSend: seq<string>, escalate: bool, diagnostics: Diagnostics)

  datatype Code =
    | Parse | MissingProperty | UnknownProperty | WrongPropertyType | BadLanguage | UnknownMediaToken
    | MediaTokenInReply | UnknownFactPlaceholder | StaleFactPlaceholder | MalformedFactPlaceholder
    | ExactValueLiteral | PhraseCheck

  datatype Issue = Issue(code: Code, detail: string)

  /** What is taken as given: the JSON decoder, the diagnostic decoder, how texts fold, and the
      schedule and confirmation phrase checks, which may only add issues. */
  datatype Judge = Judge(
    decode: string -> Option<Object>,
    decodePrefix: string -> Option<nat>,
    diagnose: (KB, Object) -> Diagnostics,
    folding: Folding,
    phraseIssues: (KB, string) -> seq<string>)

  // ----- shape -----

  const OPERATIONAL: seq<string> := ["reply_text", "reply_language", "media_files_to_send", "escalate"]
  const DIAGNOSTIC: seq<string> := ["escalation_reason", "confidence", "kb_gap"]

  predicate TypeOK(name: string, v: Json) {
    if name == "media_files_to_send" then v.JArray? && forall i | 0 <= i < |v.items| :: v.items[i].JString?
    else if name == "escalate" then v.JBool?
    else v.JString?
  }

  predicate WrongType(m: Object) {
    exists i | 0 <= i < |OPERATIONAL| :: OPERATIONAL[i] in m && !TypeOK(OPERATIONAL[i], m[OPERATIONAL[i]])
  }

  predicate Missing(m: Object) {
    exists i | 0 <= i < |OPERATIONAL| :: OPERATIONAL[i] !in m
  }

  predicate Known(key: string) {
    key in OPERATIONAL || key in DIAGNOSTIC
  }

  predicate HasUnknown(m: Object) {
    exists key | key in m :: !Known(key)
  }

  function TextField(m: Object, name: string): string {
    if name in m && m[name].JString? then m[name].s else ""
  }

  function Strings(items: seq<Json>): seq<string> {
    Map(items, (v: Json) => if v.JString? then v.s else "")
  }

  // Absent fields read as their zero values.
  function DecodeResponse(m: Object, kb: KB, judge: Judge): Response {
    Response(
      TextField(m, "reply_text"), TextField(m, "reply_language"),
      if "media_files_to_send" in m && m["media_files_to_send"].JArray? then Strings(m["media_files_to_send"].items)
      else [],
      "escalate" in m && m["escalate"].JBool? && m["escalate"].b,
      judge.diagnose(kb, m))
  }

  function SkipSpaces(s: string): (t: string)
    ensures |t| <= |s| && t == s[|s| - |t|..]
  {
    if s != "" && IsAsciiSpace(s[0]) then SkipSpaces(s[1..]) else s
  }

  function SkipLetters(s: string): (t: string)
    ensures |t| <= |s| && t == s[|s| - |t|..]
  {
    if s != "" && IsLetter(s[0]) then SkipLetters(s[1..]) else s
  }

  function DropSpacesRight(s: string): (t: string)
    ensures t <= s
  {
    if s != "" && IsAsciiSpace(s[|s| - 1]) then DropSpacesRight(s[..|s| - 1]) else s
  }

  lemma TailOfTail(s: string, t: string, u: string)
    requires |u| <= |t| <= |s| && t == s[|s| - |t|..] && u == t[|t| - |u|..]
    ensures u == s[|s| - |u|..]
  {
  }

  // Without an opening ^\s*```[a-zA-Z]*\s*.
  function StripOpenFence(s: string): string {
    var body := SkipSpaces(s);
    if HasPrefix(body, "```") then SkipSpaces(SkipLetters(body[3..])) else s
  }

  // What is left is the end of the text.
  lemma OpenFenceLeavesTail(s: string)
    ensures var t := StripOpenFence(s); |t| <= |s| && t == s[|s| - |t|..]
  {
    hide SkipSpaces, SkipLetters;
    var body := SkipSpaces(s);
    if HasPrefix(body, "```") {
      var t := SkipLetters(body[3..]);
      TailOfTail(s, body, body[3..]);
      TailOfTail(s, body[3..], t);
      TailOfTail(s, t, SkipSpaces(t));
    }
  }

  // Without a closing \s*```\s*$.
  function StripCloseFence(s: string): (t: string)
    ensures t <= s
  {
    var body := DropSpacesRight(s);
    if HasSuffix(body, "```") then DropSpacesRight(body[..|body| - 3]) else s
  }

  function StripFences(s: string): string {
    StripCloseFence(StripOpenFence(s))
  }

  function Decoded(raw: string, judge: Judge): Option<Object> {
    var blob := TrimSpace(StripFences(raw));
    if blob == "" then None else judge.decode(blob)
  }

  // ----- the fact gate -----

  predicate ContainsText(s: string, sub: string) {
    exists i | 0 <= i <= |s| :: sub <= s[i..]
  }

  lemma ContainsTextIff(s: string, sub: string)
    ensures ContainsText(s, sub) <==> exists before, after :: s == before + sub + after
  {
    if i :| 0 <= i <= |s| && sub <= s[i..] {
      assert s == s[..i] + sub + s[i + |sub|..];
    }
    if before, after :| s == before + sub + after {
      assert s[|before|..] == sub + after;
    }
  }

  predicate SlotOK(token: string, kb: KB, facts: seq<FactEntry>, lang: string) {
    FactByToken(facts, token).Some? && ResolveFact(token, kb, facts, lang).Success?
  }

  // What an issue-free reply has been checked for.
  ghost predicate GateClean(reply: string, kb: KB, facts: seq<FactEntry>, media: seq<MediaEntry>, lang: string,
                            judge: Judge)
  {
    && (forall i | 0 <= i < |media| :: !ContainsText(reply, media[i].token))
    && (forall token | Slot(token) in Scan(reply) :: SlotOK(token, kb, facts, lang))
    && !HasBrace(Without(Scan(reply)))
    && LeaksNothing(Without(Scan(reply)), CatalogLiterals(kb, facts, lang, judge.folding), judge.folding)
    && judge.phraseIssues(kb, Without(Scan(reply))) == []
  }

  predicate FactCode(c: Code) {
    c.MediaTokenInReply? || c.UnknownFactPlaceholder? || c.StaleFactPlaceholder? || c.MalformedFactPlaceholder?
    || c.ExactValueLiteral? || c.PhraseCheck?
  }

  ghost predicate OnlyFactCodes(issues: seq<Issue>) {
    forall i | 0 <= i < |issues| :: FactCode(issues[i].code)
  }

  method ValidateFactContract(reply: string, kb: KB, facts: seq<FactEntry>, media: seq<MediaEntry>, lang: string,
                              judge: Judge)
    returns (issues: seq<Issue>)
    ensures issues == [] <==> GateClean(reply, kb, facts, media, lang, judge)
    ensures OnlyFactCodes(issues)
  {
    hide ContainsText, SlotOK, Scan, HasBrace, Without, LeaksNothing, CatalogLiterals;
    issues := [];
    for i := 0 to |media|
      invariant issues == [] <==> forall k | 0 <= k < i :: !ContainsText(reply, media[k].token)
      invariant OnlyFactCodes(issues)
    {
      if ContainsText(reply, media[i].token) {
        issues := issues + [Issue(MediaTokenInReply, media[i].token)];
      }
    }
    var slotIssues := CheckSlots(Scan(reply), kb, facts, lang);
    issues := issues + slotIssues;
    var withoutPlaceholders := Without(Scan(reply));
    if HasBrace(withoutPlaceholders) {
      issues := issues + [Issue(MalformedFactPlaceholder, "unmatched or malformed braces")];
    }
    var leaked := FindLeaks(withoutPlaceholders, kb, facts, lang, judge.folding);
    issues := issues + seq(|leaked|, i requires 0 <= i < |leaked| => Issue(ExactValueLiteral, leaked[i]));
    var phrases := judge.phraseIssues(kb, withoutPlaceholders);
    issues := issues + seq(|phrases|, i requires 0 <= i < |phrases| => Issue(PhraseCheck, phrases[i]));
  }

  method CheckSlots(pieces: seq<Piece>, kb: KB, facts: seq<FactEntry>, lang: string) returns (issues: seq<Issue>)
    ensures issues == [] <==> forall token | Slot(token) in pieces :: SlotOK(token, kb, facts, lang)
    ensures OnlyFactCodes(issues)
  {
    hide FactByToken, ResolveFact;
    issues := [];
    var seen: set<string> := {};
    for i := 0 to |pieces|
      invariant issues == [] <==> forall token | token in seen :: SlotOK(token, kb, facts, lang)
      invariant forall token :: token in seen <==> Slot(token) in pieces[..i]
      invariant OnlyFactCodes(issues)
    {
      assert pieces[..i + 1] == pieces[..i] + [pieces[i]];
      if pieces[i].Plain? || pieces[i].token in seen {
        continue;
      }
      var token := pieces[i].token;
      seen := seen + {token};
      if FactByToken(facts, token).None? {
        issues := issues + [Issue(UnknownFactPlaceholder, token)];
        continue;
      }
      var value := ResolveFact(token, kb, facts, lang);
      if value.Failure? {
        issues := issues + [Issue(StaleFactPlaceholder, value.error)];
      }
    }
    assert pieces[..|pieces|] == pieces;
  }

  // ----- the whole validation -----

  predicate LanguageOK(lang: string) {
    lang == "ru" || lang == "kk"
  }

  ghost predicate MediaKnown(tokens: seq<string>, media: seq<MediaEntry>) {
    forall i | 0 <= i < |tokens| :: MediaByToken(media, tokens[i]).Some?
  }

  ghost predicate HasCode(issues: seq<Issue>, codes: set<Code>) {
    exists i | 0 <= i < |issues| :: issues[i].code in codes
  }

  const SHAPE_CODES: set<Code> := {MissingProperty, UnknownProperty, BadLanguage}

  ghost predicate ShapeClean(m: Object) {
    !Missing(m) && !HasUnknown(m) && LanguageOK(TextField(m, "reply_language"))
  }

  method CheckShape(m: Object) returns (wrongType: bool, issues: seq<Issue>)
    ensures wrongType <==> WrongType(m)
    ensures HasCode(issues, SHAPE_CODES) <==> Missing(m) || HasUnknown(m)
    ensures issues == [] <==> !Missing(m) && !HasUnknown(m) && !WrongType(m)
    ensures !HasCode(issues, {UnknownMediaToken})
  {
    hide TypeOK, Known;
    issues, wrongType := [], false;
    for i := 0 to |OPERATIONAL|
      invariant wrongType <==>
                exists k | 0 <= k < i :: OPERATIONAL[k] in m && !TypeOK(OPERATIONAL[k], m[OPERATIONAL[k]])
      invariant HasCode(issues, SHAPE_CODES) <==> exists k | 0 <= k < i :: OPERATIONAL[k] !in m
      invariant issues == [] <==> !wrongType && !HasCode(issues, SHAPE_CODES)
      invariant !HasCode(issues, {UnknownMediaToken})
    {
      var name := OPERATIONAL[i];
      if name !in m {
        AddCode(issues, Issue(MissingProperty, name));
        issues := issues + [Issue(MissingProperty, name)];
      } else if !TypeOK(name, m[name]) {
        AddCode(issues, Issue(WrongPropertyType, name));
        wrongType := true;
        issues := issues + [Issue(WrongPropertyType, name)];
      }
    }
    var todo := m.Keys;
    ghost var missing, wrong := Missing(m), wrongType;
    while todo != {}
      invariant todo <= m.Keys
      invariant HasCode(issues, SHAPE_CODES) <==> missing || exists key | key in m && key !in todo :: !Known(key)
      invariant issues == [] <==> !wrong && !HasCode(issues, SHAPE_CODES)
      invariant !HasCode(issues, {UnknownMediaToken})
      decreases todo
    {
      var key :| key in todo;
      todo := todo - {key};
      if !Known(key) {
        AddCode(issues, Issue(UnknownProperty, key));
        issues := issues + [Issue(UnknownProperty, key)];
      }
    }
  }

  lemma AddCode(issues: seq<Issue>, issue: Issue)
    ensures forall codes :: HasCode(issues + [issue], codes) <==> HasCode(issues, codes) || issue.code in codes
  {
    var more := issues + [issue];
    assert more[|issues|] == issue;
    forall codes | HasCode(issues, codes) ensures HasCode(more, codes) {
      var i :| 0 <= i < |issues| && issues[i].code in codes;
      assert more[i].code in codes;
    }
  }

  lemma AddCodes(a: seq<Issue>, b: seq<Issue>)
    ensures forall codes :: HasCode(a + b, codes) <==> HasCode(a, codes) || HasCode(b, codes)
  {
    forall codes | HasCode(a, codes) || HasCode(b, codes) ensures HasCode(a + b, codes) {
      if i :| 0 <= i < |a| && a[i].code in codes {
        assert (a + b)[i].code in codes;
      } else {
        var i :| 0 <= i < |b| && b[i].code in codes;
        assert (a + b)[|a| + i].code in codes;
      }
    }
  }

  /** Everything one validation call is told about. */
  datatype Request = Request(kb: KB, facts: seq<FactEntry>, media: seq<MediaEntry>)

  ghost predicate NoResponse(raw: string, judge: Judge) {
    Decoded(raw, judge).None? || WrongType(Decoded(raw, judge).value)
  }

  function ResponseOf(raw: string, req: Request, judge: Judge): Response
    requires Decoded(raw, judge).Some?
  {
    DecodeResponse(Decoded(raw, judge).value, req.kb, judge)
  }

  ghost predicate Clean(raw: string, req: Request, judge: Judge)
    requires !NoResponse(raw, judge)
  {
    var resp := ResponseOf(raw, req, judge);
    && ShapeClean(Decoded(raw, judge).value)
    && MediaKnown(resp.mediaFilesToSend, req.media)
    && GateClean(resp.replyText, req.kb, req.facts, req.media, resp.replyLanguage, judge)
  }

  method ValidateResponse(raw: string, req: Request, judge: Judge) returns (resp: Option<Response>, issues: seq<Issue>)
    ensures resp.None? <==> NoResponse(raw, judge)
    ensures resp.Some? ==> resp.value == ResponseOf(raw, req, judge)
    ensures resp.Some? ==> (issues == [] <==> Clean(raw, req, judge))
    ensures resp.Some? ==> (HasCode(issues, SHAPE_CODES) <==> !ShapeClean(Decoded(raw, judge).value))
    ensures resp.Some? ==>
            (HasCode(issues, {UnknownMediaToken}) <==> !MediaKnown(resp.value.mediaFilesToSend, req.media))
  {
    hide WrongType, Missing, HasUnknown, GateClean, MediaKnown, DecodeResponse, Decoded, HasCode;
    var decoded := Decoded(raw, judge);
    if decoded.None? {
      return None, [Issue(Parse, "not one JSON object")];
    }
    var wrongType, shape := CheckShape(decoded.value);
    if wrongType {
      return None, shape;
    }
    var r := DecodeResponse(decoded.value, req.kb, judge);
    ReplyLanguageIs(decoded.value, req.kb, judge);
    var language := if LanguageOK(r.replyLanguage) then [] else [Issue(BadLanguage, r.replyLanguage)];
    var unknown := CheckMedia(r.mediaFilesToSend, req.media);
    var gate := ValidateFactContract(r.replyText, req.kb, req.facts, req.media, r.replyLanguage, judge);
    CombinedIssues(shape, language, unknown, gate);
    return Some(r), shape + language + unknown + gate;
  }

  lemma CombinedIssues(shape: seq<Issue>, language: seq<Issue>, unknown: seq<Issue>, gate: seq<Issue>)
    requires !HasCode(shape, {UnknownMediaToken}) && !HasCode(unknown, SHAPE_CODES) && OnlyFactCodes(gate)
    requires forall i | 0 <= i < |language| :: language[i].code == BadLanguage
    ensures var issues := shape + language + unknown + gate;
            && (HasCode(issues, SHAPE_CODES) <==> HasCode(shape, SHAPE_CODES) || language != [])
            && (HasCode(issues, {UnknownMediaToken}) <==> HasCode(unknown, {UnknownMediaToken}))
  {
    AddCodes(shape, language);
    AddCodes(shape + language, unknown);
    AddCodes(shape + language + unknown, gate);
    assert language != [] ==> language[0].code in SHAPE_CODES;
    assert !HasCode(gate, SHAPE_CODES) && !HasCode(gate, {UnknownMediaToken});
    assert !HasCode(language, {UnknownMediaToken});
  }

  lemma ReplyLanguageIs(m: Object, kb: KB, judge: Judge)
    ensures DecodeResponse(m, kb, judge).replyLanguage == TextField(m, "reply_language")
  {
  }

  method CheckMedia(tokens: seq<string>, media: seq<MediaEntry>) returns (issues: seq<Issue>)
    ensures issues == [] <==> MediaKnown(tokens, media)
    ensures HasCode(issues, {UnknownMediaToken}) <==> !MediaKnown(tokens, media)
    ensures !HasCode(issues, SHAPE_CODES)
  {
    hide MediaByToken;
    issues := [];
    for i := 0 to |tokens|
      invariant issues == [] <==> forall k | 0 <= k < i :: MediaByToken(media, tokens[k]).Some?
      invariant forall k | 0 <= k < |issues| :: issues[k].code == UnknownMediaToken
    {
      if MediaByToken(media, tokens[i]).None? {
        issues := issues + [Issue(UnknownMediaToken, tokens[i])];
      }
    }
    assert issues != [] ==> issues[0].code in {UnknownMediaToken};
  }

  // ----- the rewrite -----

  // What a piece becomes: itself, or the value its placeholder resolves to.
  function PieceValue(kb: KB, facts: seq<FactEntry>, lang: string): Piece -> string {
    (p: Piece) =>
      if p.Plain? then [p.c]
      else
        var value := ResolveFact(p.token, kb, facts, lang);
        if value.Success? then value.value else p.token
  }

  // The reply with each scanned placeholder replaced in place and nothing else touched.
  function Rewritten(reply: string, kb: KB, facts: seq<FactEntry>, lang: string): string {
    FlatMap(Scan(reply), PieceValue(kb, facts, lang))
  }

  // Place by place: a text without braces stays, and a {{...}} that resolves gives way to its value.
  lemma RewrittenStep(before: string, body: string, rest: string, kb: KB, facts: seq<FactEntry>, lang: string,
                      value: string)
    requires !HasBrace(before) && !HasBrace(body)
    requires ResolveFact("{{" + body + "}}", kb, facts, lang) == Success(value)
    ensures Rewritten(before + "{{" + body + "}}" + rest, kb, facts, lang)
            == before + value + Rewritten(rest, kb, facts, lang)
  {
    hide ResolveFact, Scan, FlatMap, Map;
    var token, f := "{{" + body + "}}", PieceValue(kb, facts, lang);
    ScanStep(before, body, rest);
    assert before + "{{" + body + "}}" + rest == before + token + rest;
    FlatMapConcat(Map(before, AsPlain) + [Slot(token)], Scan(rest), f);
    FlatMapConcat(Map(before, AsPlain), [Slot(token)], f);
    FlatMapOne(Slot(token), f);
    PlainFlattens(before, f);
  }

  lemma {:induction false} PlainFlattens(s: string, f: Piece -> string)
    requires forall c :: f(Plain(c)) == [c]
    ensures FlatMap(Map(s, AsPlain), f) == s
  {
    if s != "" {
      var n := |s| - 1;
      PlainFlattens(s[..n], f);
      assert Map(s, AsPlain)[..n] == Map(s[..n], AsPlain);
    }
  }

  ghost predicate SlotsResolve(reply: string, kb: KB, facts: seq<FactEntry>, lang: string) {
    forall token | Slot(token) in Scan(reply) :: ResolveFact(token, kb, facts, lang).Success?
  }

  method SubstituteFacts(reply: string, kb: KB, facts: seq<FactEntry>, lang: string) returns (r: Result<string>)
    ensures r.Success? <==> SlotsResolve(reply, kb, facts, lang) && !HasBrace(Rewritten(reply, kb, facts, lang))
    ensures r.Success? ==> r.value == Rewritten(reply, kb, facts, lang)
  {
    hide ResolveFact, Scan, HasBrace;
    var pieces := Scan(reply);
    var f := PieceValue(kb, facts, lang);
    var out := "";
    var resolveErr: Option<string> := None;
    for i := 0 to |pieces|
      invariant out == FlatMap(pieces[..i], f)
      invariant resolveErr.None? <==>
                forall k | 0 <= k < i && pieces[k].Slot? :: ResolveFact(pieces[k].token, kb, facts, lang).Success?
    {
      FlatMapNext(pieces, f, i);
      if pieces[i].Plain? {
        out := out + [pieces[i].c];
        continue;
      }
      var value := ResolveFact(pieces[i].token, kb, facts, lang);
      if value.Failure? {
        if resolveErr.None? {
          resolveErr := Some(value.error);
        }
        out := out + pieces[i].token;
      } else {
        out := out + value.value;
      }
    }
    assert pieces[..|pieces|] == pieces;
    if resolveErr.Some? {
      ghost var k :| 0 <= k < |pieces| && pieces[k].Slot? && ResolveFact(pieces[k].token, kb, facts, lang).Failure?;
      assert Slot(pieces[k].token) in Scan(reply);
      return Failure(resolveErr.value);
    }
    if HasBrace(out) {
      return Failure("malformed fact placeholder in reply_text");
    }
    return Success(out);
  }

  // Some stored value that the reply quotes has a brace in it.
  ghost predicate QuotesABrace(reply: string, kb: KB, facts: seq<FactEntry>, lang: string) {
    exists token | Slot(token) in Scan(reply) ::
      ResolveFact(token, kb, facts, lang).Success? && HasBrace(ResolveFact(token, kb, facts, lang).value)
  }

  // Gate implies rewrite: a reply without issues is rewritten, unless a value it quotes itself holds a brace.
  lemma GateImpliesRewrite(reply: string, kb: KB, facts: seq<FactEntry>, media: seq<MediaEntry>, lang: string,
                           judge: Judge)
    requires GateClean(reply, kb, facts, media, lang, judge)
    ensures SlotsResolve(reply, kb, facts, lang)
    ensures HasBrace(Rewritten(reply, kb, facts, lang)) <==> QuotesABrace(reply, kb, facts, lang)
  {
    hide ResolveFact, Scan, FlatMap, ContainsText, HasBrace;
    var pieces, f := Scan(reply), PieceValue(kb, facts, lang);
    if HasBrace(FlatMap(pieces, f)) {
      var c := BraceIn(FlatMap(pieces, f));
      var i := FlatMapSource(pieces, f, c);
      if pieces[i].Plain? {
        InFlatMap(pieces, PlainText, i, c);
        BraceMeans(Without(pieces), c);
        assert false;
      } else {
        assert Slot(pieces[i].token) in pieces;
        BraceMeans(f(pieces[i]), c);
      }
    }
    if QuotesABrace(reply, kb, facts, lang) {
      var token :| Slot(token) in pieces && ResolveFact(token, kb, facts, lang).Success?
                   && HasBrace(ResolveFact(token, kb, facts, lang).value);
      var i :| 0 <= i < |pieces| && pieces[i] == Slot(token);
      var c := BraceIn(f(pieces[i]));
      InFlatMap(pieces, f, i, c);
      BraceMeans(FlatMap(pieces, f), c);
    }
  }

  lemma BraceIn(s: string) returns (c: char)
    requires HasBrace(s)
    ensures c in s && IsBrace(c)
  {
    var i :| 0 <= i < |s| && IsBrace(s[i]);
    c := s[i];
  }

  lemma BraceMeans(s: string, c: char)
    requires c in s && IsBrace(c)
    ensures HasBrace(s)
  {
    var i :| 0 <= i < |s| && s[i] == c;
  }
}
