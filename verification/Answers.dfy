/** The wire form of an answer, written out on its own: which objects the contract takes, and as what. */
module Answers {
  import opened Wrappers
  import opened Permutations
  import opened KnowledgeBase
  import opened Media
  import opened Contract
  import opened Extraction
  import opened Retry

  datatype Answer = Answer(text: string, language: string, tokens: seq<string>, escalate: bool)

  function Encode(a: Answer): Object {
    map["reply_text" := JString(a.text),
        "reply_language" := JString(a.language),
        "media_files_to_send" := JArray(Map(a.tokens, token => JString(token))),
        "escalate" := JBool(a.escalate)]
  }

  const DIAGNOSTIC_NAMES: set<string> := {"escalation_reason", "confidence", "kb_gap"}

  // Whatever of the answer m has, it has as a says.
  ghost predicate Fits(m: Object, a: Answer) {
    forall name | name in m && name in Encode(a) :: m[name] == Encode(a)[name]
  }

  // Exactly the whole answer, with diagnostics at most beside it.
  ghost predicate IsAnswer(m: Object, a: Answer) {
    Encode(a).Keys <= m.Keys <= Encode(a).Keys + DIAGNOSTIC_NAMES && Fits(m, a)
  }

  lemma FitsByField(m: Object, a: Answer)
    ensures Fits(m, a) <==>
            && ("reply_text" in m ==> m["reply_text"] == JString(a.text))
            && ("reply_language" in m ==> m["reply_language"] == JString(a.language))
            && ("media_files_to_send" in m ==>
                  m["media_files_to_send"] == JArray(Map(a.tokens, token => JString(token))))
            && ("escalate" in m ==> m["escalate"] == JBool(a.escalate))
  {
  }

  lemma FieldsOfTheContract(m: Object)
    ensures WrongType(m) <==>
            || ("reply_text" in m && !TypeOK("reply_text", m["reply_text"]))
            || ("reply_language" in m && !TypeOK("reply_language", m["reply_language"]))
            || ("media_files_to_send" in m && !TypeOK("media_files_to_send", m["media_files_to_send"]))
            || ("escalate" in m && !TypeOK("escalate", m["escalate"]))
  {
    assert OPERATIONAL[0] == "reply_text" && OPERATIONAL[1] == "reply_language";
    assert OPERATIONAL[2] == "media_files_to_send" && OPERATIONAL[3] == "escalate";
  }

  lemma {:induction false} ListRoundTrip(v: Json, tokens: seq<string>)
    ensures v.JArray? && (forall i | 0 <= i < |v.items| :: v.items[i].JString?) ==>
              v == JArray(Map(Strings(v.items), token => JString(token)))
    ensures v == JArray(Map(tokens, token => JString(token))) ==>
              && v.JArray? && (forall i | 0 <= i < |v.items| :: v.items[i].JString?)
              && Strings(v.items) == tokens
  {
  }

  // An object has no field of a wrong type exactly when it fits some answer, and then it is read as that answer,
  // with "", [] and false where it says nothing.
  lemma TypedIff(m: Object, kb: KB, judge: Judge)
    ensures !WrongType(m) <==> exists a :: Fits(m, a)
    ensures forall a | Fits(m, a) ::
              DecodeResponse(m, kb, judge) == Response(
                if "reply_text" in m then a.text else "", if "reply_language" in m then a.language else "",
                if "media_files_to_send" in m then a.tokens else [], "escalate" in m && a.escalate,
                judge.diagnose(kb, m))
  {
    hide WrongType, Fits, Strings, Encode;
    FieldsOfTheContract(m);
    var r := DecodeResponse(m, kb, judge);
    var read := Answer(r.replyText, r.replyLanguage, r.mediaFilesToSend, r.escalate);
    if !WrongType(m) {
      FitsByField(m, read);
      if "media_files_to_send" in m {
        ListRoundTrip(m["media_files_to_send"], []);
      }
      assert Fits(m, read);
    }
    forall a | Fits(m, a)
      ensures !WrongType(m)
      ensures r == Response(
                     if "reply_text" in m then a.text else "", if "reply_language" in m then a.language else "",
                     if "media_files_to_send" in m then a.tokens else [], "escalate" in m && a.escalate,
                     judge.diagnose(kb, m))
    {
      FitsByField(m, a);
      if "media_files_to_send" in m {
        ListRoundTrip(m["media_files_to_send"], a.tokens);
      }
    }
  }

  lemma KeysIff(m: Object, a: Answer)
    ensures !Missing(m) && !HasUnknown(m) <==> Encode(a).Keys <= m.Keys <= Encode(a).Keys + DIAGNOSTIC_NAMES
  {
    assert Encode(a).Keys == {"reply_text", "reply_language", "media_files_to_send", "escalate"};
    assert forall name :: name in OPERATIONAL <==> name in Encode(a).Keys;
    assert forall name :: name in DIAGNOSTIC <==> name in DIAGNOSTIC_NAMES;
    assert !Missing(m) <==> forall name | name in OPERATIONAL :: name in m;
  }

  // The shape is clean exactly for an answer in Russian or Kazakh, and that answer is what is read.
  lemma CleanIsAnswer(m: Object, kb: KB, judge: Judge)
    ensures !WrongType(m) && ShapeClean(m) <==> exists a :: IsAnswer(m, a) && a.language in {"ru", "kk"}
    ensures forall a | IsAnswer(m, a) ::
              DecodeResponse(m, kb, judge) == Response(a.text, a.language, a.tokens, a.escalate, judge.diagnose(kb, m))
  {
    hide WrongType, Fits, Strings, Missing, HasUnknown, Encode;
    TypedIff(m, kb, judge);
    forall a ensures !Missing(m) && !HasUnknown(m) <==> Encode(a).Keys <= m.Keys <= Encode(a).Keys + DIAGNOSTIC_NAMES {
      KeysIff(m, a);
    }
    forall a ensures {"reply_text", "reply_language", "media_files_to_send", "escalate"} == Encode(a).Keys {
      FieldsOfAnswer(a);
    }
    if !WrongType(m) && ShapeClean(m) {
      var a :| Fits(m, a);
      assert IsAnswer(m, a) && TextField(m, "reply_language") == a.language;
    }
  }

  lemma FieldsOfAnswer(a: Answer)
    ensures Encode(a).Keys == {"reply_text", "reply_language", "media_files_to_send", "escalate"}
  {
  }

  // ----- retries -----

  // What was extracted is the answer, in Russian or Kazakh.
  ghost predicate Says(ext: Option<Extracted>, judge: Judge, a: Answer) {
    && ext.Some? && Decoded(ext.value.final, judge).Some?
    && IsAnswer(Decoded(ext.value.final, judge).value, a) && a.language in {"ru", "kk"}
  }

  // An output that is no answer in the right shape is retried for its shape, an answer that asks for media which
  // do not all resolve for its media, and any other answer not at all.
  lemma ReasonMeans(ext: Option<Extracted>, req: Request, judge: Judge)
    ensures ReasonFor(ext, req, judge) == ContractShape <==> forall a :: !Says(ext, judge, a)
    ensures ReasonFor(ext, req, judge) == MediaNotFound <==>
            exists a :: Says(ext, judge, a) && !AllResolve(a.tokens, req.kb, req.media)
    ensures ReasonFor(ext, req, judge) == NoRetry <==>
            exists a :: Says(ext, judge, a) && AllResolve(a.tokens, req.kb, req.media)
  {
    hide Decoded, WrongType, ShapeClean, IsAnswer, AllResolve, DecodeResponse;
    if ext.Some? && Decoded(ext.value.final, judge).Some? {
      var m := Decoded(ext.value.final, judge).value;
      CleanIsAnswer(m, req.kb, judge);
      if a :| IsAnswer(m, a) && a.language in {"ru", "kk"} {
        assert Says(ext, judge, a);
      }
    }
  }
}
