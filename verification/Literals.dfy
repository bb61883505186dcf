/** The literal-leak check: exact values the model wrote out instead of naming their token. */
module Literals {
  import opened Wrappers
  import opened Permutations
  import opened KnowledgeBase
  import opened Registry
  import opened Resolver
  import opened Mentions

  // ----- which values count -----

  /** A token of the catalog and the value it resolves to. */
  datatype Literal = Literal(token: string, value: string)

  function LiteralOf(kb: KB, facts: seq<FactEntry>, lang: string, f: Folding): FactEntry -> seq<Literal> {
    (e: FactEntry) =>
      var value := ResolveFact(e.token, kb, facts, lang);
      if value.Success? && f.fold(value.value) != "" then [Literal(e.token, value.value)] else []
  }

  // Everything the catalog resolves to; a fact that no longer resolves is not held against the reply.
  function CatalogLiterals(kb: KB, facts: seq<FactEntry>, lang: string, f: Folding): seq<Literal> {
    FlatMap(facts, LiteralOf(kb, facts, lang, f))
  }

  function FoldedValue(f: Folding): Literal -> string {
    (l: Literal) => f.fold(l.value)
  }

  // No other token of the catalog folds to the same value, so a mention of it can only be this one's.
  ghost predicate Identifies(literals: seq<Literal>, k: nat, f: Folding)
    requires k < |literals|
  {
    forall j | 0 <= j < |literals| && j != k :: f.fold(literals[j].value) != f.fold(literals[k].value)
  }

  ghost predicate LeaksNothing(text: string, literals: seq<Literal>, f: Folding) {
    forall k | 0 <= k < |literals| && Identifies(literals, k, f) :: !Mentioned(text, literals[k].value, f)
  }

  method ResolveCatalog(kb: KB, facts: seq<FactEntry>, lang: string, f: Folding)
    returns (resolved: seq<Literal>, valueTokens: map<string, seq<string>>)
    ensures resolved == CatalogLiterals(kb, facts, lang, f)
    ensures Indexed(valueTokens, Map(resolved, FoldedValue(f)))
  {
    hide ResolveFact, FlatMap, Map, Indexed;
    ghost var literal := LiteralOf(kb, facts, lang, f);
    resolved, valueTokens := [], map[];
    NothingIndexed(facts, literal, f);
    for i := 0 to |facts|
      invariant resolved == FlatMap(facts[..i], literal)
      invariant Indexed(valueTokens, Map(resolved, FoldedValue(f)))
    {
      FlatMapNext(facts, literal, i);
      var value := ResolveFact(facts[i].token, kb, facts, lang);
      if value.Failure? {
        continue;
      }
      var folded := f.fold(value.value);
      if folded == "" {
        continue;
      }
      IndexedNext(valueTokens, resolved, Literal(facts[i].token, value.value), f);
      resolved := resolved + [Literal(facts[i].token, value.value)];
      valueTokens := valueTokens[folded := TokensOf(valueTokens, folded) + [facts[i].token]];
    }
    assert facts[..|facts|] == facts;
  }

  function TokensOf(valueTokens: map<string, seq<string>>, folded: string): seq<string> {
    if folded in valueTokens then valueTokens[folded] else []
  }

  // valueTokens lists as many tokens under each value as there are occurrences of it.
  ghost predicate Indexed(valueTokens: map<string, seq<string>>, values: seq<string>) {
    forall v :: |TokensOf(valueTokens, v)| == multiset(values)[v]
  }

  lemma NothingIndexed(facts: seq<FactEntry>, literal: FactEntry -> seq<Literal>, f: Folding)
    ensures FlatMap(facts[..0], literal) == [] && Indexed(map[], Map([], FoldedValue(f)))
  {
  }

  lemma IndexedNext(valueTokens: map<string, seq<string>>, resolved: seq<Literal>, l: Literal, f: Folding)
    requires Indexed(valueTokens, Map(resolved, FoldedValue(f)))
    ensures var folded := f.fold(l.value);
            Indexed(valueTokens[folded := TokensOf(valueTokens, folded) + [l.token]],
                    Map(resolved + [l], FoldedValue(f)))
  {
    assert Map(resolved + [l], FoldedValue(f)) == Map(resolved, FoldedValue(f)) + [f.fold(l.value)];
  }

  // A value listed once identifies its token.
  lemma ListedOnce(valueTokens: map<string, seq<string>>, literals: seq<Literal>, k: nat, f: Folding)
    requires k < |literals| && Indexed(valueTokens, Map(literals, FoldedValue(f)))
    ensures |TokensOf(valueTokens, f.fold(literals[k].value))| <= 1 <==> Identifies(literals, k, f)
  {
    var values := Map(literals, FoldedValue(f));
    if multiset(values)[values[k]] >= 2 {
      var i, j := TwoIndices(values, values[k]);
    } else {
      forall j | 0 <= j < |literals| && j != k ensures values[j] != values[k] {
        if values[j] == values[k] {
          CountTwo(values, if j < k then j else k, if j < k then k else j);
        }
      }
    }
  }

  // Each value is looked for once, and only when exactly one token resolves to it.
  method FindLeaks(text: string, kb: KB, facts: seq<FactEntry>, lang: string, f: Folding) returns (leaked: seq<string>)
    ensures leaked == [] <==> LeaksNothing(text, CatalogLiterals(kb, facts, lang, f), f)
  {
    hide ResolveFact, FlatMap, Map, Indexed, Mentioned, Identifies;
    var resolved, valueTokens := ResolveCatalog(kb, facts, lang, f);
    var checked: set<string> := {};
    leaked := [];
    for i := 0 to |resolved|
      invariant forall v :: v in checked <==> exists k | 0 <= k < i :: f.fold(resolved[k].value) == v
      invariant leaked == [] <==>
                forall k | 0 <= k < i && Identifies(resolved, k, f) :: !Mentioned(text, resolved[k].value, f)
    {
      var folded := f.fold(resolved[i].value);
      if folded in checked {
        var k :| 0 <= k < i && f.fold(resolved[k].value) == folded;
        SharedValue(resolved, k, i, f);
        continue;
      }
      checked := checked + {folded};
      ListedOnce(valueTokens, resolved, i, f);
      if |TokensOf(valueTokens, folded)| > 1 {
        continue;
      }
      var found := ContainsLiteral(text, resolved[i].value, f);
      if found {
        leaked := leaked + [resolved[i].token];
      }
    }
  }

  lemma SharedValue(literals: seq<Literal>, j: nat, k: nat, f: Folding)
    requires j < k < |literals| && f.fold(literals[j].value) == f.fold(literals[k].value)
    ensures !Identifies(literals, k, f)
  {
  }

  // ----- what a leak is, fact by fact -----

  // The value the k-th fact resolves to, if it does and anything is left of it when folded.
  ghost predicate HasValue(kb: KB, facts: seq<FactEntry>, lang: string, f: Folding, k: nat, value: string)
    requires k < |facts|
  {
    ResolveFact(facts[k].token, kb, facts, lang) == Success(value) && f.fold(value) != ""
  }

  // And no other fact's value folds to the same.
  ghost predicate HasOwnValue(kb: KB, facts: seq<FactEntry>, lang: string, f: Folding, k: nat, value: string)
    requires k < |facts|
  {
    && HasValue(kb, facts, lang, f, k, value)
    && forall j, other | 0 <= j < |facts| && j != k && HasValue(kb, facts, lang, f, j, other) ::
         f.fold(other) != f.fold(value)
  }

  // Nothing leaks exactly when the text mentions no fact's own value.
  lemma LeaksNothingIff(text: string, kb: KB, facts: seq<FactEntry>, lang: string, f: Folding)
    ensures LeaksNothing(text, CatalogLiterals(kb, facts, lang, f), f) <==>
            forall k, value | 0 <= k < |facts| && HasOwnValue(kb, facts, lang, f, k, value) ::
              !Mentioned(text, value, f)
  {
    hide ResolveFact, Mentioned, HasOwnValue, Identifies;
    var literals := CatalogLiterals(kb, facts, lang, f);
    forall k, value | 0 <= k < |facts| && HasOwnValue(kb, facts, lang, f, k, value)
      ensures exists i | 0 <= i < |literals| :: Identifies(literals, i, f) && literals[i].value == value
    {
      var i := OwnIdentifies(kb, facts, lang, f, k, value);
    }
    forall i | 0 <= i < |literals| && Identifies(literals, i, f)
      ensures exists k | 0 <= k < |facts| :: HasOwnValue(kb, facts, lang, f, k, literals[i].value)
    {
      var k := IdentifiesOwn(kb, facts, lang, f, i);
    }
  }

  lemma OneLiteralAtMost(kb: KB, facts: seq<FactEntry>, lang: string, f: Folding, k: nat)
    requires k < |facts|
    ensures var literal := LiteralOf(kb, facts, lang, f);
            && |literal(facts[k])| <= 1
            && (|literal(facts[k])| == 1 ==> HasValue(kb, facts, lang, f, k, literal(facts[k])[0].value))
            && forall value | HasValue(kb, facts, lang, f, k, value) ::
                 literal(facts[k]) == [Literal(facts[k].token, value)]
  {
    hide ResolveFact;
  }

  lemma OwnIdentifies(kb: KB, facts: seq<FactEntry>, lang: string, f: Folding, k: nat, value: string)
    returns (i: nat)
    requires k < |facts| && HasOwnValue(kb, facts, lang, f, k, value)
    ensures var literals := CatalogLiterals(kb, facts, lang, f);
            i < |literals| && Identifies(literals, i, f) && literals[i].value == value
  {
    hide ResolveFact, FlatMap, LiteralOf, HasValue, Place;
    var literal := LiteralOf(kb, facts, lang, f);
    var literals := FlatMap(facts, literal);
    forall j | 0 <= j < |facts| ensures |literal(facts[j])| <= 1 {
      OneLiteralAtMost(kb, facts, lang, f, j);
    }
    OneLiteralAtMost(kb, facts, lang, f, k);
    PlaceHolds(facts, literal, k);
    i := Place(facts, literal, k);
    forall j | 0 <= j < |literals| && j != i ensures f.fold(literals[j].value) != f.fold(literals[i].value) {
      var n := PlaceOf(facts, literal, j);
      OneLiteralAtMost(kb, facts, lang, f, n);
      PlaceHolds(facts, literal, n);
    }
  }

  lemma IdentifiesOwn(kb: KB, facts: seq<FactEntry>, lang: string, f: Folding, i: nat) returns (k: nat)
    requires var literals := CatalogLiterals(kb, facts, lang, f); i < |literals| && Identifies(literals, i, f)
    ensures k < |facts| && HasOwnValue(kb, facts, lang, f, k, CatalogLiterals(kb, facts, lang, f)[i].value)
  {
    hide ResolveFact, FlatMap, LiteralOf, HasValue, Place;
    var literal := LiteralOf(kb, facts, lang, f);
    var literals := FlatMap(facts, literal);
    forall j | 0 <= j < |facts| ensures |literal(facts[j])| <= 1 {
      OneLiteralAtMost(kb, facts, lang, f, j);
    }
    k := PlaceOf(facts, literal, i);
    PlaceHolds(facts, literal, k);
    OneLiteralAtMost(kb, facts, lang, f, k);
    var value := literals[i].value;
    forall j, other | 0 <= j < |facts| && j != k && HasValue(kb, facts, lang, f, j, other)
      ensures f.fold(other) != f.fold(value)
    {
      OneLiteralAtMost(kb, facts, lang, f, j);
      PlaceHolds(facts, literal, j);
      if j < k {
        PlacesApart(facts, literal, j, k);
      } else {
        PlacesApart(facts, literal, k, j);
      }
    }
  }
}
