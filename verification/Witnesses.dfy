/** One concrete input for each exception: what an accepted knowledge base, reply or list can run into. */
module Witnesses {
  import opened Wrappers
  import opened Text
  import opened Limits
  import opened Budgeting
  import opened Permutations
  import opened Placeholders
  import opened KnowledgeBase
  import opened Registry
  import opened Mentions
  import opened Catalogs
  import opened Resolver
  import opened Literals
  import opened Agreement
  import opened Readback
  import opened Collisions
  import opened FirstRows
  import opened Contract
  import opened Phones
  import opened Recipients
  import opened Previews

  // ----- the limiter -----

  // A full cap of width 0: one send allowed, one recorded after now, and the verdict grants another.
  lemma ZeroWidthGoesUnnoticed()
    ensures Sorted([1]) && Granted([Tier(0, 1)], [1], 0, None, 0) && !Permits([Tier(0, 1)], [1], 0, None, 0)
  {
    CountAfterAll([1], 0);
    assert !HasRoom([Tier(0, 1)][0], [1], 0);
  }

  // ----- knowledge bases -----

  function ProductAt(price: string): Product {
    Product("a", "", price, [], "in_stock", [], "active", "", [], [], [], [])
  }

  function BaseOf(products: seq<Product>): KB {
    KB("", [], products, [], None, None, None, [], [], [], [])
  }

  lemma BaseIsAccepted(prices: seq<string>, folding: Folding)
    ensures FactsAccepted(BaseOf(Map(prices, ProductAt)), folding)
  {
    var kb := BaseOf(Map(prices, ProductAt));
    forall i | 0 <= i < |kb.products| ensures ProductOK(kb.products[i], folding) {
      assert kb.products[i] == ProductAt(prices[i]);
    }
  }

  lemma PriceIsFilled(price: string)
    requires !Blank(price)
    ensures ProductFills(ProductAt(price), "price") && ProductVisible(ProductAt(price))
    ensures forall lang :: ProductWording(ProductAt(price), "price", lang) == price
  {
    hide Blank;
  }

  // Two products under one ref, at prices "1" and "2": accepted, with one token for both, and the second price unread.
  lemma SharedRefCollides(folding: Folding)
    ensures var kb := BaseOf(Map(["1", "2"], ProductAt));
            && FactsAccepted(kb, folding)
            && !Pairwise(CompiledFacts(kb), OtherToken) && !RowsReadBack(kb, "ru")
  {
    hide FactsAccepted, CompiledFacts, ProductFills, ProductVisible, ProductWording, RowsReadBack, CurrentTariff,
         CurrentSpecialist;
    var prices := ["1", "2"];
    var kb := BaseOf(Map(prices, ProductAt));
    BaseIsAccepted(prices, folding);
    assert !Blank("1") && !Blank("2") by {
      assert !IsSpace("1"[0]) && !IsSpace("2"[0]);
    }
    PriceIsFilled("1");
    PriceIsFilled("2");
    assert kb.products[0] == ProductAt("1") && kb.products[1] == ProductAt("2");
    TokensDistinctIff(kb, folding);
    assert !NoSharedCells(kb);
    ReadBackIff(kb, folding, "ru");
    FirstUnique(kb.products, (p: Product) => p.ref == kb.products[1].ref && ProductVisible(p), 0);
    assert CurrentProduct(kb, kb.products[1].ref) == Some(kb.products[0]);
  }

  // ----- replies -----

  // A price that holds a brace: the reply that quotes it passes the gate, and its rewriting is refused.
  lemma BracedPriceIsRefused(folding: Folding, judge: Judge)
    requires judge.folding.fold("") == "" && forall kb :: judge.phraseIssues(kb, "") == []
    ensures var kb := BaseOf(Map(["{"], ProductAt));
            var token := FactToken("product", "a", "price");
            && FactsAccepted(kb, folding)
            && GateClean(token, kb, CompiledFacts(kb), [], "ru", judge)
            && HasBrace(Rewritten(token, kb, CompiledFacts(kb), "ru"))
  {
    hide FactsAccepted, CompiledFacts, ProductFills, ProductVisible, ProductWording, ResolveFact, FactToken,
         FactByToken, CatalogLiterals, Scan;
    var prices := ["{"];
    var kb := BaseOf(Map(prices, ProductAt));
    var facts := CompiledFacts(kb);
    var token := FactToken("product", "a", "price");
    BaseIsAccepted(prices, folding);
    assert !Blank("{") by {
      assert !IsSpace("{"[0]);
    }
    PriceIsFilled("{");
    assert kb.products[0] == ProductAt("{");
    ProductReadsFirst(kb, folding, 0, "price", "ru");
    var e := ProductEntryFound(kb, folding, 0, "price");
    PriceTokenIsPlaceholder();
    ScanOfPlaceholder(token);
    FlatMapOne(Slot(token), PlainText);
    assert Without(Scan(token)) == "";
    NothingLeaks(CatalogLiterals(kb, facts, "ru", judge.folding), judge.folding);
    FlatMapOne(Slot(token), PieceValue(kb, facts, "ru"));
    assert Rewritten(token, kb, facts, "ru") == "{";
    assert IsBrace("{"[0]);
  }

  lemma PriceTokenIsPlaceholder()
    ensures IsPlaceholder(FactToken("product", "a", "price"))
  {
    var token, body := FactToken("product", "a", "price"), "product.a.price";
    assert token == "{{" + body + "}}";
    assert token[2..|token| - 2] == body;
    assert forall i | 0 <= i < |body| :: !IsBrace(body[i]);
  }

  lemma NothingLeaks(literals: seq<Literal>, f: Folding)
    requires f.fold("") == ""
    ensures LeaksNothing("", literals, f)
  {
  }

  // ----- recipient lists -----

  const PHONE := "77011234567"

  lemma PhoneIsPlain()
    ensures TrimSpace(PHONE) == PHONE && Identify(PHONE, "whatsapp", "7") == Success(PHONE)
  {
    hide TrimSpace, DigitsOnly;
    PlainIsTrimmed(PHONE);
    DigitsStay(PHONE);
    assert "7" <= PHONE;
  }

  const HEADER: seq<string> := ["phone", "city", "city"]

  function Unchanged(s: string): string {
    s
  }

  const CITY := "Almaty"
  const OTHER_CITY := "Astana"

  // The header "phone,city,city": a row with two cities has two sets of attributes, one for each.
  lemma RepeatedHeaderIsAmbiguous()
    ensures exists c, a, b ::
              && IsColumns(Some(HEADER), [[PHONE, CITY, OTHER_CITY]], Unchanged, c)
              && IsAttributes(a, [PHONE, CITY, OTHER_CITY], c.attributes)
              && IsAttributes(b, [PHONE, CITY, OTHER_CITY], c.attributes) && a != b
  {
    hide IsColumns, IsAttributes, PHONE, CITY, OTHER_CITY, HEADER;
    var c := Columns(0, -1, map[1 := "city", 2 := "city"]);
    HeaderColumns([[PHONE, CITY, OTHER_CITY]], c);
    CitiesArePlain();
    var a, b := TwoCities(PHONE, CITY, OTHER_CITY, c);
  }

  lemma CitiesArePlain()
    ensures TrimSpace(CITY) == CITY != "" && TrimSpace(OTHER_CITY) == OTHER_CITY != "" && CITY != OTHER_CITY
  {
    hide TrimSpace;
    PlainIsTrimmed(CITY);
    PlainIsTrimmed(OTHER_CITY);
    assert CITY[1] != OTHER_CITY[1];
  }

  lemma TwoCities(phone: string, x: string, y: string, c: Columns)
    returns (a: map<string, string>, b: map<string, string>)
    requires c.attributes == map[1 := "city", 2 := "city"]
    requires TrimSpace(x) == x != "" && TrimSpace(y) == y != "" && x != y
    ensures IsAttributes(a, [phone, x, y], c.attributes) && IsAttributes(b, [phone, x, y], c.attributes) && a != b
  {
    hide TrimSpace;
    a, b := map["city" := x], map["city" := y];
    assert CellAt([phone, x, y], 1) == x && CellAt([phone, x, y], 2) == y;
    assert c.attributes[1] == "city" && c.attributes[2] == "city";
    assert a["city"] != b["city"];
  }

  lemma HeaderColumns(data: Table, c: Columns)
    requires c == Columns(0, -1, map[1 := "city", 2 := "city"])
    ensures IsColumns(Some(HEADER), data, Unchanged, c)
  {
    hide TrimSpace, IsMostDigits, Positional;
    HeaderIsPlain();
    assert Unchanged(TrimSpace(HEADER[0])) in PHONE_NAMES;
    assert HEADER[0] == "phone" && HEADER[1] == "city" && HEADER[2] == "city";
    assert AttributeKey(HEADER, 1) == "city" && AttributeKey(HEADER, 2) == "city";
    assert c.attributes == map i | 0 <= i < |HEADER| && i != c.phone && i != c.name :: AttributeKey(HEADER, i);
  }

  lemma HeaderIsPlain()
    ensures TrimSpace("phone") == "phone" && TrimSpace("city") == "city"
    ensures "phone" in PHONE_NAMES && "city" !in PHONE_NAMES && "phone" !in NAME_NAMES && "city" !in NAME_NAMES
  {
    hide TrimSpace;
    PlainIsTrimmed("phone");
    PlainIsTrimmed("city");
    NamesInHeader();
  }

  lemma NamesInHeader()
    ensures "phone" in PHONE_NAMES && "city" !in PHONE_NAMES && "phone" !in NAME_NAMES && "city" !in NAME_NAMES
  {
    assert forall name | name in PHONE_NAMES :: |name| != |"city"|;
    assert forall name | name in NAME_NAMES :: |name| != |"phone"| && name[0] != "city"[0];
  }

  // The same phone on two lines, and that phone unreachable: the duplicate is left without a valid row.
  lemma DuplicateLosesItsValid(why: string)
    ensures exists rows: seq<Recipient> ::
              && AllBucketed(rows, [[PHONE], [PHONE]], Columns(0, -1, map[]), "whatsapp", "7")
              && DuplicatesHaveValid(rows) && !DuplicatesHaveValid(Map(rows, Demote({PHONE}, why)))
  {
    hide TrimSpace, Identify;
    PhoneIsPlain();
    var first := Recipient(PHONE, "", map[], PHONE, Valid, "");
    var second := first.(status := Duplicate, reason := DUPLICATE_REASON);
    var rows, data, c := [first, second], [[PHONE], [PHONE]], Columns(0, -1, map[]);
    assert IsRow(first, [PHONE], c, "whatsapp", "7");
    assert second.(status := Valid, reason := "") == first;
    assert rows[0].identity == rows[1].identity && SeenBefore(rows, 1);
    assert AllBucketed(rows, data, c, "whatsapp", "7");
    assert DuplicatesHaveValid(rows);
    DuplicatesKeepTheirValid(rows, {PHONE}, why);
  }
}
