/** The first approved row with a ref speaks for all: exactly when a cell reads back as its own row has it. */
module FirstRows {
  import opened Wrappers
  import opened Text
  import opened Permutations
  import opened Firsts
  import opened Schedules
  import opened KnowledgeBase
  import opened Registry
  import opened Mentions
  import opened Facts
  import opened Hierarchies
  import opened Catalogs
  import opened Resolver
  import opened Agreement
  import opened Readback
  import opened Collisions

  // ----- what a row says -----

  function NamedFact(column: string): AdditionalFact -> bool {
    (f: AdditionalFact) => f.ref == column
  }

  // What a row itself says in a column, in a reply language.
  function FactWording(facts: seq<AdditionalFact>, column: string, lang: string): Option<string> {
    var f := First(facts, NamedFact(column));
    if f.Some? then Some(Wording(f.value.value, lang)) else None
  }

  function ProductWording(p: Product, column: string, lang: string): string {
    FactWording(p.additionalFacts, column, lang).GetOr(ProductValues(p)(column))
  }

  function TariffWording(t: Tariff, column: string, lang: string): string {
    FactWording(t.additionalFacts, column, lang).GetOr(TariffValues(t)(column))
  }

  function SpecialistWording(s: Specialist, salonURL: string, column: string, lang: string): string {
    ScheduleFactValue(column, ResolvedBookingURL(s.bookingURL, salonURL), Canonical(s.schedule), lang).GetOr("")
  }

  // A token found among the rows of its own table, the first of them that has it.
  lemma FoundInFirstRow<R>(before: seq<FactEntry>, rows: seq<R>, f: R -> seq<FactEntry>, after: seq<FactEntry>,
                           i: nat, token: string, y: FactEntry)
    requires i < |rows| && y in f(rows[i]) && y.token == token
    requires forall x | x in before :: x.token != token
    requires forall k, x | 0 <= k < i && x in f(rows[k]) :: x.token != token
    ensures var e := FactByToken(before + FlatMap(rows, f) + after, token);
            e.Some? && e.value in f(rows[i]) && e.value.token == token
  {
    hide FlatMap;
    var p := HasToken(token);
    FirstIsIn(before, p);
    FirstIsIn(f(rows[i]), p);
    forall k | 0 <= k < i ensures First(f(rows[k]), p).None? {
      FirstIsIn(f(rows[k]), p);
    }
    FirstOfRows(rows, f, p, i);
    FirstOfConcat(before, FlatMap(rows, f), p);
    FirstOfConcat(before + FlatMap(rows, f), after, p);
  }

  lemma ReservedHasNoFact(facts: seq<AdditionalFact>, reserved: seq<string>, prose: seq<string>, folding: Folding,
                          column: string, lang: string)
    requires facts != [] ==> FactsOK(facts, reserved, prose, folding)
    requires column in reserved
    ensures FactWording(facts, column, lang).None?
  {
    hide ValueOK, InstructionOK, AbsentFromProse, ValidFactRef;
    FirstIsIn(facts, NamedFact(column));
    forall f | f in facts ensures f.ref !in reserved {
      var i :| 0 <= i < |facts| && facts[i] == f;
      assert FactOK(facts[i], reserved, folding);
    }
  }

  // Refs are distinct, so what is stored under one is the row's own wording.
  lemma WordingIsStored(facts: seq<AdditionalFact>, reserved: seq<string>, prose: seq<string>, folding: Folding,
                        column: string, lang: string)
    requires facts != [] ==> FactsOK(facts, reserved, prose, folding)
    ensures forall v | VirtualStored(facts, column, lang, v) :: FactWording(facts, column, lang) == Some(v)
  {
    hide FactOK, AbsentFromProse, Wording;
    FirstIsIn(facts, NamedFact(column));
    forall v | VirtualStored(facts, column, lang, v) ensures FactWording(facts, column, lang) == Some(v) {
      var f :| f in facts && f.ref == column && v == Wording(f.value, lang);
      var g := First(facts, NamedFact(column)).value;
      var i :| 0 <= i < |facts| && facts[i] == f;
      var j :| 0 <= j < |facts| && facts[j] == g;
      assert forall k, l | 0 <= k < l < |facts| :: OtherFact(facts[k], facts[l]);
    }
  }

  lemma UnfilledByToken(facts: seq<FactEntry>, token: string)
    ensures FactByToken(facts, token).Some? ==>
              FactByToken(facts, token).value in facts && FactByToken(facts, token).value.token == token
  {
    FirstIsIn(facts, HasToken(token));
  }

  // ----- products -----

  // What an entry of the row in charge reads back as.
  lemma ProductEntryValue(kb: KB, folding: Folding, q: Product, e: FactEntry, lang: string)
    requires ProductOK(q, folding) && CurrentProduct(kb, q.ref) == Some(q) && e in ProductFacts(q)
    ensures CurrentFactValue(kb, e, lang) == Success(ProductWording(q, e.column, lang))
  {
    hide ProductFacts, ProductVisible, FactsOK, IsColumnEntry, IsVirtualEntry, Blank, FactColumnSpec, TrimSpace;
    ProductEntry(q, e);
    ValidRefIsDotless(q.ref);
    BlankEmpty();
    if IsColumnEntry(e, "product", q.ref, ProductValues(q)) {
      ColumnEntryIsNamed(e, "product", q.ref, ProductValues(q));
      ReservedHasNoFact(q.additionalFacts, PRODUCT_RESERVED, q.prose, folding, e.column, lang);
    } else {
      VirtualReadsBack(e, "product", q.ref, q.additionalFacts, PRODUCT_RESERVED, q.prose, folding, lang);
      WordingIsStored(q.additionalFacts, PRODUCT_RESERVED, q.prose, folding, e.column, lang);
    }
  }

  // No entry for a column the row in charge does not fill reads back as anything.
  lemma ProductUnfilledFails(kb: KB, q: Product, e: FactEntry, lang: string)
    requires ProductVisible(q) && CurrentProduct(kb, q.ref) == Some(q) && e.table == "product" && e.ref == q.ref
    requires !ProductFills(q, e.column)
    ensures CurrentFactValue(kb, e, lang).Failure?
  {
    hide ProductVisible, Blank;
    BlankEmpty();
    FirstIsIn(q.additionalFacts, (f: AdditionalFact) => f.ref == e.column);
  }

  lemma ProductEntryFound(kb: KB, folding: Folding, i: nat, column: string) returns (e: FactEntry)
    requires FactsAccepted(kb, folding) && i < |kb.products| && ProductFills(kb.products[i], column)
    requires forall k | 0 <= k < i :: kb.products[k].ref != kb.products[i].ref || !ProductVisible(kb.products[k])
    ensures FactByToken(CompiledFacts(kb), FactToken("product", kb.products[i].ref, column)) == Some(e)
    ensures e in ProductFacts(kb.products[i]) && e.column == column && WellNamed(e)
  {
    hide FlatMap, ProductFacts, ProductVisible, ProductFills, ProductOK, TariffOK, SingletonFacts, BookableFacts,
         SingletonsAccepted, BookablesAccepted, FactColumnSpec, FactByToken;
    var rows, q := kb.products, kb.products[i];
    var token := FactToken("product", q.ref, column);
    assert ProductOK(q, folding);
    VisibleWhenFilled(q, column, folding);
    ProductCellCompiles(q, folding, column);
    var y :| y in ProductFacts(q) && y.table == "product" && y.ref == q.ref && y.column == column;
    ProductEntryIsNamed(q, folding, y);
    forall k, x | 0 <= k < i && x in ProductFacts(rows[k]) ensures x.token != token {
      ProductEntryIsNamed(rows[k], folding, x);
      ProductEntry(rows[k], x);
      if x.token == token {
        TokenNamesOneCell(x.table, x.ref, x.column, "product", q.ref, column);
      }
    }
    var after := FlatMap(kb.tariffs, TariffFacts) + SingletonFacts(kb) + BookableFacts(kb);
    FoundInFirstRow([], rows, ProductFacts, after, i, token, y);
    assert CompiledFacts(kb) == [] + FlatMap(rows, ProductFacts) + after;
    e := FactByToken(CompiledFacts(kb), token).value;
    ProductEntryIsNamed(q, folding, e);
    TokenNamesOneCell(e.table, e.ref, e.column, "product", q.ref, column);
  }

  lemma VisibleWhenFilled(p: Product, column: string, folding: Folding)
    requires ProductFills(p, column) && ProductOK(p, folding)
    ensures ProductVisible(p) && Dotless(p.ref) && Dotless("product")
  {
    ValidRefIsDotless(p.ref);
  }

  // A product's token says what the first visible row with its ref says, and nothing where that row is silent.
  lemma ProductReadsFirst(kb: KB, folding: Folding, i: nat, column: string, lang: string)
    requires FactsAccepted(kb, folding) && i < |kb.products| && ProductVisible(kb.products[i])
    requires forall k | 0 <= k < i :: kb.products[k].ref != kb.products[i].ref || !ProductVisible(kb.products[k])
    ensures var r := ResolveFact(FactToken("product", kb.products[i].ref, column), kb, CompiledFacts(kb), lang);
            if ProductFills(kb.products[i], column) then r == Success(ProductWording(kb.products[i], column, lang))
            else r.Failure?
  {
    hide CompiledFacts, ProductFacts, ProductVisible, ProductFills, ProductOK, TariffOK, SingletonsAccepted,
         BookablesAccepted, CurrentFactValue, ProductWording, FactColumnSpec, FactByToken;
    var q, facts := kb.products[i], CompiledFacts(kb);
    assert ProductOK(q, folding);
    FirstUnique(kb.products, (p: Product) => p.ref == kb.products[i].ref && ProductVisible(p), i);
    if ProductFills(q, column) {
      var e := ProductEntryFound(kb, folding, i, column);
      ProductEntryValue(kb, folding, q, e, lang);
    } else {
      var token := FactToken("product", q.ref, column);
      UnfilledByToken(facts, token);
      if FactByToken(facts, token).Some? {
        var e := FactByToken(facts, token).value;
        EveryEntryIsNamed(kb, folding, e);
        VisibleIsDotless(q, folding);
        TokenNamesOneCell(e.table, e.ref, e.column, "product", q.ref, column);
        ProductUnfilledFails(kb, q, e, lang);
      }
    }
  }

  lemma VisibleIsDotless(p: Product, folding: Folding)
    requires ProductVisible(p) && ProductOK(p, folding)
    ensures Dotless(p.ref) && Dotless("product")
  {
    ValidRefIsDotless(p.ref);
  }

  // ----- tariffs -----

  // No other table's entry has the token of a cell.
  lemma OtherTables(kb: KB, folding: Folding, token: string, table: string, ref: string, column: string)
    requires FactsAccepted(kb, folding) && token == FactToken(table, ref, column) && Dotless(table) && Dotless(ref)
    ensures forall x | x in CompiledFacts(kb) && x.token == token ::
            x.table == table && x.ref == ref && x.column == column
    ensures table != "product" ==> forall x | x in FlatMap(kb.products, ProductFacts) :: x.token != token
    ensures table == "specialist" ==>
              forall x | x in PlanFacts(kb) + SingletonFacts(kb) + FlatMap(kb.deliveryZones, ZoneFacts) ::
                  x.token != token
  {
    hide FactsAccepted, FlatMap, ProductFacts, TariffFacts, ZoneFacts, ServiceFacts, SpecialistFacts, SingletonFacts,
         FactColumnSpec;
    forall x | x in CompiledFacts(kb) && x.token == token
      ensures x.table == table && x.ref == ref && x.column == column
    {
      EveryEntryIsNamed(kb, folding, x);
      TokenNamesOneCell(x.table, x.ref, x.column, table, ref, column);
    }
    EarlierTables(kb, folding);
  }

  // Which tables the catalog lists before the specialists.
  lemma EarlierTables(kb: KB, folding: Folding)
    requires FactsAccepted(kb, folding)
    ensures forall x | x in FlatMap(kb.products, ProductFacts) :: x.table == "product"
    ensures forall x | x in PlanFacts(kb) :: x.table in {"product", "tariff"}
    ensures forall x | x in SingletonFacts(kb) :: x.table in {"tariff_info", "contact", "policy"}
    ensures forall x | x in FlatMap(kb.deliveryZones, ZoneFacts) :: x.table == "delivery"
  {
    hide FlatMap, ProductFacts, TariffFacts, ZoneFacts, ProductOK, TariffOK, SingletonsAccepted, SingletonFacts,
         SpecialistOK, ServicesOK, ZonesOK;
    forall x | x in FlatMap(kb.products, ProductFacts) ensures x.table == "product" {
      var n := FlatMapSource(kb.products, ProductFacts, x);
      ProductEntryIsNamed(kb.products[n], folding, x);
    }
    forall x | x in FlatMap(kb.tariffs, TariffFacts) ensures x.table == "tariff" {
      var n := FlatMapSource(kb.tariffs, TariffFacts, x);
      TariffEntryIsNamed(kb.tariffs[n], folding, x);
    }
    SingletonFactsDistinct(kb, folding);
    ZoneTable(kb);
  }

  // What an entry of the row in charge reads back as.
  lemma TariffEntryValue(kb: KB, folding: Folding, q: Tariff, e: FactEntry, lang: string)
    requires TariffOK(q, folding) && CurrentTariff(kb, q.ref) == Some(q) && e in TariffFacts(q)
    ensures CurrentFactValue(kb, e, lang) == Success(TariffWording(q, e.column, lang))
  {
    hide TariffFacts, FactsOK, IsColumnEntry, IsVirtualEntry, Blank, FactColumnSpec, TrimSpace;
    TariffEntry(q, e);
    ValidRefIsDotless(q.ref);
    BlankEmpty();
    if IsColumnEntry(e, "tariff", q.ref, TariffValues(q)) {
      ColumnEntryIsNamed(e, "tariff", q.ref, TariffValues(q));
      ReservedHasNoFact(q.additionalFacts, TARIFF_RESERVED, q.prose, folding, e.column, lang);
    } else {
      VirtualReadsBack(e, "tariff", q.ref, q.additionalFacts, TARIFF_RESERVED, q.prose, folding, lang);
      WordingIsStored(q.additionalFacts, TARIFF_RESERVED, q.prose, folding, e.column, lang);
    }
  }

  // No entry for a column the row in charge does not fill reads back as anything.
  lemma TariffUnfilledFails(kb: KB, q: Tariff, e: FactEntry, lang: string)
    requires Active(q.salesStatus) && CurrentTariff(kb, q.ref) == Some(q) && e.table == "tariff" && e.ref == q.ref
    requires !TariffFills(q, e.column)
    ensures CurrentFactValue(kb, e, lang).Failure?
  {
    hide Blank;
    BlankEmpty();
    FirstIsIn(q.additionalFacts, (f: AdditionalFact) => f.ref == e.column);
  }

  lemma TariffEntryFound(kb: KB, folding: Folding, i: nat, column: string) returns (e: FactEntry)
    requires FactsAccepted(kb, folding) && i < |kb.tariffs| && TariffFills(kb.tariffs[i], column)
    requires forall k | 0 <= k < i :: kb.tariffs[k].ref != kb.tariffs[i].ref || !Active(kb.tariffs[k].salesStatus)
    ensures FactByToken(CompiledFacts(kb), FactToken("tariff", kb.tariffs[i].ref, column)) == Some(e)
    ensures e in TariffFacts(kb.tariffs[i]) && e.column == column && WellNamed(e)
  {
    hide FlatMap, ProductFacts, TariffFacts, TariffFills, ProductOK, TariffOK, SingletonFacts, BookableFacts,
         SingletonsAccepted, BookablesAccepted, FactColumnSpec, FactByToken;
    var rows, q := kb.tariffs, kb.tariffs[i];
    var token := FactToken("tariff", q.ref, column);
    assert TariffOK(q, folding);
    ActiveWhenFilled(q, column, folding);
    TariffCellCompiles(q, folding, column);
    var y :| y in TariffFacts(q) && y.table == "tariff" && y.ref == q.ref && y.column == column;
    TariffEntryIsNamed(q, folding, y);
    forall k, x | 0 <= k < i && x in TariffFacts(rows[k]) ensures x.token != token {
      TariffEntryIsNamed(rows[k], folding, x);
      TariffEntry(rows[k], x);
      if x.token == token {
        TokenNamesOneCell(x.table, x.ref, x.column, "tariff", q.ref, column);
      }
    }
    var before, after := FlatMap(kb.products, ProductFacts), SingletonFacts(kb) + BookableFacts(kb);
    OtherTables(kb, folding, token, "tariff", q.ref, column);
    FoundInFirstRow(before, rows, TariffFacts, after, i, token, y);
    assert CompiledFacts(kb) == before + FlatMap(rows, TariffFacts) + after;
    e := FactByToken(CompiledFacts(kb), token).value;
    TariffEntryIsNamed(q, folding, e);
    TokenNamesOneCell(e.table, e.ref, e.column, "tariff", q.ref, column);
  }

  lemma ActiveWhenFilled(t: Tariff, column: string, folding: Folding)
    requires TariffFills(t, column) && TariffOK(t, folding)
    ensures Active(t.salesStatus) && Dotless(t.ref) && Dotless("tariff")
  {
    ValidRefIsDotless(t.ref);
  }

  // A tariff's token says what the first active row with its ref says, and nothing where that row is silent.
  lemma TariffReadsFirst(kb: KB, folding: Folding, i: nat, column: string, lang: string)
    requires FactsAccepted(kb, folding) && i < |kb.tariffs| && Active(kb.tariffs[i].salesStatus)
    requires forall k | 0 <= k < i :: kb.tariffs[k].ref != kb.tariffs[i].ref || !Active(kb.tariffs[k].salesStatus)
    ensures var r := ResolveFact(FactToken("tariff", kb.tariffs[i].ref, column), kb, CompiledFacts(kb), lang);
            if TariffFills(kb.tariffs[i], column) then r == Success(TariffWording(kb.tariffs[i], column, lang))
            else r.Failure?
  {
    hide CompiledFacts, TariffFacts, TariffFills, ProductOK, TariffOK, SingletonsAccepted, BookablesAccepted,
         CurrentFactValue, TariffWording, FactColumnSpec, FactByToken;
    var q, facts := kb.tariffs[i], CompiledFacts(kb);
    assert TariffOK(q, folding);
    FirstUnique(kb.tariffs, (t: Tariff) => t.ref == kb.tariffs[i].ref && Active(t.salesStatus), i);
    if TariffFills(q, column) {
      var e := TariffEntryFound(kb, folding, i, column);
      TariffEntryValue(kb, folding, q, e, lang);
    } else {
      var token := FactToken("tariff", q.ref, column);
      UnfilledByToken(facts, token);
      if FactByToken(facts, token).Some? {
        var e := FactByToken(facts, token).value;
        EveryEntryIsNamed(kb, folding, e);
        TariffIsDotless(q, folding);
        TokenNamesOneCell(e.table, e.ref, e.column, "tariff", q.ref, column);
        TariffUnfilledFails(kb, q, e, lang);
      }
    }
  }

  lemma TariffIsDotless(t: Tariff, folding: Folding)
    requires Active(t.salesStatus) && TariffOK(t, folding)
    ensures Dotless(t.ref) && Dotless("tariff")
  {
    ValidRefIsDotless(t.ref);
  }

  // ----- specialists -----

  lemma SpecialistEntryValue(kb: KB, q: Specialist, e: FactEntry, lang: string)
    requires SpecialistOK(q) && CurrentSpecialist(kb, q.ref) == Some(q)
             && e in SpecialistFacts(q, ContactBookingURL(kb))
    ensures CurrentFactValue(kb, e, lang) == Success(SpecialistWording(q, ContactBookingURL(kb), e.column, lang))
  {
    hide Blank, SpecialistFacts, IsColumnEntry, Acceptable, Canonical, ScheduleFactValue, ScheduleStored,
         FactColumnSpec, ContactBookingURL, ResolvedBookingURL;
    var salonURL := ContactBookingURL(kb);
    SpecialistEntry(q, salonURL, e);
    ValidRefIsDotless(q.ref);
    BlankEmpty();
    ColumnEntryIsNamed(e, "specialist", q.ref, SpecialistValues(q, salonURL));
    ScheduleReadsBack(e.column, ResolvedBookingURL(q.bookingURL, salonURL), q.schedule, lang);
  }

  lemma SpecialistUnfilledFails(kb: KB, q: Specialist, e: FactEntry, lang: string)
    requires Active(q.salesStatus) && CurrentSpecialist(kb, q.ref) == Some(q) && e.table == "specialist"
             && e.ref == q.ref
    requires !SpecialistFills(q, ContactBookingURL(kb), e.column)
    ensures CurrentFactValue(kb, e, lang).Failure?
  {
    hide Blank, Acceptable, Canonical, ScheduleFactValue, ContactBookingURL, ResolvedBookingURL;
    var booking := ResolvedBookingURL(q.bookingURL, ContactBookingURL(kb));
    var v := ScheduleFactValue(e.column, booking, Canonical(q.schedule), lang);
    if v.Some? && !Blank(v.value) {
      ScheduleValueFills(e.column, booking, q.schedule, lang);
      assert false;
    }
  }

  lemma SpecialistEntryFound(kb: KB, folding: Folding, i: nat, column: string) returns (e: FactEntry)
    requires FactsAccepted(kb, folding) && i < |kb.specialists|
    requires SpecialistFills(kb.specialists[i], ContactBookingURL(kb), column)
    requires forall k | 0 <= k < i ::
             kb.specialists[k].ref != kb.specialists[i].ref || !Active(kb.specialists[k].salesStatus)
    ensures FactByToken(CompiledFacts(kb), FactToken("specialist", kb.specialists[i].ref, column)) == Some(e)
    ensures e in SpecialistFacts(kb.specialists[i], ContactBookingURL(kb)) && e.column == column && WellNamed(e)
  {
    hide FlatMap, SpecialistFacts, SpecialistFills, SpecialistOK, PlanFacts, SingletonFacts, ServicesOK, ZonesOK,
         ZoneFacts, ServiceFacts, SingletonsAccepted, PlansAccepted, FactColumnSpec, FactByToken, ContactBookingURL;
    var rows, q, salonURL := kb.specialists, kb.specialists[i], ContactBookingURL(kb);
    var f, token := SpecialistFactsOf(salonURL), FactToken("specialist", q.ref, column);
    assert SpecialistOK(q);
    SpecialistWhenFilled(q, salonURL, column);
    SpecialistCellCompiles(q, salonURL, column);
    var y :| y in SpecialistFacts(q, salonURL) && y.table == "specialist" && y.ref == q.ref && y.column == column;
    SpecialistEntryIsNamed(q, salonURL, y);
    forall k, x | 0 <= k < i && x in f(rows[k]) ensures x.token != token {
      SpecialistEntryIsNamed(rows[k], salonURL, x);
      SpecialistEntry(rows[k], salonURL, x);
      if x.token == token {
        TokenNamesOneCell(x.table, x.ref, x.column, "specialist", q.ref, column);
      }
    }
    var before := PlanFacts(kb) + SingletonFacts(kb) + FlatMap(kb.deliveryZones, ZoneFacts);
    OtherTables(kb, folding, token, "specialist", q.ref, column);
    FoundInFirstRow(before, rows, f, FlatMap(kb.services, ServiceFacts), i, token, y);
    assert CompiledFacts(kb) == before + FlatMap(rows, f) + FlatMap(kb.services, ServiceFacts);
    e := FactByToken(CompiledFacts(kb), token).value;
    SpecialistEntryIsNamed(q, salonURL, e);
    TokenNamesOneCell(e.table, e.ref, e.column, "specialist", q.ref, column);
  }

  lemma SpecialistWhenFilled(s: Specialist, salonURL: string, column: string)
    requires SpecialistFills(s, salonURL, column) && SpecialistOK(s)
    ensures Active(s.salesStatus) && Dotless(s.ref) && Dotless("specialist")
  {
    ValidRefIsDotless(s.ref);
  }

  // A specialist's token says what the first active row with its ref says, and nothing where that row is silent.
  lemma SpecialistReadsFirst(kb: KB, folding: Folding, i: nat, column: string, lang: string)
    requires FactsAccepted(kb, folding) && i < |kb.specialists| && Active(kb.specialists[i].salesStatus)
    requires forall k | 0 <= k < i ::
             kb.specialists[k].ref != kb.specialists[i].ref || !Active(kb.specialists[k].salesStatus)
    ensures var q, salonURL := kb.specialists[i], ContactBookingURL(kb);
            var r := ResolveFact(FactToken("specialist", q.ref, column), kb, CompiledFacts(kb), lang);
            if SpecialistFills(q, salonURL, column) then r == Success(SpecialistWording(q, salonURL, column, lang))
            else r.Failure?
  {
    hide CompiledFacts, SpecialistFacts, SpecialistFills, SpecialistOK, SingletonsAccepted, PlansAccepted, ZonesOK,
         ServicesOK, CurrentFactValue, SpecialistWording, FactColumnSpec, FactByToken, ContactBookingURL;
    var q, facts := kb.specialists[i], CompiledFacts(kb);
    assert SpecialistOK(q);
    FirstUnique(kb.specialists, (s: Specialist) => s.ref == kb.specialists[i].ref && Active(s.salesStatus), i);
    if SpecialistFills(q, ContactBookingURL(kb), column) {
      var e := SpecialistEntryFound(kb, folding, i, column);
      SpecialistEntryValue(kb, q, e, lang);
    } else {
      var token := FactToken("specialist", q.ref, column);
      UnfilledByToken(facts, token);
      if FactByToken(facts, token).Some? {
        var e := FactByToken(facts, token).value;
        EveryEntryIsNamed(kb, folding, e);
        SpecialistIsDotless(q);
        TokenNamesOneCell(e.table, e.ref, e.column, "specialist", q.ref, column);
        SpecialistUnfilledFails(kb, q, e, lang);
      }
    }
  }

  lemma SpecialistIsDotless(s: Specialist)
    requires Active(s.salesStatus) && SpecialistOK(s)
    ensures Dotless(s.ref) && Dotless("specialist")
  {
    ValidRefIsDotless(s.ref);
  }

  // ----- exactly when every row reads back as itself -----

  // The token of each filled cell of each row says what the row itself says.
  ghost predicate RowsReadBack(kb: KB, lang: string) {
    && (forall j, c | 0 <= j < |kb.products| && ProductFills(kb.products[j], c) ::
          ResolveFact(FactToken("product", kb.products[j].ref, c), kb, CompiledFacts(kb), lang)
          == Success(ProductWording(kb.products[j], c, lang)))
    && (forall j, c | 0 <= j < |kb.tariffs| && TariffFills(kb.tariffs[j], c) ::
          ResolveFact(FactToken("tariff", kb.tariffs[j].ref, c), kb, CompiledFacts(kb), lang)
          == Success(TariffWording(kb.tariffs[j], c, lang)))
    && (forall j, c | 0 <= j < |kb.specialists| && SpecialistFills(kb.specialists[j], ContactBookingURL(kb), c) ::
          ResolveFact(FactToken("specialist", kb.specialists[j].ref, c), kb, CompiledFacts(kb), lang)
          == Success(SpecialistWording(kb.specialists[j], ContactBookingURL(kb), c, lang)))
  }

  // The first approved row under each ref fills what later rows fill, with the same wording.
  ghost predicate FirstRowsAgree(kb: KB, lang: string) {
    var salonURL := ContactBookingURL(kb);
    && (forall j, c | 0 <= j < |kb.products| && ProductFills(kb.products[j], c) ::
          var q := CurrentProduct(kb, kb.products[j].ref);
          && q.Some? && ProductFills(q.value, c)
          && ProductWording(q.value, c, lang) == ProductWording(kb.products[j], c, lang))
    && (forall j, c | 0 <= j < |kb.tariffs| && TariffFills(kb.tariffs[j], c) ::
          var q := CurrentTariff(kb, kb.tariffs[j].ref);
          && q.Some? && TariffFills(q.value, c)
          && TariffWording(q.value, c, lang) == TariffWording(kb.tariffs[j], c, lang))
    && (forall j, c | 0 <= j < |kb.specialists| && SpecialistFills(kb.specialists[j], salonURL, c) ::
          var q := CurrentSpecialist(kb, kb.specialists[j].ref);
          && q.Some? && SpecialistFills(q.value, salonURL, c)
          && SpecialistWording(q.value, salonURL, c, lang) == SpecialistWording(kb.specialists[j], salonURL, c, lang))
  }

  lemma ProductInCharge(kb: KB, j: nat) returns (i: nat)
    requires j < |kb.products| && ProductVisible(kb.products[j])
    ensures i < |kb.products| && CurrentProduct(kb, kb.products[j].ref) == Some(kb.products[i])
    ensures ProductVisible(kb.products[i]) && kb.products[i].ref == kb.products[j].ref
    ensures forall k | 0 <= k < i :: kb.products[k].ref != kb.products[i].ref || !ProductVisible(kb.products[k])
  {
    hide ProductVisible;
    var ref := kb.products[j].ref;
    FirstIsIn(kb.products, (p: Product) => p.ref == ref && ProductVisible(p));
    assert kb.products[j] in kb.products;
    i := FirstHasIndex(kb.products, (p: Product) => p.ref == ref && ProductVisible(p));
  }

  lemma TariffInCharge(kb: KB, j: nat) returns (i: nat)
    requires j < |kb.tariffs| && Active(kb.tariffs[j].salesStatus)
    ensures i < |kb.tariffs| && CurrentTariff(kb, kb.tariffs[j].ref) == Some(kb.tariffs[i])
    ensures Active(kb.tariffs[i].salesStatus) && kb.tariffs[i].ref == kb.tariffs[j].ref
    ensures forall k | 0 <= k < i :: kb.tariffs[k].ref != kb.tariffs[i].ref || !Active(kb.tariffs[k].salesStatus)
  {
    var ref := kb.tariffs[j].ref;
    FirstIsIn(kb.tariffs, (t: Tariff) => t.ref == ref && Active(t.salesStatus));
    assert kb.tariffs[j] in kb.tariffs;
    i := FirstHasIndex(kb.tariffs, (t: Tariff) => t.ref == ref && Active(t.salesStatus));
  }

  lemma SpecialistInCharge(kb: KB, j: nat) returns (i: nat)
    requires j < |kb.specialists| && Active(kb.specialists[j].salesStatus)
    ensures i < |kb.specialists| && CurrentSpecialist(kb, kb.specialists[j].ref) == Some(kb.specialists[i])
    ensures Active(kb.specialists[i].salesStatus) && kb.specialists[i].ref == kb.specialists[j].ref
    ensures forall k | 0 <= k < i ::
            kb.specialists[k].ref != kb.specialists[i].ref || !Active(kb.specialists[k].salesStatus)
  {
    var ref := kb.specialists[j].ref;
    FirstIsIn(kb.specialists, (s: Specialist) => s.ref == ref && Active(s.salesStatus));
    assert kb.specialists[j] in kb.specialists;
    i := FirstHasIndex(kb.specialists, (s: Specialist) => s.ref == ref && Active(s.salesStatus));
  }

  // In each language, every row of an accepted knowledge base reads back as itself exactly when the
  // first approved row under each ref says the same as the later ones.
  lemma ReadBackIff(kb: KB, folding: Folding, lang: string)
    requires FactsAccepted(kb, folding)
    ensures RowsReadBack(kb, lang) <==> FirstRowsAgree(kb, lang)
  {
    hide FactsAccepted, CompiledFacts, ResolveFact, ProductWording, TariffWording, SpecialistWording, CurrentProduct,
         CurrentTariff, CurrentSpecialist, ContactBookingURL, FactToken, HasFact, Blank, ProductVisible,
         ResolvedBookingURL;
    forall j, c | 0 <= j < |kb.products| && ProductFills(kb.products[j], c)
      ensures var p, q := kb.products[j], CurrentProduct(kb, kb.products[j].ref);
              ResolveFact(FactToken("product", p.ref, c), kb, CompiledFacts(kb), lang)
              == Success(ProductWording(p, c, lang)) <==>
              q.Some? && ProductFills(q.value, c) && ProductWording(q.value, c, lang) == ProductWording(p, c, lang)
    {
      var i := ProductInCharge(kb, j);
      ProductReadsFirst(kb, folding, i, c, lang);
    }
    forall j, c | 0 <= j < |kb.tariffs| && TariffFills(kb.tariffs[j], c)
      ensures var p, q := kb.tariffs[j], CurrentTariff(kb, kb.tariffs[j].ref);
              ResolveFact(FactToken("tariff", p.ref, c), kb, CompiledFacts(kb), lang)
              == Success(TariffWording(p, c, lang)) <==>
              q.Some? && TariffFills(q.value, c) && TariffWording(q.value, c, lang) == TariffWording(p, c, lang)
    {
      var i := TariffInCharge(kb, j);
      TariffReadsFirst(kb, folding, i, c, lang);
    }
    forall j, c | 0 <= j < |kb.specialists| && SpecialistFills(kb.specialists[j], ContactBookingURL(kb), c)
      ensures var p, q, url := kb.specialists[j], CurrentSpecialist(kb, kb.specialists[j].ref), ContactBookingURL(kb);
              ResolveFact(FactToken("specialist", p.ref, c), kb, CompiledFacts(kb), lang)
              == Success(SpecialistWording(p, url, c, lang)) <==>
              && q.Some? && SpecialistFills(q.value, url, c)
              && SpecialistWording(q.value, url, c, lang) == SpecialistWording(p, url, c, lang)
    {
      var i := SpecialistInCharge(kb, j);
      SpecialistReadsFirst(kb, folding, i, c, lang);
    }
  }
}
