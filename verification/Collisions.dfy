/** Tokens collide exactly where two approved rows of one table share a ref and a column they fill. */
module Collisions {
  import opened Text
  import opened Permutations
  import opened Schedules
  import opened ScheduleText
  import opened KnowledgeBase
  import opened Registry
  import opened Mentions
  import opened Facts
  import opened Hierarchies
  import opened Catalogs
  import opened Agreement
  import opened Readback
  import opened Coverage

  // ----- a filled column has its token -----

  lemma FactCompiles(table: string, ref: string, facts: seq<AdditionalFact>, reserved: seq<string>, prose: seq<string>,
                     folding: Folding, column: string)
    requires HasFact(facts, column) && (facts != [] ==> FactsOK(facts, reserved, prose, folding))
    ensures HasCell(VirtualFacts(table, ref, facts), table, ref, column)
  {
    hide FactsOK;
    var f :| f in facts && f.ref == column;
    assert VirtualStored(facts, column, "ru", Wording(f.value, "ru"));
    VirtualCompiles(table, ref, facts, reserved, prose, folding, column, "ru", Wording(f.value, "ru"));
  }

  lemma ProductCellCompiles(p: Product, folding: Folding, column: string)
    requires ProductOK(p, folding) && ProductFills(p, column)
    ensures HasCell(ProductFacts(p), "product", p.ref, column)
  {
    hide Blank, ColumnFacts, VirtualFacts, FactsOK, HasFact, HasCell, ProductVisible;
    if HasFact(p.additionalFacts, column) {
      FactCompiles("product", p.ref, p.additionalFacts, PRODUCT_RESERVED, p.prose, folding, column);
    } else {
      assert FactColumns("product")[0].column == "price";
      ColumnCompiles("product", p.ref, ProductValues(p), "price");
    }
    HasCellConcat(ColumnFacts("product", p.ref, ProductValues(p)), VirtualFacts("product", p.ref, p.additionalFacts),
                  "product", p.ref, column);
  }

  lemma TariffCellCompiles(t: Tariff, folding: Folding, column: string)
    requires TariffOK(t, folding) && TariffFills(t, column)
    ensures HasCell(TariffFacts(t), "tariff", t.ref, column)
  {
    hide Blank, ColumnFacts, VirtualFacts, FactsOK, HasFact, HasCell;
    if HasFact(t.additionalFacts, column) {
      FactCompiles("tariff", t.ref, t.additionalFacts, TARIFF_RESERVED, t.prose, folding, column);
    } else {
      assert FactColumns("tariff")[0].column == "price" && FactColumns("tariff")[1].column == "fee";
      ColumnCompiles("tariff", t.ref, TariffValues(t), column);
    }
    HasCellConcat(ColumnFacts("tariff", t.ref, TariffValues(t)), VirtualFacts("tariff", t.ref, t.additionalFacts),
                  "tariff", t.ref, column);
  }

  lemma SpecialistCellCompiles(s: Specialist, salonURL: string, column: string)
    requires SpecialistOK(s) && SpecialistFills(s, salonURL, column)
    ensures HasCell(SpecialistFacts(s, salonURL), "specialist", s.ref, column)
  {
    hide Blank, ColumnFacts, Acceptable, HasCell, ResolvedBookingURL, Canonical, FullText, DayText;
    var booking := ResolvedBookingURL(s.bookingURL, salonURL);
    FilledIsStored(column, booking, s.schedule);
    var v :| ScheduleStored(column, booking, s.schedule, "ru", v) && !Blank(v);
    ScheduleCompiles(column, booking, s.schedule, v);
    ScheduleColumnIsContact(column);
    ColumnCompiles("specialist", s.ref, SpecialistValues(s, salonURL), column);
  }

  lemma FilledIsStored(column: string, booking: string, s: Schedule)
    requires Acceptable(s)
    requires || (column == "booking" && !Blank(booking)) || (column == "schedule" && s != [])
             || exists d | d in s :: column == "schedule_" + d.ref
    ensures exists v :: ScheduleStored(column, booking, s, "ru", v) && !Blank(v)
  {
    hide Blank, Acceptable, Canonical, FullText, DayText;
    if column == "schedule" && s != [] {
      WeekHasWording(s, "ru");
      assert ScheduleStored(column, booking, s, "ru", FullText(Canonical(s), "ru"));
    } else if d :| d in s && column == "schedule_" + d.ref {
      DayIsStored(s, d, booking);
    } else {
      assert ScheduleStored(column, booking, s, "ru", booking);
    }
  }

  lemma DayIsStored(s: Schedule, e: Day, booking: string)
    requires e in s
    ensures exists v :: ScheduleStored("schedule_" + e.ref, booking, s, "ru", v) && !Blank(v)
  {
    hide Blank, Canonical, DayText;
    CanonicalRefs(s);
    var d :| d in Canonical(s) && d.ref == e.ref;
    DayTextNotBlank(d, "ru");
    assert ScheduleStored("schedule_" + e.ref, booking, s, "ru", DayText(d, "ru"));
  }

  lemma WeekHasWording(s: Schedule, lang: string)
    requires Acceptable(s) && s != []
    ensures !Blank(FullText(Canonical(s), lang))
  {
    hide Blank, Acceptable, Canonical, FullText;
    forall d | d in Canonical(s) ensures d.ref in WEEKDAY_ORDER {
      CanonicalDay(s, d);
    }
    CanonicalRefs(s);
    FullTextBlankIffNoDays(Canonical(s), lang);
  }

  // ----- tokens collide exactly where cells are shared -----

  // Two filled cells of different rows under one ref have one token.
  lemma SharedCellCollides<R>(rows: seq<R>, f: R -> seq<FactEntry>, table: string, ref: string, i: nat, j: nat,
                              column: string)
    requires i < j < |rows| && HasCell(f(rows[i]), table, ref, column) && HasCell(f(rows[j]), table, ref, column)
    ensures !Pairwise(FlatMap(rows, f), OtherCell)
  {
    var x :| x in f(rows[i]) && x.table == table && x.ref == ref && x.column == column;
    var y :| y in f(rows[j]) && y.table == table && y.ref == ref && y.column == column;
    if Pairwise(FlatMap(rows, f), OtherCell) {
      PairwiseFromFlatMap(rows, f, OtherCell, i, j, x, y);
      assert false;
    }
  }

  lemma PartsDistinct(kb: KB)
    requires Pairwise(CompiledFacts(kb), OtherCell)
    ensures Pairwise(FlatMap(kb.products, ProductFacts), OtherCell)
            && Pairwise(FlatMap(kb.tariffs, TariffFacts), OtherCell)
    ensures Pairwise(FlatMap(kb.specialists, SpecialistFactsOf(ContactBookingURL(kb))), OtherCell)
  {
    hide FlatMap, SingletonFacts, ContactBookingURL;
    var zones := FlatMap(kb.deliveryZones, ZoneFacts);
    var specialists := FlatMap(kb.specialists, SpecialistFactsOf(ContactBookingURL(kb)));
    PairwisePrefix(PlanFacts(kb) + SingletonFacts(kb), BookableFacts(kb), OtherCell);
    PairwisePrefix(PlanFacts(kb), SingletonFacts(kb), OtherCell);
    PairwisePrefix(FlatMap(kb.products, ProductFacts), FlatMap(kb.tariffs, TariffFacts), OtherCell);
    PairwisePrefix(zones + specialists, FlatMap(kb.services, ServiceFacts), OtherCell);
    PairwisePrefix(zones, specialists, OtherCell);
  }

  lemma DistinctCellsShareNothing(kb: KB, folding: Folding)
    requires FactsAccepted(kb, folding) && Pairwise(CompiledFacts(kb), OtherCell)
    ensures NoSharedCells(kb)
  {
    hide Pairwise, FlatMap, CompiledFacts, ProductOK, TariffOK, SpecialistOK, ZonesOK, ServicesOK,
         SingletonsAccepted, ProductFills, TariffFills, SpecialistFills, ProductFacts, TariffFacts, SpecialistFacts,
         ContactBookingURL, HasCell;
    PartsDistinct(kb);
    var salonURL := ContactBookingURL(kb);
    forall i, j, c | 0 <= i < j < |kb.products| && kb.products[i].ref == kb.products[j].ref
      ensures !(ProductFills(kb.products[i], c) && ProductFills(kb.products[j], c))
    {
      if ProductFills(kb.products[i], c) && ProductFills(kb.products[j], c) {
        ProductCellCompiles(kb.products[i], folding, c);
        ProductCellCompiles(kb.products[j], folding, c);
        SharedCellCollides(kb.products, ProductFacts, "product", kb.products[i].ref, i, j, c);
      }
    }
    forall i, j, c | 0 <= i < j < |kb.tariffs| && kb.tariffs[i].ref == kb.tariffs[j].ref
      ensures !(TariffFills(kb.tariffs[i], c) && TariffFills(kb.tariffs[j], c))
    {
      if TariffFills(kb.tariffs[i], c) && TariffFills(kb.tariffs[j], c) {
        TariffCellCompiles(kb.tariffs[i], folding, c);
        TariffCellCompiles(kb.tariffs[j], folding, c);
        SharedCellCollides(kb.tariffs, TariffFacts, "tariff", kb.tariffs[i].ref, i, j, c);
      }
    }
    forall i, j, c | 0 <= i < j < |kb.specialists| && kb.specialists[i].ref == kb.specialists[j].ref
      ensures !(SpecialistFills(kb.specialists[i], salonURL, c) && SpecialistFills(kb.specialists[j], salonURL, c))
    {
      if SpecialistFills(kb.specialists[i], salonURL, c) && SpecialistFills(kb.specialists[j], salonURL, c) {
        SpecialistCellCompiles(kb.specialists[i], salonURL, c);
        SpecialistCellCompiles(kb.specialists[j], salonURL, c);
        SharedCellCollides(kb.specialists, SpecialistFactsOf(salonURL), "specialist", kb.specialists[i].ref, i, j, c);
      }
    }
  }

  // The tokens of an accepted knowledge base are pairwise distinct exactly when no two approved rows
  // of one table share both a ref and a column they fill.
  lemma TokensDistinctIff(kb: KB, folding: Folding)
    requires FactsAccepted(kb, folding)
    ensures Pairwise(CompiledFacts(kb), OtherToken) <==> NoSharedCells(kb)
  {
    hide FactsAccepted, NoSharedCells, CompiledFacts;
    var facts := CompiledFacts(kb);
    if NoSharedCells(kb) {
      TokensDistinct(kb, folding);
    }
    if Pairwise(facts, OtherToken) {
      forall i, j | 0 <= i < j < |facts| ensures OtherCell(facts[i], facts[j]) {
        assert OtherToken(facts[i], facts[j]) && facts[i] in facts && facts[j] in facts;
        TokenIsCell(kb, folding, facts[i], facts[j]);
      }
      DistinctCellsShareNothing(kb, folding);
    }
  }
}
