/** The tokens of an accepted knowledge base are exactly those of its non-blank approved cells. */
module Coverage {
  import opened Text
  import opened Permutations
  import opened Schedules
  import opened ScheduleText
  import opened KnowledgeBase
  import opened Registry
  import opened Mentions
  import opened Facts
  import opened Hierarchies
  import opened Catalogs
  import opened Resolver
  import opened Agreement
  import opened Readback

  ghost predicate HasCell(facts: seq<FactEntry>, table: string, ref: string, column: string) {
    exists y | y in facts :: y.table == table && y.ref == ref && y.column == column
  }

  lemma HasCellIn<R>(rows: seq<R>, f: R -> seq<FactEntry>, i: nat, table: string, ref: string, column: string)
    requires i < |rows| && HasCell(f(rows[i]), table, ref, column)
    ensures HasCell(FlatMap(rows, f), table, ref, column)
  {
    var y :| y in f(rows[i]) && y.table == table && y.ref == ref && y.column == column;
    InFlatMap(rows, f, i, y);
  }

  lemma HasCellConcat(a: seq<FactEntry>, b: seq<FactEntry>, table: string, ref: string, column: string)
    ensures HasCell(a + b, table, ref, column) <==> HasCell(a, table, ref, column) || HasCell(b, table, ref, column)
  {
  }

  ghost predicate IsColumnOf(table: string, column: string) {
    exists i | 0 <= i < |FactColumns(table)| :: FactColumns(table)[i].column == column
  }

  lemma ColumnCompiles(table: string, ref: string, values: string -> string, column: string)
    requires IsColumnOf(table, column) && !Blank(values(column))
    ensures HasCell(ColumnFacts(table, ref, values), table, ref, column)
  {
    hide Blank, FactColumns, FlatMap;
    var i: nat :| i < |FactColumns(table)| && FactColumns(table)[i].column == column;
    var col := FactColumns(table)[i];
    var y := Entry(table, ref, col.column, col.kind, "");
    assert y in ColumnFact(table, ref, col, values(column));
    InFlatMap(FactColumns(table), ColumnFactOf(table, ref, values), i, y);
  }

  lemma VirtualCompiles(table: string, ref: string, facts: seq<AdditionalFact>, reserved: seq<string>,
                        prose: seq<string>, folding: Folding, column: string, lang: string, v: string)
    requires FactsOK(facts, reserved, prose, folding) && VirtualStored(facts, column, lang, v)
    ensures HasCell(VirtualFacts(table, ref, facts), table, ref, column)
  {
    hide Blank, FlatMap, TrimSpace, InstructionOK, AbsentFromProse;
    var f :| f in facts && f.ref == column && v == Wording(f.value, lang);
    var i :| 0 <= i < |facts| && facts[i] == f;
    assert FactOK(facts[i], reserved, folding);
    WordingNotBlank(f.value, lang);
    var y := Entry(table, ref, f.ref, KindAndText(f.value).0, "");
    assert y in VirtualFact(table, ref, f);
    InFlatMap(facts, VirtualFactOf(table, ref), i, y);
  }

  // ----- plans -----

  lemma ProductCompiles(kb: KB, folding: Folding, x: FactEntry, v: string)
    requires PlansAccepted(kb, folding) && x.table == "product" && Stored(kb, x, "ru", v) && !Blank(v)
    ensures HasCell(PlanFacts(kb), x.table, x.ref, x.column)
  {
    hide Blank, FlatMap, ColumnFacts, VirtualFacts, FactsOK, VirtualStored;
    var p :| p in kb.products && ProductVisible(p) && p.ref == x.ref
             && if IsVirtual(x.kind) then VirtualStored(p.additionalFacts, x.column, "ru", v)
                else x.column == "price" && v == p.price;
    var i :| 0 <= i < |kb.products| && kb.products[i] == p;
    assert ProductOK(kb.products[i], folding);
    if IsVirtual(x.kind) {
      SomeFact(p.additionalFacts, x.column, "ru", v);
      VirtualCompiles("product", p.ref, p.additionalFacts, PRODUCT_RESERVED, p.prose, folding, x.column, "ru", v);
    } else {
      assert FactColumns("product")[0].column == "price";
      ColumnCompiles("product", p.ref, ProductValues(p), "price");
    }
    HasCellConcat(ColumnFacts("product", p.ref, ProductValues(p)), VirtualFacts("product", p.ref, p.additionalFacts),
                  x.table, x.ref, x.column);
    HasCellIn(kb.products, ProductFacts, i, x.table, x.ref, x.column);
    HasCellConcat(FlatMap(kb.products, ProductFacts), FlatMap(kb.tariffs, TariffFacts), x.table, x.ref, x.column);
  }

  lemma SomeFact(facts: seq<AdditionalFact>, column: string, lang: string, v: string)
    requires VirtualStored(facts, column, lang, v)
    ensures facts != []
  {
  }

  lemma TariffCompiles(kb: KB, folding: Folding, x: FactEntry, v: string)
    requires PlansAccepted(kb, folding) && x.table == "tariff" && Stored(kb, x, "ru", v) && !Blank(v)
    ensures HasCell(PlanFacts(kb), x.table, x.ref, x.column)
  {
    hide Blank, FlatMap, ColumnFacts, VirtualFacts, FactsOK, VirtualStored;
    var t :| t in kb.tariffs && Active(t.salesStatus) && t.ref == x.ref
             && if IsVirtual(x.kind) then VirtualStored(t.additionalFacts, x.column, "ru", v)
                else (x.column == "price" && v == t.price) || (x.column == "fee" && v == t.fee);
    var i :| 0 <= i < |kb.tariffs| && kb.tariffs[i] == t;
    assert TariffOK(kb.tariffs[i], folding);
    if IsVirtual(x.kind) {
      SomeFact(t.additionalFacts, x.column, "ru", v);
      VirtualCompiles("tariff", t.ref, t.additionalFacts, TARIFF_RESERVED, t.prose, folding, x.column, "ru", v);
    } else {
      assert FactColumns("tariff")[0].column == "price" && FactColumns("tariff")[1].column == "fee";
      ColumnCompiles("tariff", t.ref, TariffValues(t), x.column);
    }
    HasCellConcat(ColumnFacts("tariff", t.ref, TariffValues(t)), VirtualFacts("tariff", t.ref, t.additionalFacts),
                  x.table, x.ref, x.column);
    HasCellIn(kb.tariffs, TariffFacts, i, x.table, x.ref, x.column);
    HasCellConcat(FlatMap(kb.products, ProductFacts), FlatMap(kb.tariffs, TariffFacts), x.table, x.ref, x.column);
  }

  // ----- schedules -----

  ghost predicate InScheduleColumns(column: string) {
    exists i | 0 <= i < |ScheduleColumns()| :: ScheduleColumns()[i].column == column
  }

  lemma ScheduleCompiles(column: string, booking: string, s: Schedule, v: string)
    requires Acceptable(s) && ScheduleStored(column, booking, s, "ru", v) && !Blank(v)
    ensures InScheduleColumns(column)
    ensures var value := ScheduleFactValue(column, booking, Canonical(s), "ru"); value.Some? && !Blank(value.value)
  {
    hide Blank, FullText, DayText, Canonical, Acceptable;
    var columns := ScheduleColumns();
    assert columns[0].column == "booking" && columns[1].column == "schedule";
    if column != "booking" && column != "schedule" {
      var d :| d in Canonical(s) && column == "schedule_" + d.ref && v == DayText(d, "ru");
      assert column[|"schedule_"|..] == d.ref;
      FirstIsIn(Canonical(s), (e: Day) => e.ref == d.ref);
      DayTextNotBlank(DayByRef(Canonical(s), d.ref).value, "ru");
      CanonicalDay(s, d);
      var k: nat :| k < 7 && WEEKDAY_ORDER[k] == d.ref;
      assert columns[k + 2] == DayColumn(d.ref);
    }
  }

  lemma CanonicalDay(s: Schedule, d: Day)
    requires Acceptable(s) && d in Canonical(s)
    ensures exists k: nat :: k < 7 && WEEKDAY_ORDER[k] == d.ref
  {
    CanonicalIsCanonical(s);
    var i :| 0 <= i < |Canonical(s)| && Canonical(s)[i] == d;
    assert DayOK(Canonical(s)[i]);
  }

  // ----- singletons -----

  // A salon's structured week replaces its free-text working hours.
  ghost predicate Superseded(kb: KB, x: FactEntry) {
    x.table == "contact" && x.column == "working_hours" && (|kb.specialists| > 0 || |kb.services| > 0)
    && kb.contacts.Some? && Canonical(kb.contacts.value.schedule) != []
  }

  lemma ContactCompiles(kb: KB, x: FactEntry, v: string)
    requires x.table == "contact" && x.ref == SINGLETON_REF && !Superseded(kb, x)
    requires kb.contacts.Some? && Acceptable(kb.contacts.value.schedule)
    requires ContactStored(kb.contacts.value, x.column, "ru", v) && !Blank(v)
    ensures HasCell(ContactFacts(kb.contacts.value, IsSalon(kb)), x.table, x.ref, x.column)
  {
    hide Blank, ColumnFacts, Acceptable, Canonical, ScheduleStored, ScheduleFactValue;
    var c := kb.contacts.value;
    if ScheduleStored(x.column, c.bookingURL, c.schedule, "ru", v) {
      ScheduleCompiles(x.column, c.bookingURL, c.schedule, v);
      ScheduleColumnIsContact(x.column);
    } else {
      PlainContactColumn(x.column, c.bookingURL, Canonical(c.schedule));
    }
    ColumnCompiles("contact", SINGLETON_REF, ContactValues(c, IsSalon(kb)), x.column);
  }

  lemma ScheduleColumnIsContact(column: string)
    requires InScheduleColumns(column)
    ensures IsColumnOf("contact", column) && IsColumnOf("specialist", column)
  {
    var i: nat :| i < |ScheduleColumns()| && ScheduleColumns()[i].column == column;
    assert FactColumns("contact")[|ContactColumns()| + i] == ScheduleColumns()[i];
    assert FactColumns("specialist")[i] == ScheduleColumns()[i];
  }

  lemma PlainContactColumn(column: string, booking: string, s: Schedule)
    requires column in {"phone", "whatsapp", "email", "website", "instagram", "working_hours"}
    ensures IsColumnOf("contact", column) && ScheduleFactValue(column, booking, s, "ru").None?
  {
    var columns := FactColumns("contact");
    assert columns[0].column == "phone" && columns[1].column == "whatsapp" && columns[2].column == "email";
    assert columns[3].column == "website" && columns[4].column == "instagram" && columns[5].column == "working_hours";
    assert "schedule_"[0] == 's' && column[0] != 's';
  }

  lemma PolicyCompiles(kb: KB, x: FactEntry, v: string)
    requires x.table == "policy" && x.ref == SINGLETON_REF && kb.policies.Some?
    requires PolicyStored(kb.policies.value, x.column, v) && !Blank(v)
    ensures HasCell(PolicyFacts(kb.policies.value), x.table, x.ref, x.column)
  {
    hide Blank, ColumnFacts;
    var columns := FactColumns("policy");
    assert columns[0].column == "delivery_cost" && columns[1].column == "delivery_in_days";
    assert columns[2].column == "free_delivery_from" && columns[3].column == "min_order";
    assert columns[4].column == "return_period_in_days" && columns[5].column == "outside_zones_note";
    ColumnCompiles("policy", SINGLETON_REF, PolicyValues(kb.policies.value), x.column);
  }

  lemma SingletonCompiles(kb: KB, folding: Folding, x: FactEntry, v: string)
    requires SingletonsAccepted(kb, folding) && x.table in {"tariff_info", "contact", "policy"}
             && x.ref == SINGLETON_REF
    requires Stored(kb, x, "ru", v) && !Blank(v) && !Superseded(kb, x)
    ensures HasCell(SingletonFacts(kb), x.table, x.ref, x.column)
  {
    hide Blank, ColumnFacts, VirtualFacts, ContactFacts, PolicyFacts, FactsOK, Acceptable, VirtualStored,
         ContactStored, PolicyStored, Superseded, IsSalon, HasCell;
    var info :=
      if kb.tariffInfo.Some? then VirtualFacts("tariff_info", SINGLETON_REF, kb.tariffInfo.value.additionalFacts)
      else [];
    var contact := if kb.contacts.Some? then ContactFacts(kb.contacts.value, IsSalon(kb)) else [];
    var policy := if kb.policies.Some? then PolicyFacts(kb.policies.value) else [];
    if x.table == "tariff_info" {
      var facts := kb.tariffInfo.value.additionalFacts;
      SomeFact(facts, x.column, "ru", v);
      VirtualCompiles("tariff_info", SINGLETON_REF, facts, [], [], folding, x.column, "ru", v);
    } else if x.table == "contact" {
      ContactCompiles(kb, x, v);
    } else {
      PolicyCompiles(kb, x, v);
    }
    HasCellConcat(info, contact, x.table, x.ref, x.column);
    HasCellConcat(info + contact, policy, x.table, x.ref, x.column);
  }

  // ----- zones, specialists and services -----

  lemma ZoneCompiles(kb: KB, x: FactEntry, v: string)
    requires x.table == "delivery" && Stored(kb, x, "ru", v) && !Blank(v)
    ensures HasCell(FlatMap(kb.deliveryZones, ZoneFacts), x.table, x.ref, x.column)
  {
    hide Blank, FlatMap;
    var z :| z in kb.deliveryZones && Active(z.salesStatus) && z.ref == x.ref
             && ((x.column == "delivery_cost" && v == z.deliveryCost)
                 || (x.column == "delivery_in_days" && v == z.deliveryInDays)
                 || (x.column == "delivery_available" && v == DeliveryWording("ru", z.deliveryAvailable)));
    var i :| 0 <= i < |kb.deliveryZones| && kb.deliveryZones[i] == z;
    ZoneColumnCompiles(z, x.column, v);
    HasCellIn(kb.deliveryZones, ZoneFacts, i, x.table, x.ref, x.column);
  }

  lemma ZoneColumnCompiles(z: DeliveryZone, column: string, v: string)
    requires Active(z.salesStatus) && !Blank(v)
    requires || (column == "delivery_cost" && v == z.deliveryCost)
             || (column == "delivery_in_days" && v == z.deliveryInDays)
             || column == "delivery_available"
    ensures HasCell(ZoneFacts(z), "delivery", z.ref, column)
  {
    hide Blank, FlatMap;
    var columns := FactColumns("delivery");
    var k := if column == "delivery_cost" then 0 else if column == "delivery_in_days" then 1 else 2;
    assert columns[k].column == column;
    var y := ZoneColumnFact(z, columns[k])[0];
    InFlatMap(columns, ZoneColumnFactOf(z), k, y);
  }

  lemma SpecialistCompiles(kb: KB, x: FactEntry, v: string)
    requires BookablesAccepted(kb) && x.table == "specialist" && Stored(kb, x, "ru", v) && !Blank(v)
    ensures HasCell(FlatMap(kb.specialists, SpecialistFactsOf(ContactBookingURL(kb))), x.table, x.ref, x.column)
  {
    hide Blank, FlatMap, ColumnFacts, ZonesOK, ServicesOK, Acceptable, Canonical, ScheduleStored, ScheduleFactValue,
         ContactBookingURL, ResolvedBookingURL;
    var salonURL := ContactBookingURL(kb);
    var s :| s in kb.specialists && Active(s.salesStatus) && s.ref == x.ref
             && ScheduleStored(x.column, ResolvedBookingURL(s.bookingURL, salonURL), s.schedule, "ru", v);
    var i :| 0 <= i < |kb.specialists| && kb.specialists[i] == s;
    assert SpecialistOK(kb.specialists[i]);
    ScheduleCompiles(x.column, ResolvedBookingURL(s.bookingURL, salonURL), s.schedule, v);
    ScheduleColumnIsContact(x.column);
    ColumnCompiles("specialist", s.ref, SpecialistValues(s, salonURL), x.column);
    HasCellIn(kb.specialists, SpecialistFactsOf(salonURL), i, x.table, x.ref, x.column);
  }

  lemma ServiceCompiles(kb: KB, x: FactEntry, v: string)
    requires x.table == "service" && Stored(kb, x, "ru", v) && !Blank(v)
    ensures HasCell(FlatMap(kb.services, ServiceFacts), x.table, x.ref, x.column)
  {
    hide Blank, FlatMap, ColumnFacts;
    var s :| s in kb.services && Active(s.salesStatus) && s.ref == x.ref
             && ((x.column == "price" && v == s.price)
                 || (x.column == "duration" && s.duration.Some? && s.duration.value > 0
                     && v == Itoa(s.duration.value)));
    var i :| 0 <= i < |kb.services| && kb.services[i] == s;
    assert FactColumns("service")[0].column == "price" && FactColumns("service")[1].column == "duration";
    ColumnCompiles("service", s.ref, ServiceValues(s), x.column);
    HasCellIn(kb.services, ServiceFacts, i, x.table, x.ref, x.column);
  }

  lemma BookableCompiles(kb: KB, x: FactEntry, v: string)
    requires BookablesAccepted(kb) && x.table in {"delivery", "specialist", "service"} && Stored(kb, x, "ru", v)
             && !Blank(v)
    ensures HasCell(BookableFacts(kb), x.table, x.ref, x.column)
  {
    hide Blank, FlatMap, Stored, BookablesAccepted, HasCell, ContactBookingURL;
    var specialists := FlatMap(kb.specialists, SpecialistFactsOf(ContactBookingURL(kb)));
    if x.table == "delivery" {
      ZoneCompiles(kb, x, v);
    } else if x.table == "specialist" {
      SpecialistCompiles(kb, x, v);
    } else {
      ServiceCompiles(kb, x, v);
    }
    HasCellConcat(FlatMap(kb.deliveryZones, ZoneFacts), specialists, x.table, x.ref, x.column);
    HasCellConcat(FlatMap(kb.deliveryZones, ZoneFacts) + specialists, FlatMap(kb.services, ServiceFacts),
                  x.table, x.ref, x.column);
  }

  // ----- every cell -----

  // Every non-blank approved value of an accepted knowledge base has a token for its cell, save the
  // working hours that a salon's structured week replaces.
  lemma EveryStoredCellCompiles(kb: KB, folding: Folding, x: FactEntry, v: string)
    requires FactsAccepted(kb, folding) && Stored(kb, x, "ru", v) && !Blank(v) && !Superseded(kb, x)
    requires x.table in {"tariff_info", "contact", "policy"} ==> x.ref == SINGLETON_REF
    ensures HasCell(CompiledFacts(kb), x.table, x.ref, x.column)
  {
    hide Blank, Stored, PlansAccepted, SingletonsAccepted, BookablesAccepted, PlanFacts, SingletonFacts,
         BookableFacts, HasCell, Superseded;
    StoredTable(kb, x, v);
    if x.table == "product" {
      ProductCompiles(kb, folding, x, v);
    } else if x.table == "tariff" {
      TariffCompiles(kb, folding, x, v);
    } else if x.table in {"tariff_info", "contact", "policy"} {
      SingletonCompiles(kb, folding, x, v);
    } else {
      BookableCompiles(kb, x, v);
    }
    HasCellConcat(PlanFacts(kb), SingletonFacts(kb), x.table, x.ref, x.column);
    HasCellConcat(PlanFacts(kb) + SingletonFacts(kb), BookableFacts(kb), x.table, x.ref, x.column);
  }

  lemma StoredTable(kb: KB, x: FactEntry, v: string)
    requires Stored(kb, x, "ru", v)
    ensures x.table in {"product", "tariff", "tariff_info", "contact", "policy", "delivery", "specialist", "service"}
  {
  }

  // ----- and nothing else -----

  // Some row of the base stores what an entry of its own stands for.
  ghost predicate IsStored(kb: KB, x: FactEntry) {
    exists v :: Stored(kb, x, "ru", v) && !Blank(v)
  }

  lemma ProductEntryIsStored(kb: KB, folding: Folding, i: nat, x: FactEntry)
    requires i < |kb.products| && ProductOK(kb.products[i], folding) && x in ProductFacts(kb.products[i])
    ensures IsStored(kb, x) && x.table == "product"
  {
    hide Blank, ProductFacts, ProductVisible, FactsOK, IsColumnEntry, IsVirtualEntry, VirtualStored, FactColumnSpec;
    var p := kb.products[i];
    ProductEntry(p, x);
    ValidRefIsDotless(p.ref);
    BlankEmpty();
    assert p in kb.products;
    if IsColumnEntry(x, "product", p.ref, ProductValues(p)) {
      ColumnEntryIsNamed(x, "product", p.ref, ProductValues(p));
      assert Stored(kb, x, "ru", p.price);
    } else {
      VirtualReadsBack(x, "product", p.ref, p.additionalFacts, PRODUCT_RESERVED, p.prose, folding, "ru");
      assert Stored(kb, x, "ru", ResolveVirtualFact(p.additionalFacts, x, "ru").value);
    }
  }

  lemma TariffEntryIsStored(kb: KB, folding: Folding, i: nat, x: FactEntry)
    requires i < |kb.tariffs| && TariffOK(kb.tariffs[i], folding) && x in TariffFacts(kb.tariffs[i])
    ensures IsStored(kb, x) && x.table == "tariff"
  {
    hide Blank, TariffFacts, FactsOK, IsColumnEntry, IsVirtualEntry, VirtualStored, FactColumnSpec;
    var t := kb.tariffs[i];
    TariffEntry(t, x);
    ValidRefIsDotless(t.ref);
    BlankEmpty();
    assert t in kb.tariffs;
    if IsColumnEntry(x, "tariff", t.ref, TariffValues(t)) {
      ColumnEntryIsNamed(x, "tariff", t.ref, TariffValues(t));
      assert Stored(kb, x, "ru", TariffValues(t)(x.column));
    } else {
      VirtualReadsBack(x, "tariff", t.ref, t.additionalFacts, TARIFF_RESERVED, t.prose, folding, "ru");
      assert Stored(kb, x, "ru", ResolveVirtualFact(t.additionalFacts, x, "ru").value);
    }
  }

  lemma SpecialistEntryIsStored(kb: KB, i: nat, x: FactEntry)
    requires i < |kb.specialists| && SpecialistOK(kb.specialists[i])
    requires x in SpecialistFacts(kb.specialists[i], ContactBookingURL(kb))
    ensures IsStored(kb, x) && x.table == "specialist"
  {
    hide Blank, SpecialistFacts, IsColumnEntry, Acceptable, Canonical, ScheduleFactValue, ScheduleStored,
         FactColumnSpec, ContactBookingURL, ResolvedBookingURL;
    var s, salonURL := kb.specialists[i], ContactBookingURL(kb);
    SpecialistEntry(s, salonURL, x);
    ValidRefIsDotless(s.ref);
    BlankEmpty();
    ColumnEntryIsNamed(x, "specialist", s.ref, SpecialistValues(s, salonURL));
    ScheduleReadsBack(x.column, ResolvedBookingURL(s.bookingURL, salonURL), s.schedule, "ru");
    assert s in kb.specialists;
    assert Stored(kb, x, "ru", SpecialistValues(s, salonURL)(x.column));
  }

  lemma ReadBackIsStored(kb: KB, x: FactEntry)
    requires ReadsBack(kb, x, "ru")
    ensures IsStored(kb, x)
  {
    hide Blank, Stored, CurrentFactValue, FactColumnSpec;
  }

  // The single rows have one ref, and superseded working hours no token.
  lemma SingletonEntryShape(kb: KB, folding: Folding, x: FactEntry)
    requires SingletonsAccepted(kb, folding) && x in SingletonFacts(kb)
    ensures x.ref == SINGLETON_REF && x.table in {"tariff_info", "contact", "policy"} && !Superseded(kb, x)
  {
    hide Blank, ColumnFacts, VirtualFacts, FactsOK, Acceptable, Canonical, FactColumnSpec, FactColumns,
         ScheduleFactValue;
    if kb.contacts.Some? && x in ContactFacts(kb.contacts.value, IsSalon(kb)) {
      var c := kb.contacts.value;
      var values := ContactValues(c, IsSalon(kb));
      ColumnEntry("contact", SINGLETON_REF, values, x);
      ColumnEntryIsNamed(x, "contact", SINGLETON_REF, values);
      BlankEmpty();
      PlainContactColumn("working_hours", c.bookingURL, Canonical(c.schedule));
    } else if kb.policies.Some? && x in PolicyFacts(kb.policies.value) {
      ColumnEntry("policy", SINGLETON_REF, PolicyValues(kb.policies.value), x);
    } else {
      VirtualEntry("tariff_info", SINGLETON_REF, kb.tariffInfo.value.additionalFacts, x);
    }
  }

  lemma EveryEntryIsStored(kb: KB, folding: Folding, x: FactEntry)
    requires FactsAccepted(kb, folding) && x in CompiledFacts(kb)
    ensures IsStored(kb, x) && !Superseded(kb, x)
    ensures x.table in {"tariff_info", "contact", "policy"} ==> x.ref == SINGLETON_REF
  {
    hide IsStored, Superseded, FlatMap, ProductOK, TariffOK, SpecialistOK, ZonesOK, ServicesOK, SingletonsAccepted,
         SingletonFacts, ProductFacts, TariffFacts, SpecialistFacts, ZoneFacts, ServiceFacts, ContactBookingURL,
         ReadsBack;
    var specialist := SpecialistFactsOf(ContactBookingURL(kb));
    OtherTablesKeep(kb, x);
    if x in FlatMap(kb.products, ProductFacts) {
      var i := FlatMapSource(kb.products, ProductFacts, x);
      ProductEntryIsStored(kb, folding, i, x);
    } else if x in FlatMap(kb.tariffs, TariffFacts) {
      var i := FlatMapSource(kb.tariffs, TariffFacts, x);
      TariffEntryIsStored(kb, folding, i, x);
    } else if x in SingletonFacts(kb) {
      SingletonsReadBack(kb, folding, x, "ru");
      ReadBackIsStored(kb, x);
      SingletonEntryShape(kb, folding, x);
    } else if x in FlatMap(kb.deliveryZones, ZoneFacts) {
      var i := FlatMapSource(kb.deliveryZones, ZoneFacts, x);
      ZoneReadsBack(kb, i, x, "ru");
      ReadBackIsStored(kb, x);
      ZoneRow(kb.deliveryZones[i]);
    } else if x in FlatMap(kb.specialists, specialist) {
      var i := FlatMapSource(kb.specialists, specialist, x);
      SpecialistEntryIsStored(kb, i, x);
    } else {
      var i := FlatMapSource(kb.services, ServiceFacts, x);
      ServiceReadsBack(kb, i, x, "ru");
      ReadBackIsStored(kb, x);
      ServiceRow(kb.services[i]);
    }
  }

  lemma OtherTablesKeep(kb: KB, x: FactEntry)
    ensures x.table != "contact" ==> !Superseded(kb, x)
  {
  }

  // A cell has a token exactly when an approved row holds something in it, working hours that a
  // salon's structured week replaces excepted.
  lemma CellCompilesIff(kb: KB, folding: Folding, table: string, ref: string, column: string)
    requires FactsAccepted(kb, folding)
    ensures HasCell(CompiledFacts(kb), table, ref, column) <==>
            exists x: FactEntry ::
              && x.table == table && x.ref == ref && x.column == column && IsStored(kb, x) && !Superseded(kb, x)
              && (table in {"tariff_info", "contact", "policy"} ==> ref == SINGLETON_REF)
  {
    hide FactsAccepted, CompiledFacts, Stored, Superseded, Blank;
    if y :| y in CompiledFacts(kb) && y.table == table && y.ref == ref && y.column == column {
      EveryEntryIsStored(kb, folding, y);
    }
    if x: FactEntry :| && x.table == table && x.ref == ref && x.column == column
                       && IsStored(kb, x) && !Superseded(kb, x)
                       && (table in {"tariff_info", "contact", "policy"} ==> ref == SINGLETON_REF) {
      var v :| Stored(kb, x, "ru", v) && !Blank(v);
      EveryStoredCellCompiles(kb, folding, x, v);
    }
  }
}
