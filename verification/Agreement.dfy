/** The catalog and the resolver agree: every compiled token is one cell, and reads back that cell. */
module Agreement {
  import opened Wrappers
  import opened Text
  import opened Permutations
  import opened Schedules
  import opened ScheduleText
  import opened KnowledgeBase
  import opened Registry
  import opened Mentions
  import opened Facts
  import opened Hierarchies
  import opened Catalogs
  import opened Resolver

  // ----- what a token's wording should be, read off the rows themselves -----

  function Wording(value: FactValue, lang: string): string {
    match value
    case Number(digits) => digits
    case Flag(b) => FactBoolWording(lang, b)
    case Words(s) => TrimSpace(s)
  }

  ghost predicate VirtualStored(facts: seq<AdditionalFact>, column: string, lang: string, v: string) {
    exists f | f in facts :: f.ref == column && v == Wording(f.value, lang)
  }

  ghost predicate ScheduleStored(column: string, booking: string, schedule: Schedule, lang: string, v: string) {
    || (column == "booking" && v == booking)
    || (column == "schedule" && v == FullText(Canonical(schedule), lang))
    || (exists d | d in Canonical(schedule) :: column == "schedule_" + d.ref && v == DayText(d, lang))
  }

  ghost predicate ContactStored(c: Contacts, column: string, lang: string, v: string) {
    || ScheduleStored(column, c.bookingURL, c.schedule, lang, v)
    || (column == "phone" && v == c.phone) || (column == "whatsapp" && v == c.whatsapp)
    || (column == "email" && v == c.email) || (column == "website" && v == c.website)
    || (column == "instagram" && v == c.instagram) || (column == "working_hours" && v == c.workingHours)
  }

  ghost predicate PolicyStored(p: Policies, column: string, v: string) {
    || (column == "delivery_cost" && v == p.deliveryCost)
    || (column == "delivery_in_days" && v == p.deliveryInDays)
    || (column == "free_delivery_from" && v == p.freeDeliveryFrom)
    || (column == "min_order" && v == p.minOrder)
    || (column == "return_period_in_days" && v == p.returnPeriodInDays)
    || (column == "outside_zones_note" && v == p.outsideZonesNote)
  }

  // v is what the approved row and column named by the fact hold right now, worded in lang.
  ghost predicate Stored(kb: KB, fact: FactEntry, lang: string, v: string) {
    match fact.table
    case "product" =>
      exists p | p in kb.products :: && ProductVisible(p) && p.ref == fact.ref
        && if IsVirtual(fact.kind) then VirtualStored(p.additionalFacts, fact.column, lang, v)
           else fact.column == "price" && v == p.price
    case "tariff" =>
      exists t | t in kb.tariffs :: && Active(t.salesStatus) && t.ref == fact.ref
        && if IsVirtual(fact.kind) then VirtualStored(t.additionalFacts, fact.column, lang, v)
           else (fact.column == "price" && v == t.price) || (fact.column == "fee" && v == t.fee)
    case "tariff_info" =>
      kb.tariffInfo.Some? && VirtualStored(kb.tariffInfo.value.additionalFacts, fact.column, lang, v)
    case "contact" =>
      kb.contacts.Some? && ContactStored(kb.contacts.value, fact.column, lang, v)
    case "policy" =>
      kb.policies.Some? && PolicyStored(kb.policies.value, fact.column, v)
    case "delivery" =>
      exists z | z in kb.deliveryZones :: && Active(z.salesStatus) && z.ref == fact.ref
        && ((fact.column == "delivery_cost" && v == z.deliveryCost)
            || (fact.column == "delivery_in_days" && v == z.deliveryInDays)
            || (fact.column == "delivery_available" && v == DeliveryWording(lang, z.deliveryAvailable)))
    case "specialist" =>
      exists s | s in kb.specialists :: && Active(s.salesStatus) && s.ref == fact.ref
        && var booking := ResolvedBookingURL(s.bookingURL, ContactBookingURL(kb));
           ScheduleStored(fact.column, booking, s.schedule, lang, v)
    case "service" =>
      exists s | s in kb.services :: && Active(s.salesStatus) && s.ref == fact.ref
        && ((fact.column == "price" && v == s.price)
            || (fact.column == "duration" && s.duration.Some? && s.duration.value > 0 && v == Itoa(s.duration.value)))
    case _ => false
  }

  // Compilation rejects duplicate refs only for zones and services; the store keys the rest.
  ghost predicate UniqueRefs(kb: KB) {
    && (forall i, j | 0 <= i < j < |kb.products| && ProductVisible(kb.products[i]) && ProductVisible(kb.products[j]) ::
          kb.products[i].ref != kb.products[j].ref)
    && (forall i, j | 0 <= i < j < |kb.tariffs| && Active(kb.tariffs[i].salesStatus)
        && Active(kb.tariffs[j].salesStatus) ::
          kb.tariffs[i].ref != kb.tariffs[j].ref)
    && (forall i, j | 0 <= i < j < |kb.specialists| && Active(kb.specialists[i].salesStatus)
                      && Active(kb.specialists[j].salesStatus) ::
          kb.specialists[i].ref != kb.specialists[j].ref)
  }

  // ----- which columns a row fills -----

  ghost predicate HasFact(facts: seq<AdditionalFact>, column: string) {
    exists f | f in facts :: f.ref == column
  }

  ghost predicate ProductFills(p: Product, column: string) {
    ProductVisible(p) && ((column == "price" && !Blank(p.price)) || HasFact(p.additionalFacts, column))
  }

  ghost predicate TariffFills(t: Tariff, column: string) {
    && Active(t.salesStatus)
    && ((column == "price" && !Blank(t.price)) || (column == "fee" && !Blank(t.fee))
        || HasFact(t.additionalFacts, column))
  }

  ghost predicate SpecialistFills(s: Specialist, salonURL: string, column: string) {
    && Active(s.salesStatus)
    && ((column == "booking" && !Blank(ResolvedBookingURL(s.bookingURL, salonURL)))
        || (column == "schedule" && s.schedule != [])
        || exists d | d in s.schedule :: column == "schedule_" + d.ref)
  }

  // No two approved rows of one table share both a ref and a column they fill.
  ghost predicate NoSharedCells(kb: KB) {
    && (forall i, j, c | 0 <= i < j < |kb.products| && kb.products[i].ref == kb.products[j].ref ::
          !(ProductFills(kb.products[i], c) && ProductFills(kb.products[j], c)))
    && (forall i, j, c | 0 <= i < j < |kb.tariffs| && kb.tariffs[i].ref == kb.tariffs[j].ref ::
          !(TariffFills(kb.tariffs[i], c) && TariffFills(kb.tariffs[j], c)))
    && (forall i, j, c | 0 <= i < j < |kb.specialists| && kb.specialists[i].ref == kb.specialists[j].ref ::
          !(SpecialistFills(kb.specialists[i], ContactBookingURL(kb), c)
            && SpecialistFills(kb.specialists[j], ContactBookingURL(kb), c)))
  }

  lemma UniqueRefsShareNothing(kb: KB)
    requires UniqueRefs(kb)
    ensures NoSharedCells(kb)
  {
    hide ProductVisible;
  }

  // ----- where an entry comes from -----

  ghost predicate IsColumnEntry(x: FactEntry, table: string, ref: string, values: string -> string) {
    exists col | col in FactColumns(table) ::
      x == Entry(table, ref, col.column, col.kind, "") && !Blank(values(col.column))
  }

  lemma ColumnEntry(table: string, ref: string, values: string -> string, x: FactEntry)
    requires x in ColumnFacts(table, ref, values)
    ensures IsColumnEntry(x, table, ref, values)
  {
    hide FactColumns, Blank;
    var i := FlatMapSource(FactColumns(table), ColumnFactOf(table, ref, values), x);
    var col := FactColumns(table)[i];
    assert col in FactColumns(table) && x in ColumnFact(table, ref, col, values(col.column));
  }

  ghost predicate IsVirtualEntry(x: FactEntry, table: string, ref: string, facts: seq<AdditionalFact>) {
    exists f | f in facts :: x == Entry(table, ref, f.ref, KindAndText(f.value).0, "")
  }

  lemma VirtualEntry(table: string, ref: string, facts: seq<AdditionalFact>, x: FactEntry)
    requires x in VirtualFacts(table, ref, facts)
    ensures IsVirtualEntry(x, table, ref, facts)
  {
    var i := FlatMapSource(facts, VirtualFactOf(table, ref), x);
    assert facts[i] in facts;
  }

  // ----- the registry -----

  predicate OtherColumn(c: FactColumn, d: FactColumn) {
    c.column != d.column
  }

  lemma DayColumnsDistinct()
    ensures Pairwise(Map(WEEKDAY_ORDER, DayColumn), OtherColumn)
    ensures forall c | c in Map(WEEKDAY_ORDER, DayColumn) :: |c.column| == 12
  {
    var days := Map(WEEKDAY_ORDER, DayColumn);
    forall i, j | 0 <= i < j < 7 ensures OtherColumn(days[i], days[j]) {
      assert WeekdayIndex(WEEKDAY_ORDER[i]) == i && WeekdayIndex(WEEKDAY_ORDER[j]) == j;
      assert days[i].column[9..] == WEEKDAY_ORDER[i] && days[j].column[9..] == WEEKDAY_ORDER[j];
    }
  }

  lemma ScheduleColumnsDistinct()
    ensures Pairwise(ScheduleColumns(), OtherColumn)
    ensures forall c | c in ScheduleColumns() :: c.column in {"booking", "schedule"} || |c.column| == 12
  {
    DayColumnsDistinct();
    var links := [FactColumn("booking", TextComplete), FactColumn("schedule", TextComplete)];
    PairwiseConcat(links, Map(WEEKDAY_ORDER, DayColumn), OtherColumn);
  }

  lemma ContactColumnsDistinct()
    ensures Pairwise(ContactColumns() + ScheduleColumns(), OtherColumn)
  {
    hide ScheduleColumns, ContactColumns;
    ScheduleColumnsDistinct();
    OwnColumnsDistinct();
    PairwiseConcat(ContactColumns(), ScheduleColumns(), OtherColumn);
  }

  lemma OwnColumnsDistinct()
    ensures Pairwise(ContactColumns(), OtherColumn)
    ensures forall c | c in ContactColumns() :: c.column !in {"booking", "schedule"} && |c.column| != 12
  {
    var own := ContactColumns();
    assert |own[0].column| == 5 && |own[1].column| == 8 && |own[2].column| == 5;
    assert |own[3].column| == 7 && |own[4].column| == 9 && |own[5].column| == 13;
    assert own[0].column[0] == 'p' && own[1].column[0] == 'w' && own[2].column[0] == 'e' && own[4].column[0] == 'i';
    assert |"booking"| == 7 && |"schedule"| == 8 && "booking"[0] == 'b' && "schedule"[0] == 's'
        && own[3].column[0] == 'w';
  }

  lemma ColumnsDistinct(table: string)
    ensures Pairwise(FactColumns(table), OtherColumn)
  {
    hide ScheduleColumns, ContactColumns;
    ScheduleColumnsDistinct();
    ContactColumnsDistinct();
  }

  lemma SpecOfColumn(table: string, col: FactColumn)
    requires col in FactColumns(table)
    ensures FactColumnSpec(table, col.column) == Some(col)
  {
    ColumnsDistinct(table);
    hide FactColumns;
    var cols := FactColumns(table);
    var i :| 0 <= i < |cols| && cols[i] == col;
    forall j | 0 <= j < i ensures cols[j].column != col.column {
      assert OtherColumn(cols[j], cols[i]);
    }
    FirstUnique(cols, (c: FactColumn) => c.column == col.column, i);
  }

  lemma RegistryKindsAreConcrete(table: string, col: FactColumn)
    requires col in FactColumns(table)
    ensures !IsVirtual(col.kind)
  {
    if col in ScheduleColumns() {
      var i :| 0 <= i < |ScheduleColumns()| && ScheduleColumns()[i] == col;
      assert i >= 2 ==> col == Map(WEEKDAY_ORDER, DayColumn)[i - 2];
    }
  }

  // ----- distinct cells -----

  predicate OtherCell(x: FactEntry, y: FactEntry) {
    x.table != y.table || x.ref != y.ref || x.column != y.column
  }

  lemma ColumnFactsDistinct(table: string, ref: string, values: string -> string)
    ensures Pairwise(ColumnFacts(table, ref, values), OtherCell)
  {
    hide FactColumns, Blank;
    ColumnsDistinct(table);
    var cols, f := FactColumns(table), ColumnFactOf(table, ref, values);
    forall i, j, x, y | 0 <= i < j < |cols| && x in f(cols[i]) && y in f(cols[j]) ensures OtherCell(x, y) {
      assert OtherColumn(cols[i], cols[j]);
      assert f(cols[i]) == ColumnFact(table, ref, cols[i], values(cols[i].column));
      assert f(cols[j]) == ColumnFact(table, ref, cols[j], values(cols[j].column));
    }
    forall i | 0 <= i < |cols| ensures Pairwise(f(cols[i]), OtherCell) {
      assert f(cols[i]) == ColumnFact(table, ref, cols[i], values(cols[i].column));
    }
    PairwiseFlatMap(cols, f, OtherCell);
  }

  lemma VirtualFactsDistinct(table: string, ref: string, facts: seq<AdditionalFact>)
    requires Pairwise(facts, OtherFact)
    ensures Pairwise(VirtualFacts(table, ref, facts), OtherCell)
  {
    hide Blank;
    var f := VirtualFactOf(table, ref);
    forall i, j, x, y | 0 <= i < j < |facts| && x in f(facts[i]) && y in f(facts[j]) ensures OtherCell(x, y) {
      assert OtherFact(facts[i], facts[j]);
    }
    PairwiseFlatMap(facts, f, OtherCell);
  }

  // A row's own columns never collide with its seller-authored ones.
  lemma RowDistinct(table: string, ref: string, values: string -> string, facts: seq<AdditionalFact>,
                    reserved: seq<string>, prose: seq<string>, folding: Folding)
    requires facts != [] ==> FactsOK(facts, reserved, prose, folding)
    requires forall c | c in FactColumns(table) :: c.column in reserved
    ensures Pairwise(ColumnFacts(table, ref, values) + VirtualFacts(table, ref, facts), OtherCell)
  {
    hide FactColumns, Blank;
    ColumnFactsDistinct(table, ref, values);
    VirtualFactsDistinct(table, ref, facts);
    forall x, y | x in ColumnFacts(table, ref, values) && y in VirtualFacts(table, ref, facts)
      ensures OtherCell(x, y)
    {
      ColumnEntry(table, ref, values, x);
      VirtualEntry(table, ref, facts, y);
      var f :| f in facts && y == Entry(table, ref, f.ref, KindAndText(f.value).0, "");
      assert FactOK(f, reserved, folding);
    }
    PairwiseConcat(ColumnFacts(table, ref, values), VirtualFacts(table, ref, facts), OtherCell);
  }

  // ----- one table at a time: where each entry comes from -----

  ghost predicate FromRow(x: FactEntry, table: string, ref: string, values: string -> string,
                          facts: seq<AdditionalFact>)
  {
    IsColumnEntry(x, table, ref, values) || IsVirtualEntry(x, table, ref, facts)
  }

  lemma ProductEntry(p: Product, x: FactEntry)
    requires x in ProductFacts(p)
    ensures ProductVisible(p) && FromRow(x, "product", p.ref, ProductValues(p), p.additionalFacts)
  {
    if x in ColumnFacts("product", p.ref, ProductValues(p)) {
      ColumnEntry("product", p.ref, ProductValues(p), x);
    } else {
      VirtualEntry("product", p.ref, p.additionalFacts, x);
    }
  }

  lemma TariffEntry(t: Tariff, x: FactEntry)
    requires x in TariffFacts(t)
    ensures Active(t.salesStatus) && FromRow(x, "tariff", t.ref, TariffValues(t), t.additionalFacts)
  {
    if x in ColumnFacts("tariff", t.ref, TariffValues(t)) {
      ColumnEntry("tariff", t.ref, TariffValues(t), x);
    } else {
      VirtualEntry("tariff", t.ref, t.additionalFacts, x);
    }
  }

  lemma SpecialistEntry(s: Specialist, salonURL: string, x: FactEntry)
    requires x in SpecialistFacts(s, salonURL)
    ensures Active(s.salesStatus) && IsColumnEntry(x, "specialist", s.ref, SpecialistValues(s, salonURL))
  {
    ColumnEntry("specialist", s.ref, SpecialistValues(s, salonURL), x);
  }

  lemma ProductEntryFills(p: Product, x: FactEntry)
    requires x in ProductFacts(p)
    ensures ProductFills(p, x.column)
  {
    hide FactColumns, Blank, ProductFacts, ProductVisible;
    ProductEntry(p, x);
    BlankEmpty();
  }

  lemma TariffEntryFills(t: Tariff, x: FactEntry)
    requires x in TariffFacts(t)
    ensures TariffFills(t, x.column)
  {
    hide FactColumns, Blank, TariffFacts;
    TariffEntry(t, x);
    BlankEmpty();
  }

  // A schedule column with a value is a booking link, a week with days, or a day of the week.
  lemma ScheduleValueFills(column: string, booking: string, s: Schedule, lang: string)
    requires ScheduleFactValue(column, booking, Canonical(s), lang).Some?
    requires !Blank(ScheduleFactValue(column, booking, Canonical(s), lang).value)
    ensures || (column == "booking" && !Blank(booking)) || (column == "schedule" && s != [])
            || exists d | d in s :: column == "schedule_" + d.ref
  {
    hide Blank, Canonical, FullText, DayText;
    CanonicalRefs(s);
    BlankEmpty();
    if column == "schedule" {
      EmptyWeekIsBlank(lang);
    } else if column != "booking" {
      var ref := column[|"schedule_"|..];
      FirstIsIn(Canonical(s), (d: Day) => d.ref == ref);
      assert column == "schedule_" + ref;
    }
  }

  lemma SpecialistEntryFills(s: Specialist, salonURL: string, x: FactEntry)
    requires x in SpecialistFacts(s, salonURL)
    ensures SpecialistFills(s, salonURL, x.column)
  {
    hide FactColumns, Blank, SpecialistFacts, Canonical, ScheduleFactValue, ResolvedBookingURL;
    SpecialistEntry(s, salonURL, x);
    BlankEmpty();
    ScheduleValueFills(x.column, ResolvedBookingURL(s.bookingURL, salonURL), s.schedule, "ru");
  }

  // Canonical days have the refs of the days they come from.
  lemma CanonicalRefs(s: Schedule)
    ensures forall d | d in Canonical(s) :: exists e | e in s :: e.ref == d.ref
    ensures forall e | e in s :: exists d | d in Canonical(s) :: d.ref == e.ref
    ensures Canonical(s) == [] <==> s == []
  {
    var tidy := Map(s, TidyDay);
    assert multiset(Canonical(s)) == multiset(tidy);
    forall d | d in Canonical(s) ensures exists e | e in s :: e.ref == d.ref {
      assert d in multiset(tidy);
      var i := IndexOf(tidy, d);
      assert s[i] in s;
    }
    forall e | e in s ensures exists d | d in Canonical(s) :: d.ref == e.ref {
      var i :| 0 <= i < |s| && s[i] == e;
      assert tidy[i] in multiset(Canonical(s));
    }
  }

  lemma ServiceEntry(s: Service, x: FactEntry)
    requires x in ServiceFacts(s)
    ensures Active(s.salesStatus) && IsColumnEntry(x, "service", s.ref, ServiceValues(s))
  {
    ColumnEntry("service", s.ref, ServiceValues(s), x);
  }

  ghost predicate IsZoneEntry(x: FactEntry, z: DeliveryZone) {
    exists col | col in FactColumns("delivery") :: x in ZoneColumnFact(z, col)
  }

  lemma ZoneEntry(z: DeliveryZone, x: FactEntry)
    requires x in ZoneFacts(z)
    ensures Active(z.salesStatus) && IsZoneEntry(x, z)
  {
    hide FactColumns, ZoneColumnFact;
    var i := FlatMapSource(FactColumns("delivery"), ZoneColumnFactOf(z), x);
    assert FactColumns("delivery")[i] in FactColumns("delivery");
  }

  // ----- distinct tokens -----

  // Rows that share no ref and column make a table of distinct cells.
  lemma TableDistinct<R>(rows: seq<R>, f: R -> seq<FactEntry>, table: string, refOf: R -> string)
    requires forall i | 0 <= i < |rows| :: Pairwise(f(rows[i]), OtherCell)
    requires forall i, x | 0 <= i < |rows| && x in f(rows[i]) :: x.table == table && x.ref == refOf(rows[i])
    requires forall i, j, x, y |
               0 <= i < j < |rows| && refOf(rows[i]) == refOf(rows[j]) && x in f(rows[i]) && y in f(rows[j]) ::
               x.column != y.column
    ensures Pairwise(FlatMap(rows, f), OtherCell)
    ensures forall x | x in FlatMap(rows, f) :: x.table == table
  {
    forall i, j, x, y | 0 <= i < j < |rows| && x in f(rows[i]) && y in f(rows[j]) ensures OtherCell(x, y) {
    }
    PairwiseFlatMap(rows, f, OtherCell);
    forall x | x in FlatMap(rows, f) ensures x.table == table {
      var i := FlatMapSource(rows, f, x);
    }
  }

  lemma ProductRow(p: Product, folding: Folding)
    requires ProductOK(p, folding)
    ensures Pairwise(ProductFacts(p), OtherCell)
    ensures forall x | x in ProductFacts(p) :: x.table == "product" && x.ref == p.ref
  {
    hide ProductVisible, FactsOK, ColumnFacts, VirtualFacts;
    if ProductVisible(p) {
      RowDistinct("product", p.ref, ProductValues(p), p.additionalFacts, PRODUCT_RESERVED, p.prose, folding);
    }
    forall x | x in ProductFacts(p) ensures x.table == "product" && x.ref == p.ref {
      ProductEntry(p, x);
    }
  }

  lemma TariffRow(t: Tariff, folding: Folding)
    requires TariffOK(t, folding)
    ensures Pairwise(TariffFacts(t), OtherCell)
    ensures forall x | x in TariffFacts(t) :: x.table == "tariff" && x.ref == t.ref
  {
    hide FactsOK, ColumnFacts, VirtualFacts;
    if Active(t.salesStatus) {
      RowDistinct("tariff", t.ref, TariffValues(t), t.additionalFacts, TARIFF_RESERVED, t.prose, folding);
    }
    forall x | x in TariffFacts(t) ensures x.table == "tariff" && x.ref == t.ref {
      TariffEntry(t, x);
    }
  }

  lemma SpecialistRow(s: Specialist, salonURL: string)
    ensures Pairwise(SpecialistFacts(s, salonURL), OtherCell)
    ensures forall x | x in SpecialistFacts(s, salonURL) :: x.table == "specialist" && x.ref == s.ref
  {
    hide ColumnFacts;
    ColumnFactsDistinct("specialist", s.ref, SpecialistValues(s, salonURL));
    forall x | x in SpecialistFacts(s, salonURL) ensures x.table == "specialist" && x.ref == s.ref {
      SpecialistEntry(s, salonURL, x);
    }
  }

  lemma ServiceRow(s: Service)
    ensures Pairwise(ServiceFacts(s), OtherCell)
    ensures forall x | x in ServiceFacts(s) :: x.table == "service" && x.ref == s.ref
  {
    hide ColumnFacts;
    ColumnFactsDistinct("service", s.ref, ServiceValues(s));
    forall x | x in ServiceFacts(s) ensures x.table == "service" && x.ref == s.ref {
      ServiceEntry(s, x);
    }
  }

  lemma ZoneCell(z: DeliveryZone, col: FactColumn, x: FactEntry)
    requires x in ZoneColumnFact(z, col)
    ensures x.table == "delivery" && x.ref == z.ref && x.column == col.column && x.kind == col.kind
    ensures x.token == FactToken(x.table, x.ref, x.column)
    ensures x.column == "delivery_cost" ==> !Blank(z.deliveryCost)
    ensures x.column == "delivery_in_days" ==> !Blank(z.deliveryInDays)
    ensures x.column in {"delivery_cost", "delivery_in_days", "delivery_available"}
  {
  }

  lemma ZoneRow(z: DeliveryZone)
    ensures Pairwise(ZoneFacts(z), OtherCell)
    ensures forall x | x in ZoneFacts(z) :: x.table == "delivery" && x.ref == z.ref
  {
    hide FactColumns, ZoneColumnFact;
    ColumnsDistinct("delivery");
    var cols, f := FactColumns("delivery"), ZoneColumnFactOf(z);
    forall i | 0 <= i < |cols| ensures Pairwise(f(cols[i]), OtherCell) {
      ZoneColumnAtMostOne(z, cols[i]);
    }
    forall i, j, x, y | 0 <= i < j < |cols| && x in f(cols[i]) && y in f(cols[j]) ensures OtherCell(x, y) {
      ZoneCell(z, cols[i], x);
      ZoneCell(z, cols[j], y);
      assert OtherColumn(cols[i], cols[j]);
    }
    PairwiseFlatMap(cols, f, OtherCell);
    forall x | x in ZoneFacts(z) ensures x.table == "delivery" && x.ref == z.ref {
      var i := FlatMapSource(cols, f, x);
      ZoneCell(z, cols[i], x);
    }
  }

  lemma ZoneColumnAtMostOne(z: DeliveryZone, col: FactColumn)
    ensures |ZoneColumnFact(z, col)| <= 1
  {
  }

  lemma PlanFactsDistinct(kb: KB, folding: Folding)
    requires PlansAccepted(kb, folding) && NoSharedCells(kb)
    ensures Pairwise(PlanFacts(kb), OtherCell)
    ensures forall x | x in PlanFacts(kb) :: x.table in {"product", "tariff"}
  {
    hide ProductOK, TariffOK, FlatMap, ProductFacts, TariffFacts, ProductFills, TariffFills, SpecialistFills;
    ProductTable(kb, folding);
    TariffTable(kb, folding);
    PairwiseConcat(FlatMap(kb.products, ProductFacts), FlatMap(kb.tariffs, TariffFacts), OtherCell);
  }

  lemma ProductTable(kb: KB, folding: Folding)
    requires PlansAccepted(kb, folding) && NoSharedCells(kb)
    ensures Pairwise(FlatMap(kb.products, ProductFacts), OtherCell)
    ensures forall x | x in FlatMap(kb.products, ProductFacts) :: x.table == "product"
  {
    hide ProductOK, TariffOK, FlatMap, ProductFacts, ProductFills, TariffFills, SpecialistFills;
    forall i | 0 <= i < |kb.products|
      ensures Pairwise(ProductFacts(kb.products[i]), OtherCell)
      ensures forall x | x in ProductFacts(kb.products[i]) ::
                x.table == "product" && x.ref == kb.products[i].ref && ProductFills(kb.products[i], x.column)
    {
      ProductRow(kb.products[i], folding);
      forall x | x in ProductFacts(kb.products[i]) ensures ProductFills(kb.products[i], x.column) {
        ProductEntryFills(kb.products[i], x);
      }
    }
    TableDistinct(kb.products, ProductFacts, "product", (p: Product) => p.ref);
  }

  lemma TariffTable(kb: KB, folding: Folding)
    requires PlansAccepted(kb, folding) && NoSharedCells(kb)
    ensures Pairwise(FlatMap(kb.tariffs, TariffFacts), OtherCell)
    ensures forall x | x in FlatMap(kb.tariffs, TariffFacts) :: x.table == "tariff"
  {
    hide ProductOK, TariffOK, FlatMap, TariffFacts, ProductFills, TariffFills, SpecialistFills;
    forall i | 0 <= i < |kb.tariffs|
      ensures Pairwise(TariffFacts(kb.tariffs[i]), OtherCell)
      ensures forall x | x in TariffFacts(kb.tariffs[i]) ::
                x.table == "tariff" && x.ref == kb.tariffs[i].ref && TariffFills(kb.tariffs[i], x.column)
    {
      TariffRow(kb.tariffs[i], folding);
      forall x | x in TariffFacts(kb.tariffs[i]) ensures TariffFills(kb.tariffs[i], x.column) {
        TariffEntryFills(kb.tariffs[i], x);
      }
    }
    TableDistinct(kb.tariffs, TariffFacts, "tariff", (t: Tariff) => t.ref);
  }

  lemma SingletonFactsDistinct(kb: KB, folding: Folding)
    requires SingletonsAccepted(kb, folding)
    ensures Pairwise(SingletonFacts(kb), OtherCell)
    ensures forall x | x in SingletonFacts(kb) :: x.table in {"tariff_info", "contact", "policy"}
  {
    hide ColumnFacts, VirtualFacts, IsColumnEntry, IsVirtualEntry, IsSalon, FactsOK, Acceptable;
    var info: seq<FactEntry>, contact: seq<FactEntry>, policy: seq<FactEntry> := [], [], [];
    if kb.tariffInfo.Some? {
      info := VirtualFacts("tariff_info", SINGLETON_REF, kb.tariffInfo.value.additionalFacts);
      InfoTable(kb.tariffInfo.value.additionalFacts, folding);
    }
    if kb.contacts.Some? {
      contact := ContactFacts(kb.contacts.value, IsSalon(kb));
      ColumnTable("contact", SINGLETON_REF, ContactValues(kb.contacts.value, IsSalon(kb)));
    }
    if kb.policies.Some? {
      policy := PolicyFacts(kb.policies.value);
      ColumnTable("policy", SINGLETON_REF, PolicyValues(kb.policies.value));
    }
    PairwiseConcat(info, contact, OtherCell);
    PairwiseConcat(info + contact, policy, OtherCell);
    assert SingletonFacts(kb) == info + contact + policy;
  }

  lemma InfoTable(facts: seq<AdditionalFact>, folding: Folding)
    requires facts != [] ==> FactsOK(facts, [], [], folding)
    ensures Pairwise(VirtualFacts("tariff_info", SINGLETON_REF, facts), OtherCell)
    ensures forall x | x in VirtualFacts("tariff_info", SINGLETON_REF, facts) :: x.table == "tariff_info"
  {
    hide VirtualFacts;
    VirtualFactsDistinct("tariff_info", SINGLETON_REF, facts);
    forall x | x in VirtualFacts("tariff_info", SINGLETON_REF, facts) ensures x.table == "tariff_info" {
      VirtualEntry("tariff_info", SINGLETON_REF, facts, x);
    }
  }

  lemma ColumnTable(table: string, ref: string, values: string -> string)
    ensures Pairwise(ColumnFacts(table, ref, values), OtherCell)
    ensures forall x | x in ColumnFacts(table, ref, values) :: x.table == table
  {
    hide ColumnFacts;
    ColumnFactsDistinct(table, ref, values);
    forall x | x in ColumnFacts(table, ref, values) ensures x.table == table {
      ColumnEntry(table, ref, values, x);
    }
  }

  lemma BookableFactsDistinct(kb: KB)
    requires BookablesAccepted(kb) && NoSharedCells(kb)
    ensures Pairwise(BookableFacts(kb), OtherCell)
    ensures forall x | x in BookableFacts(kb) :: x.table in {"delivery", "specialist", "service"}
  {
    hide ZoneFacts, SpecialistFacts, ServiceFacts, ContactBookingURL, FlatMap, NoSharedCells;
    var salonURL := ContactBookingURL(kb);
    ZoneTable(kb);
    SpecialistTable(kb);
    ServiceTable(kb);
    var zones, specialists, services :=
      FlatMap(kb.deliveryZones, ZoneFacts), FlatMap(kb.specialists, SpecialistFactsOf(salonURL)),
      FlatMap(kb.services, ServiceFacts);
    PairwiseConcat(zones, specialists, OtherCell);
    PairwiseConcat(zones + specialists, services, OtherCell);
  }

  lemma ZoneTable(kb: KB)
    requires ZonesOK(kb.deliveryZones, kb.policies)
    ensures Pairwise(FlatMap(kb.deliveryZones, ZoneFacts), OtherCell)
    ensures forall x | x in FlatMap(kb.deliveryZones, ZoneFacts) :: x.table == "delivery"
  {
    hide ZoneFacts, ZoneRowOK, LinksResolve, WellFounded;
    forall i | 0 <= i < |kb.deliveryZones|
      ensures Pairwise(ZoneFacts(kb.deliveryZones[i]), OtherCell)
      ensures forall x | x in ZoneFacts(kb.deliveryZones[i]) ::
              x.table == "delivery" && x.ref == kb.deliveryZones[i].ref
    {
      ZoneRow(kb.deliveryZones[i]);
    }
    forall i, j | 0 <= i < j < |kb.deliveryZones| ensures kb.deliveryZones[i].ref != kb.deliveryZones[j].ref {
      assert OtherZone(kb.deliveryZones[i], kb.deliveryZones[j]);
    }
    TableDistinct(kb.deliveryZones, ZoneFacts, "delivery", (z: DeliveryZone) => z.ref);
  }

  lemma SpecialistTable(kb: KB)
    requires NoSharedCells(kb)
    ensures Pairwise(FlatMap(kb.specialists, SpecialistFactsOf(ContactBookingURL(kb))), OtherCell)
    ensures forall x | x in FlatMap(kb.specialists, SpecialistFactsOf(ContactBookingURL(kb))) :: x.table == "specialist"
  {
    hide SpecialistFacts, FlatMap, ContactBookingURL, ProductFills, TariffFills, SpecialistFills;
    var salonURL := ContactBookingURL(kb);
    var rows, f := kb.specialists, SpecialistFactsOf(salonURL);
    forall i | 0 <= i < |rows|
      ensures Pairwise(f(rows[i]), OtherCell)
      ensures forall x | x in f(rows[i]) ::
                x.table == "specialist" && x.ref == rows[i].ref && SpecialistFills(rows[i], salonURL, x.column)
    {
      SpecialistRow(rows[i], salonURL);
      forall x | x in f(rows[i]) ensures SpecialistFills(rows[i], salonURL, x.column) {
        SpecialistEntryFills(rows[i], salonURL, x);
      }
    }
    TableDistinct(rows, f, "specialist", (s: Specialist) => s.ref);
  }

  lemma ServiceTable(kb: KB)
    requires ServicesOK(kb.services)
    ensures Pairwise(FlatMap(kb.services, ServiceFacts), OtherCell)
    ensures forall x | x in FlatMap(kb.services, ServiceFacts) :: x.table == "service"
  {
    hide ServiceFacts, ServiceRowOK, ParentOK;
    forall i | 0 <= i < |kb.services|
      ensures Pairwise(ServiceFacts(kb.services[i]), OtherCell)
      ensures forall x | x in ServiceFacts(kb.services[i]) :: x.table == "service" && x.ref == kb.services[i].ref
    {
      ServiceRow(kb.services[i]);
    }
    forall i, j | 0 <= i < j < |kb.services| ensures kb.services[i].ref != kb.services[j].ref {
      assert OtherService(kb.services[i], kb.services[j]);
    }
    TableDistinct(kb.services, ServiceFacts, "service", (s: Service) => s.ref);
  }

  lemma CellsDistinct(kb: KB, folding: Folding)
    requires FactsAccepted(kb, folding) && NoSharedCells(kb)
    ensures Pairwise(CompiledFacts(kb), OtherCell)
  {
    hide PlanFacts, SingletonFacts, BookableFacts, PlansAccepted, SingletonsAccepted, BookablesAccepted,
         NoSharedCells;
    PlanFactsDistinct(kb, folding);
    SingletonFactsDistinct(kb, folding);
    BookableFactsDistinct(kb);
    PairwiseConcat(PlanFacts(kb), SingletonFacts(kb), OtherCell);
    PairwiseConcat(PlanFacts(kb) + SingletonFacts(kb), BookableFacts(kb), OtherCell);
  }
}
