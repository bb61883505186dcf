/** Every compiled fact reads back as a non-blank value of its own cell, in every language. */
module Readback {
  import opened Wrappers
  import opened Text
  import opened Permutations
  import opened Schedules
  import opened ScheduleText
  import opened KnowledgeBase
  import opened Registry
  import opened Mentions
  import opened Facts
  import opened Hierarchies
  import opened Catalogs
  import opened Resolver
  import opened Agreement

  ghost predicate WellNamed(x: FactEntry) {
    && x.token == FactToken(x.table, x.ref, x.column) && Dotless(x.table) && Dotless(x.ref)
    && (!IsVirtual(x.kind) ==>
          FactColumnSpec(x.table, x.column).Some? && FactColumnSpec(x.table, x.column).value.kind == x.kind)
  }

  ghost predicate Holds(kb: KB, x: FactEntry, lang: string, r: Result<string>) {
    r.Success? && !Blank(r.value) && Stored(kb, x, lang, r.value)
  }

  ghost predicate ReadsBack(kb: KB, x: FactEntry, lang: string) {
    WellNamed(x) && Holds(kb, x, lang, CurrentFactValue(kb, x, lang))
  }

  lemma ValidRefIsDotless(ref: string)
    requires ValidRef(ref)
    ensures Dotless(ref)
  {
  }

  lemma ColumnEntryIsNamed(x: FactEntry, table: string, ref: string, values: string -> string)
    requires IsColumnEntry(x, table, ref, values) && Dotless(table) && Dotless(ref)
    ensures WellNamed(x) && !IsVirtual(x.kind) && x.table == table && x.ref == ref && !Blank(values(x.column))
  {
    hide FactColumns, Blank;
    var col :| col in FactColumns(table) && x == Entry(table, ref, col.column, col.kind, "")
        && !Blank(values(col.column));
    SpecOfColumn(table, col);
    RegistryKindsAreConcrete(table, col);
  }

  // ----- seller-authored facts -----

  lemma WordingNotBlank(v: FactValue, lang: string)
    requires ValueOK(v)
    ensures !Blank(Wording(v, lang))
  {
    match v
    case Number(digits) => SafeNumberNotBlank(digits);
    case Flag(b) =>
      var w := FactBoolWording(lang, b);
      assert !IsSpace(w[0]);
    case Words(s) =>
      var w := TrimSpace(s);
      assert !IsSpace(w[|w| - 1]);
  }

  lemma VirtualReadsBack(x: FactEntry, table: string, ref: string, facts: seq<AdditionalFact>,
                         reserved: seq<string>, prose: seq<string>, folding: Folding, lang: string)
    requires IsVirtualEntry(x, table, ref, facts) && Dotless(table) && Dotless(ref)
    requires facts != [] ==> FactsOK(facts, reserved, prose, folding)
    ensures WellNamed(x) && IsVirtual(x.kind) && x.table == table && x.ref == ref
    ensures var r := ResolveVirtualFact(facts, x, lang);
            r.Success? && !Blank(r.value) && VirtualStored(facts, x.column, lang, r.value)
  {
    hide Blank, TrimSpace, InstructionOK;
    var f :| f in facts && x == Entry(table, ref, f.ref, KindAndText(f.value).0, "");
    var i :| 0 <= i < |facts| && facts[i] == f;
    forall j | 0 <= j < i ensures facts[j].ref != x.column {
      assert OtherFact(facts[j], facts[i]);
    }
    FirstUnique(facts, (g: AdditionalFact) => g.ref == x.column, i);
    assert FactOK(facts[i], reserved, folding);
    WordingNotBlank(f.value, lang);
  }

  // ----- rows found again -----

  lemma ProductFound(kb: KB, i: nat)
    requires UniqueRefs(kb) && i < |kb.products| && ProductVisible(kb.products[i])
    ensures CurrentProduct(kb, kb.products[i].ref) == Some(kb.products[i])
  {
    FirstUnique(kb.products, (p: Product) => p.ref == kb.products[i].ref && ProductVisible(p), i);
  }

  lemma TariffFound(kb: KB, i: nat)
    requires UniqueRefs(kb) && i < |kb.tariffs| && Active(kb.tariffs[i].salesStatus)
    ensures CurrentTariff(kb, kb.tariffs[i].ref) == Some(kb.tariffs[i])
  {
    FirstUnique(kb.tariffs, (t: Tariff) => t.ref == kb.tariffs[i].ref && Active(t.salesStatus), i);
  }

  lemma SpecialistFound(kb: KB, i: nat)
    requires UniqueRefs(kb) && i < |kb.specialists| && Active(kb.specialists[i].salesStatus)
    ensures CurrentSpecialist(kb, kb.specialists[i].ref) == Some(kb.specialists[i])
  {
    FirstUnique(kb.specialists, (s: Specialist) => s.ref == kb.specialists[i].ref && Active(s.salesStatus), i);
  }

  lemma ZoneFound(kb: KB, i: nat)
    requires ZonesOK(kb.deliveryZones, kb.policies)
    requires i < |kb.deliveryZones| && Active(kb.deliveryZones[i].salesStatus)
    ensures CurrentDeliveryZone(kb, kb.deliveryZones[i].ref) == Some(kb.deliveryZones[i])
  {
    forall j | 0 <= j < i ensures kb.deliveryZones[j].ref != kb.deliveryZones[i].ref {
      assert OtherZone(kb.deliveryZones[j], kb.deliveryZones[i]);
    }
    FirstUnique(kb.deliveryZones, (z: DeliveryZone) => z.ref == kb.deliveryZones[i].ref && Active(z.salesStatus), i);
  }

  lemma ServiceFound(kb: KB, i: nat)
    requires ServicesOK(kb.services) && i < |kb.services| && Active(kb.services[i].salesStatus)
    ensures CurrentService(kb, kb.services[i].ref) == Some(kb.services[i])
  {
    forall j | 0 <= j < i ensures kb.services[j].ref != kb.services[i].ref {
      assert OtherService(kb.services[j], kb.services[i]);
    }
    FirstUnique(kb.services, (s: Service) => s.ref == kb.services[i].ref && Active(s.salesStatus), i);
  }

  // ----- table by table -----

  lemma ProductReadsBack(kb: KB, folding: Folding, i: nat, x: FactEntry, lang: string)
    requires UniqueRefs(kb) && i < |kb.products| && ProductOK(kb.products[i], folding)
    requires x in ProductFacts(kb.products[i])
    ensures ReadsBack(kb, x, lang)
  {
    hide ProductFacts, ProductVisible, FactsOK, IsColumnEntry, IsVirtualEntry, Blank, UniqueRefs, FactColumnSpec;
    var p := kb.products[i];
    ProductEntry(p, x);
    ProductFound(kb, i);
    ValidRefIsDotless(p.ref);
    if IsColumnEntry(x, "product", p.ref, ProductValues(p)) {
      ColumnEntryIsNamed(x, "product", p.ref, ProductValues(p));
      BlankEmpty();
    } else {
      VirtualReadsBack(x, "product", p.ref, p.additionalFacts, PRODUCT_RESERVED, p.prose, folding, lang);
    }
  }

  lemma TariffReadsBack(kb: KB, folding: Folding, i: nat, x: FactEntry, lang: string)
    requires UniqueRefs(kb) && i < |kb.tariffs| && TariffOK(kb.tariffs[i], folding)
    requires x in TariffFacts(kb.tariffs[i])
    ensures ReadsBack(kb, x, lang)
  {
    hide TariffFacts, FactsOK, IsColumnEntry, IsVirtualEntry, Blank, UniqueRefs, FactColumnSpec;
    var t := kb.tariffs[i];
    TariffEntry(t, x);
    TariffFound(kb, i);
    ValidRefIsDotless(t.ref);
    if IsColumnEntry(x, "tariff", t.ref, TariffValues(t)) {
      ColumnEntryIsNamed(x, "tariff", t.ref, TariffValues(t));
      BlankEmpty();
    } else {
      VirtualReadsBack(x, "tariff", t.ref, t.additionalFacts, TARIFF_RESERVED, t.prose, folding, lang);
    }
  }

  lemma InfoReadsBack(kb: KB, folding: Folding, x: FactEntry, lang: string)
    requires kb.tariffInfo.Some? && SingletonsAccepted(kb, folding)
    requires x in VirtualFacts("tariff_info", SINGLETON_REF, kb.tariffInfo.value.additionalFacts)
    ensures ReadsBack(kb, x, lang)
  {
    hide FactsOK, IsVirtualEntry, Blank, VirtualFacts;
    var facts := kb.tariffInfo.value.additionalFacts;
    VirtualEntry("tariff_info", SINGLETON_REF, facts, x);
    VirtualReadsBack(x, "tariff_info", SINGLETON_REF, facts, [], [], folding, lang);
  }

  // A schedule column that has a value in Russian has one in every language.
  lemma ScheduleReadsBack(column: string, booking: string, s: Schedule, lang: string)
    requires ScheduleFactValue(column, booking, Canonical(s), "ru").Some?
    requires !Blank(ScheduleFactValue(column, booking, Canonical(s), "ru").value)
    ensures var v := ScheduleFactValue(column, booking, Canonical(s), lang);
            v.Some? && !Blank(v.value) && ScheduleStored(column, booking, s, lang, v.value)
  {
    hide Blank, FullText, DayText, Canonical, Acceptable;
    if column != "booking" {
      if column == "schedule" {
        FullTextBlankInEveryLanguage(Canonical(s), "ru", lang);
      } else {
        BlankEmpty();
        var ref := column[|"schedule_"|..];
        var d := DayByRef(Canonical(s), ref);
        FirstIsIn(Canonical(s), (d: Day) => d.ref == ref);
        DayTextNotBlank(d.value, lang);
        assert column == "schedule_" + d.value.ref;
      }
    }
  }

  lemma ContactReadsBack(kb: KB, x: FactEntry, lang: string)
    requires kb.contacts.Some? && Acceptable(kb.contacts.value.schedule)
    requires x in ContactFacts(kb.contacts.value, IsSalon(kb))
    ensures ReadsBack(kb, x, lang)
  {
    hide Blank, ColumnFacts, IsColumnEntry, IsSalon, Acceptable, Canonical, ScheduleFactValue, ScheduleStored,
         FactColumnSpec;
    var c := kb.contacts.value;
    var values := ContactValues(c, IsSalon(kb));
    ColumnEntry("contact", SINGLETON_REF, values, x);
    ColumnEntryIsNamed(x, "contact", SINGLETON_REF, values);
    BlankEmpty();
    if ScheduleFactValue(x.column, c.bookingURL, Canonical(c.schedule), "ru").Some? {
      ScheduleReadsBack(x.column, c.bookingURL, c.schedule, lang);
    } else {
      ScheduleColumnsSameInEveryLanguage(x.column, c.bookingURL, Canonical(c.schedule), lang);
    }
  }

  lemma ScheduleColumnsSameInEveryLanguage(column: string, booking: string, s: Schedule, lang: string)
    ensures ScheduleFactValue(column, booking, s, "ru").Some? <==> ScheduleFactValue(column, booking, s, lang).Some?
  {
  }

  lemma PolicyReadsBack(kb: KB, x: FactEntry, lang: string)
    requires kb.policies.Some? && x in PolicyFacts(kb.policies.value)
    ensures ReadsBack(kb, x, lang)
  {
    hide Blank, ColumnFacts, IsColumnEntry, FactColumnSpec;
    var values := PolicyValues(kb.policies.value);
    ColumnEntry("policy", SINGLETON_REF, values, x);
    ColumnEntryIsNamed(x, "policy", SINGLETON_REF, values);
    BlankEmpty();
  }

  lemma ZoneReadsBack(kb: KB, i: nat, x: FactEntry, lang: string)
    requires ZonesOK(kb.deliveryZones, kb.policies) && i < |kb.deliveryZones|
    requires x in ZoneFacts(kb.deliveryZones[i])
    ensures ReadsBack(kb, x, lang)
  {
    hide Blank, ZoneFacts, FactColumns, ZoneColumnFact, ZoneRowOK, LinksResolve, WellFounded, IsZoneEntry;
    var z := kb.deliveryZones[i];
    ZoneEntry(z, x);
    ZoneFound(kb, i);
    ZoneEntryIsNamed(z, x);
    RowOKIsDotless(z);
    assert z in kb.deliveryZones;
    DeliveryWordingNotBlank(lang, z.deliveryAvailable);
  }

  lemma RowOKIsDotless(z: DeliveryZone)
    requires ZoneRowOK(z)
    ensures Dotless(z.ref)
  {
  }

  lemma DeliveryWordingNotBlank(lang: string, b: bool)
    ensures !Blank(DeliveryWording(lang, b))
  {
    assert !IsSpace(DeliveryWording(lang, b)[0]);
  }

  lemma ZoneEntryIsNamed(z: DeliveryZone, x: FactEntry)
    requires IsZoneEntry(x, z)
    ensures x.table == "delivery" && x.ref == z.ref && x.token == FactToken(x.table, x.ref, x.column)
    ensures !IsVirtual(x.kind) && FactColumnSpec(x.table, x.column).Some?
            && FactColumnSpec(x.table, x.column).value.kind == x.kind
    ensures x.column == "delivery_cost" ==> !Blank(z.deliveryCost)
    ensures x.column == "delivery_in_days" ==> !Blank(z.deliveryInDays)
    ensures x.column in {"delivery_cost", "delivery_in_days", "delivery_available"}
  {
    hide FactColumns, ZoneColumnFact, Blank;
    var col :| col in FactColumns("delivery") && x in ZoneColumnFact(z, col);
    ZoneCell(z, col, x);
    SpecOfColumn("delivery", col);
    RegistryKindsAreConcrete("delivery", col);
  }

  lemma SpecialistReadsBack(kb: KB, i: nat, x: FactEntry, lang: string)
    requires UniqueRefs(kb) && i < |kb.specialists| && SpecialistOK(kb.specialists[i])
    requires x in SpecialistFacts(kb.specialists[i], ContactBookingURL(kb))
    ensures ReadsBack(kb, x, lang)
  {
    hide Blank, SpecialistFacts, IsColumnEntry, Acceptable, Canonical, ScheduleFactValue, ScheduleStored,
         FactColumnSpec, UniqueRefs, ContactBookingURL, ResolvedBookingURL;
    var s, salonURL := kb.specialists[i], ContactBookingURL(kb);
    SpecialistEntry(s, salonURL, x);
    SpecialistFound(kb, i);
    ValidRefIsDotless(s.ref);
    ColumnEntryIsNamed(x, "specialist", s.ref, SpecialistValues(s, salonURL));
    BlankEmpty();
    ScheduleReadsBack(x.column, ResolvedBookingURL(s.bookingURL, salonURL), s.schedule, lang);
    assert s in kb.specialists;
  }

  lemma ServiceReadsBack(kb: KB, i: nat, x: FactEntry, lang: string)
    requires ServicesOK(kb.services) && i < |kb.services| && x in ServiceFacts(kb.services[i])
    ensures ReadsBack(kb, x, lang)
  {
    hide Blank, ServiceFacts, IsColumnEntry, FactColumnSpec, ParentOK, Itoa;
    var s := kb.services[i];
    ServiceEntry(s, x);
    ServiceFound(kb, i);
    assert ServiceRowOK(s);
    ValidRefIsDotless(s.ref);
    ColumnEntryIsNamed(x, "service", s.ref, ServiceValues(s));
    BlankEmpty();
    assert s in kb.services;
  }

  // ----- the whole catalog -----

  lemma PlansReadBack(kb: KB, folding: Folding, x: FactEntry, lang: string)
    requires PlansAccepted(kb, folding) && UniqueRefs(kb) && x in PlanFacts(kb)
    ensures ReadsBack(kb, x, lang)
  {
    hide ProductOK, TariffOK, UniqueRefs, ProductFacts, TariffFacts, ReadsBack, FlatMap;
    if x in FlatMap(kb.products, ProductFacts) {
      var i := FlatMapSource(kb.products, ProductFacts, x);
      ProductReadsBack(kb, folding, i, x, lang);
    } else {
      var i := FlatMapSource(kb.tariffs, TariffFacts, x);
      TariffReadsBack(kb, folding, i, x, lang);
    }
  }

  lemma SingletonsReadBack(kb: KB, folding: Folding, x: FactEntry, lang: string)
    requires SingletonsAccepted(kb, folding) && x in SingletonFacts(kb)
    ensures ReadsBack(kb, x, lang)
  {
    hide ReadsBack, VirtualFacts, ContactFacts, PolicyFacts, FactsOK, Acceptable, IsSalon;
    if kb.tariffInfo.Some? && x in VirtualFacts("tariff_info", SINGLETON_REF, kb.tariffInfo.value.additionalFacts) {
      InfoReadsBack(kb, folding, x, lang);
    } else if kb.contacts.Some? && x in ContactFacts(kb.contacts.value, IsSalon(kb)) {
      ContactReadsBack(kb, x, lang);
    } else {
      PolicyReadsBack(kb, x, lang);
    }
  }

  lemma BookablesReadBack(kb: KB, x: FactEntry, lang: string)
    requires BookablesAccepted(kb) && UniqueRefs(kb) && x in BookableFacts(kb)
    ensures ReadsBack(kb, x, lang)
  {
    hide ReadsBack, ZonesOK, ServicesOK, SpecialistOK, UniqueRefs, ZoneFacts, SpecialistFacts, ServiceFacts, FlatMap,
         ContactBookingURL;
    var specialist := SpecialistFactsOf(ContactBookingURL(kb));
    if x in FlatMap(kb.deliveryZones, ZoneFacts) {
      var i := FlatMapSource(kb.deliveryZones, ZoneFacts, x);
      ZoneReadsBack(kb, i, x, lang);
    } else if x in FlatMap(kb.specialists, specialist) {
      var i := FlatMapSource(kb.specialists, specialist, x);
      SpecialistReadsBack(kb, i, x, lang);
    } else {
      var i := FlatMapSource(kb.services, ServiceFacts, x);
      ServiceReadsBack(kb, i, x, lang);
    }
  }

  lemma EveryEntryReadsBack(kb: KB, folding: Folding, x: FactEntry, lang: string)
    requires FactsAccepted(kb, folding) && UniqueRefs(kb) && x in CompiledFacts(kb)
    ensures ReadsBack(kb, x, lang)
  {
    hide ReadsBack, PlansAccepted, SingletonsAccepted, BookablesAccepted, UniqueRefs, PlanFacts, SingletonFacts,
         BookableFacts;
    if x in PlanFacts(kb) {
      PlansReadBack(kb, folding, x, lang);
    } else if x in SingletonFacts(kb) {
      SingletonsReadBack(kb, folding, x, lang);
    } else {
      BookablesReadBack(kb, x, lang);
    }
  }

  // ----- whatever resolves is stored now -----

  lemma VirtualIsStored(facts: seq<AdditionalFact>, x: FactEntry, lang: string)
    requires ResolveVirtualFact(facts, x, lang).Success?
    ensures var v := ResolveVirtualFact(facts, x, lang).value; !Blank(v) && VirtualStored(facts, x.column, lang, v)
  {
    FirstIsIn(facts, (f: AdditionalFact) => f.ref == x.column);
    var f := First(facts, (f: AdditionalFact) => f.ref == x.column).value;
    if f.value.Flag? {
      assert !IsSpace(FactBoolWording(lang, f.value.b)[0]);
    }
  }

  lemma ScheduleValueIsStored(column: string, booking: string, s: Schedule, lang: string)
    requires ScheduleFactValue(column, booking, Canonical(s), lang).Some?
    requires !Blank(ScheduleFactValue(column, booking, Canonical(s), lang).value)
    ensures ScheduleStored(column, booking, s, lang, ScheduleFactValue(column, booking, Canonical(s), lang).value)
  {
    hide Blank, FullText, DayText, Canonical, Acceptable;
    if column != "booking" && column != "schedule" {
      BlankEmpty();
      var ref := column[|"schedule_"|..];
      FirstIsIn(Canonical(s), (d: Day) => d.ref == ref);
      assert column == "schedule_" + ref;
    }
  }

  lemma PlanValueIsStored(kb: KB, x: FactEntry, lang: string)
    requires x.table in {"product", "tariff", "tariff_info"} && CurrentFactValue(kb, x, lang).Success?
    ensures Holds(kb, x, lang, CurrentFactValue(kb, x, lang))
  {
    hide Blank, ResolveVirtualFact, VirtualStored, ProductVisible;
    BlankEmpty();
    if x.table == "product" {
      FirstIsIn(kb.products, (p: Product) => p.ref == x.ref && ProductVisible(p));
      var p := CurrentProduct(kb, x.ref).value;
      if IsVirtual(x.kind) {
        VirtualIsStored(p.additionalFacts, x, lang);
      }
    } else if x.table == "tariff" {
      FirstIsIn(kb.tariffs, (t: Tariff) => t.ref == x.ref && Active(t.salesStatus));
      var t := CurrentTariff(kb, x.ref).value;
      if IsVirtual(x.kind) {
        VirtualIsStored(t.additionalFacts, x, lang);
      }
    } else {
      VirtualIsStored(kb.tariffInfo.value.additionalFacts, x, lang);
    }
  }

  lemma SingletonValueIsStored(kb: KB, x: FactEntry, lang: string)
    requires x.table in {"contact", "policy"} && CurrentFactValue(kb, x, lang).Success?
    ensures Holds(kb, x, lang, CurrentFactValue(kb, x, lang))
  {
    hide Blank, Acceptable, Canonical, ScheduleFactValue, ScheduleStored;
    BlankEmpty();
    if x.table == "contact" {
      var c := kb.contacts.value;
      if ScheduleFactValue(x.column, c.bookingURL, Canonical(c.schedule), lang).Some? {
        ScheduleValueIsStored(x.column, c.bookingURL, c.schedule, lang);
      }
    }
  }

  lemma BookableValueIsStored(kb: KB, x: FactEntry, lang: string)
    requires x.table in {"delivery", "specialist", "service"} && CurrentFactValue(kb, x, lang).Success?
    ensures Holds(kb, x, lang, CurrentFactValue(kb, x, lang))
  {
    hide Blank, Acceptable, Canonical, ScheduleFactValue, ScheduleStored, ContactBookingURL, ResolvedBookingURL, Itoa,
         DeliveryWording;
    BlankEmpty();
    if x.table == "delivery" {
      FirstIsIn(kb.deliveryZones, (z: DeliveryZone) => z.ref == x.ref && Active(z.salesStatus));
      DeliveryWordingNotBlank(lang, CurrentDeliveryZone(kb, x.ref).value.deliveryAvailable);
    } else if x.table == "specialist" {
      FirstIsIn(kb.specialists, (s: Specialist) => s.ref == x.ref && Active(s.salesStatus));
      var s := CurrentSpecialist(kb, x.ref).value;
      ScheduleValueIsStored(x.column, ResolvedBookingURL(s.bookingURL, ContactBookingURL(kb)), s.schedule, lang);
    } else {
      FirstIsIn(kb.services, (s: Service) => s.ref == x.ref && Active(s.salesStatus));
    }
  }

  lemma UnknownTableFails(kb: KB, x: FactEntry, lang: string)
    requires CurrentFactValue(kb, x, lang).Success?
    ensures x.table in {"product", "tariff", "tariff_info", "contact", "policy", "delivery", "specialist", "service"}
  {
    hide Blank, ResolveVirtualFact, CurrentContactValue, CurrentSpecialistValue, CurrentServiceValue,
         CurrentPolicyValue, CurrentZoneValue, CurrentProduct, CurrentTariff, CurrentSpecialist, CurrentService,
         CurrentDeliveryZone;
    BlankEmpty();
  }

  // Of any base, any catalog, stale or not, and any token: what resolves is the non-blank value that an
  // approved row and column named by an entry of that token hold now. Shared refs make no difference.
  lemma ResolvedValueIsStored(kb: KB, facts: seq<FactEntry>, token: string, lang: string)
    requires ResolveFact(token, kb, facts, lang).Success?
    ensures exists x | x in facts :: x.token == token && Holds(kb, x, lang, ResolveFact(token, kb, facts, lang))
  {
    hide CurrentFactValue, Holds, FactColumnSpec;
    FirstIsIn(facts, HasToken(token));
    var x := FactByToken(facts, token).value;
    UnknownTableFails(kb, x, lang);
    if x.table in {"product", "tariff", "tariff_info"} {
      PlanValueIsStored(kb, x, lang);
    } else if x.table in {"contact", "policy"} {
      SingletonValueIsStored(kb, x, lang);
    } else {
      BookableValueIsStored(kb, x, lang);
    }
  }

  // ----- every entry is well named, whoever else shares its ref -----

  lemma ProductEntryIsNamed(p: Product, folding: Folding, x: FactEntry)
    requires ProductOK(p, folding) && x in ProductFacts(p)
    ensures WellNamed(x) && x.table == "product" && x.ref == p.ref
  {
    hide ProductFacts, ProductVisible, FactsOK, IsColumnEntry, IsVirtualEntry, Blank, FactColumnSpec;
    ProductEntry(p, x);
    ValidRefIsDotless(p.ref);
    if IsColumnEntry(x, "product", p.ref, ProductValues(p)) {
      ColumnEntryIsNamed(x, "product", p.ref, ProductValues(p));
    } else {
      VirtualReadsBack(x, "product", p.ref, p.additionalFacts, PRODUCT_RESERVED, p.prose, folding, "ru");
    }
  }

  lemma TariffEntryIsNamed(t: Tariff, folding: Folding, x: FactEntry)
    requires TariffOK(t, folding) && x in TariffFacts(t)
    ensures WellNamed(x) && x.table == "tariff" && x.ref == t.ref
  {
    hide TariffFacts, FactsOK, IsColumnEntry, IsVirtualEntry, Blank, FactColumnSpec;
    TariffEntry(t, x);
    ValidRefIsDotless(t.ref);
    if IsColumnEntry(x, "tariff", t.ref, TariffValues(t)) {
      ColumnEntryIsNamed(x, "tariff", t.ref, TariffValues(t));
    } else {
      VirtualReadsBack(x, "tariff", t.ref, t.additionalFacts, TARIFF_RESERVED, t.prose, folding, "ru");
    }
  }

  lemma SpecialistEntryIsNamed(s: Specialist, salonURL: string, x: FactEntry)
    requires SpecialistOK(s) && x in SpecialistFacts(s, salonURL)
    ensures WellNamed(x) && !IsVirtual(x.kind) && x.table == "specialist" && x.ref == s.ref
  {
    hide SpecialistFacts, Blank, IsColumnEntry, Acceptable, FactColumnSpec;
    SpecialistEntry(s, salonURL, x);
    ValidRefIsDotless(s.ref);
    ColumnEntryIsNamed(x, "specialist", s.ref, SpecialistValues(s, salonURL));
  }

  lemma EveryEntryIsNamed(kb: KB, folding: Folding, x: FactEntry)
    requires FactsAccepted(kb, folding) && x in CompiledFacts(kb)
    ensures WellNamed(x)
  {
    hide WellNamed, FlatMap, ProductOK, TariffOK, SpecialistOK, ZonesOK, ServicesOK, SingletonsAccepted,
         SingletonFacts, ProductFacts, TariffFacts, SpecialistFacts, ZoneFacts, ServiceFacts, ContactBookingURL,
         Holds;
    var specialist := SpecialistFactsOf(ContactBookingURL(kb));
    if x in FlatMap(kb.products, ProductFacts) {
      var i := FlatMapSource(kb.products, ProductFacts, x);
      ProductEntryIsNamed(kb.products[i], folding, x);
    } else if x in FlatMap(kb.tariffs, TariffFacts) {
      var i := FlatMapSource(kb.tariffs, TariffFacts, x);
      TariffEntryIsNamed(kb.tariffs[i], folding, x);
    } else if x in SingletonFacts(kb) {
      SingletonsReadBack(kb, folding, x, "ru");
    } else if x in FlatMap(kb.deliveryZones, ZoneFacts) {
      var i := FlatMapSource(kb.deliveryZones, ZoneFacts, x);
      ZoneReadsBack(kb, i, x, "ru");
    } else if x in FlatMap(kb.specialists, specialist) {
      var i := FlatMapSource(kb.specialists, specialist, x);
      SpecialistEntryIsNamed(kb.specialists[i], ContactBookingURL(kb), x);
    } else {
      var i := FlatMapSource(kb.services, ServiceFacts, x);
      ServiceReadsBack(kb, i, x, "ru");
    }
  }

  predicate OtherToken(x: FactEntry, y: FactEntry) {
    x.token != y.token
  }

  // Tokens name cells, so they differ exactly when their cells do.
  lemma TokenIsCell(kb: KB, folding: Folding, x: FactEntry, y: FactEntry)
    requires FactsAccepted(kb, folding) && x in CompiledFacts(kb) && y in CompiledFacts(kb)
    ensures OtherToken(x, y) <==> OtherCell(x, y)
  {
    hide FactsAccepted, CompiledFacts, FactColumnSpec;
    EveryEntryIsNamed(kb, folding, x);
    EveryEntryIsNamed(kb, folding, y);
    if x.token == y.token {
      TokenNamesOneCell(x.table, x.ref, x.column, y.table, y.ref, y.column);
    }
  }

  // The tokens of an accepted knowledge base are pairwise distinct when no cell is shared.
  lemma TokensDistinct(kb: KB, folding: Folding)
    requires FactsAccepted(kb, folding) && NoSharedCells(kb)
    ensures Pairwise(CompiledFacts(kb), OtherToken)
  {
    hide FactsAccepted, NoSharedCells, CompiledFacts;
    CellsDistinct(kb, folding);
    var facts := CompiledFacts(kb);
    forall i, j | 0 <= i < j < |facts| ensures OtherToken(facts[i], facts[j]) {
      assert OtherCell(facts[i], facts[j]) && facts[i] in facts && facts[j] in facts;
      TokenIsCell(kb, folding, facts[i], facts[j]);
    }
  }

  // Compile, then resolve: in every reply language each token of the catalog yields the
  // current, non-blank value of the very row and column it names.
  lemma CompiledTokensResolve(kb: KB, folding: Folding, x: FactEntry, lang: string)
    requires FactsAccepted(kb, folding) && UniqueRefs(kb) && x in CompiledFacts(kb)
    ensures FactByToken(CompiledFacts(kb), x.token) == Some(x)
    ensures Holds(kb, x, lang, ResolveFact(x.token, kb, CompiledFacts(kb), lang))
  {
    hide FactsAccepted, UniqueRefs, NoSharedCells, CompiledFacts, CurrentFactValue, Stored, FactColumnSpec;
    var facts := CompiledFacts(kb);
    UniqueRefsShareNothing(kb);
    TokensDistinct(kb, folding);
    EveryEntryReadsBack(kb, folding, x, lang);
    var i :| 0 <= i < |facts| && facts[i] == x;
    forall j | 0 <= j < i ensures facts[j].token != x.token {
      assert OtherToken(facts[j], facts[i]);
    }
    FirstUnique(facts, HasToken(x.token), i);
  }
}
