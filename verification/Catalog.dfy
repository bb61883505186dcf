/** Compiling a knowledge base into the fact tokens the model may use. */
module Catalogs {
  import opened Wrappers
  import opened Text
  import opened Permutations
  import opened Schedules
  import opened ScheduleText
  import opened KnowledgeBase
  import opened Registry
  import opened Mentions
  import opened Facts
  import opened Hierarchies

  // ----- the rows a table contributes -----

  function Entry(table: string, ref: string, column: string, kind: ValueKind, state: string): FactEntry {
    FactEntry(FactToken(table, ref, column), table, ref, column, kind, state)
  }

  // A blank value yields no token.
  function ColumnFact(table: string, ref: string, col: FactColumn, value: string): seq<FactEntry> {
    if Blank(value) then [] else [Entry(table, ref, col.column, col.kind, "")]
  }

  function VirtualFact(table: string, ref: string, f: AdditionalFact): seq<FactEntry> {
    var (kind, text) := KindAndText(f.value);
    if kind == VirtualString && Blank(text) then [] else [Entry(table, ref, f.ref, kind, "")]
  }

  function VirtualFacts(table: string, ref: string, facts: seq<AdditionalFact>): seq<FactEntry> {
    FlatMap(facts, VirtualFactOf(table, ref))
  }

  function VirtualFactOf(table: string, ref: string): AdditionalFact -> seq<FactEntry> {
    f => VirtualFact(table, ref, f)
  }

  function ColumnFacts(table: string, ref: string, values: string -> string): seq<FactEntry> {
    FlatMap(FactColumns(table), ColumnFactOf(table, ref, values))
  }

  function ColumnFactOf(table: string, ref: string, values: string -> string): FactColumn -> seq<FactEntry> {
    (col: FactColumn) => ColumnFact(table, ref, col, values(col.column))
  }

  const PRODUCT_RESERVED: seq<string> := ["price"]
  const TARIFF_RESERVED: seq<string> := ["price", "fee"]

  function ProductValues(p: Product): string -> string {
    column => if column == "price" then p.price else ""
  }

  function ProductFacts(p: Product): seq<FactEntry> {
    if !ProductVisible(p) then []
    else
      ColumnFacts("product", p.ref, ProductValues(p)) + VirtualFacts("product", p.ref, p.additionalFacts)
  }

  function TariffValues(t: Tariff): string -> string {
    column => if column == "price" then t.price else if column == "fee" then t.fee else ""
  }

  function TariffFacts(t: Tariff): seq<FactEntry> {
    if !Active(t.salesStatus) then []
    else
      ColumnFacts("tariff", t.ref, TariffValues(t)) + VirtualFacts("tariff", t.ref, t.additionalFacts)
  }

  // The booking and schedule columns, or None for any other column.
  function ScheduleFactValue(column: string, bookingURL: string, schedule: Schedule, lang: string): Option<string> {
    if column == "booking" then Some(bookingURL)
    else if column == "schedule" then Some(FullText(schedule, lang))
    else if HasPrefix(column, "schedule_") then
      var d := DayByRef(schedule, column[|"schedule_"|..]);
      Some(if d.Some? then DayText(d.value, lang) else "")
    else None
  }

  // A salon's structured week replaces its free-text working hours.
  function ContactColumn(c: Contacts, salon: bool, column: string): string {
    var schedule := Canonical(c.schedule);
    var v := ScheduleFactValue(column, c.bookingURL, schedule, "ru");
    if v.Some? then v.value
    else if column == "phone" then c.phone
    else if column == "whatsapp" then c.whatsapp
    else if column == "email" then c.email
    else if column == "website" then c.website
    else if column == "instagram" then c.instagram
    else if column == "working_hours" then if salon && |schedule| > 0 then "" else c.workingHours
    else ""
  }

  function ContactFacts(c: Contacts, salon: bool): seq<FactEntry> {
    ColumnFacts("contact", SINGLETON_REF, ContactValues(c, salon))
  }

  function ContactValues(c: Contacts, salon: bool): string -> string {
    column => ContactColumn(c, salon, column)
  }

  function PolicyFacts(p: Policies): seq<FactEntry> {
    ColumnFacts("policy", SINGLETON_REF, PolicyValues(p))
  }

  function PolicyValues(p: Policies): string -> string {
    column =>
      if column == "delivery_cost" then p.deliveryCost
      else if column == "delivery_in_days" then p.deliveryInDays
      else if column == "free_delivery_from" then p.freeDeliveryFrom
      else if column == "min_order" then p.minOrder
      else if column == "return_period_in_days" then p.returnPeriodInDays
      else if column == "outside_zones_note" then p.outsideZonesNote
      else ""
  }

  // Availability is a flag, never blank; the model sees its state, not its wording.
  function ZoneColumnFact(z: DeliveryZone, col: FactColumn): seq<FactEntry> {
    if col.column == "delivery_cost" then ColumnFact("delivery", z.ref, col, z.deliveryCost)
    else if col.column == "delivery_in_days" then ColumnFact("delivery", z.ref, col, z.deliveryInDays)
    else if col.column == "delivery_available" then
      [Entry("delivery", z.ref, col.column, col.kind, if z.deliveryAvailable then "delivers" else "no_delivery")]
    else []
  }

  function ZoneFacts(z: DeliveryZone): seq<FactEntry> {
    if !Active(z.salesStatus) then []
    else FlatMap(FactColumns("delivery"), ZoneColumnFactOf(z))
  }

  function ZoneColumnFactOf(z: DeliveryZone): FactColumn -> seq<FactEntry> {
    col => ZoneColumnFact(z, col)
  }

  function ResolvedBookingURL(own: string, salon: string): string {
    if !Blank(own) then own else salon
  }

  function ContactBookingURL(kb: KB): string {
    if kb.contacts.None? then "" else kb.contacts.value.bookingURL
  }

  function SpecialistFacts(s: Specialist, salonURL: string): seq<FactEntry> {
    if !Active(s.salesStatus) then []
    else ColumnFacts("specialist", s.ref, SpecialistValues(s, salonURL))
  }

  function SpecialistValues(s: Specialist, salonURL: string): string -> string {
    var booking, schedule := ResolvedBookingURL(s.bookingURL, salonURL), Canonical(s.schedule);
    column =>
      var v := ScheduleFactValue(column, booking, schedule, "ru");
      if v.Some? then v.value else ""
  }

  function SpecialistFactsOf(salonURL: string): Specialist -> seq<FactEntry> {
    s => SpecialistFacts(s, salonURL)
  }

  function ServiceFacts(s: Service): seq<FactEntry> {
    if !Active(s.salesStatus) then [] else ColumnFacts("service", s.ref, ServiceValues(s))
  }

  function ServiceValues(s: Service): string -> string {
    column =>
      if column == "price" then s.price
      else if column == "duration" then
        if s.duration.Some? && s.duration.value > 0 then Itoa(s.duration.value) else ""
      else ""
  }

  function PlanFacts(kb: KB): seq<FactEntry> {
    FlatMap(kb.products, ProductFacts) + FlatMap(kb.tariffs, TariffFacts)
  }

  function SingletonFacts(kb: KB): seq<FactEntry> {
    (if kb.tariffInfo.Some? then VirtualFacts("tariff_info", SINGLETON_REF, kb.tariffInfo.value.additionalFacts)
     else [])
    + (if kb.contacts.Some? then ContactFacts(kb.contacts.value, IsSalon(kb)) else [])
    + (if kb.policies.Some? then PolicyFacts(kb.policies.value) else [])
  }

  function BookableFacts(kb: KB): seq<FactEntry> {
    FlatMap(kb.deliveryZones, ZoneFacts)
    + FlatMap(kb.specialists, SpecialistFactsOf(ContactBookingURL(kb)))
    + FlatMap(kb.services, ServiceFacts)
  }

  function CompiledFacts(kb: KB): seq<FactEntry> {
    PlanFacts(kb) + SingletonFacts(kb) + BookableFacts(kb)
  }

  // ----- which knowledge bases are accepted -----

  ghost predicate ProductOK(p: Product, folding: Folding) {
    && ValidAvailability(p.availabilityStatus)
    && (ProductVisible(p) ==>
          && ValidRef(p.ref)
          && (p.additionalFacts != [] ==> FactsOK(p.additionalFacts, PRODUCT_RESERVED, p.prose, folding)))
  }

  ghost predicate TariffOK(t: Tariff, folding: Folding) {
    Active(t.salesStatus) ==>
      && ValidRef(t.ref)
      && (t.additionalFacts != [] ==> FactsOK(t.additionalFacts, TARIFF_RESERVED, t.prose, folding))
  }

  ghost predicate SpecialistOK(s: Specialist) {
    Active(s.salesStatus) ==> ValidRef(s.ref) && Acceptable(s.schedule)
  }

  ghost predicate PlansAccepted(kb: KB, folding: Folding) {
    && (forall i | 0 <= i < |kb.products| :: ProductOK(kb.products[i], folding))
    && (forall i | 0 <= i < |kb.tariffs| :: TariffOK(kb.tariffs[i], folding))
  }

  ghost predicate SingletonsAccepted(kb: KB, folding: Folding) {
    && (kb.tariffInfo.Some? && kb.tariffInfo.value.additionalFacts != [] ==>
          FactsOK(kb.tariffInfo.value.additionalFacts, [], [], folding))
    && (kb.contacts.Some? ==> Acceptable(kb.contacts.value.schedule))
  }

  ghost predicate BookablesAccepted(kb: KB) {
    && ZonesOK(kb.deliveryZones, kb.policies)
    && (forall i | 0 <= i < |kb.specialists| :: SpecialistOK(kb.specialists[i]))
    && ServicesOK(kb.services)
  }

  ghost predicate FactsAccepted(kb: KB, folding: Folding) {
    PlansAccepted(kb, folding) && SingletonsAccepted(kb, folding) && BookablesAccepted(kb)
  }

  // ----- the compiler -----

  class Catalog {
    var facts: seq<FactEntry>
    var media: seq<MediaEntry>
    var absent: seq<AbsentEntry>

    constructor ()
      ensures facts == [] && media == [] && absent == []
    {
      facts, media, absent := [], [], [];
    }

    method AddFact(table: string, ref: string, col: FactColumn, value: string)
      modifies this`facts
      ensures facts == old(facts) + ColumnFact(table, ref, col, value)
    {
      if !Blank(value) {
        facts := facts + [Entry(table, ref, col.column, col.kind, "")];
      }
    }

    method AddDeliveryFlagFact(ref: string, col: FactColumn, available: bool)
      modifies this`facts
      ensures facts == old(facts)
              + [Entry("delivery", ref, col.column, col.kind, if available then "delivers" else "no_delivery")]
    {
      var state := "delivers";
      if !available {
        state := "no_delivery";
      }
      facts := facts + [Entry("delivery", ref, col.column, col.kind, state)];
    }

    method AddColumns(table: string, ref: string, values: string -> string)
      modifies this`facts
      ensures facts == old(facts) + ColumnFacts(table, ref, values)
    {
      var cols := FactColumns(table);
      var f := ColumnFactOf(table, ref, values);
      for i := 0 to |cols|
        invariant facts == old(facts) + FlatMap(cols[..i], f)
      {
        AddFact(table, ref, cols[i], values(cols[i].column));
        FlatMapNext(cols, f, i);
      }
      assert cols[..|cols|] == cols;
    }

    method AddVirtualFacts(table: string, ref: string, additional: seq<AdditionalFact>, reserved: seq<string>,
                           prose: seq<string>, folding: Folding) returns (ok: bool)
      modifies this`facts
      ensures ok <==> (additional != [] ==> FactsOK(additional, reserved, prose, folding))
      ensures ok ==> facts == old(facts) + VirtualFacts(table, ref, additional)
    {
      hide FactsOK, Blank, TrimSpace;
      if |additional| == 0 {
        return true;
      }
      ok := ValidateFacts(additional, reserved, prose, folding);
      if !ok {
        return;
      }
      var f := VirtualFactOf(table, ref);
      for i := 0 to |additional|
        invariant facts == old(facts) + FlatMap(additional[..i], f)
      {
        var (kind, text) := KindAndText(additional[i].value);
        FlatMapNext(additional, f, i);
        if !(kind == VirtualString && Blank(text)) {
          facts := facts + [Entry(table, ref, additional[i].ref, kind, "")];
        }
      }
      assert additional[..|additional|] == additional;
    }

    method AddProduct(p: Product, folding: Folding) returns (ok: bool)
      modifies this`facts
      ensures ok <==> ProductOK(p, folding)
      ensures ok ==> facts == old(facts) + ProductFacts(p)
    {
      hide FactsOK, ValidRef, ColumnFacts, VirtualFacts;
      if !ValidAvailability(p.availabilityStatus) {
        return false;
      }
      if !ProductVisible(p) {
        return true;
      }
      if !ValidRef(p.ref) {
        return false;
      }
      AddColumns("product", p.ref, ProductValues(p));
      ok := AddVirtualFacts("product", p.ref, p.additionalFacts, PRODUCT_RESERVED, p.prose, folding);
    }

    method BuildProducts(products: seq<Product>, folding: Folding) returns (ok: bool)
      modifies this`facts
      ensures ok <==> forall i | 0 <= i < |products| :: ProductOK(products[i], folding)
      ensures ok ==> facts == old(facts) + FlatMap(products, ProductFacts)
    {
      hide ProductOK, ProductFacts;
      for i := 0 to |products|
        invariant forall k | 0 <= k < i :: ProductOK(products[k], folding)
        invariant facts == old(facts) + FlatMap(products[..i], ProductFacts)
      {
        FlatMapNext(products, ProductFacts, i);
        var valid := AddProduct(products[i], folding);
        if !valid {
          return false;
        }
      }
      assert products[..|products|] == products;
      return true;
    }

    method AddTariff(t: Tariff, folding: Folding) returns (ok: bool)
      modifies this`facts
      ensures ok <==> TariffOK(t, folding)
      ensures ok ==> facts == old(facts) + TariffFacts(t)
    {
      hide FactsOK, ValidRef, ColumnFacts, VirtualFacts;
      if !Active(t.salesStatus) {
        return true;
      }
      if !ValidRef(t.ref) {
        return false;
      }
      AddColumns("tariff", t.ref, TariffValues(t));
      ok := AddVirtualFacts("tariff", t.ref, t.additionalFacts, TARIFF_RESERVED, t.prose, folding);
    }

    method BuildTariffs(tariffs: seq<Tariff>, folding: Folding) returns (ok: bool)
      modifies this`facts
      ensures ok <==> forall i | 0 <= i < |tariffs| :: TariffOK(tariffs[i], folding)
      ensures ok ==> facts == old(facts) + FlatMap(tariffs, TariffFacts)
    {
      hide TariffOK, TariffFacts;
      for i := 0 to |tariffs|
        invariant forall k | 0 <= k < i :: TariffOK(tariffs[k], folding)
        invariant facts == old(facts) + FlatMap(tariffs[..i], TariffFacts)
      {
        FlatMapNext(tariffs, TariffFacts, i);
        var valid := AddTariff(tariffs[i], folding);
        if !valid {
          return false;
        }
      }
      assert tariffs[..|tariffs|] == tariffs;
      return true;
    }

    method BuildContact(c: Contacts, salon: bool) returns (ok: bool)
      modifies this`facts
      ensures ok <==> Acceptable(c.schedule)
      ensures ok ==> facts == old(facts) + ContactFacts(c, salon)
    {
      var schedule := NormalizeSchedule(c.schedule);
      if schedule.Failure? {
        return false;
      }
      AddColumns("contact", SINGLETON_REF, ContactValues(c, salon));
      return true;
    }

    method AddZone(z: DeliveryZone)
      modifies this`facts
      ensures facts == old(facts) + ZoneFacts(z)
    {
      if !Active(z.salesStatus) {
        return;
      }
      hide FactColumns, ZoneColumnFact, FlatMap;
      var cols := FactColumns("delivery");
      var f := ZoneColumnFactOf(z);
      FlatMapEmpty(f);
      for i := 0 to |cols|
        invariant facts == old(facts) + FlatMap(cols[..i], f)
      {
        FlatMapNext(cols, f, i);
        AddZoneColumn(z, cols[i]);
      }
      assert cols[..|cols|] == cols;
    }

    method AddZoneColumn(z: DeliveryZone, col: FactColumn)
      modifies this`facts
      ensures facts == old(facts) + ZoneColumnFact(z, col)
    {
      hide Blank, FactToken;
      if col.column == "delivery_cost" {
        AddFact("delivery", z.ref, col, z.deliveryCost);
      } else if col.column == "delivery_in_days" {
        AddFact("delivery", z.ref, col, z.deliveryInDays);
      } else if col.column == "delivery_available" {
        AddDeliveryFlagFact(z.ref, col, z.deliveryAvailable);
      }
    }

    method BuildDeliveryZones(zones: seq<DeliveryZone>, policies: Option<Policies>) returns (ok: bool)
      modifies this`facts
      ensures ok <==> ZonesOK(zones, policies)
      ensures ok ==> facts == old(facts) + FlatMap(zones, ZoneFacts)
    {
      hide ZonesOK, ZoneFacts;
      ok := CheckZones(zones, policies);
      if !ok {
        return;
      }
      for i := 0 to |zones|
        invariant facts == old(facts) + FlatMap(zones[..i], ZoneFacts)
      {
        FlatMapNext(zones, ZoneFacts, i);
        AddZone(zones[i]);
      }
      assert zones[..|zones|] == zones;
    }

    method AddSpecialist(s: Specialist, salonURL: string) returns (ok: bool)
      modifies this`facts
      ensures ok <==> SpecialistOK(s)
      ensures ok ==> facts == old(facts) + SpecialistFacts(s, salonURL)
    {
      if !Active(s.salesStatus) {
        return true;
      }
      if !ValidRef(s.ref) {
        return false;
      }
      var schedule := NormalizeSchedule(s.schedule);
      if schedule.Failure? {
        return false;
      }
      AddColumns("specialist", s.ref, SpecialistValues(s, salonURL));
      return true;
    }

    method BuildSpecialists(specialists: seq<Specialist>, salonURL: string) returns (ok: bool)
      modifies this`facts
      ensures ok <==> forall i | 0 <= i < |specialists| :: SpecialistOK(specialists[i])
      ensures ok ==> facts == old(facts) + FlatMap(specialists, SpecialistFactsOf(salonURL))
    {
      hide SpecialistOK, SpecialistFacts;
      var f := SpecialistFactsOf(salonURL);
      for i := 0 to |specialists|
        invariant forall k | 0 <= k < i :: SpecialistOK(specialists[k])
        invariant facts == old(facts) + FlatMap(specialists[..i], f)
      {
        FlatMapNext(specialists, f, i);
        var valid := AddSpecialist(specialists[i], salonURL);
        if !valid {
          return false;
        }
      }
      assert specialists[..|specialists|] == specialists;
      return true;
    }

    method AddService(s: Service)
      modifies this`facts
      ensures facts == old(facts) + ServiceFacts(s)
    {
      if Active(s.salesStatus) {
        AddColumns("service", s.ref, ServiceValues(s));
      }
    }

    method BuildServices(services: seq<Service>) returns (ok: bool)
      modifies this`facts
      ensures ok <==> ServicesOK(services)
      ensures ok ==> facts == old(facts) + FlatMap(services, ServiceFacts)
    {
      hide ServicesOK, ServiceFacts, FlatMap;
      ok := CheckServices(services);
      if !ok {
        return;
      }
      assert FlatMap(services[..0], ServiceFacts) == [] by {
        FlatMapEmpty(ServiceFacts);
      }
      for i := 0 to |services|
        invariant facts == old(facts) + FlatMap(services[..i], ServiceFacts)
      {
        FlatMapNext(services, ServiceFacts, i);
        AddService(services[i]);
      }
      assert services[..|services|] == services;
    }

    method BuildPlans(kb: KB, folding: Folding) returns (ok: bool)
      modifies this`facts
      ensures ok <==> PlansAccepted(kb, folding)
      ensures ok ==> facts == old(facts) + PlanFacts(kb)
    {
      hide ProductOK, TariffOK, FlatMap;
      ok := BuildProducts(kb.products, folding);
      if !ok {
        return;
      }
      ok := BuildTariffs(kb.tariffs, folding);
    }

    method BuildSingletons(kb: KB, folding: Folding) returns (ok: bool)
      modifies this`facts
      ensures ok <==> SingletonsAccepted(kb, folding)
      ensures ok ==> facts == old(facts) + SingletonFacts(kb)
    {
      hide FactsOK, Acceptable, VirtualFacts, ContactFacts, ColumnFacts, IsSalon;
      ok := true;
      if kb.tariffInfo.Some? {
        ok := AddVirtualFacts("tariff_info", SINGLETON_REF, kb.tariffInfo.value.additionalFacts, [], [], folding);
        if !ok {
          return;
        }
      }
      if kb.contacts.Some? {
        ok := BuildContact(kb.contacts.value, IsSalon(kb));
        if !ok {
          return;
        }
      }
      if kb.policies.Some? {
        AddColumns("policy", SINGLETON_REF, PolicyValues(kb.policies.value));
      }
    }

    method BuildBookables(kb: KB) returns (ok: bool)
      modifies this`facts
      ensures ok <==> BookablesAccepted(kb)
      ensures ok ==> facts == old(facts) + BookableFacts(kb)
    {
      hide ZonesOK, SpecialistOK, ServicesOK, FlatMap, ContactBookingURL;
      ok := BuildDeliveryZones(kb.deliveryZones, kb.policies);
      if !ok {
        return;
      }
      ok := BuildSpecialists(kb.specialists, ContactBookingURL(kb));
      if !ok {
        return;
      }
      ok := BuildServices(kb.services);
    }

    // Accepts exactly the consistent knowledge bases, and then holds every token in catalog order.
    method BuildFacts(kb: KB, folding: Folding) returns (ok: bool)
      modifies this`facts
      ensures ok <==> FactsAccepted(kb, folding)
      ensures ok ==> facts == old(facts) + CompiledFacts(kb)
    {
      hide PlansAccepted, SingletonsAccepted, BookablesAccepted, PlanFacts, SingletonFacts, BookableFacts;
      ok := BuildPlans(kb, folding);
      if !ok {
        return;
      }
      ok := BuildSingletons(kb, folding);
      if !ok {
        return;
      }
      ok := BuildBookables(kb);
    }
  }
}
