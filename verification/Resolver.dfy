/** Reading a fact token back against the current knowledge base. */
module Resolver {
  import opened Wrappers
  import opened Text
  import opened Schedules
  import opened KnowledgeBase
  import opened Registry
  import opened Facts
  import opened Catalogs

  function FactBoolWording(lang: string, b: bool): string {
    if lang == "kk" then if b then "иә" else "жоқ" else if b then "да" else "нет"
  }

  function DeliveryWording(lang: string, b: bool): string {
    if lang == "kk" then if b then "жеткіземіз" else "жеткізбейміз"
    else if b then "доставляем" else "не доставляем"
  }

  function HasToken(token: string): FactEntry -> bool {
    (e: FactEntry) => e.token == token
  }

  function FactByToken(facts: seq<FactEntry>, token: string): Option<FactEntry> {
    First(facts, HasToken(token))
  }

  function CurrentProduct(kb: KB, ref: string): Option<Product> {
    First(kb.products, (p: Product) => p.ref == ref && ProductVisible(p))
  }

  function CurrentTariff(kb: KB, ref: string): Option<Tariff> {
    First(kb.tariffs, (t: Tariff) => t.ref == ref && Active(t.salesStatus))
  }

  function CurrentDeliveryZone(kb: KB, ref: string): Option<DeliveryZone> {
    First(kb.deliveryZones, (z: DeliveryZone) => z.ref == ref && Active(z.salesStatus))
  }

  function CurrentSpecialist(kb: KB, ref: string): Option<Specialist> {
    First(kb.specialists, (s: Specialist) => s.ref == ref && Active(s.salesStatus))
  }

  function CurrentService(kb: KB, ref: string): Option<Service> {
    First(kb.services, (s: Service) => s.ref == ref && Active(s.salesStatus))
  }

  function ResolveVirtualFact(facts: seq<AdditionalFact>, fact: FactEntry, lang: string): Result<string> {
    var found := First(facts, (f: AdditionalFact) => f.ref == fact.column);
    if found.None? then Failure("no longer has a matching additional fact")
    else
      var (kind, text) := KindAndText(found.value.value);
      if kind != fact.kind then Failure("changed type since the prompt was generated")
      else if found.value.value.Flag? then Success(FactBoolWording(lang, found.value.value.b))
      else if Blank(text) then Failure("now resolves to an empty value")
      else Success(text)
  }

  function NonBlank(value: string): Result<string> {
    if Blank(value) then Failure("now resolves to an empty value") else Success(value)
  }

  // Normalising can only fail on a schedule that is not acceptable.
  function CurrentSchedule(s: Schedule): Result<Schedule> {
    if Acceptable(s) then Success(Canonical(s)) else Failure("invalid schedule")
  }

  function CurrentContactValue(kb: KB, c: Contacts, column: string, lang: string): Result<string> {
    var schedule := CurrentSchedule(c.schedule);
    if schedule.Failure? then Failure(schedule.error)
    else
      var v := ScheduleFactValue(column, c.bookingURL, schedule.value, lang);
      if v.Some? then NonBlank(v.value)
      else NonBlank(
        if column == "phone" then c.phone
        else if column == "whatsapp" then c.whatsapp
        else if column == "email" then c.email
        else if column == "website" then c.website
        else if column == "instagram" then c.instagram
        else if column == "working_hours" then c.workingHours
        else "")
  }

  function CurrentSpecialistValue(kb: KB, s: Specialist, column: string, lang: string): Result<string> {
    var schedule := CurrentSchedule(s.schedule);
    if schedule.Failure? then Failure(schedule.error)
    else
      var booking := ResolvedBookingURL(s.bookingURL, ContactBookingURL(kb));
      var v := ScheduleFactValue(column, booking, schedule.value, lang);
      if v.None? then Failure("unrecognized specialist fact column") else NonBlank(v.value)
  }

  function CurrentServiceValue(s: Service, column: string): Result<string> {
    if column == "price" then NonBlank(s.price)
    else if column == "duration" && s.duration.Some? && s.duration.value > 0 then NonBlank(Itoa(s.duration.value))
    else NonBlank("")
  }

  function CurrentPolicyValue(p: Policies, column: string): Result<string> {
    NonBlank(
      if column == "delivery_cost" then p.deliveryCost
      else if column == "delivery_in_days" then p.deliveryInDays
      else if column == "free_delivery_from" then p.freeDeliveryFrom
      else if column == "min_order" then p.minOrder
      else if column == "return_period_in_days" then p.returnPeriodInDays
      else if column == "outside_zones_note" then p.outsideZonesNote
      else "")
  }

  function CurrentZoneValue(z: DeliveryZone, column: string, lang: string): Result<string> {
    if column == "delivery_cost" then NonBlank(z.deliveryCost)
    else if column == "delivery_in_days" then NonBlank(z.deliveryInDays)
    else if column == "delivery_available" then Success(DeliveryWording(lang, z.deliveryAvailable))
    else NonBlank("")
  }

  function CurrentFactValue(kb: KB, fact: FactEntry, lang: string): Result<string> {
    if fact.table == "product" then
      var p := CurrentProduct(kb, fact.ref);
      if p.None? then Failure("no longer has an active, available product row")
      else if IsVirtual(fact.kind) then ResolveVirtualFact(p.value.additionalFacts, fact, lang)
      else NonBlank(if fact.column == "price" then p.value.price else "")
    else if fact.table == "tariff" then
      var t := CurrentTariff(kb, fact.ref);
      if t.None? then Failure("no longer has an active tariff row")
      else if IsVirtual(fact.kind) then ResolveVirtualFact(t.value.additionalFacts, fact, lang)
      else NonBlank(if fact.column == "price" then t.value.price else if fact.column == "fee" then t.value.fee else "")
    else if fact.table == "tariff_info" then
      if fact.ref != SINGLETON_REF || kb.tariffInfo.None? then Failure("no longer has a tariff_info row")
      else ResolveVirtualFact(kb.tariffInfo.value.additionalFacts, fact, lang)
    else if fact.table == "contact" then
      if fact.ref != SINGLETON_REF || kb.contacts.None? then Failure("no longer has a contacts row")
      else CurrentContactValue(kb, kb.contacts.value, fact.column, lang)
    else if fact.table == "specialist" then
      var s := CurrentSpecialist(kb, fact.ref);
      if s.None? then Failure("no longer has an active specialist row")
      else CurrentSpecialistValue(kb, s.value, fact.column, lang)
    else if fact.table == "service" then
      var s := CurrentService(kb, fact.ref);
      if s.None? then Failure("no longer has an active service row")
      else CurrentServiceValue(s.value, fact.column)
    else if fact.table == "policy" then
      if fact.ref != SINGLETON_REF || kb.policies.None? then Failure("no longer has a policies row")
      else CurrentPolicyValue(kb.policies.value, fact.column)
    else if fact.table == "delivery" then
      var z := CurrentDeliveryZone(kb, fact.ref);
      if z.None? then Failure("no longer has an active delivery zone row")
      else CurrentZoneValue(z.value, fact.column, lang)
    else NonBlank("")
  }

  // The final customer wording behind a token of the request's catalog, or why there is none.
  function ResolveFact(token: string, kb: KB, facts: seq<FactEntry>, lang: string): Result<string> {
    var fact := FactByToken(facts, token);
    if fact.None? then Failure("not in the request catalog")
    else
      var e := fact.value;
      var spec := FactColumnSpec(e.table, e.column);
      if e.token != FactToken(e.table, e.ref, e.column) then Failure("inconsistent catalog metadata")
      else if !IsVirtual(e.kind) && spec.None? then Failure("unknown fact column")
      else if !IsVirtual(e.kind) && spec.value.kind != e.kind then Failure("wrong value kind")
      else CurrentFactValue(kb, e, lang)
  }
}
