/** Reading a customer's wording back: numbers, yes and no, opening times, booking links. */
module Wordings {
  import opened Wrappers
  import opened Text
  import opened Decimals
  import opened Permutations
  import opened Schedules
  import opened ScheduleText
  import opened ClockTexts
  import opened KnowledgeBase
  import opened Registry
  import opened Mentions
  import opened Hierarchies
  import opened Facts
  import opened Catalogs
  import opened Resolver
  import opened Agreement
  import opened Readback
  import opened Coverage

  // ----- numbers -----

  // A whole number as written, signed or not, is fit for a fact exactly up to 2^53 - 1.
  lemma WholeNumberIsSafeIff(sign: string, n: nat)
    requires sign in {"", "-", "+"}
    ensures NumberIsJSSafe(sign + Itoa(n)) <==> n <= 0x1F_FFFF_FFFF_FFFF
  {
    hide Itoa, DecimalValue, DigitsOnly, TrimZerosLeft, TrimZerosRight;
    var digits := Itoa(n);
    var s := sign + digits;
    ItoaIsDecimal(n);
    forall i | 0 <= i < |s| ensures s[i] !in {'e', 'E', '.'} {
      assert i < |sign| || s[i] == digits[i - |sign|];
    }
    NoExponent(s);
    assert s[|sign|..] == digits;
  }

  lemma {:induction false} NoExponent(s: string)
    requires forall i | 0 <= i < |s| :: s[i] !in {'e', 'E', '.'}
    ensures Mantissa(s) == s && '.' !in s
  {
    if s != "" {
      NoExponent(s[1..]);
      assert s == [s[0]] + s[1..];
    }
  }

  // ----- yes and no -----

  function ReadFlag(s: string): Option<bool> {
    if s in {"да", "иә", "доставляем", "жеткіземіз"} then Some(true)
    else if s in {"нет", "жоқ", "не доставляем", "жеткізбейміз"} then Some(false)
    else None
  }

  lemma FlagsReadBack(lang: string, b: bool)
    ensures FactBoolWording(lang, b) in if lang == "kk" then {"иә", "жоқ"} else {"да", "нет"}
    ensures DeliveryWording(lang, b) in
              if lang == "kk" then {"жеткіземіз", "жеткізбейміз"} else {"доставляем", "не доставляем"}
    ensures ReadFlag(FactBoolWording(lang, b)) == Some(b) && ReadFlag(DeliveryWording(lang, b)) == Some(b)
  {
  }

  // ----- what a wording says of the rows -----

  // The value a seller wrote: the number's own digits, the flag, or the trimmed text.
  ghost predicate SaysFact(facts: seq<AdditionalFact>, column: string, v: string) {
    exists f | f in facts :: f.ref == column
      && match f.value
         case Number(digits) => v == digits
         case Flag(b) => ReadFlag(v) == Some(b)
         case Words(s) => v == TrimSpace(s)
  }

  // The times of the named day, or of all days from Monday on.
  ghost predicate SaysTimes(column: string, schedule: Schedule, v: string) {
    || (column == "schedule" && ClockTimes(v) == WeekTimes(Canonical(schedule)))
    || exists d | d in Canonical(schedule) :: column == "schedule_" + d.ref && ClockTimes(v) == DayTimes(d)
  }

  ghost predicate SaysPlan(kb: KB, x: FactEntry, v: string) {
    || (x.table == "product" && exists p | p in kb.products ::
          && p.ref == x.ref && p.salesStatus == "active"
          && p.availabilityStatus in {"in_stock", "preorder", "on_demand"}
          && if IsVirtual(x.kind) then SaysFact(p.additionalFacts, x.column, v)
             else x.column == "price" && v == p.price)
    || (x.table == "tariff" && exists t | t in kb.tariffs ::
          && t.ref == x.ref && t.salesStatus == "active"
          && if IsVirtual(x.kind) then SaysFact(t.additionalFacts, x.column, v)
             else (x.column == "price" && v == t.price) || (x.column == "fee" && v == t.fee))
    || (x.table == "tariff_info" && kb.tariffInfo.Some?
        && SaysFact(kb.tariffInfo.value.additionalFacts, x.column, v))
  }

  ghost predicate SaysSingleton(kb: KB, x: FactEntry, v: string) {
    || (x.table == "contact" && kb.contacts.Some?
        && var c := kb.contacts.value;
           || SaysTimes(x.column, c.schedule, v)
           || (x.column == "booking" && v == c.bookingURL) || (x.column == "phone" && v == c.phone)
           || (x.column == "whatsapp" && v == c.whatsapp) || (x.column == "email" && v == c.email)
           || (x.column == "website" && v == c.website) || (x.column == "instagram" && v == c.instagram)
           || (x.column == "working_hours" && v == c.workingHours))
    || (x.table == "policy" && kb.policies.Some? && PolicyStored(kb.policies.value, x.column, v))
  }

  // A specialist's own booking link goes before the salon's.
  ghost predicate SaysBooking(kb: KB, s: Specialist, v: string) {
    if Blank(s.bookingURL) then kb.contacts.Some? && v == kb.contacts.value.bookingURL else v == s.bookingURL
  }

  ghost predicate SaysBookable(kb: KB, x: FactEntry, v: string) {
    || (x.table == "delivery" && exists z | z in kb.deliveryZones ::
          && z.ref == x.ref && z.salesStatus == "active"
          && (|| (x.column == "delivery_cost" && v == z.deliveryCost)
              || (x.column == "delivery_in_days" && v == z.deliveryInDays)
              || (x.column == "delivery_available" && ReadFlag(v) == Some(z.deliveryAvailable))))
    || (x.table == "specialist" && exists s | s in kb.specialists ::
          && s.ref == x.ref && s.salesStatus == "active"
          && (SaysTimes(x.column, s.schedule, v) || (x.column == "booking" && SaysBooking(kb, s, v))))
    || (x.table == "service" && exists s | s in kb.services ::
          && s.ref == x.ref && s.salesStatus == "active"
          && (|| (x.column == "price" && v == s.price)
              || (x.column == "duration" && AllDigits(v) && s.duration == Some(DecimalValue(v)))))
  }

  ghost predicate SchedulesAcceptable(kb: KB) {
    && (kb.contacts.Some? ==> Acceptable(kb.contacts.value.schedule))
    && forall s | s in kb.specialists && s.salesStatus == "active" :: Acceptable(s.schedule)
  }

  lemma VirtualSays(facts: seq<AdditionalFact>, column: string, lang: string, v: string)
    requires VirtualStored(facts, column, lang, v)
    ensures SaysFact(facts, column, v)
  {
    hide FactBoolWording, TrimSpace, ReadFlag;
    var f :| f in facts && f.ref == column && v == Wording(f.value, lang);
    if f.value.Flag? {
      FlagsReadBack(lang, f.value.b);
    }
  }

  lemma ScheduleSays(column: string, booking: string, schedule: Schedule, lang: string, v: string)
    requires Acceptable(schedule) && ScheduleStored(column, booking, schedule, lang, v)
    ensures (column == "booking" && v == booking) || SaysTimes(column, schedule, v)
  {
    hide DayText, FullText, ClockTimes, Canonical, WeekTimes, DayTimes;
    CanonicalIsCanonical(schedule);
    FullTextTimes(schedule, lang);
    forall d | d in Canonical(schedule) ensures ClockTimes(DayText(d, lang)) == DayTimes(d) {
      assert DayOK(d);
      DayIsReadable(d);
      DayTextTimes(d, lang);
    }
  }

  lemma PlanSays(kb: KB, x: FactEntry, lang: string, v: string)
    requires Stored(kb, x, lang, v) && x.table in {"product", "tariff", "tariff_info"}
    ensures SaysPlan(kb, x, v)
  {
    hide VirtualStored, SaysFact;
    forall facts | VirtualStored(facts, x.column, lang, v) ensures SaysFact(facts, x.column, v) {
      VirtualSays(facts, x.column, lang, v);
    }
  }

  lemma SingletonSays(kb: KB, x: FactEntry, lang: string, v: string)
    requires Stored(kb, x, lang, v) && x.table in {"contact", "policy"} && SchedulesAcceptable(kb)
    ensures SaysSingleton(kb, x, v)
  {
    hide ScheduleStored, SaysTimes, PolicyStored, Acceptable;
    if x.table == "contact" {
      var c := kb.contacts.value;
      if ScheduleStored(x.column, c.bookingURL, c.schedule, lang, v) {
        ScheduleSays(x.column, c.bookingURL, c.schedule, lang, v);
      }
    }
  }

  lemma BookableSays(kb: KB, x: FactEntry, lang: string, v: string)
    requires Stored(kb, x, lang, v) && !Blank(v) && x.table in {"delivery", "specialist", "service"}
    requires SchedulesAcceptable(kb)
    ensures SaysBookable(kb, x, v)
  {
    hide ScheduleStored, SaysTimes, Acceptable, Blank, DeliveryWording, ReadFlag, Itoa, DecimalValue;
    BlankEmpty();
    if x.table == "delivery" {
      FlagsReadBack(lang, true);
      FlagsReadBack(lang, false);
    } else if x.table == "specialist" {
      var s :| && s in kb.specialists && Active(s.salesStatus) && s.ref == x.ref
               && var booking := ResolvedBookingURL(s.bookingURL, ContactBookingURL(kb));
                  ScheduleStored(x.column, booking, s.schedule, lang, v);
      ScheduleSays(x.column, ResolvedBookingURL(s.bookingURL, ContactBookingURL(kb)), s.schedule, lang, v);
    } else {
      forall n: nat ensures DecimalValue(Itoa(n)) == n {
        ItoaIsDecimal(n);
      }
    }
  }

  // Read back by these readers, whatever resolves over a base that compiles is what an approved row says now.
  lemma ResolvedSaysWhatIsStored(kb: KB, facts: seq<FactEntry>, token: string, lang: string, folding: Folding)
    requires FactsAccepted(kb, folding) && ResolveFact(token, kb, facts, lang).Success?
    ensures exists x | x in facts ::
              && x.token == token
              && var v := ResolveFact(token, kb, facts, lang).value;
                 SaysPlan(kb, x, v) || SaysSingleton(kb, x, v) || SaysBookable(kb, x, v)
  {
    hide ResolveFact, SaysPlan, SaysSingleton, SaysBookable, Stored, SchedulesAcceptable, Blank;
    AcceptedSchedules(kb, folding);
    ResolvedValueIsStored(kb, facts, token, lang);
    var v := ResolveFact(token, kb, facts, lang).value;
    var x :| x in facts && x.token == token && Holds(kb, x, lang, Success(v));
    StoredTables(kb, x, lang, v);
    if x.table in {"product", "tariff", "tariff_info"} {
      PlanSays(kb, x, lang, v);
    } else if x.table in {"contact", "policy"} {
      SingletonSays(kb, x, lang, v);
    } else {
      BookableSays(kb, x, lang, v);
    }
  }

  lemma AcceptedSchedules(kb: KB, folding: Folding)
    requires FactsAccepted(kb, folding)
    ensures SchedulesAcceptable(kb)
  {
    hide ProductOK, TariffOK, ZonesOK, ServicesOK, Acceptable, FactsOK;
  }

  lemma StoredTables(kb: KB, x: FactEntry, lang: string, v: string)
    requires Stored(kb, x, lang, v)
    ensures x.table in {"product", "tariff", "tariff_info", "contact", "policy", "delivery", "specialist", "service"}
  {
  }

  // ----- what the model is told about delivery -----

  // An availability token tells the model what an active zone of its ref says; no other token tells it anything.
  ghost predicate StateIsStored(kb: KB, x: FactEntry) {
    if x.table == "delivery" && x.column == "delivery_available" then
      exists z | z in kb.deliveryZones ::
        && z.ref == x.ref && z.salesStatus == "active"
        && x.reasoningState == if z.deliveryAvailable then "delivers" else "no_delivery"
    else x.reasoningState == ""
  }

  lemma DeliveryStateIsStored(kb: KB, x: FactEntry)
    requires x in CompiledFacts(kb)
    ensures StateIsStored(kb, x)
  {
    hide FlatMap, SingletonFacts, ProductFacts, TariffFacts, SpecialistFacts, ZoneFacts, ServiceFacts,
         ContactBookingURL, IsColumnEntry, IsVirtualEntry, ProductVisible;
    var specialist := SpecialistFactsOf(ContactBookingURL(kb));
    if x in FlatMap(kb.products, ProductFacts) {
      var i := FlatMapSource(kb.products, ProductFacts, x);
      var p := kb.products[i];
      ProductEntry(p, x);
      FromRowHasNoState(x, "product", p.ref, ProductValues(p), p.additionalFacts);
    } else if x in FlatMap(kb.tariffs, TariffFacts) {
      var i := FlatMapSource(kb.tariffs, TariffFacts, x);
      var t := kb.tariffs[i];
      TariffEntry(t, x);
      FromRowHasNoState(x, "tariff", t.ref, TariffValues(t), t.additionalFacts);
    } else if x in SingletonFacts(kb) {
      SingletonHasNoState(kb, x);
    } else if x in FlatMap(kb.deliveryZones, ZoneFacts) {
      var i := FlatMapSource(kb.deliveryZones, ZoneFacts, x);
      assert kb.deliveryZones[i] in kb.deliveryZones;
      ZoneState(kb.deliveryZones[i], x);
    } else if x in FlatMap(kb.specialists, specialist) {
      var i := FlatMapSource(kb.specialists, specialist, x);
      var s := kb.specialists[i];
      SpecialistEntry(s, ContactBookingURL(kb), x);
      FromRowHasNoState(x, "specialist", s.ref, SpecialistValues(s, ContactBookingURL(kb)), []);
    } else {
      var i := FlatMapSource(kb.services, ServiceFacts, x);
      ServiceEntry(kb.services[i], x);
      FromRowHasNoState(x, "service", kb.services[i].ref, ServiceValues(kb.services[i]), []);
    }
  }

  lemma FromRowHasNoState(x: FactEntry, table: string, ref: string, values: string -> string,
                          facts: seq<AdditionalFact>)
    requires FromRow(x, table, ref, values, facts)
    ensures x.table == table && x.reasoningState == ""
  {
  }

  lemma SingletonHasNoState(kb: KB, x: FactEntry)
    requires x in SingletonFacts(kb)
    ensures x.table != "delivery" && x.reasoningState == ""
  {
    hide FlatMap, ColumnFacts, VirtualFacts, ContactColumn, IsSalon;
    if kb.tariffInfo.Some? && x in VirtualFacts("tariff_info", SINGLETON_REF, kb.tariffInfo.value.additionalFacts) {
      VirtualEntry("tariff_info", SINGLETON_REF, kb.tariffInfo.value.additionalFacts, x);
    } else if kb.contacts.Some? && x in ContactFacts(kb.contacts.value, IsSalon(kb)) {
      ColumnEntry("contact", SINGLETON_REF, ContactValues(kb.contacts.value, IsSalon(kb)), x);
    } else {
      ColumnEntry("policy", SINGLETON_REF, PolicyValues(kb.policies.value), x);
    }
  }

  lemma ZoneState(z: DeliveryZone, x: FactEntry)
    requires x in ZoneFacts(z)
    ensures z.salesStatus == "active" && x.ref == z.ref && x.table == "delivery"
    ensures x.reasoningState == if x.column != "delivery_available" then ""
                                else if z.deliveryAvailable then "delivers" else "no_delivery"
  {
    hide FlatMap, Blank;
    var i := FlatMapSource(FactColumns("delivery"), ZoneColumnFactOf(z), x);
  }

  // An active zone of an accepted base has an availability token, and cost and days tokens exactly when it delivers.
  lemma ZoneOffersItsTerms(kb: KB, folding: Folding, z: DeliveryZone, column: string)
    requires FactsAccepted(kb, folding) && z in kb.deliveryZones && z.salesStatus == "active"
    ensures HasCell(CompiledFacts(kb), "delivery", z.ref, column) <==>
            column == "delivery_available" || (z.deliveryAvailable && column in {"delivery_cost", "delivery_in_days"})
  {
    hide CompiledFacts, FactsAccepted, Blank, Stored, DeliveryWording;
    CellCompilesIff(kb, folding, "delivery", z.ref, column);
    DeliveryWordingNotBlank("ru", z.deliveryAvailable);
    AcceptedZones(kb, folding, z);
    forall x: FactEntry, v | x.table == "delivery" && x.ref == z.ref
      ensures Stored(kb, x, "ru", v) <==> ZoneStored(z, x.column, v)
    {
      StoredIsZones(kb, z, x, v);
    }
    var x := FactEntry("", "delivery", z.ref, column, DeliveryFlag, "");
    if column == "delivery_available" {
      assert ZoneStored(z, column, DeliveryWording("ru", z.deliveryAvailable));
      assert Stored(kb, x, "ru", DeliveryWording("ru", z.deliveryAvailable));
    } else if z.deliveryAvailable && column in {"delivery_cost", "delivery_in_days"} {
      var v := if column == "delivery_cost" then z.deliveryCost else z.deliveryInDays;
      assert ZoneStored(z, column, v);
      assert Stored(kb, x, "ru", v);
    }
  }

  ghost predicate ZoneStored(z: DeliveryZone, column: string, v: string) {
    || (column == "delivery_cost" && v == z.deliveryCost) || (column == "delivery_in_days" && v == z.deliveryInDays)
    || (column == "delivery_available" && v == DeliveryWording("ru", z.deliveryAvailable))
  }

  lemma AcceptedZones(kb: KB, folding: Folding, z: DeliveryZone)
    requires FactsAccepted(kb, folding) && z in kb.deliveryZones
    ensures Blank(z.deliveryCost) == Blank(z.deliveryInDays) == !z.deliveryAvailable
    ensures Pairwise(kb.deliveryZones, OtherZone)
  {
    hide ServicesOK, LinksResolve, WellFounded, PlansAccepted, SingletonsAccepted, SpecialistOK, Blank,
         PoliciesFitZones, ValidRef;
    var i :| 0 <= i < |kb.deliveryZones| && kb.deliveryZones[i] == z;
    assert ZoneRowOK(kb.deliveryZones[i]);
  }

  lemma StoredIsZones(kb: KB, z: DeliveryZone, x: FactEntry, v: string)
    requires Pairwise(kb.deliveryZones, OtherZone) && z in kb.deliveryZones && z.salesStatus == "active"
    requires x.table == "delivery" && x.ref == z.ref
    ensures Stored(kb, x, "ru", v) <==> ZoneStored(z, x.column, v)
  {
    hide DeliveryWording;
    forall w | w in kb.deliveryZones && w.ref == z.ref ensures w == z {
      OneZone(kb.deliveryZones, w, z);
    }
  }

  lemma OneZone(zones: seq<DeliveryZone>, w: DeliveryZone, z: DeliveryZone)
    requires Pairwise(zones, OtherZone) && w in zones && z in zones && w.ref == z.ref
    ensures w == z
  {
    var i :| 0 <= i < |zones| && zones[i] == w;
    var j :| 0 <= j < |zones| && zones[j] == z;
    assert forall a, b | 0 <= a < b < |zones| :: OtherZone(zones[a], zones[b]);
  }
}
