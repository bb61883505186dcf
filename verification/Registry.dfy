/** The closed registry of exact-value columns and media columns, and the catalog rows built from it. */
module Registry {
  import opened Wrappers
  import opened Text
  import opened Permutations
  import opened Schedules

  datatype ValueKind =
    | MoneyDisplay | TimeDisplay | TextComplete | NumberKind | NumberRange | DeliveryFlag
    | VirtualNumber | VirtualBoolean | VirtualString

  predicate IsVirtual(kind: ValueKind) {
    kind.VirtualNumber? || kind.VirtualBoolean? || kind.VirtualString?
  }

  datatype FactColumn = FactColumn(column: string, kind: ValueKind)

  datatype FactEntry = FactEntry(
    token: string, table: string, ref: string, column: string, kind: ValueKind, reasoningState: string)

  datatype MediaKind = Image | Video | Audio | Document

  datatype MediaColumn = MediaColumn(column: string, kind: MediaKind, singular: bool)

  datatype MediaEntry = MediaEntry(
    token: string, table: string, ref: string, column: string, kind: MediaKind, count: nat)

  datatype AbsentEntry = AbsentEntry(table: string, ref: string, displayName: string)

  const SINGLETON_REF: string := "main"

  function DayColumn(ref: string): FactColumn {
    FactColumn("schedule_" + ref, TextComplete)
  }

  // The booking link, the whole week, and one column per weekday.
  function ScheduleColumns(): seq<FactColumn> {
    [FactColumn("booking", TextComplete), FactColumn("schedule", TextComplete)] + Map(WEEKDAY_ORDER, DayColumn)
  }

  function ContactColumns(): seq<FactColumn> {
    [FactColumn("phone", TextComplete), FactColumn("whatsapp", TextComplete),
     FactColumn("email", TextComplete), FactColumn("website", TextComplete),
     FactColumn("instagram", TextComplete), FactColumn("working_hours", TimeDisplay)]
  }

  // The columns of one fact table, in catalog order; an unknown table has none.
  function FactColumns(table: string): seq<FactColumn> {
    if table == "product" then
      [FactColumn("price", MoneyDisplay)]
    else if table == "tariff" then
      [FactColumn("price", MoneyDisplay), FactColumn("fee", MoneyDisplay)]
    else if table == "service" then
      [FactColumn("price", MoneyDisplay), FactColumn("duration", NumberKind)]
    else if table == "contact" then
      ContactColumns() + ScheduleColumns()
    else if table == "specialist" then
      ScheduleColumns()
    else if table == "policy" then
      [FactColumn("delivery_cost", MoneyDisplay), FactColumn("delivery_in_days", NumberRange),
       FactColumn("free_delivery_from", MoneyDisplay), FactColumn("min_order", MoneyDisplay),
       FactColumn("return_period_in_days", NumberKind), FactColumn("outside_zones_note", TextComplete)]
    else if table == "delivery" then
      [FactColumn("delivery_cost", MoneyDisplay), FactColumn("delivery_in_days", NumberRange),
       FactColumn("delivery_available", DeliveryFlag)]
    else []
  }

  function FactColumnSpec(table: string, column: string): Option<FactColumn> {
    First(FactColumns(table), (c: FactColumn) => c.column == column)
  }

  function MediaColumns(table: string): seq<MediaColumn> {
    if table == "topics" then
      [MediaColumn("featured_image", Image, true), MediaColumn("illustration_images", Image, false),
       MediaColumn("explainer_videos", Video, false), MediaColumn("reference_documents", Document, false)]
    else if table == "products" then
      [MediaColumn("featured_image", Image, true), MediaColumn("gallery_images", Image, false),
       MediaColumn("demo_videos", Video, false), MediaColumn("certificate_documents", Document, false),
       MediaColumn("guarantee_documents", Document, false)]
    else if table == "tariffs" then
      [MediaColumn("featured_image", Image, true), MediaColumn("pricing_images", Image, false),
       MediaColumn("explainer_videos", Video, false), MediaColumn("terms_documents", Document, false)]
    else if table == "contacts" then
      [MediaColumn("contact_card_image", Image, true), MediaColumn("location_map_image", Image, true),
       MediaColumn("company_legal_documents", Document, false)]
    else if table == "policies" then
      [MediaColumn("commerce_policy_documents", Document, false)]
    else if table == "specialists" then
      [MediaColumn("portfolio", Image, false)]
    else []
  }

  function MediaColumnSpec(table: string, column: string): Option<MediaColumn> {
    First(MediaColumns(table), (c: MediaColumn) => c.column == column)
  }

  // ----- tokens -----

  function FactToken(table: string, ref: string, column: string): string {
    "{{" + table + "." + ref + "." + column + "}}"
  }

  function MediaToken(table: string, ref: string, column: string): string {
    table + "." + ref + "." + column
  }

  ghost predicate Dotless(s: string) {
    forall i | 0 <= i < |s| :: s[i] != '.'
  }

  lemma DotAt(a: string, x: string)
    requires Dotless(a)
    ensures var s := a + "." + x;
            && s[|a|] == '.' && s[..|a|] == a && s[|a| + 1..] == x
            && forall i | 0 <= i < |a| :: s[i] != '.'
  {
  }

  lemma FirstDotSplits(a: string, x: string, b: string, y: string)
    requires Dotless(a) && Dotless(b) && a + "." + x == b + "." + y
    ensures a == b && x == y
  {
    DotAt(a, x);
    DotAt(b, y);
    var s := a + "." + x;
    assert s[|a|] == '.' && s[|b|] == '.';
  }

  // A token names one table, row and column as long as tables and refs hold no dot.
  lemma TokenNamesOneCell(t: string, r: string, c: string, t': string, r': string, c': string)
    requires Dotless(t) && Dotless(r) && Dotless(t') && Dotless(r')
    requires FactToken(t, r, c) == FactToken(t', r', c')
    ensures t == t' && r == r' && c == c'
  {
    var s, s' := FactToken(t, r, c), FactToken(t', r', c');
    assert s[2..|s| - 2] == t + "." + (r + "." + c);
    assert s'[2..|s'| - 2] == t' + "." + (r' + "." + c');
    FirstDotSplits(t, r + "." + c, t', r' + "." + c');
    FirstDotSplits(r, c, r', c');
  }

  lemma MediaTokenNamesOneCell(t: string, r: string, c: string, t': string, r': string, c': string)
    requires Dotless(t) && Dotless(r) && Dotless(t') && Dotless(r')
    requires MediaToken(t, r, c) == MediaToken(t', r', c')
    ensures t == t' && r == r' && c == c'
  {
    assert MediaToken(t, r, c) == t + "." + (r + "." + c);
    assert MediaToken(t', r', c') == t' + "." + (r' + "." + c');
    FirstDotSplits(t, r + "." + c, t', r' + "." + c');
    FirstDotSplits(r, c, r', c');
  }
}
