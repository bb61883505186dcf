/** Compiling the media tokens, and the whole catalog of one request. */
module MediaCatalog {
  import opened Wrappers
  import opened Text
  import opened Permutations
  import opened KnowledgeBase
  import opened Registry
  import opened Mentions
  import opened Facts
  import opened Hierarchies
  import opened Schedules
  import opened Media
  import opened Catalogs
  import opened Agreement
  import opened Readback

  /** One prompt-visible row with media columns. */
  datatype Owner = Owner(table: string, ref: string, display: string, values: string -> seq<string>)

  function TopicOwner(t: Topic): seq<Owner> {
    [Owner("topics", t.slug, t.title, TopicMedia(t))]
  }

  function ProductOwner(p: Product): seq<Owner> {
    if ProductVisible(p) then [Owner("products", p.ref, p.name, ProductMedia(p))] else []
  }

  function TariffOwner(t: Tariff): seq<Owner> {
    if Active(t.salesStatus) then [Owner("tariffs", t.ref, t.name, TariffMedia(t))] else []
  }

  function SpecialistOwner(s: Specialist): seq<Owner> {
    if Active(s.salesStatus) then [Owner("specialists", s.ref, s.fullName, SpecialistMedia(s))] else []
  }

  function SingletonOwners(kb: KB): seq<Owner> {
    (if kb.contacts.Some? then [Owner("contacts", SINGLETON_REF, "Контакты", ContactsMedia(kb.contacts.value))] else [])
    + (if kb.policies.Some? then [Owner("policies", SINGLETON_REF, "Условия", PoliciesMedia(kb.policies.value))]
       else [])
  }

  function Owners(kb: KB): seq<Owner> {
    FlatMap(kb.topics, TopicOwner) + FlatMap(kb.products, ProductOwner) + FlatMap(kb.tariffs, TariffOwner)
    + SingletonOwners(kb) + FlatMap(kb.specialists, SpecialistOwner)
  }

  function ColumnMedia(o: Owner): MediaColumn -> seq<MediaEntry> {
    (spec: MediaColumn) =>
      var ids := o.values(spec.column);
      if ids == [] then []
      else [MediaEntry(MediaToken(o.table, o.ref, spec.column), o.table, o.ref, spec.column, spec.kind, |ids|)]
  }

  function OwnerMedia(o: Owner): seq<MediaEntry> {
    FlatMap(MediaColumns(o.table), ColumnMedia(o))
  }

  function OwnerAbsent(o: Owner): seq<AbsentEntry> {
    if OwnerMedia(o) == [] then [AbsentEntry(o.table, o.ref, o.display)] else []
  }

  // A column without references yields no token; a broken reference is never treated as none.
  predicate ColumnOK(kb: KB, o: Owner, spec: MediaColumn) {
    var ids := o.values(spec.column);
    && (spec.singular ==> |ids| <= 1)
    && forall i | 0 <= i < |ids| :: MaterialOK(kb, ids[i], spec)
  }

  ghost predicate OwnerOK(kb: KB, o: Owner) {
    forall i | 0 <= i < |MediaColumns(o.table)| :: ColumnOK(kb, o, MediaColumns(o.table)[i])
  }

  ghost predicate MediaAccepted(kb: KB) {
    && (forall i | 0 <= i < |kb.topics| :: ValidRef(kb.topics[i].slug))
    && forall i | 0 <= i < |Owners(kb)| :: OwnerOK(kb, Owners(kb)[i])
  }

  method BuildMedia(kb: KB, cat: Catalog) returns (ok: bool)
    modifies cat`media, cat`absent
    ensures ok <==> MediaAccepted(kb)
    ensures ok ==> cat.media == old(cat.media) + FlatMap(Owners(kb), OwnerMedia)
    ensures ok ==> cat.absent == old(cat.absent) + FlatMap(Owners(kb), OwnerAbsent)
  {
    hide OwnerOK, OwnerMedia, OwnerAbsent, Owners;
    for i := 0 to |kb.topics|
      invariant forall k | 0 <= k < i :: ValidRef(kb.topics[k].slug)
    {
      if !ValidRef(kb.topics[i].slug) {
        return false;
      }
    }
    var owners := Owners(kb);
    for i := 0 to |owners|
      invariant forall k | 0 <= k < i :: OwnerOK(kb, owners[k])
      invariant cat.media == old(cat.media) + FlatMap(owners[..i], OwnerMedia)
      invariant cat.absent == old(cat.absent) + FlatMap(owners[..i], OwnerAbsent)
    {
      FlatMapNext(owners, OwnerMedia, i);
      FlatMapNext(owners, OwnerAbsent, i);
      var valid := AddOwner(kb, cat, owners[i]);
      if !valid {
        return false;
      }
    }
    assert owners[..|owners|] == owners;
    return true;
  }

  method CheckMaterials(kb: KB, ids: seq<string>, spec: MediaColumn) returns (ok: bool)
    ensures ok <==> forall i | 0 <= i < |ids| :: MaterialOK(kb, ids[i], spec)
  {
    for i := 0 to |ids|
      invariant forall k | 0 <= k < i :: MaterialOK(kb, ids[k], spec)
    {
      if !MaterialOK(kb, ids[i], spec) {
        return false;
      }
    }
    return true;
  }

  method AddColumn(kb: KB, cat: Catalog, o: Owner, spec: MediaColumn) returns (ok: bool, added: bool)
    modifies cat`media
    ensures ok <==> ColumnOK(kb, o, spec)
    ensures ok ==> cat.media == old(cat.media) + ColumnMedia(o)(spec)
    ensures ok ==> (added <==> ColumnMedia(o)(spec) != [])
  {
    hide MaterialOK;
    var ids := o.values(spec.column);
    if |ids| == 0 {
      return true, false;
    }
    if spec.singular && |ids| > 1 {
      return false, false;
    }
    ok := CheckMaterials(kb, ids, spec);
    if !ok {
      return false, false;
    }
    var token := o.table + "." + o.ref + "." + spec.column;
    cat.media := cat.media + [MediaEntry(token, o.table, o.ref, spec.column, spec.kind, |ids|)];
    return true, true;
  }

  method AddOwner(kb: KB, cat: Catalog, o: Owner) returns (ok: bool)
    modifies cat`media, cat`absent
    ensures ok <==> OwnerOK(kb, o)
    ensures ok ==> cat.media == old(cat.media) + OwnerMedia(o)
    ensures ok ==> cat.absent == old(cat.absent) + OwnerAbsent(o)
  {
    hide MediaColumns, ColumnOK, ColumnMedia;
    var specs := MediaColumns(o.table);
    ghost var f := ColumnMedia(o);
    var hasAny := false;
    for i := 0 to |specs|
      invariant forall k | 0 <= k < i :: ColumnOK(kb, o, specs[k])
      invariant cat.media == old(cat.media) + FlatMap(specs[..i], f)
      invariant cat.absent == old(cat.absent)
      invariant hasAny <==> FlatMap(specs[..i], f) != []
    {
      FlatMapNext(specs, f, i);
      var valid, added := AddColumn(kb, cat, o, specs[i]);
      if !valid {
        return false;
      }
      hasAny := hasAny || added;
    }
    assert specs[..|specs|] == specs;
    if !hasAny {
      cat.absent := cat.absent + [AbsentEntry(o.table, o.ref, o.display)];
    }
    return true;
  }

  ghost predicate Accepted(kb: KB, folding: Folding) {
    FactsAccepted(kb, folding) && MediaAccepted(kb)
  }

  function CompiledMedia(kb: KB): seq<MediaEntry> {
    FlatMap(Owners(kb), OwnerMedia)
  }

  method BuildCatalog(kb: KB, folding: Folding) returns (r: Result<Catalog>)
    ensures r.Success? <==> Accepted(kb, folding)
    ensures r.Success? ==> fresh(r.value) && r.value.facts == CompiledFacts(kb) && r.value.media == CompiledMedia(kb)
    ensures r.Success? ==> r.value.absent == FlatMap(Owners(kb), OwnerAbsent)
  {
    hide FactsAccepted, MediaAccepted, CompiledFacts, Owners;
    var cat := new Catalog();
    var ok := cat.BuildFacts(kb, folding);
    if !ok {
      return Failure("invalid fact row");
    }
    ok := BuildMedia(kb, cat);
    if !ok {
      return Failure("invalid media reference");
    }
    return Success(cat);
  }

  // ----- media tokens read back too -----

  ghost predicate UniqueSlugs(kb: KB) {
    forall i, j | 0 <= i < j < |kb.topics| :: kb.topics[i].slug != kb.topics[j].slug
  }

  predicate OtherOwner(o: Owner, p: Owner) {
    o.table != p.table || o.ref != p.ref
  }

  predicate OtherMediaCell(x: MediaEntry, y: MediaEntry) {
    x.table != y.table || x.ref != y.ref || x.column != y.column
  }

  // The owner's references are what a lookup by its table and ref finds.
  ghost predicate OwnerFound(kb: KB, o: Owner) {
    && Dotless(o.table) && Dotless(o.ref)
    && forall column :: CurrentMediaIDs(kb, o.table, o.ref, column) == o.values(column)
  }

  lemma TopicOwnersFound(kb: KB, o: Owner)
    requires MediaAccepted(kb) && UniqueSlugs(kb) && o in FlatMap(kb.topics, TopicOwner)
    ensures OwnerFound(kb, o) && o.table == "topics"
  {
    hide OwnerOK, Owners, ValidRef;
    var i := FlatMapSource(kb.topics, TopicOwner, o);
    ValidRefIsDotless(o.ref);
    FirstUnique(kb.topics, (t: Topic) => t.slug == o.ref, i);
  }

  lemma ProductOwnersFound(kb: KB, folding: Folding, o: Owner)
    requires PlansAccepted(kb, folding) && UniqueRefs(kb) && o in FlatMap(kb.products, ProductOwner)
    ensures OwnerFound(kb, o) && o.table == "products"
  {
    hide ValidRef, ProductVisible, FactsOK, UniqueRefs, TariffOK;
    var i := FlatMapSource(kb.products, ProductOwner, o);
    assert ProductOK(kb.products[i], folding);
    ValidRefIsDotless(o.ref);
    ProductFound(kb, i);
  }

  lemma TariffOwnersFound(kb: KB, folding: Folding, o: Owner)
    requires PlansAccepted(kb, folding) && UniqueRefs(kb) && o in FlatMap(kb.tariffs, TariffOwner)
    ensures OwnerFound(kb, o) && o.table == "tariffs"
  {
    hide ValidRef, FactsOK, UniqueRefs, ProductOK;
    var i := FlatMapSource(kb.tariffs, TariffOwner, o);
    assert TariffOK(kb.tariffs[i], folding);
    ValidRefIsDotless(o.ref);
    TariffFound(kb, i);
  }

  lemma SpecialistOwnersFound(kb: KB, o: Owner)
    requires BookablesAccepted(kb) && UniqueRefs(kb) && o in FlatMap(kb.specialists, SpecialistOwner)
    ensures OwnerFound(kb, o) && o.table == "specialists"
  {
    hide ValidRef, UniqueRefs, ZonesOK, ServicesOK, Acceptable;
    var i := FlatMapSource(kb.specialists, SpecialistOwner, o);
    assert SpecialistOK(kb.specialists[i]);
    ValidRefIsDotless(o.ref);
    SpecialistFound(kb, i);
  }

  lemma EveryOwnerFound(kb: KB, folding: Folding, o: Owner)
    requires Accepted(kb, folding) && UniqueRefs(kb) && UniqueSlugs(kb) && o in Owners(kb)
    ensures OwnerFound(kb, o)
  {
    hide PlansAccepted, SingletonsAccepted, BookablesAccepted, MediaAccepted, UniqueRefs, UniqueSlugs, OwnerFound,
         FlatMap;
    if o in FlatMap(kb.topics, TopicOwner) {
      TopicOwnersFound(kb, o);
    } else if o in FlatMap(kb.products, ProductOwner) {
      ProductOwnersFound(kb, folding, o);
    } else if o in FlatMap(kb.tariffs, TariffOwner) {
      TariffOwnersFound(kb, folding, o);
    } else if o in FlatMap(kb.specialists, SpecialistOwner) {
      SpecialistOwnersFound(kb, o);
    } else {
      SingletonOwnersFound(kb, o);
    }
  }

  lemma SingletonOwnersFound(kb: KB, o: Owner)
    requires o in SingletonOwners(kb)
    ensures OwnerFound(kb, o) && o.table in {"contacts", "policies"}
  {
    hide ContactsMedia, PoliciesMedia;
  }

  lemma OwnerTableDistinct<R>(rows: seq<R>, f: R -> seq<Owner>, table: string, refOf: R -> string)
    requires forall i | 0 <= i < |rows| :: |f(rows[i])| <= 1
    requires forall i, o | 0 <= i < |rows| && o in f(rows[i]) :: o.table == table && o.ref == refOf(rows[i])
    requires forall i, j | 0 <= i < j < |rows| ::
             f(rows[i]) == [] || f(rows[j]) == [] || refOf(rows[i]) != refOf(rows[j])
    ensures Pairwise(FlatMap(rows, f), OtherOwner)
    ensures forall o | o in FlatMap(rows, f) :: o.table == table
  {
    forall i, j, x, y | 0 <= i < j < |rows| && x in f(rows[i]) && y in f(rows[j]) ensures OtherOwner(x, y) {
      assert f(rows[i]) != [] && f(rows[j]) != [];
    }
    PairwiseFlatMap(rows, f, OtherOwner);
    forall o | o in FlatMap(rows, f) ensures o.table == table {
      var i := FlatMapSource(rows, f, o);
    }
  }

  lemma OwnersDistinct(kb: KB)
    requires UniqueRefs(kb) && UniqueSlugs(kb)
    ensures Pairwise(Owners(kb), OtherOwner)
  {
    hide ProductVisible, FlatMap, TopicMedia, ProductMedia, TariffMedia, SpecialistMedia, ContactsMedia,
         PoliciesMedia;
    var topics, products, tariffs, specialists :=
      FlatMap(kb.topics, TopicOwner), FlatMap(kb.products, ProductOwner),
      FlatMap(kb.tariffs, TariffOwner), FlatMap(kb.specialists, SpecialistOwner);
    OwnerTableDistinct(kb.topics, TopicOwner, "topics", (t: Topic) => t.slug);
    OwnerTableDistinct(kb.products, ProductOwner, "products", (p: Product) => p.ref);
    OwnerTableDistinct(kb.tariffs, TariffOwner, "tariffs", (t: Tariff) => t.ref);
    OwnerTableDistinct(kb.specialists, SpecialistOwner, "specialists", (s: Specialist) => s.ref);
    PairwiseConcat(topics, products, OtherOwner);
    PairwiseConcat(topics + products, tariffs, OtherOwner);
    PairwiseConcat(topics + products + tariffs, SingletonOwners(kb), OtherOwner);
    PairwiseConcat(topics + products + tariffs + SingletonOwners(kb), specialists, OtherOwner);
  }

  predicate OtherMediaColumn(c: MediaColumn, d: MediaColumn) {
    c.column != d.column
  }

  lemma MediaColumnsDistinct(table: string)
    ensures Pairwise(MediaColumns(table), OtherMediaColumn)
  {
    var cols := MediaColumns(table);
    assert forall i, j | 0 <= i < j < |cols| ::
        |cols[i].column| != |cols[j].column| || cols[i].column[0] != cols[j].column[0];
  }

  lemma MediaSpec(table: string, i: nat)
    requires i < |MediaColumns(table)|
    ensures MediaColumnSpec(table, MediaColumns(table)[i].column) == Some(MediaColumns(table)[i])
  {
    MediaColumnsDistinct(table);
    hide MediaColumns;
    var cols := MediaColumns(table);
    forall j | 0 <= j < i ensures cols[j].column != cols[i].column {
      assert OtherMediaColumn(cols[j], cols[i]);
    }
    FirstUnique(cols, (c: MediaColumn) => c.column == cols[i].column, i);
  }

  // No two owners under one table and ref hold references in the same media column.
  ghost predicate OwnersApart(kb: KB) {
    forall i, j, k | 0 <= i < j < |Owners(kb)| && !OtherOwner(Owners(kb)[i], Owners(kb)[j])
                     && 0 <= k < |MediaColumns(Owners(kb)[i].table)| ::
      var c := MediaColumns(Owners(kb)[i].table)[k].column;
      Owners(kb)[i].values(c) == [] || Owners(kb)[j].values(c) == []
  }

  lemma UniqueOwnersAreApart(kb: KB)
    requires UniqueRefs(kb) && UniqueSlugs(kb)
    ensures OwnersApart(kb)
  {
    hide Owners, UniqueRefs, UniqueSlugs;
    OwnersDistinct(kb);
  }

  lemma MediaCellsDistinct(kb: KB)
    requires OwnersApart(kb)
    ensures Pairwise(CompiledMedia(kb), OtherMediaCell)
  {
    hide Owners, MediaColumns;
    var owners := Owners(kb);
    forall i | 0 <= i < |owners| ensures Pairwise(OwnerMedia(owners[i]), OtherMediaCell) {
      OwnerMediaDistinct(owners[i]);
    }
    forall i, j, x, y | 0 <= i < j < |owners| && x in OwnerMedia(owners[i]) && y in OwnerMedia(owners[j])
      ensures OtherMediaCell(x, y)
    {
      var a := FlatMapSource(MediaColumns(owners[i].table), ColumnMedia(owners[i]), x);
      var b := FlatMapSource(MediaColumns(owners[j].table), ColumnMedia(owners[j]), y);
      assert OtherMediaCell(x, y) || !OtherOwner(owners[i], owners[j]);
    }
    PairwiseFlatMap(owners, OwnerMedia, OtherMediaCell);
  }

  lemma OwnerMediaDistinct(o: Owner)
    ensures Pairwise(OwnerMedia(o), OtherMediaCell)
  {
    hide MediaColumns;
    MediaColumnsDistinct(o.table);
    var cols, f := MediaColumns(o.table), ColumnMedia(o);
    forall i, j, x, y | 0 <= i < j < |cols| && x in f(cols[i]) && y in f(cols[j]) ensures OtherMediaCell(x, y) {
      assert OtherMediaColumn(cols[i], cols[j]);
    }
    PairwiseFlatMap(cols, f, OtherMediaCell);
  }

  lemma MediaSource(kb: KB, x: MediaEntry) returns (o: Owner, i: nat)
    requires x in CompiledMedia(kb)
    ensures o in Owners(kb) && i < |MediaColumns(o.table)| && x in ColumnMedia(o)(MediaColumns(o.table)[i])
  {
    hide Owners, MediaColumns, ColumnMedia;
    var k := FlatMapSource(Owners(kb), OwnerMedia, x);
    o := Owners(kb)[k];
    i := FlatMapSource(MediaColumns(o.table), ColumnMedia(o), x);
  }

  // Every compiled media token stands, for the same knowledge base, for as many sendable
  // materials as the catalog announced: the references of its own row and column.
  lemma CompiledMediaResolve(kb: KB, folding: Folding, x: MediaEntry)
    requires Accepted(kb, folding) && UniqueRefs(kb) && UniqueSlugs(kb) && x in CompiledMedia(kb)
    ensures TokenIDs(x.token, kb, CompiledMedia(kb)) == Success(CurrentMediaIDs(kb, x.table, x.ref, x.column))
    ensures |CurrentMediaIDs(kb, x.table, x.ref, x.column)| == x.count
  {
    hide FactsAccepted, UniqueRefs, UniqueSlugs, Owners, MediaColumns, MediaColumnSpec, CurrentMediaIDs, FlatMap,
         MaterialOK;
    var media := CompiledMedia(kb);
    var o, i := MediaSource(kb, x);
    var spec := MediaColumns(o.table)[i];
    EveryOwnerFound(kb, folding, o);
    MediaSpec(o.table, i);
    var k :| 0 <= k < |Owners(kb)| && Owners(kb)[k] == o;
    assert OwnerOK(kb, Owners(kb)[k]) && ColumnOK(kb, o, spec);
    var n :| 0 <= n < |media| && media[n] == x;
    forall m | 0 <= m < n ensures media[m].token != x.token {
      EarlierTokenDiffers(kb, folding, m, n);
    }
    FirstUnique(media, (e: MediaEntry) => e.token == x.token, n);
  }

  lemma EarlierTokenDiffers(kb: KB, folding: Folding, m: nat, n: nat)
    requires Accepted(kb, folding) && UniqueRefs(kb) && UniqueSlugs(kb) && m < n < |CompiledMedia(kb)|
    ensures CompiledMedia(kb)[m].token != CompiledMedia(kb)[n].token
  {
    hide FactsAccepted, MediaAccepted, UniqueRefs, UniqueSlugs, Owners, MediaColumns, CurrentMediaIDs, FlatMap;
    var x, y := CompiledMedia(kb)[m], CompiledMedia(kb)[n];
    UniqueOwnersAreApart(kb);
    MediaCellsDistinct(kb);
    assert OtherMediaCell(x, y);
    var o, i := MediaSource(kb, x);
    var p, j := MediaSource(kb, y);
    EveryOwnerFound(kb, folding, o);
    EveryOwnerFound(kb, folding, p);
    if x.token == y.token {
      MediaTokenNamesOneCell(x.table, x.ref, x.column, y.table, y.ref, y.column);
    }
  }
}
