/** What shared refs and slugs do to media tokens: exactly when they collide, and what they resolve to. */
module MediaRows {
  import opened Wrappers
  import opened Text
  import opened Permutations
  import opened Firsts
  import opened KnowledgeBase
  import opened Registry
  import opened Mentions
  import opened Facts
  import opened Hierarchies
  import opened Media
  import opened Catalogs
  import opened Readback
  import opened MediaCatalog

  predicate OtherMediaToken(x: MediaEntry, y: MediaEntry) {
    x.token != y.token
  }

  lemma OwnerIsDotless(kb: KB, folding: Folding, o: Owner)
    requires Accepted(kb, folding) && o in Owners(kb)
    ensures Dotless(o.table) && Dotless(o.ref)
  {
    hide FlatMap, FactsAccepted, MediaAccepted, ProductVisible, ValidRef, Dotless, TopicMedia, ProductMedia,
         TariffMedia, SpecialistMedia, ContactsMedia, PoliciesMedia;
    ApprovedRefsAreValid(kb, folding);
    SlugsAreValid(kb);
    TablesAreDotless();
    if o in FlatMap(kb.topics, TopicOwner) {
      var i := FlatMapSource(kb.topics, TopicOwner, o);
      ValidRefIsDotless(o.ref);
    } else if o in FlatMap(kb.products, ProductOwner) {
      var i := FlatMapSource(kb.products, ProductOwner, o);
      ValidRefIsDotless(o.ref);
    } else if o in FlatMap(kb.tariffs, TariffOwner) {
      var i := FlatMapSource(kb.tariffs, TariffOwner, o);
      ValidRefIsDotless(o.ref);
    } else if o in FlatMap(kb.specialists, SpecialistOwner) {
      var i := FlatMapSource(kb.specialists, SpecialistOwner, o);
      ValidRefIsDotless(o.ref);
    }
  }

  lemma SlugsAreValid(kb: KB)
    requires MediaAccepted(kb)
    ensures forall i | 0 <= i < |kb.topics| :: ValidRef(kb.topics[i].slug)
  {
  }

  lemma TablesAreDotless()
    ensures Dotless("topics") && Dotless("products") && Dotless("tariffs") && Dotless("specialists")
    ensures Dotless("contacts") && Dotless("policies") && Dotless(SINGLETON_REF)
  {
  }

  lemma ApprovedRefsAreValid(kb: KB, folding: Folding)
    requires FactsAccepted(kb, folding)
    ensures forall i | 0 <= i < |kb.products| && ProductVisible(kb.products[i]) :: ValidRef(kb.products[i].ref)
    ensures forall i | 0 <= i < |kb.tariffs| && Active(kb.tariffs[i].salesStatus) :: ValidRef(kb.tariffs[i].ref)
    ensures forall i | 0 <= i < |kb.specialists| && Active(kb.specialists[i].salesStatus) ::
            ValidRef(kb.specialists[i].ref)
  {
    hide ZonesOK, ServicesOK, FactsOK, SingletonsAccepted, ValidRef, ProductVisible;
    forall i | 0 <= i < |kb.products| && ProductVisible(kb.products[i]) ensures ValidRef(kb.products[i].ref) {
      assert ProductOK(kb.products[i], folding);
    }
    forall i | 0 <= i < |kb.tariffs| && Active(kb.tariffs[i].salesStatus) ensures ValidRef(kb.tariffs[i].ref) {
      assert TariffOK(kb.tariffs[i], folding);
    }
    forall i | 0 <= i < |kb.specialists| && Active(kb.specialists[i].salesStatus)
      ensures ValidRef(kb.specialists[i].ref)
    {
      assert SpecialistOK(kb.specialists[i]);
    }
  }

  lemma MediaEntryIsNamed(kb: KB, folding: Folding, x: MediaEntry)
    requires Accepted(kb, folding) && x in CompiledMedia(kb)
    ensures Dotless(x.table) && Dotless(x.ref) && x.token == MediaToken(x.table, x.ref, x.column)
  {
    hide Owners, MediaColumns, FactsAccepted, MediaAccepted;
    var o, i := MediaSource(kb, x);
    OwnerIsDotless(kb, folding, o);
  }

  lemma MediaTokenIsCell(kb: KB, folding: Folding, x: MediaEntry, y: MediaEntry)
    requires Accepted(kb, folding) && x in CompiledMedia(kb) && y in CompiledMedia(kb)
    ensures OtherMediaToken(x, y) <==> OtherMediaCell(x, y)
  {
    hide Accepted, CompiledMedia;
    MediaEntryIsNamed(kb, folding, x);
    MediaEntryIsNamed(kb, folding, y);
    if x.token == y.token {
      MediaTokenNamesOneCell(x.table, x.ref, x.column, y.table, y.ref, y.column);
    }
  }

  // ----- tokens collide exactly where references are shared -----

  lemma OwnerCellCompiles(o: Owner, k: nat) returns (x: MediaEntry)
    requires k < |MediaColumns(o.table)| && o.values(MediaColumns(o.table)[k].column) != []
    ensures x in OwnerMedia(o) && x.table == o.table && x.ref == o.ref && x.column == MediaColumns(o.table)[k].column
  {
    hide FlatMap, MediaColumns;
    x := ColumnMedia(o)(MediaColumns(o.table)[k])[0];
    InFlatMap(MediaColumns(o.table), ColumnMedia(o), k, x);
  }

  // Media tokens are pairwise distinct exactly when no two owners under one table and ref hold
  // references in the same column.
  lemma MediaTokensDistinctIff(kb: KB, folding: Folding)
    requires Accepted(kb, folding)
    ensures Pairwise(CompiledMedia(kb), OtherMediaToken) <==> OwnersApart(kb)
  {
    hide Accepted, Owners, FlatMap, OwnerMedia, MediaColumns;
    var media, owners := CompiledMedia(kb), Owners(kb);
    if OwnersApart(kb) {
      MediaCellsDistinct(kb);
      forall i, j | 0 <= i < j < |media| ensures OtherMediaToken(media[i], media[j]) {
        assert OtherMediaCell(media[i], media[j]) && media[i] in media && media[j] in media;
        MediaTokenIsCell(kb, folding, media[i], media[j]);
      }
    }
    if Pairwise(media, OtherMediaToken) {
      forall i, j, k | 0 <= i < j < |owners| && !OtherOwner(owners[i], owners[j])
                       && 0 <= k < |MediaColumns(owners[i].table)|
        ensures var c := MediaColumns(owners[i].table)[k].column; owners[i].values(c) == [] || owners[j].values(c) == []
      {
        var c := MediaColumns(owners[i].table)[k].column;
        if owners[i].values(c) != [] && owners[j].values(c) != [] {
          var x := OwnerCellCompiles(owners[i], k);
          var y := OwnerCellCompiles(owners[j], k);
          PairwiseFromFlatMap(owners, OwnerMedia, OtherMediaToken, i, j, x, y);
          InFlatMap(owners, OwnerMedia, i, x);
          InFlatMap(owners, OwnerMedia, j, y);
          MediaTokenIsCell(kb, folding, x, y);
          assert false;
        }
      }
    }
  }

  // ----- the first row with a ref speaks for all -----

  function IsOwner(table: string, ref: string): Owner -> bool {
    (o: Owner) => o.table == table && o.ref == ref
  }

  function OwnerInCharge(kb: KB, table: string, ref: string): Option<Owner> {
    First(Owners(kb), IsOwner(table, ref))
  }

  // What the lookup by table and ref reads are the references of the first owner under them.
  ghost predicate InCharge(kb: KB, q: Option<Owner>, table: string, ref: string) {
    q.Some? && forall c :: CurrentMediaIDs(kb, table, ref, c) == q.value.values(c)
  }

  lemma FirstInTable<R>(before: seq<Owner>, rows: seq<R>, f: R -> seq<Owner>, after: seq<Owner>, table: string,
                        ref: string, i: nat)
    requires i < |rows| && |f(rows[i])| == 1 && f(rows[i])[0].table == table && f(rows[i])[0].ref == ref
    requires forall o | o in before :: o.table != table || o.ref != ref
    requires forall k, o | 0 <= k < i && o in f(rows[k]) :: o.ref != ref
    ensures First(before + FlatMap(rows, f) + after, IsOwner(table, ref)) == Some(f(rows[i])[0])
  {
    hide FlatMap;
    var p := IsOwner(table, ref);
    FirstIsIn(before, p);
    forall k | 0 <= k < i ensures First(f(rows[k]), p).None? {
      FirstIsIn(f(rows[k]), p);
    }
    FirstOfRows(rows, f, p, i);
    FirstOfConcat(before, FlatMap(rows, f), p);
    FirstOfConcat(before + FlatMap(rows, f), after, p);
  }

  lemma OwnersByTable(kb: KB)
    ensures forall o | o in FlatMap(kb.topics, TopicOwner) :: o.table == "topics"
    ensures forall o | o in FlatMap(kb.products, ProductOwner) :: o.table == "products"
    ensures forall o | o in FlatMap(kb.tariffs, TariffOwner) :: o.table == "tariffs"
    ensures forall o | o in SingletonOwners(kb) :: o.table in {"contacts", "policies"}
    ensures forall o | o in FlatMap(kb.specialists, SpecialistOwner) :: o.table == "specialists"
  {
    hide FlatMap, ProductVisible;
    forall o | o in FlatMap(kb.topics, TopicOwner) ensures o.table == "topics" {
      var i := FlatMapSource(kb.topics, TopicOwner, o);
    }
    forall o | o in FlatMap(kb.products, ProductOwner) ensures o.table == "products" {
      var i := FlatMapSource(kb.products, ProductOwner, o);
    }
    forall o | o in FlatMap(kb.tariffs, TariffOwner) ensures o.table == "tariffs" {
      var i := FlatMapSource(kb.tariffs, TariffOwner, o);
    }
    forall o | o in FlatMap(kb.specialists, SpecialistOwner) ensures o.table == "specialists" {
      var i := FlatMapSource(kb.specialists, SpecialistOwner, o);
    }
  }

  lemma TopicInCharge(kb: KB, o: Owner)
    requires o in FlatMap(kb.topics, TopicOwner)
    ensures InCharge(kb, OwnerInCharge(kb, o.table, o.ref), o.table, o.ref)
  {
    hide FlatMap, ProductOwner, TariffOwner, SpecialistOwner, SingletonOwners, TopicMedia;
    var j := FlatMapSource(kb.topics, TopicOwner, o);
    var ref, found := o.ref, (t: Topic) => t.slug == o.ref;
    FirstIsIn(kb.topics, found);
    assert kb.topics[j] in kb.topics;
    var i := FirstHasIndex(kb.topics, found);
    FirstUnique(kb.topics, (t: Topic) => t.slug == o.ref, i);
    var after := FlatMap(kb.products, ProductOwner) + FlatMap(kb.tariffs, TariffOwner) + SingletonOwners(kb)
                 + FlatMap(kb.specialists, SpecialistOwner);
    FirstInTable([], kb.topics, TopicOwner, after, "topics", o.ref, i);
    assert Owners(kb) == [] + FlatMap(kb.topics, TopicOwner) + after;
  }

  lemma ProductInChargeOfMedia(kb: KB, o: Owner)
    requires o in FlatMap(kb.products, ProductOwner)
    ensures InCharge(kb, OwnerInCharge(kb, o.table, o.ref), o.table, o.ref)
  {
    hide FlatMap, TopicOwner, TariffOwner, SpecialistOwner, SingletonOwners, ProductMedia, ProductVisible;
    var j := FlatMapSource(kb.products, ProductOwner, o);
    var found := (p: Product) => p.ref == o.ref && ProductVisible(p);
    FirstIsIn(kb.products, found);
    assert kb.products[j] in kb.products;
    var i := FirstHasIndex(kb.products, found);
    FirstUnique(kb.products, (p: Product) => p.ref == o.ref && ProductVisible(p), i);
    var before := FlatMap(kb.topics, TopicOwner);
    var after := FlatMap(kb.tariffs, TariffOwner) + SingletonOwners(kb) + FlatMap(kb.specialists, SpecialistOwner);
    OwnersByTable(kb);
    FirstInTable(before, kb.products, ProductOwner, after, "products", o.ref, i);
    assert Owners(kb) == before + FlatMap(kb.products, ProductOwner) + after;
  }

  lemma TariffInChargeOfMedia(kb: KB, o: Owner)
    requires o in FlatMap(kb.tariffs, TariffOwner)
    ensures InCharge(kb, OwnerInCharge(kb, o.table, o.ref), o.table, o.ref)
  {
    hide FlatMap, TopicOwner, ProductOwner, SpecialistOwner, SingletonOwners, TariffMedia;
    var j := FlatMapSource(kb.tariffs, TariffOwner, o);
    var found := (t: Tariff) => t.ref == o.ref && Active(t.salesStatus);
    FirstIsIn(kb.tariffs, found);
    assert kb.tariffs[j] in kb.tariffs;
    var i := FirstHasIndex(kb.tariffs, found);
    FirstUnique(kb.tariffs, (t: Tariff) => t.ref == o.ref && Active(t.salesStatus), i);
    var before := FlatMap(kb.topics, TopicOwner) + FlatMap(kb.products, ProductOwner);
    var after := SingletonOwners(kb) + FlatMap(kb.specialists, SpecialistOwner);
    OwnersByTable(kb);
    FirstInTable(before, kb.tariffs, TariffOwner, after, "tariffs", o.ref, i);
    assert Owners(kb) == before + FlatMap(kb.tariffs, TariffOwner) + after;
  }

  lemma SpecialistInChargeOfMedia(kb: KB, o: Owner)
    requires o in FlatMap(kb.specialists, SpecialistOwner)
    ensures InCharge(kb, OwnerInCharge(kb, o.table, o.ref), o.table, o.ref)
  {
    hide FlatMap, TopicOwner, ProductOwner, TariffOwner, SingletonOwners, SpecialistMedia;
    var j := FlatMapSource(kb.specialists, SpecialistOwner, o);
    var found := (s: Specialist) => s.ref == o.ref && Active(s.salesStatus);
    FirstIsIn(kb.specialists, found);
    assert kb.specialists[j] in kb.specialists;
    var i := FirstHasIndex(kb.specialists, found);
    FirstUnique(kb.specialists, (s: Specialist) => s.ref == o.ref && Active(s.salesStatus), i);
    var before := FlatMap(kb.topics, TopicOwner) + FlatMap(kb.products, ProductOwner) + FlatMap(kb.tariffs, TariffOwner)
                  + SingletonOwners(kb);
    OwnersByTable(kb);
    FirstInTable(before, kb.specialists, SpecialistOwner, [], "specialists", o.ref, i);
    assert Owners(kb) == before + FlatMap(kb.specialists, SpecialistOwner) + [];
  }

  lemma SingletonInCharge(kb: KB, o: Owner)
    requires o in SingletonOwners(kb)
    ensures InCharge(kb, OwnerInCharge(kb, o.table, o.ref), o.table, o.ref)
  {
    hide FlatMap, TopicOwner, ProductOwner, TariffOwner, SpecialistOwner, ContactsMedia, PoliciesMedia;
    var before := FlatMap(kb.topics, TopicOwner) + FlatMap(kb.products, ProductOwner)
        + FlatMap(kb.tariffs, TariffOwner);
    var p := IsOwner(o.table, o.ref);
    OwnersByTable(kb);
    FirstIsIn(before, p);
    FirstOfConcat(before, SingletonOwners(kb), p);
    FirstOfConcat(before + SingletonOwners(kb), FlatMap(kb.specialists, SpecialistOwner), p);
    SingletonFirst(kb, o);
  }

  lemma SingletonFirst(kb: KB, o: Owner)
    requires o in SingletonOwners(kb)
    ensures First(SingletonOwners(kb), IsOwner(o.table, o.ref)) == Some(o)
  {
    hide ContactsMedia, PoliciesMedia;
    var i :| 0 <= i < |SingletonOwners(kb)| && SingletonOwners(kb)[i] == o;
    FirstUnique(SingletonOwners(kb), IsOwner(o.table, o.ref), i);
  }

  lemma EveryOwnerHasOneInCharge(kb: KB, o: Owner)
    requires o in Owners(kb)
    ensures InCharge(kb, OwnerInCharge(kb, o.table, o.ref), o.table, o.ref)
    ensures OwnerInCharge(kb, o.table, o.ref).value in Owners(kb)
    ensures OwnerInCharge(kb, o.table, o.ref).value.table == o.table
            && OwnerInCharge(kb, o.table, o.ref).value.ref == o.ref
  {
    hide FlatMap, InCharge, TopicOwner, ProductOwner, TariffOwner, SpecialistOwner, SingletonOwners;
    FirstIsIn(Owners(kb), IsOwner(o.table, o.ref));
    if o in FlatMap(kb.topics, TopicOwner) {
      TopicInCharge(kb, o);
    } else if o in FlatMap(kb.products, ProductOwner) {
      ProductInChargeOfMedia(kb, o);
    } else if o in FlatMap(kb.tariffs, TariffOwner) {
      TariffInChargeOfMedia(kb, o);
    } else if o in SingletonOwners(kb) {
      SingletonInCharge(kb, o);
    } else {
      SpecialistInChargeOfMedia(kb, o);
    }
  }

  // A media token stands for the references of the first owner under its ref, and for none where that one has none.
  lemma MediaReadsFirst(kb: KB, folding: Folding, o: Owner, k: nat)
    requires Accepted(kb, folding) && o in Owners(kb)
    requires k < |MediaColumns(o.table)| && o.values(MediaColumns(o.table)[k].column) != []
    ensures var c := MediaColumns(o.table)[k].column;
            var ids := TokenIDs(MediaToken(o.table, o.ref, c), kb, CompiledMedia(kb));
            var q := OwnerInCharge(kb, o.table, o.ref);
            q.Some? && if q.value.values(c) == [] then ids.Failure? else ids == Success(q.value.values(c))
  {
    hide FactsAccepted, Owners, MediaColumns, MediaColumnSpec, CurrentMediaIDs, FlatMap, MaterialOK, Dotless;
    var spec := MediaColumns(o.table)[k];
    var c, token, media := spec.column, MediaToken(o.table, o.ref, spec.column), CompiledMedia(kb);
    EveryOwnerHasOneInCharge(kb, o);
    var q := OwnerInCharge(kb, o.table, o.ref).value;
    var x := OwnerCellCompiles(o, k);
    var n :| 0 <= n < |Owners(kb)| && Owners(kb)[n] == o;
    InFlatMap(Owners(kb), OwnerMedia, n, x);
    FirstIsIn(media, (e: MediaEntry) => e.token == token);
    MediaEntryIsNamed(kb, folding, x);
    var e := MediaByToken(media, token).value;
    MediaEntryIsNamed(kb, folding, e);
    MediaTokenNamesOneCell(e.table, e.ref, e.column, o.table, o.ref, c);
    MediaSpec(o.table, k);
    var m :| 0 <= m < |Owners(kb)| && Owners(kb)[m] == q;
    assert OwnerOK(kb, Owners(kb)[m]) && ColumnOK(kb, q, spec);
  }

  // Every owner's references read back as its own exactly when the first owner under each table and ref
  // holds the same references as the later ones.
  lemma MediaReadBackIff(kb: KB, folding: Folding)
    requires Accepted(kb, folding)
    ensures OwnersReadBack(kb) <==> FirstOwnersAgree(kb)
  {
    hide Accepted, Owners, MediaColumns, TokenIDs, CompiledMedia, OwnerInCharge;
    forall o, k | o in Owners(kb) && 0 <= k < |MediaColumns(o.table)| && o.values(MediaColumns(o.table)[k].column) != []
      ensures var c := MediaColumns(o.table)[k].column;
              var q := OwnerInCharge(kb, o.table, o.ref);
              TokenIDs(MediaToken(o.table, o.ref, c), kb, CompiledMedia(kb)) == Success(o.values(c)) <==>
              q.Some? && q.value.values(c) == o.values(c)
    {
      MediaReadsFirst(kb, folding, o, k);
    }
  }

  ghost predicate OwnersReadBack(kb: KB) {
    forall o, k | o in Owners(kb) && 0 <= k < |MediaColumns(o.table)|
                  && o.values(MediaColumns(o.table)[k].column) != [] ::
      var c := MediaColumns(o.table)[k].column;
      TokenIDs(MediaToken(o.table, o.ref, c), kb, CompiledMedia(kb)) == Success(o.values(c))
  }

  ghost predicate FirstOwnersAgree(kb: KB) {
    forall o, k | o in Owners(kb) && 0 <= k < |MediaColumns(o.table)|
                  && o.values(MediaColumns(o.table)[k].column) != [] ::
      var c := MediaColumns(o.table)[k].column;
      var q := OwnerInCharge(kb, o.table, o.ref);
      q.Some? && q.value.values(c) == o.values(c)
  }
}
