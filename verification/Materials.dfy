/** Media, row by row: which references a row holds, and which materials a customer may be sent. */
module Materials {
  import opened Text
  import opened Permutations
  import opened KnowledgeBase
  import opened Registry
  import opened Media
  import opened MediaCatalog
  import opened Resolver

  // ----- materials -----

  ghost predicate Sendable(kb: KB, m: Material, kind: MediaKind) {
    && (kb.organizationID == "" || m.organizationID == kb.organizationID)
    && m.sourceType == "file" && m.storageBackend != "" && m.storageKey != "" && m.sizeBytes > 0
    && m.customerVisibility in {"visible", "auto"}
    && match kind
       case Image => "image/" <= m.mimeType
       case Video => "video/" <= m.mimeType
       case Audio => "audio/" <= m.mimeType
       case Document => "application/" <= m.mimeType || "text/" <= m.mimeType
  }

  // The material an id stands for, the first of that id, may be sent as the kind.
  ghost predicate IDSendable(kb: KB, id: string, kind: MediaKind) {
    exists i | 0 <= i < |kb.materials| ::
      && kb.materials[i].id == id && Sendable(kb, kb.materials[i], kind)
      && forall j | 0 <= j < i :: kb.materials[j].id != id
  }

  lemma MaterialOKIff(kb: KB, id: string, spec: MediaColumn)
    ensures MaterialOK(kb, id, spec) <==> IDSendable(kb, id, spec.kind)
    ensures MaterialOK(kb, id, spec) ==>
              var m := MaterialByID(kb, id).value; m in kb.materials && m.id == id && Sendable(kb, m, spec.kind)
  {
    hide MaterialByID, First;
    MaterialIs(kb, id);
    var m := MaterialByID(kb, id);
    if m.Some? {
      assert MaterialOK(kb, id, spec) <==> Sendable(kb, m.value, spec.kind);
    }
  }

  lemma MaterialIs(kb: KB, id: string)
    ensures MaterialByID(kb, id).None? ==> forall i | 0 <= i < |kb.materials| :: kb.materials[i].id != id
    ensures MaterialByID(kb, id).Some? ==>
              exists i | 0 <= i < |kb.materials| ::
                && kb.materials[i] == MaterialByID(kb, id).value && kb.materials[i].id == id
                && forall j | 0 <= j < i :: kb.materials[j].id != id
  {
    FirstIsIn(kb.materials, (m: Material) => m.id == id);
    if exists i | 0 <= i < |kb.materials| :: kb.materials[i].id == id {
      var i := LeastIndex(kb.materials, id);
      FirstUnique(kb.materials, (m: Material) => m.id == id, i);
    }
  }

  lemma {:induction false} LeastIndex(materials: seq<Material>, id: string) returns (i: nat)
    requires exists k | 0 <= k < |materials| :: materials[k].id == id
    ensures i < |materials| && materials[i].id == id && forall j | 0 <= j < i :: materials[j].id != id
  {
    if materials[0].id == id {
      i := 0;
    } else {
      var k :| 0 <= k < |materials| && materials[k].id == id;
      assert materials[1..][k - 1].id == id;
      i := LeastIndex(materials[1..], id);
      i := i + 1;
      assert forall j | 1 <= j < i :: materials[j] == materials[1..][j - 1];
    }
  }

  // ----- the references of a row -----

  // An explicit featured image, or the first of the primary ones.
  ghost predicate Featured(explicit: string, primary: seq<string>, ids: seq<string>) {
    if explicit != "" then ids == [explicit] else primary != [] && ids == [primary[0]]
  }

  ghost predicate TopicStored(t: Topic, column: string, kind: MediaKind, ids: seq<string>) {
    || (column == "featured_image" && kind.Image? && Featured(t.featuredImage, t.illustrationImages, ids))
    || (column == "illustration_images" && kind.Image? && ids == t.illustrationImages)
    || (column == "explainer_videos" && kind.Video? && ids == t.explainerVideos)
    || (column == "reference_documents" && kind.Document? && ids == t.referenceDocuments)
  }

  ghost predicate ProductStored(p: Product, column: string, kind: MediaKind, ids: seq<string>) {
    || (column == "featured_image" && kind.Image? && Featured(p.featuredImage, p.galleryImages, ids))
    || (column == "gallery_images" && kind.Image? && ids == p.galleryImages)
    || (column == "demo_videos" && kind.Video? && ids == p.demoVideos)
    || (column == "certificate_documents" && kind.Document? && ids == p.certificateDocuments)
    || (column == "guarantee_documents" && kind.Document? && ids == p.guaranteeDocuments)
  }

  ghost predicate TariffStored(t: Tariff, column: string, kind: MediaKind, ids: seq<string>) {
    || (column == "featured_image" && kind.Image? && Featured(t.featuredImage, t.pricingImages, ids))
    || (column == "pricing_images" && kind.Image? && ids == t.pricingImages)
    || (column == "explainer_videos" && kind.Video? && ids == t.explainerVideos)
    || (column == "terms_documents" && kind.Document? && ids == t.termsDocuments)
  }

  ghost predicate ContactsStored(c: Contacts, column: string, kind: MediaKind, ids: seq<string>) {
    || (column == "contact_card_image" && kind.Image? && ids == [c.contactCardImage] && c.contactCardImage != "")
    || (column == "location_map_image" && kind.Image? && ids == [c.locationMapImage] && c.locationMapImage != "")
    || (column == "company_legal_documents" && kind.Document? && ids == c.companyLegalDocuments)
  }

  // ids are the references some approved row of the table holds under ref in the column, which takes the kind.
  ghost predicate MediaStored(kb: KB, table: string, ref: string, column: string, kind: MediaKind, ids: seq<string>) {
    || (table == "topics" && exists t | t in kb.topics :: t.slug == ref && TopicStored(t, column, kind, ids))
    || (table == "products" && exists p | p in kb.products ::
          && p.ref == ref && p.salesStatus == "active"
          && p.availabilityStatus in {"in_stock", "preorder", "on_demand"} && ProductStored(p, column, kind, ids))
    || (table == "tariffs" && exists t | t in kb.tariffs ::
          t.ref == ref && t.salesStatus == "active" && TariffStored(t, column, kind, ids))
    || (table == "contacts" && ref == "main" && kb.contacts.Some?
        && ContactsStored(kb.contacts.value, column, kind, ids))
    || (table == "policies" && ref == "main" && kb.policies.Some?
        && column == "commerce_policy_documents" && kind.Document?
        && ids == kb.policies.value.commercePolicyDocuments)
    || (table == "specialists" && exists s | s in kb.specialists ::
          && s.ref == ref && s.salesStatus == "active"
          && column == "portfolio" && kind.Image? && ids == s.portfolioImages)
  }

  // ----- what is compiled -----

  ghost predicate OwnerHolds(o: Owner, column: string, kind: MediaKind, ids: seq<string>) {
    exists spec | spec in MediaColumns(o.table) :: spec.column == column && spec.kind == kind && ids == o.values(column)
  }

  lemma TopicHolds(t: Topic, column: string, kind: MediaKind, ids: seq<string>)
    requires ids != []
    ensures OwnerHolds(TopicOwner(t)[0], column, kind, ids) <==> TopicStored(t, column, kind, ids)
  {
    var all := MediaColumns("topics");
    assert all[0] in all && all[1] in all && all[2] in all && all[3] in all;
  }

  lemma ProductHolds(p: Product, column: string, kind: MediaKind, ids: seq<string>)
    requires ids != []
    ensures OwnerHolds(Owner("products", p.ref, p.name, ProductMedia(p)), column, kind, ids) <==>
            ProductStored(p, column, kind, ids)
  {
    var all := MediaColumns("products");
    assert all[0] in all && all[1] in all && all[2] in all && all[3] in all && all[4] in all;
  }

  lemma TariffHolds(t: Tariff, column: string, kind: MediaKind, ids: seq<string>)
    requires ids != []
    ensures OwnerHolds(Owner("tariffs", t.ref, t.name, TariffMedia(t)), column, kind, ids) <==>
            TariffStored(t, column, kind, ids)
  {
    var all := MediaColumns("tariffs");
    assert all[0] in all && all[1] in all && all[2] in all && all[3] in all;
  }

  lemma ContactsHolds(c: Contacts, column: string, kind: MediaKind, ids: seq<string>)
    requires ids != []
    ensures OwnerHolds(Owner("contacts", "main", "Контакты", ContactsMedia(c)), column, kind, ids) <==>
            ContactsStored(c, column, kind, ids)
  {
    var all := MediaColumns("contacts");
    assert all[0] in all && all[1] in all && all[2] in all;
  }

  // The row an owner speaks for.
  ghost predicate OwnerIsRow(kb: KB, o: Owner) {
    || (exists t | t in kb.topics :: o == TopicOwner(t)[0])
    || (exists p | p in kb.products :: ProductOwner(p) == [o])
    || (exists t | t in kb.tariffs :: TariffOwner(t) == [o])
    || (kb.contacts.Some? && o == Owner("contacts", "main", "Контакты", ContactsMedia(kb.contacts.value)))
    || (kb.policies.Some? && o == Owner("policies", "main", "Условия", PoliciesMedia(kb.policies.value)))
    || (exists s | s in kb.specialists :: SpecialistOwner(s) == [o])
  }

  lemma InFlatMapOnce<A>(rows: seq<A>, f: A -> seq<Owner>, o: Owner)
    requires forall row | row in rows :: |f(row)| <= 1
    ensures o in FlatMap(rows, f) <==> exists row | row in rows :: f(row) == [o]
  {
    hide FlatMap;
    if o in FlatMap(rows, f) {
      var i := FlatMapSource(rows, f, o);
      assert rows[i] in rows;
    }
    if row :| row in rows && f(row) == [o] {
      var i :| 0 <= i < |rows| && rows[i] == row;
      InFlatMap(rows, f, i, o);
    }
  }

  lemma OwnersAreRows(kb: KB, o: Owner)
    ensures o in Owners(kb) <==> OwnerIsRow(kb, o)
  {
    hide FlatMap, TopicMedia, ProductMedia, TariffMedia, ContactsMedia, PoliciesMedia, SpecialistMedia;
    InFlatMapOnce(kb.topics, TopicOwner, o);
    InFlatMapOnce(kb.products, ProductOwner, o);
    InFlatMapOnce(kb.tariffs, TariffOwner, o);
    InFlatMapOnce(kb.specialists, SpecialistOwner, o);
  }

  lemma StoredIsHeld(kb: KB, table: string, ref: string, column: string, kind: MediaKind, ids: seq<string>)
    requires ids != [] && MediaStored(kb, table, ref, column, kind, ids)
    ensures exists o | o in Owners(kb) :: o.table == table && o.ref == ref && OwnerHolds(o, column, kind, ids)
  {
    hide Owners, OwnerHolds, TopicStored, ProductStored, TariffStored, ContactsStored;
    var o: Owner;
    if table == "topics" {
      var t :| t in kb.topics && t.slug == ref && TopicStored(t, column, kind, ids);
      TopicHolds(t, column, kind, ids);
      o := TopicOwner(t)[0];
    } else if table == "products" {
      var p :| && p in kb.products && p.ref == ref && p.salesStatus == "active"
               && p.availabilityStatus in {"in_stock", "preorder", "on_demand"} && ProductStored(p, column, kind, ids);
      ProductHolds(p, column, kind, ids);
      o := ProductOwner(p)[0];
    } else if table == "tariffs" {
      var t :| t in kb.tariffs && t.ref == ref && t.salesStatus == "active" && TariffStored(t, column, kind, ids);
      TariffHolds(t, column, kind, ids);
      o := TariffOwner(t)[0];
    } else if table == "contacts" {
      ContactsHolds(kb.contacts.value, column, kind, ids);
      o := Owner("contacts", "main", "Контакты", ContactsMedia(kb.contacts.value));
    } else if table == "policies" {
      PoliciesHolds(kb.policies.value, column, kind, ids);
      o := Owner("policies", "main", "Условия", PoliciesMedia(kb.policies.value));
    } else {
      var s :| && s in kb.specialists && s.ref == ref && s.salesStatus == "active"
               && column == "portfolio" && kind.Image? && ids == s.portfolioImages;
      SpecialistHolds(s, column, kind, ids);
      o := SpecialistOwner(s)[0];
    }
    OwnersAreRows(kb, o);
  }

  lemma PoliciesHolds(p: Policies, column: string, kind: MediaKind, ids: seq<string>)
    requires ids != []
    ensures OwnerHolds(Owner("policies", "main", "Условия", PoliciesMedia(p)), column, kind, ids) <==>
            column == "commerce_policy_documents" && kind.Document? && ids == p.commercePolicyDocuments
  {
    var all := MediaColumns("policies");
    assert all[0] in all;
  }

  lemma SpecialistHolds(s: Specialist, column: string, kind: MediaKind, ids: seq<string>)
    requires ids != []
    ensures OwnerHolds(Owner("specialists", s.ref, s.fullName, SpecialistMedia(s)), column, kind, ids) <==>
            column == "portfolio" && kind.Image? && ids == s.portfolioImages
  {
    var all := MediaColumns("specialists");
    assert all[0] in all;
  }

  lemma HeldIsStored(kb: KB, o: Owner, column: string, kind: MediaKind, ids: seq<string>)
    requires ids != [] && o in Owners(kb) && OwnerHolds(o, column, kind, ids)
    ensures MediaStored(kb, o.table, o.ref, column, kind, ids)
  {
    hide Owners, OwnerHolds, TopicStored, ProductStored, TariffStored, ContactsStored;
    OwnersAreRows(kb, o);
    if t :| t in kb.topics && o == TopicOwner(t)[0] {
      TopicHolds(t, column, kind, ids);
    } else if p :| p in kb.products && ProductOwner(p) == [o] {
      ProductHolds(p, column, kind, ids);
    } else if t :| t in kb.tariffs && TariffOwner(t) == [o] {
      TariffHolds(t, column, kind, ids);
    } else if s :| s in kb.specialists && SpecialistOwner(s) == [o] {
      SpecialistHolds(s, column, kind, ids);
    } else if o.table == "contacts" {
      ContactsHolds(kb.contacts.value, column, kind, ids);
    } else {
      PoliciesHolds(kb.policies.value, column, kind, ids);
    }
  }

  // There is a media token of a table, ref and column exactly when an approved row holds references there, and
  // it announces their kind and number.
  lemma MediaCellIff(kb: KB, table: string, ref: string, column: string, kind: MediaKind, count: nat)
    ensures MediaEntry(MediaToken(table, ref, column), table, ref, column, kind, count) in CompiledMedia(kb) <==>
            count > 0 && exists ids :: |ids| == count && MediaStored(kb, table, ref, column, kind, ids)
  {
    hide Owners, MediaStored, MediaColumns, FlatMap, MediaToken, OwnerHolds;
    var e := MediaEntry(MediaToken(table, ref, column), table, ref, column, kind, count);
    if e in CompiledMedia(kb) {
      var o, ids := EntryIsHeld(kb, e);
      HeldIsStored(kb, o, column, kind, ids);
    }
    if ids :| count > 0 && |ids| == count && MediaStored(kb, table, ref, column, kind, ids) {
      StoredIsHeld(kb, table, ref, column, kind, ids);
      var o :| o in Owners(kb) && o.table == table && o.ref == ref && OwnerHolds(o, column, kind, ids);
      HeldIsEntry(kb, o, column, kind, ids);
    }
  }

  lemma EntryIsHeld(kb: KB, e: MediaEntry) returns (o: Owner, ids: seq<string>)
    requires e in CompiledMedia(kb)
    ensures o in Owners(kb) && o.table == e.table && o.ref == e.ref && OwnerHolds(o, e.column, e.kind, ids)
    ensures ids != [] && |ids| == e.count && e.token == MediaToken(e.table, e.ref, e.column)
  {
    hide Owners, FlatMap, MediaColumns, MediaToken;
    var i := FlatMapSource(Owners(kb), OwnerMedia, e);
    o := Owners(kb)[i];
    var specs := MediaColumns(o.table);
    var j := FlatMapSource(specs, ColumnMedia(o), e);
    assert specs[j] in specs && OwnerHolds(o, specs[j].column, specs[j].kind, o.values(specs[j].column));
    ids := o.values(specs[j].column);
  }

  lemma HeldIsEntry(kb: KB, o: Owner, column: string, kind: MediaKind, ids: seq<string>)
    requires ids != [] && o in Owners(kb) && OwnerHolds(o, column, kind, ids)
    ensures MediaEntry(MediaToken(o.table, o.ref, column), o.table, o.ref, column, kind, |ids|) in CompiledMedia(kb)
  {
    hide Owners, FlatMap, MediaColumns, MediaToken;
    var specs := MediaColumns(o.table);
    var spec :| spec in specs && spec.column == column && spec.kind == kind && ids == o.values(column);
    var e := MediaEntry(MediaToken(o.table, o.ref, column), o.table, o.ref, column, kind, |ids|);
    var i :| 0 <= i < |specs| && specs[i] == spec;
    InFlatMap(specs, ColumnMedia(o), i, e);
    var j :| 0 <= j < |Owners(kb)| && Owners(kb)[j] == o;
    InFlatMap(Owners(kb), OwnerMedia, j, e);
  }

  // Media is accepted exactly when slugs are legal and every reference an approved row holds is a material of the
  // base that may be sent as its column's kind.
  lemma MediaAcceptedIff(kb: KB)
    ensures MediaAccepted(kb) <==>
            && (forall t | t in kb.topics :: ValidRef(t.slug))
            && forall table, ref, column, kind, ids | ids != [] && MediaStored(kb, table, ref, column, kind, ids) ::
                 forall id | id in ids :: IDSendable(kb, id, kind)
  {
    hide Owners, MediaStored, IDSendable, MaterialOK, OwnerHolds, OwnerOK, ValidRef;
    if MediaAccepted(kb) {
      forall table, ref, column, kind, ids | ids != [] && MediaStored(kb, table, ref, column, kind, ids)
        ensures forall id | id in ids :: IDSendable(kb, id, kind)
      {
        StoredIsHeld(kb, table, ref, column, kind, ids);
        var o :| o in Owners(kb) && o.table == table && o.ref == ref && OwnerHolds(o, column, kind, ids);
        HeldIsSendable(kb, o, column, kind, ids);
      }
    }
    if forall table, ref, column, kind, ids | ids != [] && MediaStored(kb, table, ref, column, kind, ids) ::
         forall id | id in ids :: IDSendable(kb, id, kind)
    {
      forall i | 0 <= i < |Owners(kb)| ensures OwnerOK(kb, Owners(kb)[i]) {
        var o := Owners(kb)[i];
        forall column, kind, ids | ids != [] && OwnerHolds(o, column, kind, ids)
          ensures forall id | id in ids :: IDSendable(kb, id, kind)
        {
          HeldIsStored(kb, o, column, kind, ids);
        }
        SendableIsOK(kb, o);
      }
    }
  }

  lemma HeldIsSendable(kb: KB, o: Owner, column: string, kind: MediaKind, ids: seq<string>)
    requires OwnerOK(kb, o) && OwnerHolds(o, column, kind, ids)
    ensures forall id | id in ids :: IDSendable(kb, id, kind)
  {
    hide MediaColumns, MaterialOK, IDSendable;
    var spec :| spec in MediaColumns(o.table) && spec.column == column && spec.kind == kind && ids == o.values(column);
    assert ColumnOK(kb, o, spec);
    forall id | id in ids ensures IDSendable(kb, id, kind) {
      MaterialOKIff(kb, id, spec);
    }
  }

  lemma SendableIsOK(kb: KB, o: Owner)
    requires o in Owners(kb)
    requires forall column, kind, ids | ids != [] && OwnerHolds(o, column, kind, ids) ::
               forall id | id in ids :: IDSendable(kb, id, kind)
    ensures OwnerOK(kb, o)
  {
    hide Owners, MediaColumns, MaterialOK, IDSendable;
    forall i | 0 <= i < |MediaColumns(o.table)| ensures ColumnOK(kb, o, MediaColumns(o.table)[i]) {
      var spec := MediaColumns(o.table)[i];
      var ids := o.values(spec.column);
      assert OwnerHolds(o, spec.column, spec.kind, ids);
      if spec.singular {
        SingularHoldsOne(kb, o, spec);
      }
      forall id | id in ids ensures MaterialOK(kb, id, spec) {
        MaterialOKIff(kb, id, spec);
      }
    }
  }

  lemma SingularHoldsOne(kb: KB, o: Owner, spec: MediaColumn)
    requires o in Owners(kb) && spec in MediaColumns(o.table) && spec.singular
    ensures |o.values(spec.column)| <= 1
  {
    hide Owners, MediaColumns, TopicMedia, ProductMedia, TariffMedia, ContactsMedia, PoliciesMedia, SpecialistMedia;
    OwnersAreRows(kb, o);
    SingularColumns(o.table, spec);
    if t :| t in kb.topics && o == TopicOwner(t)[0] {
      TopicHoldsOne(t);
    } else if p :| p in kb.products && ProductOwner(p) == [o] {
      ProductHoldsOne(p);
    } else if t :| t in kb.tariffs && TariffOwner(t) == [o] {
      TariffHoldsOne(t);
    } else if o.table == "contacts" {
      ContactsHoldOne(kb.contacts.value);
    }
  }

  lemma TopicHoldsOne(t: Topic)
    ensures |TopicMedia(t)("featured_image")| <= 1
  {
  }

  lemma ProductHoldsOne(p: Product)
    ensures |ProductMedia(p)("featured_image")| <= 1
  {
  }

  lemma TariffHoldsOne(t: Tariff)
    ensures |TariffMedia(t)("featured_image")| <= 1
  {
  }

  lemma ContactsHoldOne(c: Contacts)
    ensures |ContactsMedia(c)("contact_card_image")| <= 1 && |ContactsMedia(c)("location_map_image")| <= 1
  {
  }

  lemma SingularColumns(table: string, spec: MediaColumn)
    requires spec in MediaColumns(table) && spec.singular
    ensures || (table in {"topics", "products", "tariffs"} && spec.column == "featured_image")
            || (table == "contacts" && spec.column in {"contact_card_image", "location_map_image"})
  {
  }

  // ----- rows without media -----

  // An approved row of the table under that name and ref with nothing in any media column.
  ghost predicate WithoutMedia(kb: KB, a: AbsentEntry) {
    || (a.table == "topics" && exists t | t in kb.topics ::
          && t.slug == a.ref && t.title == a.displayName && t.featuredImage == ""
          && t.illustrationImages == t.explainerVideos == t.referenceDocuments == [])
    || (a.table == "products" && exists p | p in kb.products ::
          && p.ref == a.ref && p.name == a.displayName && p.salesStatus == "active"
          && p.availabilityStatus in {"in_stock", "preorder", "on_demand"} && p.featuredImage == ""
          && p.galleryImages == p.demoVideos == p.certificateDocuments == p.guaranteeDocuments == [])
    || (a.table == "tariffs" && exists t | t in kb.tariffs ::
          && t.ref == a.ref && t.name == a.displayName && t.salesStatus == "active" && t.featuredImage == ""
          && t.pricingImages == t.explainerVideos == t.termsDocuments == [])
    || (a == AbsentEntry("contacts", "main", "Контакты") && kb.contacts.Some?
        && kb.contacts.value.contactCardImage == "" && kb.contacts.value.locationMapImage == ""
        && kb.contacts.value.companyLegalDocuments == [])
    || (a == AbsentEntry("policies", "main", "Условия") && kb.policies.Some?
        && kb.policies.value.commercePolicyDocuments == [])
    || (a.table == "specialists" && exists s | s in kb.specialists ::
          && s.ref == a.ref && s.fullName == a.displayName && s.salesStatus == "active" && s.portfolioImages == [])
  }

  lemma OwnerIsEmptyIff(o: Owner)
    ensures OwnerMedia(o) == [] <==> forall spec | spec in MediaColumns(o.table) :: o.values(spec.column) == []
  {
    hide MediaColumns, FlatMap;
    var specs := MediaColumns(o.table);
    if OwnerMedia(o) == [] {
      forall i | 0 <= i < |specs| ensures o.values(specs[i].column) == [] {
        if o.values(specs[i].column) != [] {
          InFlatMap(specs, ColumnMedia(o), i, ColumnMedia(o)(specs[i])[0]);
        }
      }
    } else {
      var i := FlatMapSource(specs, ColumnMedia(o), OwnerMedia(o)[0]);
      assert specs[i] in specs;
    }
  }

  lemma TopicEmptyIff(t: Topic)
    ensures OwnerMedia(TopicOwner(t)[0]) == [] <==>
            && t.featuredImage == ""
            && t.illustrationImages == t.explainerVideos == t.referenceDocuments == []
  {
    hide OwnerMedia;
    OwnerIsEmptyIff(TopicOwner(t)[0]);
    var all := MediaColumns("topics");
    assert all[0] in all && all[1] in all && all[2] in all && all[3] in all;
  }

  lemma ProductEmptyIff(p: Product)
    ensures OwnerMedia(Owner("products", p.ref, p.name, ProductMedia(p))) == [] <==>
            && p.featuredImage == ""
            && p.galleryImages == p.demoVideos == p.certificateDocuments == p.guaranteeDocuments == []
  {
    hide OwnerMedia;
    OwnerIsEmptyIff(Owner("products", p.ref, p.name, ProductMedia(p)));
    var all := MediaColumns("products");
    assert all[0] in all && all[1] in all && all[2] in all && all[3] in all && all[4] in all;
  }

  lemma TariffEmptyIff(t: Tariff)
    ensures OwnerMedia(Owner("tariffs", t.ref, t.name, TariffMedia(t))) == [] <==>
            t.featuredImage == "" && t.pricingImages == t.explainerVideos == t.termsDocuments == []
  {
    hide OwnerMedia;
    OwnerIsEmptyIff(Owner("tariffs", t.ref, t.name, TariffMedia(t)));
    var all := MediaColumns("tariffs");
    assert all[0] in all && all[1] in all && all[2] in all && all[3] in all;
  }

  lemma ContactsEmptyIff(c: Contacts)
    ensures OwnerMedia(Owner("contacts", "main", "Контакты", ContactsMedia(c))) == [] <==>
            c.contactCardImage == "" && c.locationMapImage == "" && c.companyLegalDocuments == []
  {
    hide OwnerMedia;
    OwnerIsEmptyIff(Owner("contacts", "main", "Контакты", ContactsMedia(c)));
    var all := MediaColumns("contacts");
    assert all[0] in all && all[1] in all && all[2] in all;
  }

  lemma PoliciesEmptyIff(p: Policies)
    ensures OwnerMedia(Owner("policies", "main", "Условия", PoliciesMedia(p))) == [] <==>
            p.commercePolicyDocuments == []
  {
    hide OwnerMedia;
    OwnerIsEmptyIff(Owner("policies", "main", "Условия", PoliciesMedia(p)));
    var all := MediaColumns("policies");
    assert all[0] in all;
  }

  lemma SpecialistEmptyIff(s: Specialist)
    ensures OwnerMedia(Owner("specialists", s.ref, s.fullName, SpecialistMedia(s))) == [] <==>
            s.portfolioImages == []
  {
    hide OwnerMedia;
    OwnerIsEmptyIff(Owner("specialists", s.ref, s.fullName, SpecialistMedia(s)));
    var all := MediaColumns("specialists");
    assert all[0] in all;
  }

  lemma AbsentIsOwner(kb: KB, a: AbsentEntry)
    ensures a in FlatMap(Owners(kb), OwnerAbsent) <==>
            exists o | o in Owners(kb) :: OwnerMedia(o) == [] && a == AbsentEntry(o.table, o.ref, o.display)
  {
    hide FlatMap, Owners, OwnerMedia;
    var owners := Owners(kb);
    if a in FlatMap(owners, OwnerAbsent) {
      var i := FlatMapSource(owners, OwnerAbsent, a);
      assert owners[i] in owners;
    }
    if o :| o in owners && OwnerMedia(o) == [] && a == AbsentEntry(o.table, o.ref, o.display) {
      var i :| 0 <= i < |owners| && owners[i] == o;
      InFlatMap(owners, OwnerAbsent, i, a);
    }
  }

  // What is listed as having no media is exactly the approved rows that have none.
  lemma AbsentIff(kb: KB, a: AbsentEntry)
    ensures a in FlatMap(Owners(kb), OwnerAbsent) <==> WithoutMedia(kb, a)
  {
    hide FlatMap, Owners, OwnerMedia, OwnerAbsent;
    AbsentIsOwner(kb, a);
    if o :| o in Owners(kb) && OwnerMedia(o) == [] && a == AbsentEntry(o.table, o.ref, o.display) {
      EmptyIsWithoutMedia(kb, o);
    }
    if WithoutMedia(kb, a) {
      var o := WithoutMediaIsEmpty(kb, a);
    }
  }

  lemma EmptyIsWithoutMedia(kb: KB, o: Owner)
    requires o in Owners(kb) && OwnerMedia(o) == []
    ensures WithoutMedia(kb, AbsentEntry(o.table, o.ref, o.display))
  {
    hide FlatMap, Owners, OwnerMedia;
    OwnersAreRows(kb, o);
    if t :| t in kb.topics && o == TopicOwner(t)[0] {
      TopicEmptyIff(t);
    } else if p :| p in kb.products && ProductOwner(p) == [o] {
      ProductEmptyIff(p);
    } else if t :| t in kb.tariffs && TariffOwner(t) == [o] {
      TariffEmptyIff(t);
    } else if s :| s in kb.specialists && SpecialistOwner(s) == [o] {
      SpecialistEmptyIff(s);
    } else if o.table == "contacts" {
      ContactsEmptyIff(kb.contacts.value);
    } else {
      PoliciesEmptyIff(kb.policies.value);
    }
  }

  lemma WithoutMediaIsEmpty(kb: KB, a: AbsentEntry) returns (o: Owner)
    requires WithoutMedia(kb, a)
    ensures o in Owners(kb) && OwnerMedia(o) == [] && a == AbsentEntry(o.table, o.ref, o.display)
  {
    hide FlatMap, Owners, OwnerMedia;
    if a.table == "topics" {
      var t :| t in kb.topics && t.slug == a.ref && t.title == a.displayName && t.featuredImage == ""
               && t.illustrationImages == t.explainerVideos == t.referenceDocuments == [];
      TopicEmptyIff(t);
      o := TopicOwner(t)[0];
    } else if a.table == "products" {
      var p :| && p in kb.products && p.ref == a.ref && p.name == a.displayName && p.salesStatus == "active"
               && p.availabilityStatus in {"in_stock", "preorder", "on_demand"} && p.featuredImage == ""
               && p.galleryImages == p.demoVideos == p.certificateDocuments == p.guaranteeDocuments == [];
      ProductEmptyIff(p);
      o := ProductOwner(p)[0];
    } else if a.table == "tariffs" {
      var t :| t in kb.tariffs && t.ref == a.ref && t.name == a.displayName && t.salesStatus == "active"
               && t.featuredImage == "" && t.pricingImages == t.explainerVideos == t.termsDocuments == [];
      TariffEmptyIff(t);
      o := TariffOwner(t)[0];
    } else if a.table == "contacts" {
      ContactsEmptyIff(kb.contacts.value);
      o := Owner("contacts", "main", "Контакты", ContactsMedia(kb.contacts.value));
    } else if a.table == "policies" {
      PoliciesEmptyIff(kb.policies.value);
      o := Owner("policies", "main", "Условия", PoliciesMedia(kb.policies.value));
    } else {
      var s :| && s in kb.specialists && s.ref == a.ref && s.fullName == a.displayName && s.salesStatus == "active"
               && s.portfolioImages == [];
      SpecialistEmptyIff(s);
      o := SpecialistOwner(s)[0];
    }
    OwnersAreRows(kb, o);
  }

  // ----- what is resolved and sent -----

  lemma CurrentIsHeld(kb: KB, table: string, ref: string, column: string)
    requires CurrentMediaIDs(kb, table, ref, column) != []
    ensures exists o | o in Owners(kb) ::
              o.table == table && o.ref == ref && o.values(column) == CurrentMediaIDs(kb, table, ref, column)
  {
    hide Owners, ProductVisible, TopicMedia, ProductMedia, TariffMedia, ContactsMedia, PoliciesMedia, SpecialistMedia;
    var o: Owner;
    if table == "topics" {
      FirstIsIn(kb.topics, (t: Topic) => t.slug == ref);
      o := TopicOwner(TopicBySlug(kb, ref).value)[0];
    } else if table == "products" {
      FirstIsIn(kb.products, (p: Product) => p.ref == ref && ProductVisible(p));
      o := ProductOwner(CurrentProduct(kb, ref).value)[0];
    } else if table == "tariffs" {
      FirstIsIn(kb.tariffs, (t: Tariff) => t.ref == ref && Active(t.salesStatus));
      o := TariffOwner(CurrentTariff(kb, ref).value)[0];
    } else if table == "contacts" {
      o := Owner("contacts", "main", "Контакты", ContactsMedia(kb.contacts.value));
    } else if table == "policies" {
      o := Owner("policies", "main", "Условия", PoliciesMedia(kb.policies.value));
    } else {
      FirstIsIn(kb.specialists, (s: Specialist) => s.ref == ref && Active(s.salesStatus));
      o := SpecialistOwner(CurrentSpecialist(kb, ref).value)[0];
    }
    OwnersAreRows(kb, o);
  }

  // ids are what an approved row named by an entry of the token holds, all of one kind and fit to be sent.
  ghost predicate StoredUnder(token: string, ids: seq<string>, kb: KB, media: seq<MediaEntry>) {
    exists x, kind | x in media ::
      && x.token == token == MediaToken(x.table, x.ref, x.column)
      && ids != [] && MediaStored(kb, x.table, x.ref, x.column, kind, ids)
      && forall id | id in ids :: IDSendable(kb, id, kind)
  }

  // Of any base and any list of media, stale or not: what a token resolves to is stored now and may be sent.
  lemma ResolvedMediaIsStored(kb: KB, media: seq<MediaEntry>, token: string)
    requires TokenIDs(token, kb, media).Success?
    ensures StoredUnder(token, TokenIDs(token, kb, media).value, kb, media)
  {
    hide Owners, MaterialOK, MediaStored, MediaColumns, CurrentMediaIDs, IDSendable;
    FirstIsIn(media, (e: MediaEntry) => e.token == token);
    var x := MediaByToken(media, token).value;
    var ids := TokenIDs(token, kb, media).value;
    CurrentIsHeld(kb, x.table, x.ref, x.column);
    var o :| o in Owners(kb) && o.table == x.table && o.ref == x.ref && o.values(x.column) == ids;
    FirstIsIn(MediaColumns(x.table), (c: MediaColumn) => c.column == x.column);
    var spec := MediaColumnSpec(x.table, x.column).value;
    assert OwnerHolds(o, x.column, spec.kind, ids);
    HeldIsStored(kb, o, x.column, spec.kind, ids);
    forall id | id in ids ensures IDSendable(kb, id, spec.kind) {
      MaterialOKIff(kb, id, spec);
    }
  }

  // So everything sent is a material of the base that its token's row holds, and may be sent.
  lemma SentIsSendable(out: seq<ResolvedMaterial>, tokens: seq<string>, kb: KB, media: seq<MediaEntry>, k: nat)
    requires SentUnderFirstToken(out, tokens, kb, media) && k < |out|
    ensures out[k].material in kb.materials && out[k].token in tokens
    ensures exists ids, kind | out[k].material.id in ids ::
              StoredUnder(out[k].token, ids, kb, media) && Sendable(kb, out[k].material, kind)
  {
    hide TokenIDs, MediaStored, Sendable;
    var m := out[k].material;
    var i :| 0 <= i < |tokens| && tokens[i] == out[k].token && m.id in IDsOf(kb, media)(tokens[i]);
    var ids := IDsOf(kb, media)(tokens[i]);
    ResolvedMediaIsStored(kb, media, tokens[i]);
    var x, kind :| && x in media && x.token == tokens[i] && ids != []
                   && MediaStored(kb, x.table, x.ref, x.column, kind, ids)
                   && forall id | id in ids :: IDSendable(kb, id, kind);
    FirstIsIn(kb.materials, (other: Material) => other.id == m.id);
    FoundIsSendable(kb, m.id, kind);
  }

  lemma FoundIsSendable(kb: KB, id: string, kind: MediaKind)
    requires IDSendable(kb, id, kind)
    ensures MaterialByID(kb, id).Some? && Sendable(kb, MaterialByID(kb, id).value, kind)
  {
    var i :| && 0 <= i < |kb.materials| && kb.materials[i].id == id && Sendable(kb, kb.materials[i], kind)
             && forall j | 0 <= j < i :: kb.materials[j].id != id;
    FirstUnique(kb.materials, (m: Material) => m.id == id, i);
  }
}
