/** Which materials a media token stands for, and sending them. */
module Media {
  import opened Wrappers
  import opened Text
  import opened Permutations
  import opened KnowledgeBase
  import opened Registry
  import opened Resolver

  // An explicit image wins; otherwise the first of the primary images, if any.
  function ResolvedFeaturedImage(explicit: string, primary: seq<string>): seq<string> {
    if explicit != "" then [explicit] else if |primary| > 0 then [primary[0]] else []
  }

  function Singular(id: string): seq<string> {
    if id == "" then [] else [id]
  }

  function TopicMedia(t: Topic): string -> seq<string> {
    column =>
      if column == "featured_image" then ResolvedFeaturedImage(t.featuredImage, t.illustrationImages)
      else if column == "illustration_images" then t.illustrationImages
      else if column == "explainer_videos" then t.explainerVideos
      else if column == "reference_documents" then t.referenceDocuments
      else []
  }

  function ProductMedia(p: Product): string -> seq<string> {
    column =>
      if column == "featured_image" then ResolvedFeaturedImage(p.featuredImage, p.galleryImages)
      else if column == "gallery_images" then p.galleryImages
      else if column == "demo_videos" then p.demoVideos
      else if column == "certificate_documents" then p.certificateDocuments
      else if column == "guarantee_documents" then p.guaranteeDocuments
      else []
  }

  function TariffMedia(t: Tariff): string -> seq<string> {
    column =>
      if column == "featured_image" then ResolvedFeaturedImage(t.featuredImage, t.pricingImages)
      else if column == "pricing_images" then t.pricingImages
      else if column == "explainer_videos" then t.explainerVideos
      else if column == "terms_documents" then t.termsDocuments
      else []
  }

  function ContactsMedia(c: Contacts): string -> seq<string> {
    column =>
      if column == "contact_card_image" then Singular(c.contactCardImage)
      else if column == "location_map_image" then Singular(c.locationMapImage)
      else if column == "company_legal_documents" then c.companyLegalDocuments
      else []
  }

  function PoliciesMedia(p: Policies): string -> seq<string> {
    column => if column == "commerce_policy_documents" then p.commercePolicyDocuments else []
  }

  function SpecialistMedia(s: Specialist): string -> seq<string> {
    column => if column == "portfolio" then s.portfolioImages else []
  }

  // ----- materials -----

  function MaterialByID(kb: KB, id: string): Option<Material> {
    First(kb.materials, (m: Material) => m.id == id)
  }

  predicate MimeMatches(kind: MediaKind, mime: string) {
    match kind
    case Image => HasPrefix(mime, "image/")
    case Video => HasPrefix(mime, "video/")
    case Audio => HasPrefix(mime, "audio/")
    case Document => HasPrefix(mime, "application/") || HasPrefix(mime, "text/")
  }

  // Same organization, a stored non-empty file a customer may receive, of the column's kind.
  predicate MaterialOK(kb: KB, id: string, spec: MediaColumn) {
    var m := MaterialByID(kb, id);
    && m.Some?
    && (kb.organizationID != "" ==> m.value.organizationID == kb.organizationID)
    && m.value.sourceType == "file"
    && m.value.storageBackend != "" && m.value.storageKey != ""
    && m.value.sizeBytes > 0
    && m.value.customerVisibility in {"visible", "auto"}
    && MimeMatches(spec.kind, m.value.mimeType)
  }

  // ----- resolving one token -----

  function MediaByToken(media: seq<MediaEntry>, token: string): Option<MediaEntry> {
    First(media, (e: MediaEntry) => e.token == token)
  }

  function TopicBySlug(kb: KB, slug: string): Option<Topic> {
    First(kb.topics, (t: Topic) => t.slug == slug)
  }

  function CurrentMediaIDs(kb: KB, table: string, ref: string, column: string): seq<string> {
    if table == "topics" then
      var t := TopicBySlug(kb, ref);
      if t.Some? then TopicMedia(t.value)(column) else []
    else if table == "products" then
      var p := CurrentProduct(kb, ref);
      if p.Some? then ProductMedia(p.value)(column) else []
    else if table == "tariffs" then
      var t := CurrentTariff(kb, ref);
      if t.Some? then TariffMedia(t.value)(column) else []
    else if table == "contacts" then
      if ref == SINGLETON_REF && kb.contacts.Some? then ContactsMedia(kb.contacts.value)(column) else []
    else if table == "policies" then
      if ref == SINGLETON_REF && kb.policies.Some? then PoliciesMedia(kb.policies.value)(column) else []
    else if table == "specialists" then
      var s := CurrentSpecialist(kb, ref);
      if s.Some? then SpecialistMedia(s.value)(column) else []
    else []
  }

  // The material ids one token stands for now, or why it stands for none.
  function TokenIDs(token: string, kb: KB, media: seq<MediaEntry>): Result<seq<string>> {
    var entry := MediaByToken(media, token);
    if entry.None? then Failure("media token is not in the catalog")
    else
      var e := entry.value;
      var spec := MediaColumnSpec(e.table, e.column);
      var ids := CurrentMediaIDs(kb, e.table, e.ref, e.column);
      if e.token != MediaToken(e.table, e.ref, e.column) then Failure("inconsistent catalog metadata")
      else if spec.None? then Failure("unknown media column")
      else if ids == [] then Failure("no longer has an approved non-empty row and column")
      else if spec.value.singular && |ids| > 1 then Failure("singular media token now holds several references")
      else if exists i | 0 <= i < |ids| :: !MaterialOK(kb, ids[i], spec.value) then
        Failure("invalid material reference")
      else Success(ids)
  }

  function IDsOf(kb: KB, media: seq<MediaEntry>): string -> seq<string> {
    token => var ids := TokenIDs(token, kb, media); if ids.Success? then ids.value else []
  }

  // ----- first occurrences -----

  function FirstOccurrences(s: seq<string>): seq<string> {
    if s == [] then []
    else
      var init, last := s[..|s| - 1], s[|s| - 1];
      FirstOccurrences(init) + if last in init then [] else [last]
  }

  lemma {:induction false} FirstOccurrencesCover(s: seq<string>)
    ensures forall x :: x in FirstOccurrences(s) <==> x in s
    ensures forall i, j | 0 <= i < j < |FirstOccurrences(s)| :: FirstOccurrences(s)[i] != FirstOccurrences(s)[j]
  {
    if s != [] {
      var init, last := s[..|s| - 1], s[|s| - 1];
      FirstOccurrencesCover(init);
      assert s == init + [last];
    }
  }

  function FirstIndex(s: seq<string>, x: string): nat
    requires x in s
  {
    if s[0] == x then 0 else FirstIndex(s[1..], x) + 1
  }

  lemma {:induction false} FirstIndexIsFirst(s: seq<string>, x: string)
    requires x in s
    ensures FirstIndex(s, x) < |s| && s[FirstIndex(s, x)] == x
    ensures forall k | 0 <= k < FirstIndex(s, x) :: s[k] != x
  {
    if s[0] != x {
      FirstIndexIsFirst(s[1..], x);
    }
  }

  lemma FirstIndexOfPrefix(s: seq<string>, n: nat, x: string)
    requires n <= |s| && x in s[..n]
    ensures FirstIndex(s[..n], x) == FirstIndex(s, x)
  {
    FirstIndexIsFirst(s[..n], x);
    FirstIndexIsFirst(s, x);
    var i, j := FirstIndex(s[..n], x), FirstIndex(s, x);
    assert forall k | 0 <= k < n :: s[k] == s[..n][k];
    assert s[..n][i] == s[i];
  }

  // They stand in the order in which they first appear.
  lemma {:induction false} FirstOccurrencesInOrder(s: seq<string>)
    ensures forall x | x in FirstOccurrences(s) :: x in s
    ensures forall i, j | 0 <= i < j < |FirstOccurrences(s)| ::
              FirstOccurrences(s)[i] in s && FirstOccurrences(s)[j] in s
              && FirstIndex(s, FirstOccurrences(s)[i]) < FirstIndex(s, FirstOccurrences(s)[j])
  {
    FirstOccurrencesCover(s);
    if s != [] {
      var n := |s| - 1;
      var init, last, out := s[..n], s[n], FirstOccurrences(s);
      FirstOccurrencesInOrder(init);
      FirstOccurrencesCover(init);
      assert forall k | 0 <= k < n :: s[k] == init[k];
      forall i, j | 0 <= i < j < |out| ensures FirstIndex(s, out[i]) < FirstIndex(s, out[j]) {
        FirstIndexOfPrefix(s, n, out[i]);
        FirstIndexIsFirst(init, out[i]);
        FirstIndexIsFirst(s, out[j]);
        if j < |FirstOccurrences(init)| {
          FirstIndexOfPrefix(s, n, out[j]);
        }
      }
    }
  }

  // ----- sending -----

  datatype ResolvedMaterial = ResolvedMaterial(token: string, material: Material)

  ghost predicate AllResolve(tokens: seq<string>, kb: KB, media: seq<MediaEntry>) {
    forall i | 0 <= i < |tokens| :: TokenIDs(tokens[i], kb, media).Success?
  }

  function SentID(r: ResolvedMaterial): string {
    r.material.id
  }

  // Each material once, under the token that first asked for it.
  ghost predicate SentUnderFirstToken(out: seq<ResolvedMaterial>, tokens: seq<string>, kb: KB, media: seq<MediaEntry>) {
    forall k | 0 <= k < |out| ::
      && MaterialByID(kb, out[k].material.id) == Some(out[k].material)
      && exists i | 0 <= i < |tokens| ::
           && tokens[i] == out[k].token && out[k].material.id in IDsOf(kb, media)(tokens[i])
           && forall j | 0 <= j < i :: out[k].material.id !in IDsOf(kb, media)(tokens[j])
  }

  method ResolveSend(tokens: seq<string>, kb: KB, media: seq<MediaEntry>) returns (r: Result<seq<ResolvedMaterial>>)
    ensures r.Success? <==> AllResolve(tokens, kb, media)
    ensures r.Success? ==> Map(r.value, SentID) == FirstOccurrences(FlatMap(tokens, IDsOf(kb, media)))
    ensures r.Success? ==> SentUnderFirstToken(r.value, tokens, kb, media)
  {
    hide TokenIDs, FlatMap, FirstOccurrences, MaterialByID;
    var seenToken: set<string> := {};
    var seenMaterial: set<string> := {};
    var out: seq<ResolvedMaterial> := [];
    ghost var f := IDsOf(kb, media);
    assert Sent(out, [], seenMaterial, kb) by {
      SentNothing(kb);
    }
    assert FlatMap(tokens[..0], f) == [] by {
      FlatMapEmpty(f);
    }
    for i := 0 to |tokens|
      invariant forall k | 0 <= k < i :: tokens[k] in seenToken && TokenIDs(tokens[k], kb, media).Success?
      invariant forall t | t in seenToken :: exists k | 0 <= k < i :: tokens[k] == t
      invariant Sent(out, FlatMap(tokens[..i], f), seenMaterial, kb)
      invariant SentUnderFirstToken(out, tokens[..i], kb, media)
    {
      var token := tokens[i];
      ghost var before := FlatMap(tokens[..i], f);
      FlatMapNext(tokens, f, i);
      if token in seenToken {
        RepeatAddsNothing(tokens, i, f, out, seenMaterial, kb);
        SentUnderWeakens(out, tokens, i, kb, media);
        continue;
      }
      seenToken := seenToken + {token};
      var ids := TokenIDs(token, kb, media);
      if ids.Failure? {
        return Failure(ids.error);
      }
      SentUnderWeakens(out, tokens, i, kb, media);
      out, seenMaterial := SendAll(tokens, i, kb, media, ids.value, before, out, seenMaterial);
    }
    assert tokens[..|tokens|] == tokens;
    return Success(out);
  }

  // out holds the first occurrences among all, and seen is exactly what it holds.
  ghost predicate Sent(out: seq<ResolvedMaterial>, all: seq<string>, seen: set<string>, kb: KB) {
    && Map(out, SentID) == FirstOccurrences(all)
    && forall x :: x in seen <==> x in all
  }

  lemma SentNothing(kb: KB)
    ensures Sent([], [], {}, kb)
  {
  }

  method SendAll(tokens: seq<string>, i: nat, kb: KB, media: seq<MediaEntry>, ids: seq<string>,
                 ghost before: seq<string>, out: seq<ResolvedMaterial>, seen: set<string>)
    returns (out': seq<ResolvedMaterial>, seen': set<string>)
    requires i < |tokens| && TokenIDs(tokens[i], kb, media) == Success(ids)
    requires before == FlatMap(tokens[..i], IDsOf(kb, media))
    requires Sent(out, before, seen, kb) && SentUnderFirstToken(out, tokens[..i + 1], kb, media)
    ensures Sent(out', before + ids, seen', kb) && SentUnderFirstToken(out', tokens[..i + 1], kb, media)
  {
    hide TokenIDs, FlatMap, MaterialByID, FirstOccurrences, MaterialOK;
    out', seen' := out, seen;
    assert before + ids[..0] == before;
    for k := 0 to |ids|
      invariant Sent(out', before + ids[..k], seen', kb)
      invariant SentUnderFirstToken(out', tokens[..i + 1], kb, media)
    {
      var id := ids[k];
      ghost var all := before + ids[..k];
      assert before + ids[..k + 1] == all + [id];
      FirstOccurrencesNext(all, id);
      if id in seen' {
        continue;
      }
      SentIDIsStored(tokens[i], kb, media, k);
      seen' := seen' + {id};
      var sent := ResolvedMaterial(tokens[i], MaterialByID(kb, id).value);
      NewUnderThisToken(tokens, i, kb, media, sent);
      assert Map(out' + [sent], SentID) == Map(out', SentID) + [id];
      out' := out' + [sent];
    }
    assert ids[..|ids|] == ids;
  }

  lemma FirstOccurrencesNext(all: seq<string>, x: string)
    ensures FirstOccurrences(all + [x]) == FirstOccurrences(all) + if x in all then [] else [x]
  {
    assert (all + [x])[..|all|] == all;
  }

  lemma SentIDIsStored(token: string, kb: KB, media: seq<MediaEntry>, k: nat)
    requires TokenIDs(token, kb, media).Success? && k < |TokenIDs(token, kb, media).value|
    ensures var id := TokenIDs(token, kb, media).value[k];
            MaterialByID(kb, id).Some? && MaterialByID(kb, id).value.id == id
  {
    var e := MediaByToken(media, token).value;
    var spec := MediaColumnSpec(e.table, e.column).value;
    var id := CurrentMediaIDs(kb, e.table, e.ref, e.column)[k];
    assert MaterialOK(kb, id, spec);
    FirstIsIn(kb.materials, (m: Material) => m.id == id);
  }

  lemma NewUnderThisToken(tokens: seq<string>, i: nat, kb: KB, media: seq<MediaEntry>, sent: ResolvedMaterial)
    requires i < |tokens| && sent.token == tokens[i] && MaterialByID(kb, sent.material.id) == Some(sent.material)
    requires sent.material.id in IDsOf(kb, media)(tokens[i])
    requires sent.material.id !in FlatMap(tokens[..i], IDsOf(kb, media))
    ensures SentUnderFirstToken([sent], tokens[..i + 1], kb, media)
  {
    hide TokenIDs, MaterialByID;
    var f, upTo := IDsOf(kb, media), tokens[..i + 1];
    forall j | 0 <= j < i ensures sent.material.id !in f(upTo[j]) {
      if sent.material.id in f(tokens[..i][j]) {
        InFlatMap(tokens[..i], f, j, sent.material.id);
      }
    }
    assert upTo[i] == sent.token;
  }

  lemma SentUnderWeakens(out: seq<ResolvedMaterial>, tokens: seq<string>, i: nat, kb: KB, media: seq<MediaEntry>)
    requires i < |tokens| && SentUnderFirstToken(out, tokens[..i], kb, media)
    ensures SentUnderFirstToken(out, tokens[..i + 1], kb, media)
  {
    hide TokenIDs, MaterialByID;
    var shorter, longer := tokens[..i], tokens[..i + 1];
    forall k | 0 <= k < |out|
      ensures exists n | 0 <= n < |longer| ::
                && longer[n] == out[k].token && out[k].material.id in IDsOf(kb, media)(longer[n])
                && forall j | 0 <= j < n :: out[k].material.id !in IDsOf(kb, media)(longer[j])
    {
      var n :| 0 <= n < |shorter| && shorter[n] == out[k].token && out[k].material.id in IDsOf(kb, media)(shorter[n])
               && forall j | 0 <= j < n :: out[k].material.id !in IDsOf(kb, media)(shorter[j]);
      assert longer[n] == shorter[n];
      forall j | 0 <= j < n ensures longer[j] == shorter[j] {}
    }
  }

  lemma {:induction false} AddKnown(all: seq<string>, more: seq<string>)
    requires forall x | x in more :: x in all
    ensures FirstOccurrences(all + more) == FirstOccurrences(all)
  {
    if more == [] {
      assert all + more == all;
    } else {
      var init, last := more[..|more| - 1], more[|more| - 1];
      AddKnown(all, init);
      assert all + more == (all + init) + [last];
      FirstOccurrencesNext(all + init, last);
    }
  }

  lemma RepeatAddsNothing(tokens: seq<string>, i: nat, f: string -> seq<string>, out: seq<ResolvedMaterial>,
                          seen: set<string>, kb: KB)
    requires i < |tokens| && Sent(out, FlatMap(tokens[..i], f), seen, kb)
    requires exists k | 0 <= k < i :: tokens[k] == tokens[i]
    ensures Sent(out, FlatMap(tokens[..i], f) + f(tokens[i]), seen, kb)
  {
    hide FirstOccurrences;
    var k :| 0 <= k < i && tokens[k] == tokens[i];
    var all, more := FlatMap(tokens[..i], f), f(tokens[i]);
    forall x | x in more ensures x in all {
      assert tokens[..i][k] == tokens[i];
      InFlatMap(tokens[..i], f, k, x);
    }
    AddKnown(all, more);
  }
}
