/** The services slot of the prompt: categories in first-seen order, children under their base. */
module ServiceTrees {
  import opened Permutations
  import opened KnowledgeBase
  import opened Hierarchies
  import opened Media

  /** One rendered service; a nested one is indented under the base before it. */
  datatype Entry = Entry(service: Service, nested: bool)

  datatype Block = Block(category: string, entries: seq<Entry>)

  predicate IsBase(s: Service) {
    Active(s.salesStatus) && s.serviceType == "base"
  }

  predicate IsChild(s: Service) {
    Active(s.salesStatus) && s.serviceType != "base"
  }

  function ChildOf(ref: string): Service -> seq<Entry> {
    (s: Service) => if IsChild(s) && s.parentRef == ref then [Entry(s, true)] else []
  }

  // A base and, right after it, its children in input order.
  function Family(services: seq<Service>, base: Service): seq<Entry> {
    [Entry(base, false)] + FlatMap(services, ChildOf(base.ref))
  }

  function FamilyIn(services: seq<Service>, category: string): Service -> seq<Entry> {
    (s: Service) => if IsBase(s) && s.category == category then Family(services, s) else []
  }

  function BaseCategory(s: Service): seq<string> {
    if IsBase(s) then [s.category] else []
  }

  function Categories(services: seq<Service>): seq<string> {
    FirstOccurrences(FlatMap(services, BaseCategory))
  }

  function BlockFor(services: seq<Service>): string -> Block {
    (category: string) => Block(category, FlatMap(services, FamilyIn(services, category)))
  }

  function ServiceTree(services: seq<Service>): seq<Block> {
    Map(Categories(services), BlockFor(services))
  }

  // ----- building it -----

  // What the first n services leave in the child index.
  ghost predicate Childhood(childrenOf: map<string, seq<Entry>>, services: seq<Service>) {
    forall ref :: FlatMap(services, ChildOf(ref)) == Lookup(childrenOf, ref)
  }

  method CollectChildren(services: seq<Service>) returns (childrenOf: map<string, seq<Entry>>)
    ensures Childhood(childrenOf, services)
  {
    hide FlatMap;
    childrenOf := map[];
    NoChildren(services);
    for i := 0 to |services|
      invariant Childhood(childrenOf, services[..i])
    {
      var s := services[i];
      forall ref
        ensures FlatMap(services[..i + 1], ChildOf(ref)) == FlatMap(services[..i], ChildOf(ref)) + ChildOf(ref)(s)
      {
        FlatMapNext(services, ChildOf(ref), i);
      }
      if !Active(s.salesStatus) || s.serviceType == "base" {
        continue;
      }
      var siblings := Lookup(childrenOf, s.parentRef);
      childrenOf := childrenOf[s.parentRef := siblings + [Entry(s, true)]];
    }
    assert services[..|services|] == services;
  }

  lemma NoChildren(services: seq<Service>)
    ensures forall ref :: FlatMap(services[..0], ChildOf(ref)) == []
  {
  }

  // What the bases among done leave in the blocks.
  ghost predicate Blocked(order: seq<string>, byCategory: map<string, seq<Entry>>, services: seq<Service>,
                          done: seq<Service>)
  {
    && order == Categories(done)
    && (forall c :: c in byCategory <==> c in order)
    && forall c :: FlatMap(done, FamilyIn(services, c)) == Lookup(byCategory, c)
  }

  function Lookup(m: map<string, seq<Entry>>, key: string): seq<Entry> {
    if key in m then m[key] else []
  }

  method RenderServices(services: seq<Service>) returns (blocks: seq<Block>)
    ensures blocks == ServiceTree(services)
  {
    hide FlatMap, Categories, Map, Family;
    var order: seq<string> := [];
    var byCategory: map<string, seq<Entry>> := map[];
    var childrenOf := CollectChildren(services);
    NothingBlocked(services);
    for i := 0 to |services|
      invariant Blocked(order, byCategory, services, services[..i])
    {
      BlockNext(services, i);
      if !Active(services[i].salesStatus) || services[i].serviceType != "base" {
        SkippedService(order, byCategory, services, i);
        continue;
      }
      order, byCategory := AddBase(order, byCategory, childrenOf, services, i);
    }
    assert services[..|services|] == services;
    ghost var f := BlockFor(services);
    blocks := [];
    MapStep(order, f, 0);
    for i := 0 to |order|
      invariant blocks == Map(order[..i], f)
    {
      MapStep(order, f, i);
      blocks := blocks + [Block(order[i], byCategory[order[i]])];
    }
    assert order[..|order|] == order;
  }

  lemma SkippedService(order: seq<string>, byCategory: map<string, seq<Entry>>, services: seq<Service>, i: nat)
    requires i < |services| && !IsBase(services[i])
    requires Blocked(order, byCategory, services, services[..i])
    ensures Blocked(order, byCategory, services, services[..i + 1])
  {
    hide FlatMap, Categories, Family;
    BlockNext(services, i);
    assert forall c :: FamilyIn(services, c)(services[i]) == [];
  }

  method AddBase(order: seq<string>, byCategory: map<string, seq<Entry>>, childrenOf: map<string, seq<Entry>>,
                 services: seq<Service>, i: nat)
    returns (order': seq<string>, byCategory': map<string, seq<Entry>>)
    requires i < |services| && IsBase(services[i])
    requires Childhood(childrenOf, services) && Blocked(order, byCategory, services, services[..i])
    ensures Blocked(order', byCategory', services, services[..i + 1])
  {
    hide FlatMap, Blocked, Childhood, Lookup, WithFamily;
    var s := services[i];
    order', byCategory' := order, byCategory;
    ghost var listed := s.category in byCategory;
    if s.category !in byCategory' {
      byCategory' := byCategory'[s.category := []];
      order' := order' + [s.category];
    }
    var children := Lookup(childrenOf, s.ref);
    byCategory' := byCategory'[s.category := byCategory'[s.category] + [Entry(s, false)] + children];
    assert order' == if listed then order else order + [s.category];
    ChildrenAre(childrenOf, services, s.ref);
    Extended(byCategory, s.category, Entry(s, false), children);
    BaseAdded(order, byCategory, services, i);
  }

  function WithFamily(m: map<string, seq<Entry>>, key: string, family: seq<Entry>): map<string, seq<Entry>> {
    m[key := Lookup(m, key) + family]
  }

  lemma ChildrenAre(childrenOf: map<string, seq<Entry>>, services: seq<Service>, ref: string)
    requires Childhood(childrenOf, services)
    ensures Lookup(childrenOf, ref) == FlatMap(services, ChildOf(ref))
  {
  }

  lemma Extended(m: map<string, seq<Entry>>, key: string, x: Entry, more: seq<Entry>)
    ensures var n := if key in m then m else m[key := []];
            n[key := n[key] + [x] + more] == WithFamily(m, key, [x] + more)
  {
    assert Lookup(m, key) + [x] + more == Lookup(m, key) + ([x] + more);
  }

  // The blocks after one more base: its family at the end of its category's.
  lemma BaseAdded(order: seq<string>, byCategory: map<string, seq<Entry>>, services: seq<Service>, i: nat)
    requires i < |services| && IsBase(services[i]) && Blocked(order, byCategory, services, services[..i])
    ensures var c := services[i].category;
            Blocked(if c in byCategory then order else order + [c],
                    WithFamily(byCategory, c, Family(services, services[i])), services, services[..i + 1])
  {
    hide FlatMap, Categories, Family, FamilyIn;
    var s := services[i];
    var c := s.category;
    var order' := if c in byCategory then order else order + [c];
    var after := WithFamily(byCategory, c, Family(services, s));
    BlockNext(services, i);
    FamilyAdded(byCategory, c, Family(services, s));
    OtherCategories(services, s);
    assert forall d :: FlatMap(services[..i + 1], FamilyIn(services, d)) == Lookup(after, d);
    assert order' == Categories(services[..i + 1]);
    assert forall d :: d in after <==> d in order';
  }

  lemma FamilyAdded(before: map<string, seq<Entry>>, category: string, family: seq<Entry>)
    ensures var after := WithFamily(before, category, family);
            forall c :: Lookup(after, c) == Lookup(before, c) + if c == category then family else []
  {
  }

  lemma OtherCategories(services: seq<Service>, s: Service)
    ensures forall c :: FamilyIn(services, c)(s) == if IsBase(s) && s.category == c then Family(services, s) else []
  {
  }

  lemma MapStep(order: seq<string>, f: string -> Block, i: nat)
    requires i <= |order|
    ensures Map(order[..0], f) == []
    ensures i < |order| ==> Map(order[..i + 1], f) == Map(order[..i], f) + [f(order[i])]
  {
  }

  lemma NothingBlocked(services: seq<Service>)
    ensures Blocked([], map[], services, services[..0])
  {
  }

  lemma BlockNext(services: seq<Service>, i: nat)
    requires i < |services|
    ensures forall c :: FlatMap(services[..i + 1], FamilyIn(services, c)) ==
                        FlatMap(services[..i], FamilyIn(services, c)) + FamilyIn(services, c)(services[i])
    ensures Categories(services[..i + 1]) ==
            Categories(services[..i]) +
            if IsBase(services[i]) && services[i].category !in Categories(services[..i]) then [services[i].category]
            else []
  {
    hide FlatMap, FirstOccurrences, Family;
    forall c ensures FlatMap(services[..i + 1], FamilyIn(services, c)) ==
                     FlatMap(services[..i], FamilyIn(services, c)) + FamilyIn(services, c)(services[i])
    {
      FlatMapNext(services, FamilyIn(services, c), i);
    }
    FlatMapNext(services, BaseCategory, i);
    var all := FlatMap(services[..i], BaseCategory);
    assert all + [] == all;
    FirstOccurrencesNext(all, services[i].category);
    FirstOccurrencesCover(all);
  }

  // ----- conservation -----

  function EntriesOf(b: Block): seq<Entry> {
    b.entries
  }

  function AllEntries(services: seq<Service>): seq<Entry> {
    FlatMap(ServiceTree(services), EntriesOf)
  }

  predicate OtherEntry(x: Entry, y: Entry) {
    x.service.ref != y.service.ref
  }

  // A child hangs under an active base.
  ghost predicate HasActiveBase(s: Service, services: seq<Service>) {
    exists j | 0 <= j < |services| :: IsBase(services[j]) && services[j].ref == s.parentRef
  }

  // Of any list at all: every active base is emitted, every active child of an active base, and nothing else.
  lemma EmittedExactly(services: seq<Service>, x: Entry)
    ensures x in AllEntries(services) <==>
            && x.service in services
            && if x.nested then IsChild(x.service) && HasActiveBase(x.service, services) else IsBase(x.service)
  {
    hide FlatMap, Categories, Map, Family;
    var tree := ServiceTree(services);
    if x in AllEntries(services) {
      var b := FlatMapSource(tree, EntriesOf, x);
      TreeAt(services, b);
      var c := tree[b].category;
      var i := FlatMapSource(services, FamilyIn(services, c), x);
      InFamily(services, services[i], x);
    }
    if && x.service in services
       && if x.nested then IsChild(x.service) && HasActiveBase(x.service, services) else IsBase(x.service)
    {
      var i: nat :| i < |services| && IsBase(services[i])
                    && if x.nested then services[i].ref == x.service.parentRef else services[i] == x.service;
      InFamily(services, services[i], x);
      InFlatMap(services, FamilyIn(services, services[i].category), i, x);
      var b := CategoryListed(services, i);
      InFlatMap(tree, EntriesOf, b, x);
    }
  }

  lemma TreeAt(services: seq<Service>, b: nat)
    requires b < |ServiceTree(services)|
    ensures b < |Categories(services)|
    ensures var block := ServiceTree(services)[b];
            block.category == Categories(services)[b]
            && block.entries == FlatMap(services, FamilyIn(services, block.category))
  {
  }

  lemma InFamily(services: seq<Service>, base: Service, x: Entry)
    ensures x in Family(services, base) <==>
            || x == Entry(base, false)
            || (x.nested && x.service in services && IsChild(x.service) && x.service.parentRef == base.ref)
  {
    hide FlatMap;
    var f := ChildOf(base.ref);
    if x in FlatMap(services, f) {
      var i := FlatMapSource(services, f, x);
    }
    if x.nested && x.service in services && IsChild(x.service) && x.service.parentRef == base.ref {
      var i :| 0 <= i < |services| && services[i] == x.service;
      InFlatMap(services, f, i, x);
    }
  }

  lemma CategoryListed(services: seq<Service>, i: nat) returns (b: nat)
    requires i < |services| && IsBase(services[i])
    ensures b < |ServiceTree(services)| && ServiceTree(services)[b] == BlockFor(services)(services[i].category)
  {
    hide FlatMap, FirstOccurrences;
    var all := FlatMap(services, BaseCategory);
    InFlatMap(services, BaseCategory, i, services[i].category);
    FirstOccurrencesCover(all);
    b :| 0 <= b < |Categories(services)| && Categories(services)[b] == services[i].category;
  }

  // When the hierarchy is accepted, every active service is emitted exactly once and no inactive one is.
  lemma TreeConserves(services: seq<Service>)
    requires ServicesOK(services)
    ensures forall s :: (exists x | x in AllEntries(services) :: x.service == s) <==>
            s in services && Active(s.salesStatus)
    ensures Pairwise(AllEntries(services), OtherEntry)
  {
    hide FlatMap, ServiceTree, ParentOK;
    forall x | x in AllEntries(services) ensures x.service in services && Active(x.service.salesStatus) {
      EmittedExactly(services, x);
    }
    forall s | s in services && Active(s.salesStatus) ensures exists x | x in AllEntries(services) :: x.service == s {
      var x := Entry(s, s.serviceType != "base");
      BaseIsActive(services, s);
      EmittedExactly(services, x);
    }
    EntriesDiffer(services);
  }

  lemma BaseIsActive(services: seq<Service>, s: Service)
    requires ServicesOK(services) && s in services && Active(s.salesStatus)
    ensures s.serviceType != "base" ==> HasActiveBase(s, services)
  {
  }

  lemma ByService(services: seq<Service>, s: Service, t: Service)
    requires Pairwise(services, OtherService) && s in services && t in services && s.ref == t.ref
    ensures s == t
  {
  }

  lemma EntriesDiffer(services: seq<Service>)
    requires ServicesOK(services)
    ensures Pairwise(AllEntries(services), OtherEntry)
  {
    hide FlatMap, Categories, Map, Family, ParentOK, ServiceRowOK;
    var tree := ServiceTree(services);
    forall b | 0 <= b < |tree| ensures Pairwise(tree[b].entries, OtherEntry) {
      TreeAt(services, b);
      BlockDiffers(services, tree[b].category);
    }
    CategoriesDiffer(services);
    forall b, d, x, y | 0 <= b < d < |tree| && x in tree[b].entries && y in tree[d].entries ensures OtherEntry(x, y) {
      TreeAt(services, b);
      TreeAt(services, d);
      if x.service.ref == y.service.ref {
        SameHome(services, tree[b].category, tree[d].category, x, y);
        assert false;
      }
    }
    PairwiseFlatMap(tree, EntriesOf, OtherEntry);
  }

  lemma CategoriesDiffer(services: seq<Service>)
    ensures forall i, j | 0 <= i < j < |Categories(services)| :: Categories(services)[i] != Categories(services)[j]
  {
    FirstOccurrencesCover(FlatMap(services, BaseCategory));
  }

  // An entry's base is the only one it can be under.
  lemma SameHome(services: seq<Service>, c: string, d: string, x: Entry, y: Entry)
    requires ServicesOK(services) && x.service.ref == y.service.ref
    requires x in FlatMap(services, FamilyIn(services, c)) && y in FlatMap(services, FamilyIn(services, d))
    ensures c == d
  {
    hide FlatMap, Family, ParentOK, ServiceRowOK;
    var i := FlatMapSource(services, FamilyIn(services, c), x);
    var j := FlatMapSource(services, FamilyIn(services, d), y);
    InFamily(services, services[i], x);
    InFamily(services, services[j], y);
    ByService(services, x.service, y.service);
    ByService(services, services[i], services[j]);
  }

  lemma BlockDiffers(services: seq<Service>, c: string)
    requires ServicesOK(services)
    ensures Pairwise(FlatMap(services, FamilyIn(services, c)), OtherEntry)
  {
    hide FlatMap, Family, ParentOK, ServiceRowOK;
    var f := FamilyIn(services, c);
    forall i | 0 <= i < |services| ensures Pairwise(f(services[i]), OtherEntry) {
      if IsBase(services[i]) && services[i].category == c {
        FamilyDiffers(services, i);
      }
    }
    forall i, j, x, y | 0 <= i < j < |services| && x in f(services[i]) && y in f(services[j]) ensures OtherEntry(x, y) {
      InFamily(services, services[i], x);
      InFamily(services, services[j], y);
      assert OtherService(services[i], services[j]);
      if x.service.ref == y.service.ref {
        ByService(services, x.service, y.service);
        assert false;
      }
    }
    PairwiseFlatMap(services, f, OtherEntry);
  }

  lemma FamilyDiffers(services: seq<Service>, i: nat)
    requires ServicesOK(services) && i < |services| && IsBase(services[i])
    ensures Pairwise(Family(services, services[i]), OtherEntry)
  {
    hide FlatMap, ParentOK, ServiceRowOK;
    var base := services[i];
    var f := ChildOf(base.ref);
    assert forall k, l | 0 <= k < l < |services| :: OtherService(services[k], services[l]);
    PairwiseFlatMap(services, f, OtherEntry);
    forall y | y in FlatMap(services, f) ensures OtherEntry(Entry(base, false), y) {
      var k := FlatMapSource(services, f, y);
      assert k != i;
      assert OtherService(services[if i < k then i else k], services[if i < k then k else i]);
    }
    PairwiseConcat([Entry(base, false)], FlatMap(services, f), OtherEntry);
  }

  // ----- order -----

  // A nested entry comes right after its base or after another child of that base.
  ghost predicate UnderOwnBase(es: seq<Entry>) {
    forall k | 0 <= k < |es| && es[k].nested ::
      && k > 0
      && es[k].service.parentRef == if es[k - 1].nested then es[k - 1].service.parentRef else es[k - 1].service.ref
  }

  function BaseOf(x: Entry): seq<Service> {
    if x.nested then [] else [x.service]
  }

  function BaseIn(category: string): Service -> seq<Service> {
    (s: Service) => if IsBase(s) && s.category == category then [s] else []
  }

  // In each block the children stay with their base, and the bases are the category's, in input order.
  lemma BlockOrder(services: seq<Service>, b: nat)
    requires b < |ServiceTree(services)|
    ensures var block := ServiceTree(services)[b];
            UnderOwnBase(block.entries) && FlatMap(block.entries, BaseOf) == FlatMap(services, BaseIn(block.category))
  {
    TreeAt(services, b);
    OrderSoFar(services, services, ServiceTree(services)[b].category);
  }

  lemma {:induction false} OrderSoFar(services: seq<Service>, done: seq<Service>, c: string)
    ensures UnderOwnBase(FlatMap(done, FamilyIn(services, c)))
    ensures FlatMap(FlatMap(done, FamilyIn(services, c)), BaseOf) == FlatMap(done, BaseIn(c))
  {
    hide FlatMap, Family, UnderOwnBase;
    if done == [] {
      FlatMapEmpty(FamilyIn(services, c));
      FlatMapEmpty(BaseIn(c));
      FlatMapEmpty(BaseOf);
      Appended([], []);
    } else {
      var n := |done| - 1;
      var f := FamilyIn(services, c);
      var sofar, es := FlatMap(done[..n], f), f(done[n]);
      assert done[..n + 1] == done;
      OrderSoFar(services, done[..n], c);
      FlatMapNext(done, f, n);
      FlatMapNext(done, BaseIn(c), n);
      FamilyOrder(services, done[n]);
      FlatMapEmpty(BaseOf);
      Appended(sofar, es);
      FlatMapConcat(sofar, es, BaseOf);
    }
  }

  lemma Appended(es: seq<Entry>, more: seq<Entry>)
    requires UnderOwnBase(es) && UnderOwnBase(more)
    ensures UnderOwnBase(es + more) && UnderOwnBase([])
  {
  }

  lemma FamilyOrder(services: seq<Service>, base: Service)
    ensures UnderOwnBase(Family(services, base)) && FlatMap(Family(services, base), BaseOf) == [base]
  {
    hide FlatMap;
    var children := FlatMap(services, ChildOf(base.ref));
    forall k | 0 <= k < |children| ensures children[k].nested && children[k].service.parentRef == base.ref {
      var i := FlatMapSource(services, ChildOf(base.ref), children[k]);
    }
    NoBases(children);
    FlatMapConcat([Entry(base, false)], children, BaseOf);
    FlatMapOne(Entry(base, false), BaseOf);
  }

  lemma {:induction false} NoBases(es: seq<Entry>)
    requires forall k | 0 <= k < |es| :: es[k].nested
    ensures FlatMap(es, BaseOf) == []
  {
    if es != [] {
      NoBases(es[..|es| - 1]);
    }
  }

  function ChildUnder(ref: string): Entry -> seq<Service> {
    (x: Entry) => if x.nested && x.service.parentRef == ref then [x.service] else []
  }

  function ChildIn(ref: string): Service -> seq<Service> {
    (s: Service) => if IsChild(s) && s.parentRef == ref then [s] else []
  }

  lemma {:induction false} ChildrenKept(done: seq<Service>, base: string, ref: string)
    ensures FlatMap(FlatMap(done, ChildOf(base)), ChildUnder(ref)) ==
            if base == ref then FlatMap(done, ChildIn(ref)) else []
  {
    hide FlatMap;
    if done == [] {
      FlatMapEmpty(ChildOf(base));
      FlatMapEmpty(ChildIn(ref));
      FlatMapEmpty(ChildUnder(ref));
    } else {
      var n := |done| - 1;
      assert done[..n + 1] == done;
      ChildrenKept(done[..n], base, ref);
      FlatMapNext(done, ChildOf(base), n);
      FlatMapNext(done, ChildIn(ref), n);
      FlatMapConcat(FlatMap(done[..n], ChildOf(base)), ChildOf(base)(done[n]), ChildUnder(ref));
      FlatMapEmpty(ChildUnder(ref));
      FlatMapOne(Entry(done[n], true), ChildUnder(ref));
    }
  }

  lemma FamilyChildren(services: seq<Service>, base: Service, ref: string)
    ensures FlatMap(Family(services, base), ChildUnder(ref)) ==
            if base.ref == ref then FlatMap(services, ChildIn(ref)) else []
  {
    hide FlatMap;
    FlatMapConcat([Entry(base, false)], FlatMap(services, ChildOf(base.ref)), ChildUnder(ref));
    FlatMapOne(Entry(base, false), ChildUnder(ref));
    ChildrenKept(services, base.ref, ref);
  }

  // In the blocks, the children of an active base are all its active children, in input order.
  lemma ChildrenOrder(services: seq<Service>, i: nat)
    requires ServicesOK(services) && i < |services| && IsBase(services[i])
    ensures var ref := services[i].ref;
            exists b | 0 <= b < |ServiceTree(services)| ::
              && ServiceTree(services)[b].category == services[i].category
              && FlatMap(ServiceTree(services)[b].entries, ChildUnder(ref)) == FlatMap(services, ChildIn(ref))
  {
    hide FlatMap, ServiceRowOK, ParentOK;
    var b := CategoryListed(services, i);
    assert services[..|services|] == services;
    ChildrenSoFar(services, |services|, i);
    TreeAt(services, b);
  }

  lemma {:induction false} ChildrenSoFar(services: seq<Service>, n: nat, i: nat)
    requires Pairwise(services, OtherService) && n <= |services| && i < |services| && IsBase(services[i])
    ensures FlatMap(FlatMap(services[..n], FamilyIn(services, services[i].category)), ChildUnder(services[i].ref)) ==
            if i < n then FlatMap(services, ChildIn(services[i].ref)) else []
  {
    hide FlatMap, Family;
    var f, ref := FamilyIn(services, services[i].category), services[i].ref;
    FlatMapEmpty(f);
    FlatMapEmpty(ChildUnder(ref));
    if n > 0 {
      var s := services[n - 1];
      ChildrenSoFar(services, n - 1, i);
      FlatMapNext(services, f, n - 1);
      FlatMapConcat(FlatMap(services[..n - 1], f), f(s), ChildUnder(ref));
      FamilyChildren(services, s, ref);
      SameRefSameIndex(services, n - 1, i);
    }
  }

  lemma SameRefSameIndex(services: seq<Service>, i: nat, j: nat)
    requires Pairwise(services, OtherService) && i < |services| && j < |services|
    ensures services[i].ref == services[j].ref <==> i == j
  {
    assert i < j ==> OtherService(services[i], services[j]);
    assert j < i ==> OtherService(services[j], services[i]);
  }
}
