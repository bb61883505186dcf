/** Delivery zones and services: the two graphs a knowledge base must get right. */
module Hierarchies {
  import opened Wrappers
  import opened Text
  import opened Permutations
  import opened KnowledgeBase

  // ----- delivery zones -----

  predicate ZoneRowOK(z: DeliveryZone) {
    && ValidRef(z.ref)
    && z.zoneLevel in {"city", "region", "country"}
    && if z.deliveryAvailable then !Blank(z.deliveryCost) && !Blank(z.deliveryInDays)
       else Blank(z.deliveryCost) && Blank(z.deliveryInDays)
  }

  predicate OtherZone(z: DeliveryZone, w: DeliveryZone) {
    z.ref != w.ref
  }

  type ZoneMap = map<string, DeliveryZone>

  ghost predicate LinksResolve(byRef: ZoneMap) {
    forall r | r in byRef && byRef[r].parentRef != "" :: byRef[r].parentRef in byRef
  }

  // A rank that every parent link lowers.
  ghost predicate Ranks(byRef: ZoneMap, rank: map<string, nat>) {
    forall r | r in byRef ::
      r in rank && (byRef[r].parentRef in byRef ==> byRef[r].parentRef in rank && rank[byRef[r].parentRef] < rank[r])
  }

  ghost predicate WellFounded(byRef: ZoneMap) {
    exists rank :: Ranks(byRef, rank)
  }

  // Following parents from r meets a root after exactly n links.
  ghost predicate RootAfter(byRef: ZoneMap, r: string, n: nat)
    decreases n
  {
    && r in byRef
    && if n == 0 then byRef[r].parentRef == ""
       else byRef[r].parentRef != "" && RootAfter(byRef, byRef[r].parentRef, n - 1)
  }

  ghost predicate Rooted(byRef: ZoneMap, r: string) {
    exists n: nat :: RootAfter(byRef, r, n)
  }

  lemma {:induction false} RootAfterUnique(byRef: ZoneMap, r: string, n: nat, m: nat)
    requires RootAfter(byRef, r, n) && RootAfter(byRef, r, m)
    ensures n == m
    decreases n
  {
    if n > 0 && m > 0 {
      RootAfterUnique(byRef, byRef[r].parentRef, n - 1, m - 1);
    }
  }

  ghost function Depth(byRef: ZoneMap, r: string): nat
    requires Rooted(byRef, r)
  {
    var n: nat :| RootAfter(byRef, r, n); n
  }

  lemma RootedIsWellFounded(byRef: ZoneMap)
    requires "" !in byRef
    requires forall r | r in byRef :: Rooted(byRef, r)
    ensures LinksResolve(byRef) && WellFounded(byRef)
  {
    var rank := map r | r in byRef :: Depth(byRef, r);
    forall r | r in byRef && byRef[r].parentRef != ""
      ensures byRef[r].parentRef in byRef && rank[byRef[r].parentRef] < rank[r]
    {
      var p := byRef[r].parentRef;
      assert RootAfter(byRef, r, rank[r]) && RootAfter(byRef, p, rank[r] - 1);
      RootAfterUnique(byRef, p, rank[p], rank[r] - 1);
    }
    assert Ranks(byRef, rank);
  }

  // path follows parent links inside byRef.
  ghost predicate IsChain(byRef: ZoneMap, path: seq<string>) {
    && path != [] && (forall k | 0 <= k < |path| :: path[k] in byRef)
    && forall k | 0 <= k < |path| - 1 :: byRef[path[k]].parentRef == path[k + 1]
  }

  lemma {:induction false} RankFallsAlong(byRef: ZoneMap, rank: map<string, nat>, path: seq<string>, i: nat, j: nat)
    requires IsChain(byRef, path) && Ranks(byRef, rank) && i <= j < |path|
    ensures rank[path[j]] <= rank[path[i]]
  {
    if i < j {
      RankFallsAlong(byRef, rank, path, i, j - 1);
      assert byRef[path[j - 1]].parentRef == path[j];
    }
  }

  lemma RepeatHasNoRank(byRef: ZoneMap, path: seq<string>)
    requires IsChain(byRef, path) && byRef[path[|path| - 1]].parentRef in path
    ensures !WellFounded(byRef)
  {
    var last := path[|path| - 1];
    var i :| 0 <= i < |path| && path[i] == byRef[last].parentRef;
    forall rank | Ranks(byRef, rank) ensures false {
      RankFallsAlong(byRef, rank, path, i, |path| - 1);
    }
  }

  lemma {:induction false} ChainToRoot(byRef: ZoneMap, path: seq<string>)
    requires "" !in byRef && IsChain(byRef, path) && byRef[path[|path| - 1]].parentRef == ""
    ensures Rooted(byRef, path[0])
  {
    if |path| > 1 {
      assert byRef[path[0]].parentRef == path[1];
      assert IsChain(byRef, path[1..]) by {
        forall k | 0 <= k < |path[1..]| - 1 ensures byRef[path[1..][k]].parentRef == path[1..][k + 1] {
          assert byRef[path[k + 1]].parentRef == path[k + 2];
        }
      }
      ChainToRoot(byRef, path[1..]);
      var n: nat :| RootAfter(byRef, path[1], n);
      assert RootAfter(byRef, path[0], n + 1);
    } else {
      assert RootAfter(byRef, path[0], 0);
    }
  }

  // Follows one zone's parents until a root, a repeat or a dangling link.
  method WalkParents(byRef: ZoneMap, ref: string) returns (ok: bool)
    requires "" !in byRef && ref in byRef
    ensures ok <==> Rooted(byRef, ref)
    ensures !ok ==> !(LinksResolve(byRef) && WellFounded(byRef))
  {
    var seen := {ref};
    var parent := byRef[ref].parentRef;
    ghost var path := [ref];
    while parent != ""
      invariant IsChain(byRef, path) && path[0] == ref && parent == byRef[path[|path| - 1]].parentRef
      invariant seen == (set r | r in path) && seen <= byRef.Keys
      decreases byRef.Keys - seen
    {
      if parent in seen {
        RepeatHasNoRank(byRef, path);
        NoRankNoRoot(byRef, path);
        return false;
      }
      if parent !in byRef {
        DanglingHasNoRoot(byRef, path);
        return false;
      }
      ghost var before := byRef.Keys - seen;
      seen := seen + {parent};
      assert parent in before && parent !in byRef.Keys - seen;
      path := path + [parent];
      parent := byRef[parent].parentRef;
    }
    ChainToRoot(byRef, path);
    return true;
  }

  // The steps of a root walk are the chain's own.
  lemma {:induction false} RootAlongChain(byRef: ZoneMap, path: seq<string>, k: nat, n: nat)
    requires "" !in byRef && IsChain(byRef, path) && k < |path| && RootAfter(byRef, path[0], n)
    ensures k <= n && RootAfter(byRef, path[k], n - k)
  {
    if k > 0 {
      RootAlongChain(byRef, path, k - 1, n);
      assert byRef[path[k - 1]].parentRef == path[k];
    }
  }

  lemma NoRankNoRoot(byRef: ZoneMap, path: seq<string>)
    requires "" !in byRef && IsChain(byRef, path) && byRef[path[|path| - 1]].parentRef in path
    ensures !Rooted(byRef, path[0])
  {
    var last := |path| - 1;
    var i :| 0 <= i < |path| && path[i] == byRef[path[last]].parentRef;
    if n: nat :| RootAfter(byRef, path[0], n) {
      RootAlongChain(byRef, path, i, n);
      RootAlongChain(byRef, path, last, n);
      assert n > last && RootAfter(byRef, path[i], n - last - 1);
      RootAfterUnique(byRef, path[i], n - i, n - last - 1);
      assert false;
    }
  }

  lemma DanglingHasNoRoot(byRef: ZoneMap, path: seq<string>)
    requires "" !in byRef && IsChain(byRef, path)
    requires byRef[path[|path| - 1]].parentRef != "" && byRef[path[|path| - 1]].parentRef !in byRef
    ensures !Rooted(byRef, path[0])
  {
    if n: nat :| RootAfter(byRef, path[0], n) {
      RootAlongChain(byRef, path, |path| - 1, n);
      assert false;
    }
  }

  // Walks the zones in whatever order the map yields them; the verdict is the same for every order.
  method CheckChains(byRef: ZoneMap) returns (ok: bool)
    requires "" !in byRef
    ensures ok <==> LinksResolve(byRef) && WellFounded(byRef)
  {
    var todo := byRef.Keys;
    while todo != {}
      invariant todo <= byRef.Keys
      invariant forall r | r in byRef && r !in todo :: Rooted(byRef, r)
      decreases todo
    {
      var ref :| ref in todo;
      var rooted := WalkParents(byRef, ref);
      if !rooted {
        return false;
      }
      todo := todo - {ref};
    }
    RootedIsWellFounded(byRef);
    return true;
  }

  function ByRef(zones: seq<DeliveryZone>): ZoneMap {
    if zones == [] then map[] else ByRef(zones[..|zones| - 1])[zones[|zones| - 1].ref := zones[|zones| - 1]]
  }

  lemma {:induction false} ByRefHolds(zones: seq<DeliveryZone>, r: string)
    ensures r in ByRef(zones) <==> exists i | 0 <= i < |zones| :: zones[i].ref == r
    ensures r in ByRef(zones) ==> ByRef(zones)[r] in zones && ByRef(zones)[r].ref == r
  {
    if zones != [] {
      ByRefHolds(zones[..|zones| - 1], r);
    }
  }

  lemma NoBlankRef(zones: seq<DeliveryZone>)
    requires forall i | 0 <= i < |zones| :: ZoneRowOK(zones[i])
    ensures "" !in ByRef(zones)
  {
    ByRefHolds(zones, "");
  }

  ghost predicate PoliciesFitZones(policies: Option<Policies>) {
    && policies.Some?
    && Blank(policies.value.deliveryCost) && Blank(policies.value.deliveryInDays)
    && !Blank(policies.value.outsideZonesNote)
  }

  // With no zones the feature is unused and nothing is required.
  ghost predicate ZonesOK(zones: seq<DeliveryZone>, policies: Option<Policies>) {
    zones != [] ==>
      && (forall i | 0 <= i < |zones| :: ZoneRowOK(zones[i]))
      && Pairwise(zones, OtherZone)
      && LinksResolve(ByRef(zones)) && WellFounded(ByRef(zones))
      && PoliciesFitZones(policies)
  }

  method CheckZones(zones: seq<DeliveryZone>, policies: Option<Policies>) returns (ok: bool)
    ensures ok <==> ZonesOK(zones, policies)
  {
    hide ZoneRowOK, LinksResolve, WellFounded;
    if |zones| == 0 {
      return true;
    }
    var byRef: ZoneMap := map[];
    for i := 0 to |zones|
      invariant byRef == ByRef(zones[..i])
      invariant forall k | 0 <= k < i :: ZoneRowOK(zones[k])
      invariant forall k, j | 0 <= k < j < i :: OtherZone(zones[k], zones[j])
    {
      var z := zones[i];
      ByRefHolds(zones[..i], z.ref);
      if z.ref in byRef {
        var k :| 0 <= k < i && zones[..i][k].ref == z.ref;
        assert !OtherZone(zones[k], zones[i]);
        return false;
      }
      if !ZoneRowOK(z) {
        return false;
      }
      assert zones[..i + 1][..i] == zones[..i];
      byRef := byRef[z.ref := z];
    }
    assert zones[..|zones|] == zones;
    NoBlankRef(zones);
    var chains := CheckChains(byRef);
    if !chains {
      return false;
    }
    if policies.None? {
      return false;
    }
    if !Blank(policies.value.deliveryCost) || !Blank(policies.value.deliveryInDays) {
      return false;
    }
    return !Blank(policies.value.outsideZonesNote);
  }

  // ----- services -----

  predicate OtherService(s: Service, t: Service) {
    s.ref != t.ref
  }

  predicate ServiceRowOK(s: Service) {
    ValidRef(s.ref) && s.serviceType in {"base", "variant", "addon"}
  }

  // A base has no parent; a variant or add-on hangs directly under an existing base,
  // which is active whenever it is.
  ghost predicate ParentOK(s: Service, services: seq<Service>) {
    if s.serviceType == "base" then s.parentRef == ""
    else exists j | 0 <= j < |services| ::
           && services[j].ref == s.parentRef && services[j].serviceType == "base"
           && (Active(s.salesStatus) ==> Active(services[j].salesStatus))
  }

  ghost predicate ServicesOK(services: seq<Service>) {
    && (forall i | 0 <= i < |services| :: ServiceRowOK(services[i]))
    && Pairwise(services, OtherService)
    && forall i | 0 <= i < |services| :: ParentOK(services[i], services)
  }

  lemma NoBlankService(byRef: map<string, Service>, services: seq<Service>)
    requires forall i | 0 <= i < |services| :: ServiceRowOK(services[i])
    requires Indexes(byRef, services, |services|)
    ensures "" !in byRef
  {
  }

  // byRef indexes the first n services.
  ghost predicate Indexes(byRef: map<string, Service>, services: seq<Service>, n: nat)
    requires n <= |services|
  {
    && (forall k | 0 <= k < n :: services[k].ref in byRef && byRef[services[k].ref] == services[k])
    && (forall r | r in byRef :: exists k | 0 <= k < n :: services[k].ref == r)
  }

  method CheckServices(services: seq<Service>) returns (ok: bool)
    ensures ok <==> ServicesOK(services)
  {
    hide ValidRef, ParentOK, Indexes;
    var byRef: map<string, Service> := map[];
    NothingIndexed(services);
    for i := 0 to |services|
      invariant Indexes(byRef, services, i)
      invariant forall k | 0 <= k < i :: ServiceRowOK(services[k])
      invariant forall k, j | 0 <= k < j < i :: OtherService(services[k], services[j])
    {
      var s := services[i];
      IndexNext(byRef, services, i);
      if !ValidRef(s.ref) {
        return false;
      }
      if s.ref in byRef {
        ghost var k :| 0 <= k < i && services[k].ref == s.ref;
        assert !OtherService(services[k], services[i]);
        return false;
      }
      byRef := byRef[s.ref := s];
      if s.serviceType !in {"base", "variant", "addon"} {
        return false;
      }
    }
    NoBlankService(byRef, services);
    ok := CheckParents(byRef, services);
  }

  lemma NothingIndexed(services: seq<Service>)
    ensures Indexes(map[], services, 0)
  {
  }

  lemma IndexNext(byRef: map<string, Service>, services: seq<Service>, i: nat)
    requires i < |services| && Indexes(byRef, services, i)
    ensures services[i].ref in byRef <==> exists k | 0 <= k < i :: services[k].ref == services[i].ref
    ensures services[i].ref !in byRef ==> Indexes(byRef[services[i].ref := services[i]], services, i + 1)
  {
  }

  // One pass over the index, in whatever order the map yields it.
  method CheckParents(byRef: map<string, Service>, services: seq<Service>) returns (ok: bool)
    requires Indexes(byRef, services, |services|) && "" !in byRef
    ensures ok <==> forall i | 0 <= i < |services| :: ParentOK(services[i], services)
  {
    var todo := byRef.Keys;
    while todo != {}
      invariant todo <= byRef.Keys
      invariant forall k | 0 <= k < |services| && services[k].ref !in todo :: ParentOK(services[k], services)
      decreases todo
    {
      var ref :| ref in todo;
      var s := byRef[ref];
      todo := todo - {ref};
      ghost var i :| 0 <= i < |services| && services[i].ref == ref;
      ParentByIndex(byRef, services, s);
      if s.serviceType == "base" {
        if s.parentRef != "" {
          return false;
        }
      } else {
        if s.parentRef == "" {
          return false;
        }
        if s.parentRef !in byRef {
          return false;
        }
        var parent := byRef[s.parentRef];
        if parent.serviceType != "base" {
          return false;
        }
        if Active(s.salesStatus) && !Active(parent.salesStatus) {
          return false;
        }
      }
    }
    return true;
  }

  lemma ParentByIndex(byRef: map<string, Service>, services: seq<Service>, s: Service)
    requires Indexes(byRef, services, |services|)
    ensures ParentOK(s, services) <==>
            if s.serviceType == "base" then s.parentRef == ""
            else s.parentRef in byRef && byRef[s.parentRef].serviceType == "base"
                 && (Active(s.salesStatus) ==> Active(byRef[s.parentRef].salesStatus))
  {
  }
}
