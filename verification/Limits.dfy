/** Rolling-window caps, the declarative meaning of "this send fits", and which caps may be configured. */
module Limits {
  import opened Wrappers
  import opened Clock

  /** One rolling cap: at most maxSends sends in any windowSeconds. */
  datatype Tier = Tier(windowSeconds: int, maxSends: int)

  const MIN_TIER_WINDOW_SECONDS: int := 60
  const MAX_TIER_WINDOW_SECONDS: int := 7 * 24 * 3600
  const MIN_TIER_MAX_SENDS: int := 1
  const MAX_TIER_MAX_SENDS: int := 100000

  predicate ValidTier(t: Tier) {
    && MIN_TIER_WINDOW_SECONDS <= t.windowSeconds <= MAX_TIER_WINDOW_SECONDS
    && MIN_TIER_MAX_SENDS <= t.maxSends <= MAX_TIER_MAX_SENDS
  }

  ghost predicate ValidTiers(tiers: seq<Tier>) {
    && (forall i | 0 <= i < |tiers| :: ValidTier(tiers[i]))
    && (forall i, j | 0 <= i < j < |tiers| :: tiers[i].windowSeconds != tiers[j].windowSeconds)
  }

  method ValidateTiers(tiers: seq<Tier>) returns (ok: bool)
    ensures ok <==> ValidTiers(tiers)
  {
    var seen: set<int> := {};
    for i := 0 to |tiers|
      invariant ValidTiers(tiers[..i])
      invariant seen == set k | 0 <= k < i :: tiers[k].windowSeconds
    {
      if !ValidTier(tiers[i]) {
        return false;
      }
      if tiers[i].windowSeconds in seen {
        return false;
      }
      seen := seen + {tiers[i].windowSeconds};
    }
    assert tiers[..|tiers|] == tiers;
    return true;
  }

  // ----- counting -----

  ghost predicate Sorted(s: seq<Time>) {
    forall i, j | 0 <= i < j < |s| :: s[i] <= s[j]
  }

  lemma SortedAppend(s: seq<Time>, t: Time)
    requires Sorted(s) && (s != [] ==> s[|s| - 1] <= t)
    ensures Sorted(s + [t])
  {
  }

  function LastOf(s: seq<Time>): Option<Time> {
    if s == [] then None else Some(s[|s| - 1])
  }

  // How many entries lie strictly after cut.
  ghost function CountAfter(s: seq<Time>, cut: Time): (n: nat)
    ensures n <= |s|
  {
    if s == [] then 0
    else CountAfter(s[..|s| - 1], cut) + if s[|s| - 1] > cut then 1 else 0
  }

  lemma {:induction false} CountAfterConcat(a: seq<Time>, b: seq<Time>, cut: Time)
    ensures CountAfter(a + b, cut) == CountAfter(a, cut) + CountAfter(b, cut)
  {
    if b == [] {
      assert a + b == a;
    } else {
      CountAfterConcat(a, b[..|b| - 1], cut);
      assert (a + b)[..|a + b| - 1] == a + b[..|b| - 1];
    }
  }

  lemma {:induction false} CountAfterNone(s: seq<Time>, cut: Time)
    requires forall i | 0 <= i < |s| :: s[i] <= cut
    ensures CountAfter(s, cut) == 0
  {
    if s != [] {
      CountAfterNone(s[..|s| - 1], cut);
    }
  }

  lemma {:induction false} CountAfterAll(s: seq<Time>, cut: Time)
    requires forall i | 0 <= i < |s| :: s[i] > cut
    ensures CountAfter(s, cut) == |s|
  {
    if s != [] {
      CountAfterAll(s[..|s| - 1], cut);
    }
  }

  lemma CountAfterFrom(s: seq<Time>, cut: Time, k: nat)
    requires k <= |s|
    requires forall i | 0 <= i < k :: s[i] <= cut
    ensures CountAfter(s, cut) == CountAfter(s[k..], cut)
  {
    assert s == s[..k] + s[k..];
    CountAfterConcat(s[..k], s[k..], cut);
    CountAfterNone(s[..k], cut);
  }

  // The k-th oldest entry of a sorted ledger decides whether more than |s| - k - 1 entries lie after cut.
  lemma CountAfterAt(s: seq<Time>, cut: Time, k: nat)
    requires Sorted(s) && k < |s|
    ensures CountAfter(s, cut) < |s| - k <==> s[k] <= cut
  {
    if s[k] <= cut {
      CountAfterFrom(s, cut, k + 1);
    } else {
      CountAfterConcat(s[..k], s[k..], cut);
      assert s == s[..k] + s[k..];
      CountAfterAll(s[k..], cut);
    }
  }

  // Moving the cut later, or every entry earlier, can only lower the count.
  lemma {:induction false} CountAfterMonotone(s: seq<Time>, s': seq<Time>, cut: Time, cut': Time)
    requires |s| == |s'| && cut' <= cut
    requires forall i | 0 <= i < |s| :: s[i] <= s'[i]
    ensures CountAfter(s, cut) <= CountAfter(s', cut')
  {
    if s != [] {
      CountAfterMonotone(s[..|s| - 1], s'[..|s| - 1], cut, cut');
    }
  }

  // ----- what a send must satisfy -----

  ghost predicate IntervalElapsed(minInterval: Duration, lastSendAt: Option<Time>, t: Time) {
    lastSendAt.Some? ==> lastSendAt.value + minInterval <= t
  }

  // A cap that is not positive places no limit.
  ghost predicate HasRoom(tier: Tier, attempts: seq<Time>, t: Time) {
    tier.maxSends > 0 ==> CountAfter(attempts, t - Seconds(tier.windowSeconds)) < tier.maxSends
  }

  ghost predicate Permits(tiers: seq<Tier>, attempts: seq<Time>, minInterval: Duration,
                          lastSendAt: Option<Time>, t: Time) {
    && IntervalElapsed(minInterval, lastSendAt, t)
    && forall i | 0 <= i < |tiers| :: HasRoom(tiers[i], attempts, t)
  }

  // In a sorted ledger a cap has room again exactly when its maxSends-th
  // newest entry has aged out.
  lemma RoomFrom(tier: Tier, attempts: seq<Time>, t: Time)
    requires Sorted(attempts) && 0 < tier.maxSends
    ensures HasRoom(tier, attempts, t) <==>
            |attempts| < tier.maxSends ||
            attempts[|attempts| - tier.maxSends] + Seconds(tier.windowSeconds) <= t
  {
    if tier.maxSends <= |attempts| {
      CountAfterAt(attempts, t - Seconds(tier.windowSeconds), |attempts| - tier.maxSends);
    }
  }

  // Once granted, a send stays granted: for a fixed ledger the verdict is upward closed.
  lemma PermissionNeverLapses(tiers: seq<Tier>, attempts: seq<Time>, minInterval: Duration,
                              lastSendAt: Option<Time>, t: Time, later: Time)
    requires t <= later
    requires Permits(tiers, attempts, minInterval, lastSendAt, t)
    ensures Permits(tiers, attempts, minInterval, lastSendAt, later)
  {
    forall i | 0 <= i < |tiers| ensures HasRoom(tiers[i], attempts, later) {
      assert HasRoom(tiers[i], attempts, t);
      CountAfterMonotone(attempts, attempts, later - Seconds(tiers[i].windowSeconds),
          t - Seconds(tiers[i].windowSeconds));
    }
  }
}
