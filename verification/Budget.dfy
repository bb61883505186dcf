/** The limiter: every cap and the minimum gap, checked at once. */
module Budgeting {
  import opened Wrappers
  import opened Clock
  import opened Limits

  datatype Decision = Decision(allowed: bool, throttledBy: int, nextSlotAt: Time)

  // Binary search for the first entry strictly after cut.
  method FirstAfter(attempts: seq<Time>, cut: Time) returns (idx: nat)
    requires Sorted(attempts)
    ensures idx <= |attempts|
    ensures forall i | 0 <= i < idx :: attempts[i] <= cut
    ensures forall i | idx <= i < |attempts| :: attempts[i] > cut
  {
    var lo, hi := 0, |attempts|;
    while lo < hi
      invariant 0 <= lo <= hi <= |attempts|
      invariant forall i | 0 <= i < lo :: attempts[i] <= cut
      invariant forall i | hi <= i < |attempts| :: attempts[i] > cut
    {
      var mid := (lo + hi) / 2;
      if attempts[mid] > cut {
        hi := mid;
      } else {
        lo := mid + 1;
      }
    }
    return lo;
  }

  // The verdict as computed: a full tier is noticed through its width, so a
  // full tier of width 0 does not refuse.
  ghost predicate Granted(tiers: seq<Tier>, attempts: seq<Time>, minInterval: Duration,
                          lastSendAt: Option<Time>, t: Time) {
    && IntervalElapsed(minInterval, lastSendAt, t)
    && forall i | 0 <= i < |tiers| :: tiers[i].windowSeconds != 0 ==> HasRoom(tiers[i], attempts, t)
  }

  ghost predicate IsFirstThrottle(tiers: seq<Tier>, attempts: seq<Time>, now: Time, width: int) {
    if width == 0 then
      forall i | 0 <= i < |tiers| :: tiers[i].windowSeconds != 0 ==> HasRoom(tiers[i], attempts, now)
    else
      exists i :: && 0 <= i < |tiers| && tiers[i].windowSeconds == width && !HasRoom(tiers[i], attempts, now)
                  && forall j | 0 <= j < i :: tiers[j].windowSeconds != 0 ==> HasRoom(tiers[j], attempts, now)
  }

  method Budget(tiers: seq<Tier>, attempts: seq<Time>, minInterval: Duration,
                lastSendAt: Option<Time>, now: Time) returns (d: Decision)
    requires Sorted(attempts)
    ensures d.allowed <==> Granted(tiers, attempts, minInterval, lastSendAt, now)
    ensures IsFirstThrottle(tiers, attempts, now, d.throttledBy)
    // nextSlotAt is the least instant, from now on, at which the send fits, and it fits ever after
    ensures now <= d.nextSlotAt
    ensures forall t | now <= t :: Permits(tiers, attempts, minInterval, lastSendAt, t) <==> d.nextSlotAt <= t
    // it is now exactly when the send fits now; that this is what allowed says holds on every
    // input exactly for the tier lists of VerdictExactIff
    ensures d.nextSlotAt == now <==> Permits(tiers, attempts, minInterval, lastSendAt, now)
    ensures ZeroWidthsCovered(tiers) ==> (d.allowed <==> d.nextSlotAt == now)
  {
    var nextSlot := now;
    var intervalOK := lastSendAt.None? || lastSendAt.value + minInterval <= now;
    if !intervalOK {
      var at := lastSendAt.value + minInterval;
      if at > nextSlot {
        nextSlot := at;
      }
    }
    var throttledBy := 0;
    for i := 0 to |tiers|
      invariant now <= nextSlot
      invariant forall t | now <= t :: Permits(tiers[..i], attempts, minInterval, lastSendAt, t) <==> nextSlot <= t
      invariant IsFirstThrottle(tiers[..i], attempts, now, throttledBy)
    {
      var tier := tiers[i];
      ghost var was := throttledBy;
      assert tiers[..i + 1] == tiers[..i] + [tier];
      if tier.maxSends > 0 {
        var windowStart := now - Seconds(tier.windowSeconds);
        var idx := FirstAfter(attempts, windowStart);
        var inWindow := attempts[idx..];
        CountAfterFrom(attempts, windowStart, idx);
        CountAfterAll(inWindow, windowStart);
        if |inWindow| >= tier.maxSends {
          if throttledBy == 0 {
            throttledBy := tier.windowSeconds;
          }
          var freesAt := inWindow[|inWindow| - tier.maxSends] + Seconds(tier.windowSeconds);
          if freesAt > nextSlot {
            nextSlot := freesAt;
          }
        }
      }
      ghost var upTo := tiers[..i + 1];
      forall t | now <= t
        ensures Permits(upTo, attempts, minInterval, lastSendAt, t) <==> nextSlot <= t
      {
        if tier.maxSends > 0 {
          RoomFrom(tier, attempts, t);
          RoomFrom(tier, attempts, now);
        }
        StepPermits(tiers, i, attempts, minInterval, lastSendAt, t);
      }
      StepThrottle(tiers, i, attempts, now, was, throttledBy);
    }
    assert tiers[..|tiers|] == tiers;
    VerdictExactIff(tiers);
    return Decision(intervalOK && throttledBy == 0, throttledBy, nextSlot);
  }

  lemma StepPermits(tiers: seq<Tier>, i: nat, attempts: seq<Time>, minInterval: Duration,
                    lastSendAt: Option<Time>, t: Time)
    requires i < |tiers|
    ensures Permits(tiers[..i + 1], attempts, minInterval, lastSendAt, t) <==>
            Permits(tiers[..i], attempts, minInterval, lastSendAt, t) && HasRoom(tiers[i], attempts, t)
  {
  }

  lemma StepThrottle(tiers: seq<Tier>, i: nat, attempts: seq<Time>, now: Time, before: int, after: int)
    requires i < |tiers| && IsFirstThrottle(tiers[..i], attempts, now, before)
    requires after == if before == 0 && !HasRoom(tiers[i], attempts, now) then tiers[i].windowSeconds else before
    ensures IsFirstThrottle(tiers[..i + 1], attempts, now, after)
  {
    var old', new' := tiers[..i], tiers[..i + 1];
    assert new'[i] == tiers[i];
    forall k | 0 <= k < i ensures new'[k] == old'[k] {}
    if before != 0 {
      var k :| && 0 <= k < |old'| && old'[k].windowSeconds == before && !HasRoom(old'[k], attempts, now)
               && forall j | 0 <= j < k :: old'[j].windowSeconds != 0 ==> HasRoom(old'[j], attempts, now);
      assert new'[k].windowSeconds == before && !HasRoom(new'[k], attempts, now);
    }
  }

  // ----- the verdict against its meaning -----

  // Every capped tier of width 0 stands behind a wider one that fills no later.
  ghost predicate ZeroWidthsCovered(tiers: seq<Tier>) {
    forall z | 0 <= z < |tiers| && tiers[z].windowSeconds == 0 && tiers[z].maxSends > 0 ::
      exists w :: && 0 <= w < |tiers| && tiers[w].windowSeconds > 0
                  && 0 < tiers[w].maxSends <= tiers[z].maxSends
  }

  ghost predicate AlwaysExact(tiers: seq<Tier>) {
    forall attempts: seq<Time>, minInterval: Duration, last: Option<Time>, now: Time | Sorted(attempts) ::
      Granted(tiers, attempts, minInterval, last, now) <==> Permits(tiers, attempts, minInterval, last, now)
  }

  // The computed verdict means "every cap has room and the gap has passed" on
  // every input exactly for the tier lists without an uncovered width-0 cap.
  lemma VerdictExactIff(tiers: seq<Tier>)
    ensures AlwaysExact(tiers) <==> ZeroWidthsCovered(tiers)
  {
    if ZeroWidthsCovered(tiers) {
      forall attempts: seq<Time>, minInterval: Duration, last: Option<Time>, now: Time |
        Sorted(attempts) && Granted(tiers, attempts, minInterval, last, now)
        ensures Permits(tiers, attempts, minInterval, last, now)
      {
        forall z | 0 <= z < |tiers| ensures HasRoom(tiers[z], attempts, now) {
          if tiers[z].windowSeconds == 0 && tiers[z].maxSends > 0 {
            var w :| && 0 <= w < |tiers| && tiers[w].windowSeconds > 0
                     && 0 < tiers[w].maxSends <= tiers[z].maxSends;
            assert HasRoom(tiers[w], attempts, now);
            CountAfterMonotone(attempts, attempts, now, now - Seconds(tiers[w].windowSeconds));
          }
        }
      }
    } else {
      var z :| && 0 <= z < |tiers| && tiers[z].windowSeconds == 0 && tiers[z].maxSends > 0
               && !exists w :: && 0 <= w < |tiers| && tiers[w].windowSeconds > 0
                               && 0 < tiers[w].maxSends <= tiers[z].maxSends;
      var attempts := seq(tiers[z].maxSends, _ => 1);
      CountAfterAll(attempts, 0);
      forall i | 0 <= i < |tiers| && tiers[i].windowSeconds != 0 ensures HasRoom(tiers[i], attempts, 0) {
        if tiers[i].windowSeconds < 0 {
          CountAfterNone(attempts, 0 - Seconds(tiers[i].windowSeconds));
        }
      }
      assert Granted(tiers, attempts, 0, None, 0);
      assert !HasRoom(tiers[z], attempts, 0);
    }
  }

  // Where the verdict can be trusted from an instant on: no uncovered cap of width 0, or no entry still to come.
  ghost predicate ExactFrom(tiers: seq<Tier>, attempts: seq<Time>, from: Time) {
    ZeroWidthsCovered(tiers) || forall i | 0 <= i < |attempts| :: attempts[i] <= from
  }

  lemma VerdictExactFrom(tiers: seq<Tier>, attempts: seq<Time>, minInterval: Duration,
                         lastSendAt: Option<Time>, from: Time, t: Time)
    requires Sorted(attempts) && ExactFrom(tiers, attempts, from) && from <= t
    ensures Granted(tiers, attempts, minInterval, lastSendAt, t) <==>
            Permits(tiers, attempts, minInterval, lastSendAt, t)
  {
    if ZeroWidthsCovered(tiers) {
      VerdictExactIff(tiers);
    } else {
      forall i | 0 <= i < |tiers| && tiers[i].windowSeconds == 0 ensures HasRoom(tiers[i], attempts, t) {
        CountAfterNone(attempts, t);
      }
    }
  }

  // Validated tiers have positive widths, so their verdict is exact on every input.
  lemma ValidTiersAreExact(tiers: seq<Tier>)
    requires ValidTiers(tiers)
    ensures AlwaysExact(tiers) && forall attempts, from :: ExactFrom(tiers, attempts, from)
  {
    VerdictExactIff(tiers);
  }
}
