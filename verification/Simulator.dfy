/** The search for the next allowed slot, and why sending as early as possible is optimal. */
module Simulator {
  import opened Wrappers
  import opened Clock
  import opened Limits
  import opened Budgeting
  import opened Windows

  /** Everything that paces one account's sends. */
  datatype Rules = Rules(tiers: seq<Tier>, minInterval: Duration,
                         accountWindows: seq<Window>, campaignWindows: seq<Window>)

  const MAX_SIMULATION_ITERATIONS: nat := 100000

  // 9999-01-01 00:00 UTC.
  const FAR_FUTURE: Time := 3651694 * 24 * 3600 * NS_PER_SECOND

  ghost predicate Open(r: Rules, t: Time) {
    SideOpen(r.accountWindows, t) && SideOpen(r.campaignWindows, t)
  }

  ghost predicate Fits(r: Rules, ledger: seq<Time>, last: Option<Time>, t: Time) {
    Permits(r.tiers, ledger, r.minInterval, last, t)
  }

  ghost predicate Sendable(r: Rules, ledger: seq<Time>, last: Option<Time>, t: Time) {
    Open(r, t) && Fits(r, ledger, last, t)
  }

  ghost predicate IsEarliest(r: Rules, ledger: seq<Time>, last: Option<Time>, from: Time, t: Time) {
    && from <= t && Sendable(r, ledger, last, t)
    && forall u | from <= u < t :: !Sendable(r, ledger, last, u)
  }

  // The search with its fuel exposed: any fuel of at least 4 gives the same answer.
  method NextAllowedSlotWithin(fuel: nat, r: Rules, ledger: seq<Time>, last: Option<Time>, from: Time)
    returns (slot: Time, ok: bool)
    requires 4 <= fuel && Sorted(ledger)
    ensures !ok <==> NeverOpen(r.accountWindows, r.campaignWindows)
    ensures ok ==> from <= slot && Open(r, slot) && Granted(r.tiers, ledger, r.minInterval, last, slot)
    ensures ok && ExactFrom(r.tiers, ledger, from) ==> IsEarliest(r, ledger, last, from, slot)
  {
    var cursor := from;
    for i := 0 to fuel
      invariant i <= 3
      invariant from <= cursor && forall u | from <= u < cursor :: !Sendable(r, ledger, last, u)
      invariant i >= 1 ==> Open(r, cursor) || Fits(r, ledger, last, cursor)
      invariant i >= 2 ==> Fits(r, ledger, last, cursor)
      invariant i >= 3 ==> Open(r, cursor)
    {
      if !WindowsOK(r.accountWindows, r.campaignWindows, cursor) {
        var reopen, found := NextWindowOpen(r.accountWindows, r.campaignWindows, cursor);
        if !found {
          return 0, false;
        }
        forall u | from <= u < reopen ensures !Sendable(r, ledger, last, u) {
          if cursor <= u {
            assert !WindowsOK(r.accountWindows, r.campaignWindows, u);
          }
        }
        if i >= 1 {
          PermissionNeverLapses(r.tiers, ledger, r.minInterval, last, cursor, reopen);
        }
        cursor := reopen;
      } else {
        var d := Budget(r.tiers, ledger, r.minInterval, last, cursor);
        if d.allowed {
          if ExactFrom(r.tiers, ledger, from) {
            VerdictExactFrom(r.tiers, ledger, r.minInterval, last, from, cursor);
          }
          return cursor, true;
        }
        forall u | from <= u < d.nextSlotAt ensures !Sendable(r, ledger, last, u) {
          if cursor <= u {
            assert !Permits(r.tiers, ledger, r.minInterval, last, u);
          }
        }
        cursor := d.nextSlotAt;
      }
    }
    return 0, false;
  }

  method NextAllowedSlot(r: Rules, ledger: seq<Time>, last: Option<Time>, from: Time)
    returns (slot: Time, ok: bool)
    requires Sorted(ledger)
    ensures !ok <==> NeverOpen(r.accountWindows, r.campaignWindows)
    ensures ok ==> from <= slot && Open(r, slot) && Granted(r.tiers, ledger, r.minInterval, last, slot)
    ensures ok && ExactFrom(r.tiers, ledger, from) ==> IsEarliest(r, ledger, last, from, slot)
    ensures ok && AllValid(r.accountWindows) && AllValid(r.campaignWindows) ==>
              InSomeInterval(r.accountWindows, slot) && InSomeInterval(r.campaignWindows, slot)
  {
    slot, ok := NextAllowedSlotWithin(MAX_SIMULATION_ITERATIONS, r, ledger, last, from);
    OpenIff(r.accountWindows, r.campaignWindows, slot);
  }

  // ----- plans -----

  // The ledger the i-th planned send meets, and the instant the search for it starts from.
  ghost function LedgerAt(prior: seq<Time>, plan: seq<Time>, i: nat): seq<Time>
    requires i <= |plan|
  {
    prior + plan[..i]
  }

  ghost function CursorAt(now: Time, plan: seq<Time>, i: nat): Time
    requires i <= |plan|
  {
    if i == 0 then now else plan[i - 1]
  }

  ghost predicate GreedyAt(r: Rules, prior: seq<Time>, now: Time, plan: seq<Time>, i: nat)
    requires i < |plan|
  {
    var ledger := LedgerAt(prior, plan, i);
    IsEarliest(r, ledger, LastOf(ledger), CursorAt(now, plan, i), plan[i])
  }

  // Each send goes out as early as the full ledger of everything sent before it allows.
  ghost predicate IsGreedy(r: Rules, prior: seq<Time>, now: Time, plan: seq<Time>) {
    forall i | 0 <= i < |plan| :: GreedyAt(r, prior, now, plan, i)
  }

  ghost predicate FeasibleAt(r: Rules, prior: seq<Time>, now: Time, plan: seq<Time>, i: nat)
    requires i < |plan|
  {
    var ledger := LedgerAt(prior, plan, i);
    now <= plan[i] && Sendable(r, ledger, LastOf(ledger), plan[i])
  }

  ghost predicate Feasible(r: Rules, prior: seq<Time>, now: Time, plan: seq<Time>) {
    forall i | 0 <= i < |plan| :: FeasibleAt(r, prior, now, plan, i)
  }

  function WidestWindow(tiers: seq<Tier>): (w: int)
    ensures 0 <= w && forall i | 0 <= i < |tiers| :: tiers[i].windowSeconds <= w
  {
    if tiers == [] then 0
    else
      var rest := WidestWindow(tiers[..|tiers| - 1]);
      var last := tiers[|tiers| - 1].windowSeconds;
      if last > rest then last else rest
  }

  // The first k entries are no later than cut.
  ghost predicate Forgotten(ledger: seq<Time>, k: nat, cut: Time) {
    k <= |ledger| && forall i | 0 <= i < k :: ledger[i] <= cut
  }

  // Entries that every tier has already forgotten do not matter, now or later.
  lemma TrimmingKeepsVerdict(r: Rules, ledger: seq<Time>, k: nat, cursor: Time, last: Option<Time>, t: Time)
    requires Forgotten(ledger, k, cursor - Seconds(WidestWindow(r.tiers))) && cursor <= t
    ensures Fits(r, ledger[k..], last, t) <==> Fits(r, ledger, last, t)
  {
    forall i | 0 <= i < |r.tiers| ensures HasRoom(r.tiers[i], ledger[k..], t) <==> HasRoom(r.tiers[i], ledger, t) {
      CountAfterFrom(ledger, t - Seconds(r.tiers[i].windowSeconds), k);
    }
  }

  lemma {:induction false} GreedyIsFeasible(r: Rules, prior: seq<Time>, now: Time, plan: seq<Time>, i: nat)
    requires IsGreedy(r, prior, now, plan) && i < |plan|
    ensures FeasibleAt(r, prior, now, plan, i)
  {
    assert GreedyAt(r, prior, now, plan, i);
    if i > 0 {
      GreedyIsFeasible(r, prior, now, plan, i - 1);
    }
  }

  // Optimality: send for send, no feasible plan is ahead of the greedy one.
  lemma {:induction false} GreedyIsOptimal(r: Rules, prior: seq<Time>, now: Time, plan: seq<Time>, other: seq<Time>,
                                           i: nat)
    requires 0 <= r.minInterval
    requires IsGreedy(r, prior, now, plan) && Feasible(r, prior, now, other)
    requires i < |plan| && i < |other|
    ensures plan[i] <= other[i]
  {
    forall k | 0 <= k < i ensures plan[k] <= other[k] {
      GreedyIsOptimal(r, prior, now, plan, other, k);
    }
    var mine, theirs := LedgerAt(prior, plan, i), LedgerAt(prior, other, i);
    assert GreedyAt(r, prior, now, plan, i) && FeasibleAt(r, prior, now, other, i);
    if i > 0 {
      assert LastOf(theirs) == Some(other[i - 1]);
      assert IntervalElapsed(r.minInterval, LastOf(theirs), other[i]);
    }
    EarlierLedgerEarlierSlot(r, mine, theirs, CursorAt(now, plan, i), plan[i], other[i]);
  }

  // Having sent earlier before never makes the next send wait longer.
  lemma EarlierLedgerEarlierSlot(r: Rules, mine: seq<Time>, theirs: seq<Time>, from: Time, slot: Time, t: Time)
    requires |mine| == |theirs| && forall k | 0 <= k < |mine| :: mine[k] <= theirs[k]
    requires IsEarliest(r, mine, LastOf(mine), from, slot)
    requires from <= t && Sendable(r, theirs, LastOf(theirs), t)
    ensures slot <= t
  {
    forall k | 0 <= k < |r.tiers| ensures HasRoom(r.tiers[k], mine, t) {
      assert HasRoom(r.tiers[k], theirs, t);
      var cut := t - Seconds(r.tiers[k].windowSeconds);
      CountAfterMonotone(mine, theirs, cut, cut);
    }
    assert Sendable(r, mine, LastOf(mine), t);
  }

  // The projection answers "never" only to a campaign that cannot send even once.
  lemma FeasibleOnlyIfEverOpen(r: Rules, prior: seq<Time>, now: Time, other: seq<Time>)
    requires Feasible(r, prior, now, other) && other != []
    ensures !NeverOpen(r.accountWindows, r.campaignWindows)
  {
    assert FeasibleAt(r, prior, now, other, 0);
    assert Open(r, other[0]);
  }
}
