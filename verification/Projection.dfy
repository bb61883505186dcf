/** The forward simulation behind a campaign's projected finish, which no lawful schedule beats. */
module Projections {
  import opened Wrappers
  import opened Clock
  import opened Limits
  import opened Budgeting
  import opened Windows
  import opened Simulator
  import opened SendLedger

  method MaxWindow(tiers: seq<Tier>) returns (maxWindow: int)
    ensures maxWindow == WidestWindow(tiers)
  {
    maxWindow := 0;
    for i := 0 to |tiers|
      invariant maxWindow == WidestWindow(tiers[..i])
    {
      assert tiers[..i + 1][..i] == tiers[..i];
      if tiers[i].windowSeconds > maxWindow {
        maxWindow := tiers[i].windowSeconds;
      }
    }
    assert tiers[..|tiers|] == tiers;
  }

  lemma SameEarliest(r: Rules, ledger: seq<Time>, k: nat, cursor: Time, last: Option<Time>, slot: Time)
    requires Forgotten(ledger, k, cursor - Seconds(WidestWindow(r.tiers)))
    requires IsEarliest(r, ledger[k..], last, cursor, slot)
    ensures IsEarliest(r, ledger, last, cursor, slot)
  {
    TrimmingKeepsVerdict(r, ledger, k, cursor, last, slot);
    forall u | cursor <= u < slot ensures !Sendable(r, ledger, last, u) {
      TrimmingKeepsVerdict(r, ledger, k, cursor, last, u);
      assert !Sendable(r, ledger[k..], last, u);
    }
  }

  // The simulation state: the plan so far is greedy for the full ledger, of which
  // attempts is what trimming has left.
  ghost predicate OnTrack(r: Rules, prior: seq<Time>, now: Time, plan: seq<Time>, dropped: nat,
                          attempts: seq<Time>, lastSend: Option<Time>, cursor: Time) {
    var full := prior + plan;
    && IsGreedy(r, prior, now, plan)
    && Sorted(full) && lastSend == LastOf(full) && cursor == CursorAt(now, plan, |plan|)
    && Forgotten(full, dropped, cursor - Seconds(WidestWindow(r.tiers))) && attempts == full[dropped..]
  }

  // The instant the last of the remaining recipients goes out. The simulation keeps only a trimmed
  // ledger, yet its plan is the greedy one for the full ledger, and no lawful schedule ends sooner.
  method Estimate(remaining: int, prior: seq<Time>, r: Rules, now: Time)
    returns (finish: Time, ghost plan: seq<Time>)
    requires Sorted(prior) && (0 <= r.minInterval || NoneAfter(prior, now))
    ensures remaining <= 0 ==> finish == now
    ensures remaining > 0 && NeverOpen(r.accountWindows, r.campaignWindows) ==> finish == FAR_FUTURE
    ensures remaining > 0 && !NeverOpen(r.accountWindows, r.campaignWindows) ==>
              now <= finish && |plan| == remaining && finish == plan[remaining - 1]
    ensures remaining > 0 && !NeverOpen(r.accountWindows, r.campaignWindows) && ExactFrom(r.tiers, prior, now) ==>
              IsGreedy(r, prior, now, plan)
    ensures remaining > 0 && ExactFrom(r.tiers, prior, now) && 0 <= r.minInterval ==>
              forall other | Lawful(r, prior, now, other) && |other| == remaining :: finish <= other[remaining - 1]
  {
    plan := [];
    if remaining <= 0 {
      return now, plan;
    }
    var maxWindow := MaxWindow(r.tiers);
    var attempts := prior;
    var lastSend := LastOf(attempts);
    var cursor := now;
    ghost var dropped := 0;  // how many of the oldest entries were trimmed
    ghost var exact := ExactFrom(r.tiers, prior, now);
    assert prior + plan == prior;
    for i := 0 to remaining
      invariant |plan| == i && now <= cursor && Sorted(attempts) && lastSend == LastOf(attempts)
      invariant 0 <= r.minInterval || NoneAfter(attempts, cursor)
      invariant exact ==> OnTrack(r, prior, now, plan, dropped, attempts, lastSend, cursor)
      invariant i > 0 ==> lastSend == Some(cursor) && cursor == plan[i - 1]
      invariant i > 0 ==> !NeverOpen(r.accountWindows, r.campaignWindows)
    {
      if exact {
        StaysExact(r, prior, now, plan, dropped, attempts, lastSend, cursor);
      }
      var slot, ok := NextAllowedSlot(r, attempts, lastSend, cursor);
      if !ok {
        NeverLawful(r, prior, now, remaining);
        return FAR_FUTURE, plan;
      }
      attempts, dropped := Record(r, prior, now, plan, dropped, attempts, lastSend, cursor, maxWindow, slot, exact);
      cursor := slot;
      lastSend := Some(slot);
      plan := plan + [slot];
    }
    if exact && 0 <= r.minInterval {
      NoneEndsSooner(r, prior, now, plan);
    }
    return lastSend.value, plan;
  }

  // What the search sees stays exact: no entry of the trimmed ledger lies after the cursor, or none matters.
  lemma StaysExact(r: Rules, prior: seq<Time>, now: Time, plan: seq<Time>, dropped: nat,
                   attempts: seq<Time>, lastSend: Option<Time>, cursor: Time)
    requires OnTrack(r, prior, now, plan, dropped, attempts, lastSend, cursor) && ExactFrom(r.tiers, prior, now)
    ensures ExactFrom(r.tiers, attempts, cursor)
  {
    var full := prior + plan;
    if !ZeroWidthsCovered(r.tiers) {
      forall i | 0 <= i < |attempts| ensures attempts[i] <= cursor {
        assert attempts[i] == full[dropped + i] <= full[|full| - 1];
      }
    }
  }

  lemma LawfulNeedsOpening(r: Rules, prior: seq<Time>, now: Time, other: seq<Time>)
    requires Lawful(r, prior, now, other) && other != []
    ensures !NeverOpen(r.accountWindows, r.campaignWindows)
  {
    assert Open(r, other[0]);
  }

  lemma NeverLawful(r: Rules, prior: seq<Time>, now: Time, remaining: int)
    requires remaining > 0 && NeverOpen(r.accountWindows, r.campaignWindows)
    ensures forall other | Lawful(r, prior, now, other) :: |other| != remaining
  {
    forall other | Lawful(r, prior, now, other) ensures other == [] {
      if other != [] {
        LawfulNeedsOpening(r, prior, now, other);
      }
    }
  }

  lemma NoneEndsSooner(r: Rules, prior: seq<Time>, now: Time, plan: seq<Time>)
    requires Sorted(prior) && 0 <= r.minInterval && IsGreedy(r, prior, now, plan) && plan != []
    ensures forall other | Lawful(r, prior, now, other) && |other| == |plan| :: plan[|plan| - 1] <= other[|plan| - 1]
  {
    forall other | Lawful(r, prior, now, other) && |other| == |plan| ensures plan[|plan| - 1] <= other[|plan| - 1] {
      NoLawfulScheduleIsFaster(r, prior, now, plan, other);
    }
  }

  ghost predicate NoneAfter(ledger: seq<Time>, t: Time) {
    forall i | 0 <= i < |ledger| :: ledger[i] <= t
  }

  lemma NoneAfterSlot(r: Rules, ledger: seq<Time>, cursor: Time, slot: Time)
    requires Sorted(ledger) && cursor <= slot && IntervalElapsed(r.minInterval, LastOf(ledger), slot)
    requires 0 <= r.minInterval || NoneAfter(ledger, cursor)
    ensures NoneAfter(ledger, slot)
  {
  }

  lemma KeptInOrder(ledger: seq<Time>, j: nat, slot: Time)
    requires Sorted(ledger) && NoneAfter(ledger, slot) && j <= |ledger|
    ensures var kept := ledger[j..] + [slot]; Sorted(kept) && NoneAfter(kept, slot) && LastOf(kept) == Some(slot)
  {
  }

  // One simulated send: entries that no tier remembers any more are trimmed, then the send is appended.
  method Record(r: Rules, ghost prior: seq<Time>, ghost now: Time, ghost plan: seq<Time>, ghost dropped: nat,
                attempts: seq<Time>, ghost lastSend: Option<Time>, ghost cursor: Time, maxWindow: int, slot: Time,
                ghost exact: bool)
    returns (attempts': seq<Time>, ghost dropped': nat)
    requires Sorted(attempts) && lastSend == LastOf(attempts) && cursor <= slot
    requires 0 <= r.minInterval || NoneAfter(attempts, cursor)
    requires IntervalElapsed(r.minInterval, lastSend, slot)
    requires exact ==> OnTrack(r, prior, now, plan, dropped, attempts, lastSend, cursor)
    requires maxWindow == WidestWindow(r.tiers) && (exact ==> IsEarliest(r, attempts, lastSend, cursor, slot))
    ensures Sorted(attempts') && LastOf(attempts') == Some(slot) && NoneAfter(attempts', slot)
    ensures exact ==> OnTrack(r, prior, now, plan + [slot], dropped', attempts', Some(slot), slot)
    ensures exists j | 0 <= j <= |attempts| :: attempts' == attempts[j..] + [slot]
  {
    hide OnTrack, Sorted, NoneAfter, IsEarliest, LastOf;
    NoneAfterSlot(r, attempts, cursor, slot);
    var j := 0;
    if maxWindow > 0 {
      var cutoff := slot - Seconds(maxWindow);
      while j < |attempts| && attempts[j] <= cutoff
        invariant 0 <= j <= |attempts| && Forgotten(attempts, j, cutoff)
      {
        j := j + 1;
      }
    }
    if exact {
      StayOnTrack(r, prior, now, plan, dropped, attempts, lastSend, cursor, slot, j);
    }
    KeptInOrder(attempts, j, slot);
    attempts' := attempts[j..] + [slot];
    dropped' := dropped + j;
  }

  lemma StayOnTrack(r: Rules, prior: seq<Time>, now: Time, plan: seq<Time>, dropped: nat,
                    attempts: seq<Time>, lastSend: Option<Time>, cursor: Time, slot: Time, j: nat)
    requires OnTrack(r, prior, now, plan, dropped, attempts, lastSend, cursor) && NoneAfter(attempts, slot)
    requires IsEarliest(r, attempts, lastSend, cursor, slot)
    requires Forgotten(attempts, j, slot - Seconds(WidestWindow(r.tiers)))
    ensures OnTrack(r, prior, now, plan + [slot], dropped + j, attempts[j..] + [slot], Some(slot), slot)
    ensures !NeverOpen(r.accountWindows, r.campaignWindows)
  {
    var full := prior + plan;
    SameEarliest(r, full, dropped, cursor, lastSend, slot);
    forall i | 0 <= i < |full| ensures full[i] <= slot {
      if dropped <= i {
        assert full[i] == attempts[i - dropped];
      }
    }
    ExtendGreedy(r, prior, now, plan, slot);
    assert full[dropped + j..] == attempts[j..];
    assert (full + [slot])[dropped + j..] == full[dropped + j..] + [slot];
    forall i | 0 <= i < dropped + j ensures full[i] <= slot - Seconds(WidestWindow(r.tiers)) {
      if dropped <= i {
        assert full[i] == attempts[i - dropped];
      }
    }
  }

  lemma ExtendGreedy(r: Rules, prior: seq<Time>, now: Time, plan: seq<Time>, slot: Time)
    requires IsGreedy(r, prior, now, plan) && Sorted(prior + plan) && NoneAfter(prior + plan, slot)
    requires IsEarliest(r, prior + plan, LastOf(prior + plan), CursorAt(now, plan, |plan|), slot)
    ensures IsGreedy(r, prior, now, plan + [slot])
    ensures prior + (plan + [slot]) == (prior + plan) + [slot] && Sorted((prior + plan) + [slot])
  {
    var longer := plan + [slot];
    forall i | 0 <= i < |longer| ensures GreedyAt(r, prior, now, longer, i) {
      assert longer[..|plan|] == plan;
      if i < |plan| {
        assert longer[..i] == plan[..i];
        assert GreedyAt(r, prior, now, plan, i);
      }
    }
    assert prior + longer == (prior + plan) + [slot];
    var full := prior + plan;
    SortedAppend(full, slot);
  }
}
