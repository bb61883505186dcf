/** Whole runs of one account: claims against the stored ledger, and its pruning. */
module SendLedger {
  import opened Clock
  import opened Limits
  import opened Budgeting
  import opened Simulator

  const RETENTION: Duration := 7 * 24 * 3600 * NS_PER_SECOND

  // ----- rolling windows -----

  // How many entries lie in the half-open interval (lo, hi].
  ghost function CountIn(s: seq<Time>, lo: Time, hi: Time): nat {
    if s == [] then 0
    else CountIn(s[..|s| - 1], lo, hi) + if lo < s[|s| - 1] <= hi then 1 else 0
  }

  ghost function Load(tier: Tier, s: seq<Time>, t: Time): nat {
    CountIn(s, t - Seconds(tier.windowSeconds), t)
  }

  // Every rolling interval (t - window, t] holds at most maxSends entries.
  ghost predicate Compliant(tiers: seq<Tier>, s: seq<Time>) {
    forall i, t | 0 <= i < |tiers| && tiers[i].maxSends > 0 :: Load(tiers[i], s, t) <= tiers[i].maxSends
  }

  ghost predicate Spaced(gap: Duration, s: seq<Time>) {
    forall i | 0 < i < |s| :: s[i - 1] + gap <= s[i]
  }

  lemma {:induction false} CountInSorted(s: seq<Time>, lo: Time, hi: Time)
    requires forall i | 0 <= i < |s| :: s[i] <= hi
    ensures CountIn(s, lo, hi) == CountAfter(s, lo)
  {
    if s != [] {
      CountInSorted(s[..|s| - 1], lo, hi);
    }
  }

  lemma {:induction false} CountInNarrow(s: seq<Time>, lo: Time, lo': Time, hi: Time, hi': Time)
    requires lo <= lo'
    requires forall i | 0 <= i < |s| :: s[i] <= hi
    ensures CountIn(s, lo', hi') <= CountIn(s, lo, hi)
  {
    if s != [] {
      CountInNarrow(s[..|s| - 1], lo, lo', hi, hi');
    }
  }

  // Recording a send that the budget permits keeps every rolling interval within its cap.
  lemma SendKeepsCompliance(tiers: seq<Tier>, s: seq<Time>, minInterval: Duration, at: Time)
    requires Compliant(tiers, s) && Permits(tiers, s, minInterval, LastOf(s), at)
    requires forall i | 0 <= i < |s| :: s[i] <= at
    ensures Compliant(tiers, s + [at])
  {
    var s' := s + [at];
    assert s'[..|s|] == s;
    forall i, t | 0 <= i < |tiers| && tiers[i].maxSends > 0 ensures Load(tiers[i], s', t) <= tiers[i].maxSends {
      var w := Seconds(tiers[i].windowSeconds);
      assert Load(tiers[i], s, t) <= tiers[i].maxSends && HasRoom(tiers[i], s, at);
      if t - w < at <= t {
        CountInSorted(s, at - w, at);
        CountInNarrow(s, at - w, t - w, at, t);
      }
    }
  }

  // ----- the run -----

  /** A claim draws its own interval (base plus jitter); lookback is the worst draw it must cover. */
  datatype Event =
    | Claim(at: Time, interval: Duration, lookback: Duration)
    | Prune(at: Time)

  /** log is what the store still holds, history everything ever sent. */
  datatype State = State(clock: Time, log: seq<Time>, history: seq<Time>)

  function Newer(log: seq<Time>, cut: Time): seq<Time> {
    if log == [] then [] else (if log[0] > cut then [log[0]] else []) + Newer(log[1..], cut)
  }

  // What a claim reads back from the store.
  function Attempts(tiers: seq<Tier>, log: seq<Time>, at: Time, lookback: Duration): seq<Time> {
    Newer(log, at - Reach(tiers, lookback))
  }

  ghost function Step(tiers: seq<Tier>, s: State, e: Event): State {
    match e
    case Claim(at, interval, lookback) =>
      var attempts := Attempts(tiers, s.log, at, lookback);
      if Granted(tiers, attempts, interval, LastOf(attempts), at) then
        State(at, s.log + [at], s.history + [at])
      else
        s.(clock := at)
    case Prune(at) =>  // rows older than the retention go; a row exactly that old stays
      State(at, Newer(s.log, at - RETENTION - 1), s.history)
  }

  ghost function Run(tiers: seq<Tier>, s: State, events: seq<Event>): State {
    if events == [] then s
    else Step(tiers, Run(tiers, s, events[..|events| - 1]), events[|events| - 1])
  }

  // The run a limiter with perfect memory would have made.
  ghost function IdealRun(tiers: seq<Tier>, history: seq<Time>, events: seq<Event>): seq<Time> {
    if events == [] then history
    else
      var sent := IdealRun(tiers, history, events[..|events| - 1]);
      var e := events[|events| - 1];
      if e.Claim? && Permits(tiers, sent, e.interval, LastOf(sent), e.at) then sent + [e.at] else sent
  }

  // The clock never goes back, and no claim's interval is below gap.
  ghost predicate Timely(clock: Time, gap: Duration, events: seq<Event>) {
    && (forall i | 0 <= i < |events| :: clock <= events[i].at)
    && (forall i, j | 0 <= i < j < |events| :: events[i].at <= events[j].at)
    && (forall i | 0 <= i < |events| && events[i].Claim? ::
          gap <= events[i].interval <= events[i].lookback <= RETENTION)
  }

  ghost predicate Remembers(s: State, k: nat) {
    && Sorted(s.history) && (forall i | 0 <= i < |s.history| :: s.history[i] <= s.clock)
    && Forgotten(s.history, k, s.clock - RETENTION) && s.log == s.history[k..]
  }

  lemma {:induction false} NewerAll(log: seq<Time>, cut: Time)
    requires forall i | 0 <= i < |log| :: log[i] > cut
    ensures Newer(log, cut) == log
  {
    if log != [] {
      NewerAll(log[1..], cut);
    }
  }

  lemma {:induction false} NewerIsSuffix(log: seq<Time>, cut: Time) returns (k: nat)
    requires Sorted(log)
    ensures Forgotten(log, k, cut) && Newer(log, cut) == log[k..]
  {
    if log == [] || log[0] > cut {
      NewerAll(log, cut);
      k := 0;
    } else {
      var j := NewerIsSuffix(log[1..], cut);
      k := j + 1;
      assert log[1..][j..] == log[k..];
    }
  }

  function Reach(tiers: seq<Tier>, lookback: Duration): Duration {
    var widest := Seconds(WidestWindow(tiers));
    if lookback > widest then lookback else widest
  }

  lemma DroppedTwice(s: seq<Time>, k: nat, j: nat, cut: Time, cut': Time)
    requires Forgotten(s, k, cut) && cut <= cut' && Forgotten(s[k..], j, cut')
    ensures Forgotten(s, k + j, cut') && s[k..][j..] == s[k + j..]
  {
  }

  // A claim reads a pruned and windowed ledger, and decides as if it had read everything.
  lemma ClaimDecidesAsIfComplete(tiers: seq<Tier>, s: State, k: nat, at: Time, interval: Duration, lookback: Duration)
    requires ValidTiers(tiers) && Remembers(s, k) && s.clock <= at && interval <= lookback <= RETENTION
    ensures var attempts := Attempts(tiers, s.log, at, lookback);
            Granted(tiers, attempts, interval, LastOf(attempts), at) <==>
            Permits(tiers, s.history, interval, LastOf(s.history), at)
  {
    var j := AttemptsAreSuffix(tiers, s, k, at, lookback);
    SuffixDecidesAlike(tiers, s.history, j, at, interval, lookback);
  }

  lemma AttemptsAreSuffix(tiers: seq<Tier>, s: State, k: nat, at: Time, lookback: Duration) returns (j: nat)
    requires ValidTiers(tiers) && Remembers(s, k) && s.clock <= at && lookback <= RETENTION
    ensures Forgotten(s.history, j, at - Reach(tiers, lookback))
    ensures Attempts(tiers, s.log, at, lookback) == s.history[j..]
  {
    WidestIsRetained(tiers);
    var cut := at - Reach(tiers, lookback);
    var i := NewerIsSuffix(s.log, cut);
    DroppedTwice(s.history, k, i, s.clock - RETENTION, cut);
    j := k + i;
  }

  lemma SuffixDecidesAlike(tiers: seq<Tier>, history: seq<Time>, k: nat, at: Time, interval: Duration,
                           lookback: Duration)
    requires ValidTiers(tiers) && interval <= lookback
    requires Forgotten(history, k, at - Reach(tiers, lookback))
    ensures Granted(tiers, history[k..], interval, LastOf(history[k..]), at) <==>
            Permits(tiers, history, interval, LastOf(history), at)
  {
    var last := LastOf(history[k..]);
    TrimmingKeepsVerdict(Rules(tiers, interval, [], []), history, k, at, last, at);
    ValidTiersAreExact(tiers);
    assert AlwaysExact(tiers);
    assert last != LastOf(history) ==> IntervalElapsed(interval, LastOf(history), at);
  }

  lemma {:induction false} WidestIsRetained(tiers: seq<Tier>)
    requires forall i | 0 <= i < |tiers| :: ValidTier(tiers[i])
    ensures Seconds(WidestWindow(tiers)) <= RETENTION
  {
    if tiers != [] {
      WidestIsRetained(tiers[..|tiers| - 1]);
    }
  }

  lemma PruneRemembers(s: State, k: nat, at: Time) returns (k': nat)
    requires Remembers(s, k) && s.clock <= at
    ensures Remembers(State(at, Newer(s.log, at - RETENTION - 1), s.history), k')
  {
    var cut := at - RETENTION - 1;
    var j := NewerIsSuffix(s.log, cut);
    DroppedTwice(s.history, k, j, s.clock - RETENTION, at - RETENTION);
    k' := k + j;
  }

  lemma StepRemembers(tiers: seq<Tier>, s: State, k: nat, gap: Duration, e: Event) returns (k': nat)
    requires ValidTiers(tiers) && Remembers(s, k) && Timely(s.clock, gap, [e])
    ensures Remembers(Step(tiers, s, e), k')
    ensures Step(tiers, s, e).clock == e.at
  {
    assert [e][0] == e;
    if e.Prune? {
      k' := PruneRemembers(s, k, e.at);
    } else {
      k' := k;
      assert (s.history + [e.at])[k..] == s.history[k..] + [e.at];
    }
  }

  // Pruning and windowed reads never change a run: it sends exactly what perfect memory would have sent.
  lemma {:induction false} RunRefinesIdeal(tiers: seq<Tier>, s: State, gap: Duration, events: seq<Event>)
    returns (k: nat)
    requires ValidTiers(tiers) && Remembers(s, 0) && Timely(s.clock, gap, events)
    ensures Remembers(Run(tiers, s, events), k)
    ensures Run(tiers, s, events).history == IdealRun(tiers, s.history, events)
    ensures Run(tiers, s, events).clock == if events == [] then s.clock else events[|events| - 1].at
  {
    if events == [] {
      k := 0;
    } else {
      var before, e := events[..|events| - 1], events[|events| - 1];
      k := RunRefinesIdeal(tiers, s, gap, before);
      var mid := Run(tiers, s, before);
      if e.Claim? {
        ClaimDecidesAsIfComplete(tiers, mid, k, e.at, e.interval, e.lookback);
      }
      assert Timely(mid.clock, gap, [e]);
      k := StepRemembers(tiers, mid, k, gap, e);
    }
  }

  // Whole-run safety: whatever the claims, their jitter and the pruning, no rolling
  // interval ever exceeds its cap and no two consecutive sends come closer than gap.
  lemma {:induction false} EveryRunIsSafe(tiers: seq<Tier>, s: State, gap: Duration, events: seq<Event>)
    requires ValidTiers(tiers) && Remembers(s, 0) && Timely(s.clock, gap, events)
    requires Compliant(tiers, s.history) && Spaced(gap, s.history)
    ensures Compliant(tiers, Run(tiers, s, events).history)
    ensures Spaced(gap, Run(tiers, s, events).history)
  {
    hide Timely, Compliant, Spaced, Remembers, Step;
    if events != [] {
      var before, e := events[..|events| - 1], events[|events| - 1];
      LastIsTimely(s.clock, gap, events);
      EveryRunIsSafe(tiers, s, gap, before);
      var k := RunRefinesIdeal(tiers, s, gap, before);
      StepIsSafe(tiers, Run(tiers, s, before), k, gap, e);
    }
  }

  lemma LastIsTimely(clock: Time, gap: Duration, events: seq<Event>)
    requires Timely(clock, gap, events) && events != []
    ensures var before, e := events[..|events| - 1], events[|events| - 1];
            Timely(clock, gap, before) && Timely(if before == [] then clock else before[|before| - 1].at, gap, [e])
  {
  }

  lemma StepIsSafe(tiers: seq<Tier>, s: State, k: nat, gap: Duration, e: Event)
    requires ValidTiers(tiers) && Remembers(s, k) && Timely(s.clock, gap, [e])
    requires Compliant(tiers, s.history) && Spaced(gap, s.history)
    ensures Compliant(tiers, Step(tiers, s, e).history)
    ensures Spaced(gap, Step(tiers, s, e).history)
  {
    assert [e][0] == e;
    if e.Claim? {
      ClaimDecidesAsIfComplete(tiers, s, k, e.at, e.interval, e.lookback);
      if Permits(tiers, s.history, e.interval, LastOf(s.history), e.at) {
        SendKeepsCompliance(tiers, s.history, e.interval, e.at);
      }
    }
  }

  // ----- plans that obey the caps -----

  // An independent account of a lawful plan: the complete record stays within every
  // rolling cap, keeps its gaps, and every send falls in an open minute from now on.
  ghost predicate Lawful(r: Rules, prior: seq<Time>, now: Time, plan: seq<Time>) {
    && Compliant(r.tiers, prior + plan)
    && (forall i | 0 <= i < |plan| :: now <= plan[i] && Open(r, plan[i]))
    && (forall i | 0 <= i < |plan| :: IntervalElapsed(r.minInterval, LastOf(LedgerAt(prior, plan, i)), plan[i]))
  }

  lemma {:induction false} CountInPrefix(s: seq<Time>, k: nat, lo: Time, hi: Time)
    requires k <= |s|
    ensures CountIn(s[..k], lo, hi) <= CountIn(s, lo, hi)
    decreases |s| - k
  {
    if k < |s| {
      CountInPrefix(s, k + 1, lo, hi);
      assert s[..k + 1][..k] == s[..k];
    } else {
      assert s[..k] == s;
    }
  }

  lemma {:induction false} PlanStaysSorted(r: Rules, prior: seq<Time>, now: Time, plan: seq<Time>, i: nat)
    requires Sorted(prior) && 0 <= r.minInterval && i <= |plan|
    requires forall k | 0 <= k < |plan| :: IntervalElapsed(r.minInterval, LastOf(LedgerAt(prior, plan, k)), plan[k])
    ensures Sorted(LedgerAt(prior, plan, i))
  {
    if i == 0 {
      assert LedgerAt(prior, plan, 0) == prior;
    } else {
      PlanStaysSorted(r, prior, now, plan, i - 1);
      var ledger := LedgerAt(prior, plan, i - 1);
      assert LedgerAt(prior, plan, i) == ledger + [plan[i - 1]];
      assert IntervalElapsed(r.minInterval, LastOf(ledger), plan[i - 1]);
      SortedAppend(ledger, plan[i - 1]);
    }
  }

  lemma LawfulIsFeasible(r: Rules, prior: seq<Time>, now: Time, plan: seq<Time>)
    requires Sorted(prior) && 0 <= r.minInterval && Lawful(r, prior, now, plan)
    ensures Feasible(r, prior, now, plan)
  {
    forall i | 0 <= i < |plan| ensures FeasibleAt(r, prior, now, plan, i) {
      var ledger, t := LedgerAt(prior, plan, i), plan[i];
      PlanStaysSorted(r, prior, now, plan, i + 1);
      assert LedgerAt(prior, plan, i + 1) == ledger + [t] <= prior + plan;
      CompliantLedgerHasRoom(r.tiers, prior + plan, ledger, t);
    }
  }

  lemma CompliantLedgerHasRoom(tiers: seq<Tier>, s: seq<Time>, ledger: seq<Time>, t: Time)
    requires Compliant(tiers, s) && Sorted(ledger + [t]) && ledger + [t] <= s
    ensures forall i | 0 <= i < |tiers| :: HasRoom(tiers[i], ledger, t)
  {
    forall k | 0 <= k < |tiers| && tiers[k].maxSends > 0 ensures HasRoom(tiers[k], ledger, t) {
      assert Load(tiers[k], s, t) <= tiers[k].maxSends;
      LoadedLedgerHasRoom(tiers[k], s, ledger, t);
    }
  }

  lemma LoadedLedgerHasRoom(tier: Tier, s: seq<Time>, ledger: seq<Time>, t: Time)
    requires Sorted(ledger + [t]) && ledger + [t] <= s
    requires Load(tier, s, t) <= tier.maxSends
    ensures HasRoom(tier, ledger, t)
  {
    assert forall i | 0 <= i < |ledger| :: ledger[i] == (ledger + [t])[i] <= (ledger + [t])[|ledger|];
    if tier.windowSeconds <= 0 {
      CountAfterNone(ledger, t - Seconds(tier.windowSeconds));
      return;
    }
    var lo, upTo := t - Seconds(tier.windowSeconds), ledger + [t];
    assert s[..|upTo|] == upTo && upTo[..|ledger|] == ledger && upTo[|ledger|] == t;
    CountInPrefix(s, |upTo|, lo, t);
    forall i | 0 <= i < |upTo| ensures upTo[i] <= t {}
    CountInSorted(upTo, lo, t);
  }

  // The projection is optimal: no lawful schedule has its i-th send before the simulated one.
  lemma NoLawfulScheduleIsFaster(r: Rules, prior: seq<Time>, now: Time, plan: seq<Time>, other: seq<Time>)
    requires Sorted(prior) && 0 <= r.minInterval
    requires IsGreedy(r, prior, now, plan) && Lawful(r, prior, now, other) && |plan| == |other|
    ensures forall i | 0 <= i < |plan| :: plan[i] <= other[i]
  {
    LawfulIsFeasible(r, prior, now, other);
    forall i | 0 <= i < |plan| ensures plan[i] <= other[i] {
      GreedyIsOptimal(r, prior, now, plan, other, i);
    }
  }

  // And the simulated schedule is itself lawful when the prior ledger is.
  lemma GreedyIsLawful(r: Rules, prior: seq<Time>, now: Time, plan: seq<Time>)
    requires Sorted(prior) && 0 <= r.minInterval && Compliant(r.tiers, prior)
    requires IsGreedy(r, prior, now, plan)
    ensures Lawful(r, prior, now, plan)
  {
    forall i | 0 <= i < |plan| ensures FeasibleAt(r, prior, now, plan, i) {
      GreedyIsFeasible(r, prior, now, plan, i);
    }
    forall k | 0 <= k < |plan|
      ensures now <= plan[k] && Open(r, plan[k])
      ensures IntervalElapsed(r.minInterval, LastOf(LedgerAt(prior, plan, k)), plan[k])
    {
      assert FeasibleAt(r, prior, now, plan, k);
    }
    FeasibleStaysCompliant(r, prior, now, plan, |plan|);
    assert LedgerAt(prior, plan, |plan|) == prior + plan;
  }

  lemma {:induction false} FeasibleStaysCompliant(r: Rules, prior: seq<Time>, now: Time, plan: seq<Time>, i: nat)
    requires Sorted(prior) && 0 <= r.minInterval && Compliant(r.tiers, prior)
    requires Feasible(r, prior, now, plan) && i <= |plan|
    ensures Compliant(r.tiers, LedgerAt(prior, plan, i)) && Sorted(LedgerAt(prior, plan, i))
  {
    if i == 0 {
      assert LedgerAt(prior, plan, 0) == prior;
    } else {
      FeasibleStaysCompliant(r, prior, now, plan, i - 1);
      assert FeasibleAt(r, prior, now, plan, i - 1);
      var ledger := LedgerAt(prior, plan, i - 1);
      assert LedgerAt(prior, plan, i) == ledger + [plan[i - 1]];
      assert ledger != [] ==> ledger[|ledger| - 1] <= plan[i - 1];
      SendKeepsCompliance(r.tiers, ledger, r.minInterval, plan[i - 1]);
    }
  }
}
