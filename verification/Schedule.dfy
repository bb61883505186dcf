/** The weekly-schedule contract: canonical form, texts and interval classification. */
module Schedules {
  import opened Wrappers
  import opened Text
  import opened Permutations

  datatype Break = Break(start: string, end: string)

  /** One worked weekday; day is a display label that nothing reasons about. */
  datatype Day = Day(ref: string, day: string, start: string, end: string, breaks: seq<Break>)

  type Schedule = seq<Day>

  const WEEKDAY_ORDER: seq<string> := ["mon", "tue", "wed", "thu", "fri", "sat", "sun"]

  predicate ValidWeekday(ref: string) {
    ref in WEEKDAY_ORDER
  }

  function WeekdayIndex(ref: string): nat {
    if ref == "mon" then 0 else if ref == "tue" then 1 else if ref == "wed" then 2 else if ref == "thu" then 3
    else if ref == "fri" then 4 else if ref == "sat" then 5 else 6
  }

  lemma WeekdayIndexInjective(a: string, b: string)
    requires ValidWeekday(a) && ValidWeekday(b)
    ensures WeekdayIndex(a) == WeekdayIndex(b) <==> a == b
    ensures WeekdayIndex(a) < 7 && WEEKDAY_ORDER[WeekdayIndex(a)] == a
  {
  }

  // ----- clock times -----

  // ^([01]\d|2[0-3]):[0-5]\d$
  predicate ValidHHMM(s: string) {
    && |s| == 5 && IsDigit(s[0]) && IsDigit(s[1]) && s[2] == ':' && IsDigit(s[3]) && IsDigit(s[4])
    && (s[0] <= '1' || (s[0] == '2' && s[1] <= '3'))
    && s[3] <= '5'
  }

  function ParseHHMM(s: string): (m: nat)
    requires ValidHHMM(s)
    ensures m < 1440
  {
    (DigitValue(s[0]) * 10 + DigitValue(s[1])) * 60 + DigitValue(s[3]) * 10 + DigitValue(s[4])
  }

  // Text order on valid clock times is minute order, and distinct texts are distinct minutes.
  lemma TextOrderIsMinuteOrder(a: string, b: string)
    requires ValidHHMM(a) && ValidHHMM(b)
    ensures Less(a, b) <==> ParseHHMM(a) < ParseHHMM(b)
    ensures a == b <==> ParseHHMM(a) == ParseHHMM(b)
  {
    LessFrom(a, b, 0);
    LessFrom(a, b, 1);
    LessFrom(a, b, 2);
    LessFrom(a, b, 3);
    LessFrom(a, b, 4);
    assert a[5..] == "" && b[5..] == "" && a[0..] == a && b[0..] == b;
    FirstDifference(a, b);
  }

  lemma FirstDifference(a: string, b: string)
    requires |a| == 5 && |b| == 5
    ensures a == b <==> forall i | 0 <= i < 5 :: a[i] == b[i]
  {
  }

  lemma LessFrom(a: string, b: string, i: nat)
    requires |a| == |b| && i < |a|
    ensures Less(a[i..], b[i..]) <==> a[i] < b[i] || (a[i] == b[i] && Less(a[i + 1..], b[i + 1..]))
  {
    assert a[i..][1..] == a[i + 1..] && b[i..][1..] == b[i + 1..];
  }

  // ----- which schedules are acceptable -----

  predicate BreakOK(b: Break, lo: nat, hi: nat) {
    && ValidHHMM(b.start) && ValidHHMM(b.end)
    && lo <= ParseHHMM(b.start) < ParseHHMM(b.end) <= hi
  }

  predicate Apart(b: Break, c: Break) {
    && ValidHHMM(b.start) && ValidHHMM(b.end) && ValidHHMM(c.start) && ValidHHMM(c.end)
    && (ParseHHMM(b.end) <= ParseHHMM(c.start) || ParseHHMM(c.end) <= ParseHHMM(b.start))
  }

  predicate BreaksOK(breaks: seq<Break>, lo: nat, hi: nat) {
    (forall i | 0 <= i < |breaks| :: BreakOK(breaks[i], lo, hi)) && Pairwise(breaks, Apart)
  }

  predicate DayOK(d: Day) {
    && ValidWeekday(d.ref) && ValidHHMM(d.start) && ValidHHMM(d.end)
    && ParseHHMM(d.start) < ParseHHMM(d.end)
    && BreaksOK(d.breaks, ParseHHMM(d.start), ParseHHMM(d.end))
  }

  predicate OtherDay(d: Day, e: Day) {
    d.ref != e.ref
  }

  predicate Acceptable(s: Schedule) {
    (forall i | 0 <= i < |s| :: DayOK(s[i])) && Pairwise(s, OtherDay)
  }

  // ----- canonical form -----

  // b is over when c begins.
  predicate Precedes(b: Break, c: Break) {
    ValidHHMM(b.end) && ValidHHMM(c.start) && ParseHHMM(b.end) <= ParseHHMM(c.start)
  }

  ghost predicate CanonicalBreaks(breaks: seq<Break>) {
    Pairwise(breaks, Precedes)
  }

  ghost predicate IsCanonical(s: Schedule) {
    && Increasing(Map(s, (d: Day) => WeekdayIndex(d.ref)))
    && forall i | 0 <= i < |s| :: CanonicalBreaks(s[i].breaks)
  }

  /** A day up to the order of its breaks. */
  datatype Unordered = Unordered(ref: string, day: string, start: string, end: string, breaks: multiset<Break>)

  function Fold(d: Day): Unordered {
    Unordered(d.ref, d.day, d.start, d.end, multiset(d.breaks))
  }

  // The same days with the same breaks, in whatever order.
  ghost predicate Reordered(s: Schedule, t: Schedule) {
    multiset(Map(s, Fold)) == multiset(Map(t, Fold))
  }

  function InsertBreak(b: Break, s: seq<Break>): (r: seq<Break>)
    ensures multiset(r) == multiset(s) + multiset{b} && |r| == |s| + 1
  {
    if s == [] || !Less(s[0].start, b.start) then [b] + s
    else
      assert s == [s[0]] + s[1..];
      [s[0]] + InsertBreak(b, s[1..])
  }

  // Any sort by start text does here: see CanonicalIsUnique.
  function SortBreaks(s: seq<Break>): (r: seq<Break>)
    ensures multiset(r) == multiset(s) && |r| == |s|
  {
    if s == [] then []
    else
      assert s == [s[0]] + s[1..];
      InsertBreak(s[0], SortBreaks(s[1..]))
  }

  function InsertDay(d: Day, s: Schedule): (r: Schedule)
    ensures multiset(r) == multiset(s) + multiset{d} && |r| == |s| + 1
  {
    if s == [] || WeekdayIndex(d.ref) <= WeekdayIndex(s[0].ref) then [d] + s
    else
      assert s == [s[0]] + s[1..];
      [s[0]] + InsertDay(d, s[1..])
  }

  function SortDays(s: Schedule): (r: Schedule)
    ensures multiset(r) == multiset(s) && |r| == |s|
  {
    if s == [] then []
    else
      assert s == [s[0]] + s[1..];
      InsertDay(s[0], SortDays(s[1..]))
  }

  function TidyDay(d: Day): Day {
    d.(breaks := SortBreaks(d.breaks))
  }

  function Canonical(s: Schedule): Schedule {
    SortDays(Map(s, TidyDay))
  }

  lemma {:induction false} LessAsymmetric(a: string, b: string)
    requires Less(a, b)
    ensures !Less(b, a)
  {
    if a != "" && a[0] == b[0] {
      LessAsymmetric(a[1..], b[1..]);
    }
  }

  ghost predicate TextSorted(s: seq<Break>) {
    forall i | 0 < i < |s| :: !Less(s[i].start, s[i - 1].start)
  }

  lemma {:induction false} InsertKeepsTextSorted(b: Break, s: seq<Break>)
    requires TextSorted(s)
    ensures TextSorted(InsertBreak(b, s))
  {
    if s != [] && Less(s[0].start, b.start) {
      assert TextSorted(s[1..]) by {
        forall i | 0 < i < |s[1..]| ensures !Less(s[1..][i].start, s[1..][i - 1].start) {
          assert !Less(s[i + 1].start, s[i].start);
        }
      }
      InsertKeepsTextSorted(b, s[1..]);
      LessAsymmetric(s[0].start, b.start);
      var rest := InsertBreak(b, s[1..]);
      assert rest[0] == b || rest[0] == s[1];
      assert |s| > 1 ==> !Less(s[1].start, s[0].start);
    } else {
      forall i | 0 < i < |[b] + s| ensures !Less(([b] + s)[i].start, ([b] + s)[i - 1].start) {
        assert i > 1 ==> !Less(s[i - 1].start, s[i - 2].start);
      }
    }
  }

  lemma {:induction false} SortIsTextSorted(s: seq<Break>)
    ensures TextSorted(SortBreaks(s))
  {
    if s != [] {
      SortIsTextSorted(s[1..]);
      InsertKeepsTextSorted(s[0], SortBreaks(s[1..]));
    }
  }

  ghost predicate DaysSorted(s: Schedule) {
    forall i, j | 0 <= i < j < |s| :: WeekdayIndex(s[i].ref) <= WeekdayIndex(s[j].ref)
  }

  lemma {:induction false} SortDaysSorts(s: Schedule)
    ensures DaysSorted(SortDays(s))
  {
    if s != [] {
      SortDaysSorts(s[1..]);
      InsertKeepsDaysSorted(s[0], SortDays(s[1..]));
    }
  }

  lemma {:induction false} InsertKeepsDaysSorted(d: Day, s: Schedule)
    requires DaysSorted(s)
    ensures DaysSorted(InsertDay(d, s))
  {
    if s != [] && WeekdayIndex(d.ref) > WeekdayIndex(s[0].ref) {
      hide WeekdayIndex;
      InsertKeepsDaysSorted(d, s[1..]);
      var rest := InsertDay(d, s[1..]);
      forall i | 0 <= i < |rest| ensures WeekdayIndex(s[0].ref) <= WeekdayIndex(rest[i].ref) {
        assert rest[i] in multiset(rest);
        assert rest[i] == d || rest[i] in s[1..];
      }
    }
  }

  // ----- normalisation -----

  // Sorts one day's breaks and checks each against the shift and its predecessor only.
  method NormalizeBreaks(d: Day) returns (r: Result<seq<Break>>)
    requires ValidHHMM(d.start) && ValidHHMM(d.end)
    ensures r.Success? <==> BreaksOK(d.breaks, ParseHHMM(d.start), ParseHHMM(d.end))
    ensures r.Success? ==> r.value == SortBreaks(d.breaks) && CanonicalBreaks(r.value)
  {
    hide ValidHHMM, ParseHHMM;
    var start, end := ParseHHMM(d.start), ParseHHMM(d.end);
    var breaks := SortBreaks(d.breaks);
    SortIsTextSorted(d.breaks);
    ghost var ok := BreaksOK(d.breaks, start, end);
    BreaksOKPermutes(d.breaks, breaks, start, end);
    var prevEnd: int := -1;
    for i := 0 to |breaks|
      invariant forall k | 0 <= k < i :: BreakOK(breaks[k], start, end)
      invariant CanonicalBreaks(breaks[..i])
      invariant prevEnd == if i == 0 then -1 else ParseHHMM(breaks[i - 1].end)
    {
      var br := breaks[i];
      if !ValidHHMM(br.start) {
        return Failure("break has an invalid start time");
      }
      if !ValidHHMM(br.end) {
        return Failure("break has an invalid end time");
      }
      var bStart, bEnd := ParseHHMM(br.start), ParseHHMM(br.end);
      if bStart >= bEnd {
        return Failure("break start must be before break end");
      }
      if bStart < start || bEnd > end {
        return Failure("break is not inside the shift");
      }
      if prevEnd >= 0 && bStart < prevEnd {
        TextOrderIsMinuteOrder(br.start, breaks[i - 1].start);
        assert !Apart(breaks[i - 1], breaks[i]);
        return Failure("breaks overlap");
      }
      CanonicalExtends(breaks, i, start, end);
      prevEnd := bEnd;
    }
    assert breaks[..|breaks|] == breaks;
    return Success(breaks);
  }

  lemma CanonicalExtends(breaks: seq<Break>, i: nat, lo: nat, hi: nat)
    requires i < |breaks| && CanonicalBreaks(breaks[..i])
    requires forall k | 0 <= k <= i :: BreakOK(breaks[k], lo, hi)
    requires i > 0 ==> Precedes(breaks[i - 1], breaks[i])
    ensures CanonicalBreaks(breaks[..i + 1])
  {
  }

  lemma BreaksOKPermutes(s: seq<Break>, t: seq<Break>, lo: nat, hi: nat)
    requires multiset(s) == multiset(t)
    ensures BreaksOK(s, lo, hi) <==> BreaksOK(t, lo, hi)
  {
    if BreaksOK(s, lo, hi) {
      BreaksOKReorders(s, t, lo, hi);
    }
    if BreaksOK(t, lo, hi) {
      BreaksOKReorders(t, s, lo, hi);
    }
  }

  lemma BreaksOKReorders(s: seq<Break>, t: seq<Break>, lo: nat, hi: nat)
    requires multiset(s) == multiset(t) && BreaksOK(s, lo, hi)
    ensures BreaksOK(t, lo, hi)
  {
    forall i | 0 <= i < |t| ensures BreakOK(t[i], lo, hi) {
      assert t[i] in multiset(s);
      var j := IndexOf(s, t[i]);
    }
    PairwisePermutes(s, t, Apart);
  }

  method NormalizeSchedule(s: Schedule) returns (r: Result<Schedule>)
    ensures r.Success? <==> Acceptable(s)
    ensures r.Success? ==> r.value == Canonical(s)
  {
    hide TidyDay, ValidHHMM, ParseHHMM, BreaksOK, Reordered;
    if |s| == 0 {
      return Success([]);
    }
    if |s| > |WEEKDAY_ORDER| {
      if Acceptable(s) {
        AtMostSevenDays(s);
      }
      return Failure("more entries than weekdays");
    }
    var out: Schedule := [];
    var seen: set<string> := {};
    for i := 0 to |s|
      invariant out == Map(s[..i], TidyDay) && Acceptable(s[..i])
      invariant forall r :: r in seen <==> exists k | 0 <= k < i :: s[k].ref == r
    {
      var d := s[i];
      if !ValidWeekday(d.ref) {
        return Failure("invalid ref");
      }
      if d.ref in seen {
        RepeatedRef(s, i);
        return Failure("appears more than once");
      }
      seen := seen + {d.ref};
      var tidy := NormalizeDay(d);
      if tidy.Failure? {
        return Failure(tidy.error);
      }
      out := out + [tidy.value];
      AcceptableExtends(s, i);
    }
    assert s[..|s|] == s;
    return Success(SortDays(out));
  }

  method NormalizeDay(d: Day) returns (r: Result<Day>)
    requires ValidWeekday(d.ref)
    ensures r.Success? <==> DayOK(d)
    ensures r.Success? ==> r.value == TidyDay(d)
  {
    if !ValidHHMM(d.start) {
      return Failure("invalid start time");
    }
    if !ValidHHMM(d.end) {
      return Failure("invalid end time");
    }
    if ParseHHMM(d.start) >= ParseHHMM(d.end) {
      return Failure("start must be before end");
    }
    var breaks := NormalizeBreaks(d);
    if breaks.Failure? {
      return Failure(breaks.error);
    }
    return Success(d.(breaks := breaks.value));
  }

  lemma RepeatedRef(s: Schedule, i: nat)
    requires i < |s| && exists k | 0 <= k < i :: s[k].ref == s[i].ref
    ensures !Acceptable(s)
  {
  }

  lemma AcceptableExtends(s: Schedule, i: nat)
    requires i < |s| && Acceptable(s[..i]) && DayOK(s[i])
    requires forall k | 0 <= k < i :: s[k].ref != s[i].ref
    ensures Acceptable(s[..i + 1])
    ensures Map(s[..i + 1], TidyDay) == Map(s[..i], TidyDay) + [TidyDay(s[i])]
  {
    hide DayOK;
    var shorter, longer := s[..i], s[..i + 1];
    forall k | 0 <= k < |longer| ensures DayOK(longer[k]) {
      assert k < i ==> DayOK(shorter[k]);
    }
    forall k, j | 0 <= k < j < |longer| ensures OtherDay(longer[k], longer[j]) {
      assert j < i ==> OtherDay(shorter[k], shorter[j]);
    }
  }

  lemma AtMostSevenDays(s: Schedule)
    requires Acceptable(s)
    ensures |s| <= 7
  {
    if |s| > 7 {
      var at := Map(s, (d: Day) => WeekdayIndex(d.ref));
      forall i, j | 0 <= i < j < |s| ensures at[i] != at[j] {
        assert OtherDay(s[i], s[j]);
        WeekdayIndexInjective(s[i].ref, s[j].ref);
      }
      forall i | 0 <= i < |s| ensures 0 <= at[i] < 7 {
        WeekdayIndexInjective(s[i].ref, s[i].ref);
      }
      Pigeonhole(at, 7);
    }
  }

  lemma {:induction false} Pigeonhole(s: seq<int>, n: nat)
    requires forall i, j | 0 <= i < j < |s| :: s[i] != s[j]
    requires forall i | 0 <= i < |s| :: 0 <= s[i] < n
    ensures |s| <= n
  {
    var head := if s == [] then 0 else s[0];
    if n > 0 {
      if k :| 0 <= k < |s| && s[k] == n - 1 {
        Pigeonhole(s[..k] + s[k + 1..], n - 1);
      } else {
        Pigeonhole(s, n - 1);
      }
    }
  }

  // ----- the canonical form is the only one -----

  lemma CanonicalIsCanonical(s: Schedule)
    requires Acceptable(s)
    ensures IsCanonical(Canonical(s)) && Reordered(s, Canonical(s)) && Acceptable(Canonical(s))
  {
    var tidy, out := Map(s, TidyDay), Canonical(s);
    assert Map(s, Fold) == Map(tidy, Fold);
    MapMultiset(tidy, out, Fold);
    AcceptablePermutes(s, out);
    forall i | 0 <= i < |out| ensures CanonicalBreaks(out[i].breaks) {
      assert out[i] in multiset(tidy);
      var j := IndexOf(tidy, out[i]);
      SortedBreaksAreCanonical(s[j]);
    }
    SortDaysSorts(tidy);
    DistinctSortedIncrease(out);
  }

  lemma DistinctSortedIncrease(s: Schedule)
    requires DaysSorted(s) && Acceptable(s)
    ensures Increasing(Map(s, (d: Day) => WeekdayIndex(d.ref)))
  {
    forall i, j | 0 <= i < j < |s| ensures WeekdayIndex(s[i].ref) < WeekdayIndex(s[j].ref) {
      assert OtherDay(s[i], s[j]) && DayOK(s[i]) && DayOK(s[j]);
      WeekdayIndexInjective(s[i].ref, s[j].ref);
    }
  }

  lemma SortedBreaksAreCanonical(d: Day)
    requires DayOK(d)
    ensures DayOK(TidyDay(d)) && CanonicalBreaks(TidyDay(d).breaks)
  {
    hide ValidHHMM, ParseHHMM;
    var lo, hi := ParseHHMM(d.start), ParseHHMM(d.end);
    var breaks := SortBreaks(d.breaks);
    BreaksOKPermutes(d.breaks, breaks, lo, hi);
    SortIsTextSorted(d.breaks);
    assert breaks[..0] == [];
    for i := 0 to |breaks|
      invariant CanonicalBreaks(breaks[..i])
    {
      if i > 0 {
        assert Apart(breaks[i - 1], breaks[i]);
        TextOrderIsMinuteOrder(breaks[i].start, breaks[i - 1].start);
      }
      CanonicalExtends(breaks, i, lo, hi);
    }
    assert breaks[..|breaks|] == breaks;
  }

  // Two canonical schedules with the same days and breaks are the same schedule, however they were sorted.
  lemma CanonicalIsUnique(s: Schedule, t: Schedule)
    requires Acceptable(s) && Acceptable(t) && IsCanonical(s) && IsCanonical(t) && Reordered(s, t)
    ensures s == t
  {
    var index := (d: Day) => WeekdayIndex(d.ref);
    var foldIndex := (f: Unordered) => WeekdayIndex(f.ref);
    MapMultiset(Map(s, Fold), Map(t, Fold), foldIndex);
    assert Map(Map(s, Fold), foldIndex) == Map(s, index);
    assert Map(Map(t, Fold), foldIndex) == Map(t, index);
    IncreasingIsUnique(Map(s, index), Map(t, index));
    assert |s| == |Map(s, index)| == |t|;
    forall i | 0 <= i < |s| ensures s[i] == t[i] {
      assert Map(s, index)[i] == Map(t, index)[i];
      assert Map(s, Fold)[i] in multiset(Map(t, Fold));
      var j := IndexOf(Map(t, Fold), Map(s, Fold)[i]);
      assert Fold(s[i]) == Fold(t[j]);
      assert Map(t, index)[j] == Map(t, index)[i];
      assert i == j;
      CanonicalBreaksUnique(s[i].breaks, t[i].breaks, ParseHHMM(s[i].start), ParseHHMM(s[i].end));
    }
  }

  lemma CanonicalBreaksUnique(s: seq<Break>, t: seq<Break>, lo: nat, hi: nat)
    requires multiset(s) == multiset(t) && CanonicalBreaks(s) && CanonicalBreaks(t)
    requires BreaksOK(s, lo, hi) && BreaksOK(t, lo, hi)
    ensures s == t
  {
    var at := (b: Break) => if ValidHHMM(b.start) then ParseHHMM(b.start) else 0;
    MapMultiset(s, t, at);
    BreakStartsIncrease(s, lo, hi);
    BreakStartsIncrease(t, lo, hi);
    IncreasingIsUnique(Map(s, at), Map(t, at));
    assert |s| == |Map(s, at)| == |t|;
    forall i | 0 <= i < |s| ensures s[i] == t[i] {
      assert s[i] in multiset(t);
      var j := IndexOf(t, s[i]);
      assert Map(t, at)[j] == Map(s, at)[i] == Map(t, at)[i];
      assert i == j;
    }
  }

  lemma BreakStartsIncrease(s: seq<Break>, lo: nat, hi: nat)
    requires CanonicalBreaks(s) && BreaksOK(s, lo, hi)
    ensures Increasing(Map(s, (b: Break) => if ValidHHMM(b.start) then ParseHHMM(b.start) else 0))
  {
  }

  // ----- what follows for the store -----

  lemma AcceptablePermutes(s: Schedule, t: Schedule)
    requires Reordered(s, t) && Acceptable(s)
    ensures Acceptable(t)
  {
    var fs, ft := Map(s, Fold), Map(t, Fold);
    forall i | 0 <= i < |t| ensures DayOK(t[i]) {
      assert ft[i] in multiset(fs);
      var j := IndexOf(fs, ft[i]);
      assert Fold(s[j]) == Fold(t[i]);
      BreaksOKPermutes(s[j].breaks, t[i].breaks, ParseHHMM(s[j].start), ParseHHMM(s[j].end));
    }
    var otherFold := (f: Unordered, g: Unordered) => f.ref != g.ref;
    assert Pairwise(fs, otherFold) by {
      forall i, j | 0 <= i < j < |fs| ensures otherFold(fs[i], fs[j]) {
        assert OtherDay(s[i], s[j]);
      }
    }
    PairwisePermutes(fs, ft, otherFold);
    forall i, j | 0 <= i < j < |t| ensures OtherDay(t[i], t[j]) {
      assert otherFold(ft[i], ft[j]);
    }
  }

  // The verdict and the stored form depend only on which days and breaks there are.
  lemma NormalizationIgnoresOrder(s: Schedule, t: Schedule)
    requires Reordered(s, t)
    ensures Acceptable(s) <==> Acceptable(t)
    ensures Acceptable(s) ==> Canonical(s) == Canonical(t)
  {
    if Acceptable(s) {
      AcceptablePermutes(s, t);
    }
    if Acceptable(t) {
      AcceptablePermutes(t, s);
      CanonicalIsCanonical(s);
      CanonicalIsCanonical(t);
      CanonicalIsUnique(Canonical(s), Canonical(t));
    }
  }

  lemma NormalizationIsIdempotent(s: Schedule)
    requires Acceptable(s)
    ensures Acceptable(Canonical(s)) && Canonical(Canonical(s)) == Canonical(s)
  {
    CanonicalIsCanonical(s);
    NormalizationIgnoresOrder(s, Canonical(s));
  }

  // An accepted day's breaks, as stored: non-empty, inside the shift, and each over before the next begins.
  lemma StoredShape(s: Schedule, i: nat)
    requires Acceptable(s) && i < |Canonical(s)|
    ensures var d := Canonical(s)[i];
            && ValidHHMM(d.start) && ValidHHMM(d.end)
            && (i > 0 ==> WeekdayIndex(Canonical(s)[i - 1].ref) < WeekdayIndex(d.ref))
            && forall k | 0 <= k < |d.breaks| ::
                 && BreakOK(d.breaks[k], ParseHHMM(d.start), ParseHHMM(d.end))
                 && (k > 0 ==> Precedes(d.breaks[k - 1], d.breaks[k]))
  {
    CanonicalIsCanonical(s);
    var at := Map(Canonical(s), (d: Day) => WeekdayIndex(d.ref));
    assert i > 0 ==> at[i - 1] < at[i];
  }
}
