/** Recurring weekly UTC windows, overnight and week-end wrap included. */
module Windows {
  import opened Clock

  /** startMinute and endMinute count from UTC midnight of the window's start day; Sunday is day 0. */
  datatype Window = Window(weekday: int, startMinute: int, endMinute: int)

  predicate ValidWindow(w: Window) {
    && 0 <= w.weekday <= 6
    && 0 <= w.startMinute <= 1439
    && 1 <= w.endMinute <= 1440
    && w.endMinute != w.startMinute
  }

  // The source's remainder operator truncates toward zero.
  function TruncatedMod7(a: int): int {
    if a >= 0 then a % 7 else -((-a) % 7)
  }

  predicate Contains(w: Window, t: Time) {
    var minuteOfDay := MinuteOfDay(t);
    var wd := Weekday(t);
    if w.endMinute > w.startMinute then
      wd == w.weekday && w.startMinute <= minuteOfDay < w.endMinute
    else if wd == w.weekday && minuteOfDay >= w.startMinute then
      true
    else
      wd == TruncatedMod7(w.weekday + 1) && minuteOfDay < w.endMinute
  }

  predicate InSchedule(windows: seq<Window>, t: Time) {
    exists i | 0 <= i < |windows| :: Contains(windows[i], t)
  }

  // One side's restriction: none without windows, else some window holds the instant.
  ghost predicate SideOpen(windows: seq<Window>, t: Time) {
    windows == [] || exists i | 0 <= i < |windows| :: Contains(windows[i], t)
  }

  // Both sides must be open; no windows on a side places no restriction there.
  predicate WindowsOK(account: seq<Window>, campaign: seq<Window>, t: Time): (ok: bool)
    ensures ok <==> SideOpen(account, t) && SideOpen(campaign, t)
  {
    && (|account| > 0 ==> InSchedule(account, t))
    && (|campaign| > 0 ==> InSchedule(campaign, t))
  }

  // ----- a window is one cyclic interval of the week -----

  function StartOfWindow(w: Window): int {
    w.weekday * MINUTES_PER_DAY + w.startMinute
  }

  function LengthOfWindow(w: Window): int {
    (w.endMinute - w.startMinute) % MINUTES_PER_DAY
  }

  // Minutes elapsed since the window last opened, going around the week.
  function MinutesInto(w: Window, t: Time): int {
    (MinuteOfWeek(t) - StartOfWindow(w)) % MINUTES_PER_WEEK
  }

  ghost predicate IsCyclicInterval(w: Window, length: int) {
    1 <= length <= MINUTES_PER_DAY && forall t: Time :: Contains(w, t) <==> MinutesInto(w, t) < length
  }

  lemma WindowIsCyclicInterval(w: Window)
    requires ValidWindow(w)
    ensures IsCyclicInterval(w, if LengthOfWindow(w) == 0 then MINUTES_PER_DAY else LengthOfWindow(w))
  {
    var length := if LengthOfWindow(w) == 0 then MINUTES_PER_DAY else LengthOfWindow(w);
    assert length == if w.endMinute > w.startMinute then w.endMinute - w.startMinute
                     else MINUTES_PER_DAY - w.startMinute + w.endMinute;
    forall t: Time ensures Contains(w, t) <==> MinutesInto(w, t) < length {
      ContainsCyclic(w, t, length);
    }
  }

  lemma ContainsCyclic(w: Window, t: Time, length: int)
    requires ValidWindow(w)
    requires length == if w.endMinute > w.startMinute then w.endMinute - w.startMinute
                       else MINUTES_PER_DAY - w.startMinute + w.endMinute
    ensures Contains(w, t) <==> MinutesInto(w, t) < length
  {
    WeekdayAndMinute(t);
    var d, m := Weekday(t), MinuteOfDay(t);
    var gap := d * MINUTES_PER_DAY + m - StartOfWindow(w);
    assert -MINUTES_PER_WEEK < gap < MINUTES_PER_WEEK;
    assert MinutesInto(w, t) == if gap >= 0 then gap else gap + MINUTES_PER_WEEK;
  }

  function SpanOfWindow(w: Window): int {
    if LengthOfWindow(w) == 0 then MINUTES_PER_DAY else LengthOfWindow(w)
  }

  ghost predicate AllValid(windows: seq<Window>) {
    forall i | 0 <= i < |windows| :: ValidWindow(windows[i])
  }

  // The instant lies in one of the cyclic intervals, when there are any.
  ghost predicate InSomeInterval(windows: seq<Window>, t: Time) {
    windows != [] ==> exists i | 0 <= i < |windows| :: MinutesInto(windows[i], t) < SpanOfWindow(windows[i])
  }

  // The sides restrict separately, each through the cyclic intervals of its own validated windows.
  lemma OpenIff(account: seq<Window>, campaign: seq<Window>, t: Time)
    ensures WindowsOK([], [], t)
    ensures WindowsOK(account, campaign, t) <==> WindowsOK(account, [], t) && WindowsOK([], campaign, t)
    ensures AllValid(account) && AllValid(campaign) ==>
              (WindowsOK(account, campaign, t) <==> InSomeInterval(account, t) && InSomeInterval(campaign, t))
  {
    SideIsIntervals(account, t);
    SideIsIntervals(campaign, t);
  }

  lemma SideIsIntervals(windows: seq<Window>, t: Time)
    ensures AllValid(windows) ==> (SideOpen(windows, t) <==> InSomeInterval(windows, t))
  {
    forall i | 0 <= i < |windows| && AllValid(windows)
      ensures Contains(windows[i], t) <==> MinutesInto(windows[i], t) < SpanOfWindow(windows[i])
    {
      WindowIsCyclicInterval(windows[i]);
    }
  }

  // ----- openness repeats weekly and is constant within a minute -----

  lemma SameMinuteOfWeek(account: seq<Window>, campaign: seq<Window>, t: Time, u: Time)
    requires MinuteOfWeek(t) == MinuteOfWeek(u)
    ensures WindowsOK(account, campaign, t) <==> WindowsOK(account, campaign, u)
  {
    WeekdayAndMinute(t);
    WeekdayAndMinute(u);
    assert Weekday(t) == Weekday(u) && MinuteOfDay(t) == MinuteOfDay(u);
    forall w: Window ensures Contains(w, t) <==> Contains(w, u) {}
  }

  ghost predicate NeverOpen(account: seq<Window>, campaign: seq<Window>) {
    forall t: Time :: !(SideOpen(account, t) && SideOpen(campaign, t))
  }

  const SEARCHED_MINUTES: nat := 7 * 24 * 60 + 1

  // The first whole minute at or after from that is open, searched over one week.
  // From a closed instant that is the first open instant of all.
  method NextWindowOpen(account: seq<Window>, campaign: seq<Window>, from: Time) returns (t: Time, ok: bool)
    ensures !ok <==> NeverOpen(account, campaign)
    ensures ok ==> from <= t && t % NS_PER_MINUTE == 0 && WindowsOK(account, campaign, t)
    ensures ok ==> forall u | from <= u < t && u % NS_PER_MINUTE == 0 :: !WindowsOK(account, campaign, u)
    ensures ok && !WindowsOK(account, campaign, from) ==>
              forall u | from <= u < t :: !WindowsOK(account, campaign, u)
  {
    t := from - from % NS_PER_MINUTE;
    if t < from {
      t := t + NS_PER_MINUTE;
    }
    ghost var first := NextWholeMinute(from, t);
    for i := 0 to SEARCHED_MINUTES
      invariant t == MinuteStart(first + i)
      invariant forall m | first <= m < first + i :: !WindowsOK(account, campaign, MinuteStart(m))
    {
      if WindowsOK(account, campaign, t) {
        FirstOpenMinute(account, campaign, from, first, i);
        return t, true;
      }
      t := t + NS_PER_MINUTE;
    }
    ClosedWeekNeverOpens(account, campaign, first);
    return 0, false;
  }

  function MinuteStart(m: int): Time {
    m * NS_PER_MINUTE
  }

  lemma NextWholeMinute(from: Time, t: Time) returns (first: int)
    requires t == from - from % NS_PER_MINUTE + if from % NS_PER_MINUTE == 0 then 0 else NS_PER_MINUTE
    ensures t == MinuteStart(first) && IsNextMinute(from, first)
  {
    first := MinuteIndex(from) + if from % NS_PER_MINUTE == 0 then 0 else 1;
  }

  ghost predicate IsNextMinute(from: Time, first: int) {
    from <= MinuteStart(first) < from + NS_PER_MINUTE
  }

  lemma FirstOpenMinute(account: seq<Window>, campaign: seq<Window>, from: Time, first: int, i: nat)
    requires IsNextMinute(from, first)
    requires forall m | first <= m < first + i :: !WindowsOK(account, campaign, MinuteStart(m))
    ensures var t := MinuteStart(first + i);
            && from <= t && t % NS_PER_MINUTE == 0
            && (forall u | from <= u < t && u % NS_PER_MINUTE == 0 :: !WindowsOK(account, campaign, u))
            && (!WindowsOK(account, campaign, from) ==> forall u | from <= u < t :: !WindowsOK(account, campaign, u))
  {
    forall u | && from <= u < MinuteStart(first + i)
               && (u % NS_PER_MINUTE == 0 || !WindowsOK(account, campaign, from))
      ensures !WindowsOK(account, campaign, u)
    {
      ClosedMinute(account, campaign, from, first, i, u);
    }
  }

  lemma ClosedMinute(account: seq<Window>, campaign: seq<Window>, from: Time, first: int, i: nat, u: Time)
    requires IsNextMinute(from, first) && from <= u < MinuteStart(first + i)
    requires forall m | first <= m < first + i :: !WindowsOK(account, campaign, MinuteStart(m))
    requires u % NS_PER_MINUTE == 0 || !WindowsOK(account, campaign, from)
    ensures !WindowsOK(account, campaign, u)
  {
    var m := MinuteIndex(u);
    if m < first {
      assert m == MinuteIndex(from);
      SameMinuteOfWeek(account, campaign, from, u);
    } else {
      assert MinuteIndex(MinuteStart(m)) == m;
      SameMinuteOfWeek(account, campaign, MinuteStart(m), u);
    }
  }

  lemma ClosedWeekNeverOpens(account: seq<Window>, campaign: seq<Window>, first: int)
    requires forall m | first <= m < first + SEARCHED_MINUTES :: !WindowsOK(account, campaign, MinuteStart(m))
    ensures NeverOpen(account, campaign)
  {
    forall t: Time ensures !(SideOpen(account, t) && SideOpen(campaign, t)) {
      var m := first + (MinuteIndex(t) - first) % MINUTES_PER_WEEK;
      var u := MinuteStart(m);
      assert MinuteIndex(u) == m;
      var k := (MinuteIndex(t) - first) / MINUTES_PER_WEEK;
      assert MinuteIndex(t) == m + MINUTES_PER_WEEK * k;
      WrapWeek(MINUTES_PER_DAY + m, k);
      assert MinuteOfWeek(t) == MinuteOfWeek(u);
      SameMinuteOfWeek(account, campaign, t, u);
      assert !WindowsOK(account, campaign, u);
    }
  }

  lemma WrapWeek(a: int, k: int)
    ensures (a + MINUTES_PER_WEEK * k) % MINUTES_PER_WEEK == a % MINUTES_PER_WEEK
  {
  }
}
