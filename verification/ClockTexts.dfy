/** Reading clock times back: how each minute is written, and which times a schedule's wording holds. */
module ClockTexts {
  import opened Wrappers
  import opened Text
  import opened Permutations
  import opened Schedules
  import opened ScheduleText

  // ----- every minute of the day, written -----

  function TwoDigits(n: nat): string
    requires n < 100
  {
    [Digit(n / 10), Digit(n % 10)]
  }

  function ClockText(minute: nat): string
    requires minute < 1440
  {
    TwoDigits(minute / 60) + ":" + TwoDigits(minute % 60)
  }

  // All 1440 written times are valid and parse to their minute,
  lemma EveryMinuteParses(minute: nat)
    requires minute < 1440
    ensures ValidHHMM(ClockText(minute)) && ParseHHMM(ClockText(minute)) == minute
  {
  }

  // and nothing else is valid.
  lemma ValidIsWritten(s: string)
    requires ValidHHMM(s)
    ensures s == ClockText(ParseHHMM(s))
  {
    var a, b, c, d := DigitValue(s[0]), DigitValue(s[1]), DigitValue(s[3]), DigitValue(s[4]);
    Parts(a, b, c, d);
    assert TwoDigits(10 * a + b) == [s[0], s[1]] && TwoDigits(10 * c + d) == [s[3], s[4]];
  }

  lemma Parts(a: nat, b: nat, c: nat, d: nat)
    requires a < 10 && b < 10 && c < 6 && d < 10
    ensures var m := (a * 10 + b) * 60 + c * 10 + d; m / 60 == 10 * a + b && m % 60 == 10 * c + d
    ensures (10 * a + b) / 10 == a && (10 * a + b) % 10 == b && (10 * c + d) / 10 == c && (10 * c + d) % 10 == d
  {
  }

  // ----- the clock times in a text -----

  // Valid clock times, leftmost first and without overlap.
  function ClockTimes(s: string): seq<string> {
    if |s| < 5 then []
    else if ValidHHMM(s[..5]) then [s[..5]] + ClockTimes(s[5..])
    else ClockTimes(s[1..])
  }

  predicate DigitFree(s: string) {
    forall i | 0 <= i < |s| :: !IsDigit(s[i])
  }

  // Words without digits hold no time and do not disturb what follows.
  lemma {:induction false} WordsBefore(words: string, rest: string)
    requires DigitFree(words)
    ensures ClockTimes(words + rest) == ClockTimes(rest)
  {
    if words == "" {
      assert words + rest == rest;
    } else {
      var s := words + rest;
      assert s[1..] == words[1..] + rest && s[0] == words[0];
      WordsBefore(words[1..], rest);
      if |s| >= 5 {
        assert !ValidHHMM(s[..5]) by {
          assert s[..5][0] == words[0];
        }
      } else {
        TooShort(rest);
      }
    }
  }

  lemma TooShort(s: string)
    requires |s| < 5
    ensures ClockTimes(s) == []
  {
  }

  lemma TimeBefore(t: string, rest: string)
    requires ValidHHMM(t)
    ensures ClockTimes(t + rest) == [t] + ClockTimes(rest)
  {
    assert (t + rest)[..5] == t && (t + rest)[5..] == rest;
  }

  // ----- a day's wording -----

  function BreakTimes(breaks: seq<Break>): seq<string> {
    if breaks == [] then [] else [breaks[0].start, breaks[0].end] + BreakTimes(breaks[1..])
  }

  // Start, end, then each break's start and end.
  function DayTimes(d: Day): seq<string> {
    [d.start, d.end] + BreakTimes(d.breaks)
  }

  ghost predicate DayTimesValid(d: Day) {
    && ValidHHMM(d.start) && ValidHHMM(d.end)
    && forall i | 0 <= i < |d.breaks| :: ValidHHMM(d.breaks[i].start) && ValidHHMM(d.breaks[i].end)
  }

  lemma RussianNamesHaveNoDigit(ref: string)
    ensures DigitFree(WeekdayName(ref, "ru"))
  {
    assert DigitFree("понедельник") && DigitFree("вторник") && DigitFree("среда") && DigitFree("четверг");
    assert DigitFree("пятница") && DigitFree("суббота") && DigitFree("воскресенье");
  }

  lemma KazakhNamesHaveNoDigit(ref: string)
    ensures DigitFree(WeekdayName(ref, "kk"))
  {
    assert DigitFree("дүйсенбі") && DigitFree("сейсенбі") && DigitFree("сәрсенбі") && DigitFree("бейсенбі");
    assert DigitFree("жұма") && DigitFree("сенбі") && DigitFree("жексенбі");
  }

  lemma NamesHaveNoDigit(ref: string, lang: string)
    ensures DigitFree(WeekdayName(ref, lang))
  {
    RussianNamesHaveNoDigit(ref);
    KazakhNamesHaveNoDigit(ref);
    assert lang != "kk" ==> WeekdayName(ref, lang) == WeekdayName(ref, "ru");
  }

  lemma RefHasNoDigit(ref: string)
    requires ValidWeekday(ref)
    ensures DigitFree(ref)
  {
  }

  lemma CapitalHasNoDigit(s: string)
    requires DigitFree(s)
    ensures DigitFree(CapitalizeFirst(s))
  {
  }

  // What stands before a day's first time.
  function Heading(d: Day, lang: string): string {
    var name := WeekdayName(d.ref, lang);
    CapitalizeFirst(if name == "" then d.ref else name)
  }

  lemma HeadingHasNoDigit(d: Day, lang: string)
    requires ValidWeekday(d.ref)
    ensures DigitFree(Heading(d, lang) + ": ")
  {
    hide WeekdayName, CapitalizeFirst;
    NamesHaveNoDigit(d.ref, lang);
    RefHasNoDigit(d.ref);
    CapitalHasNoDigit(if WeekdayName(d.ref, lang) == "" then d.ref else WeekdayName(d.ref, lang));
    assert DigitFree(": ");
  }

  lemma JoinBreaks(breaks: seq<Break>, after: string)
    requires breaks != []
    ensures var rest := breaks[1..];
            Join(BreakTexts(breaks), ", ") + after ==
            breaks[0].start + ("–" + (breaks[0].end
                                       + if rest == [] then after else ", " + (Join(BreakTexts(rest), ", ") + after)))
  {
    var texts := BreakTexts(breaks);
    assert texts[1..] == BreakTexts(breaks[1..]);
  }

  // "start–end" and what follows.
  lemma SpanTimes(start: string, end: string, next: string)
    requires ValidHHMM(start) && ValidHHMM(end)
    ensures ClockTimes(start + ("–" + (end + next))) == [start, end] + ClockTimes(next)
  {
    hide ValidHHMM;
    assert DigitFree("–");
    TimeBefore(start, "–" + (end + next));
    WordsBefore("–", end + next);
    TimeBefore(end, next);
    assert [start] + ([end] + ClockTimes(next)) == [start, end] + ClockTimes(next);
  }

  function BreakWord(d: Day, lang: string): string {
    if lang == "kk" then if |d.breaks| > 1 then "үзілістер" else "үзіліс"
    else if |d.breaks| > 1 then "перерывы" else "перерыв"
  }

  function BreaksTail(d: Day, lang: string): string {
    if d.breaks == [] then "" else " (" + BreakWord(d, lang) + " " + Join(BreakTexts(d.breaks), ", ") + ")"
  }

  lemma BreakWordHasNoDigit(d: Day, lang: string)
    ensures DigitFree(" (" + BreakWord(d, lang) + " ")
  {
    assert DigitFree("үзілістер") && DigitFree("үзіліс") && DigitFree("перерывы") && DigitFree("перерыв");
    assert DigitFree(" (") && DigitFree(" ");
  }

  lemma {:induction false} BreaksThen(breaks: seq<Break>, after: string)
    requires forall i | 0 <= i < |breaks| :: ValidHHMM(breaks[i].start) && ValidHHMM(breaks[i].end)
    ensures ClockTimes(Join(BreakTexts(breaks), ", ") + after) == BreakTimes(breaks) + ClockTimes(after)
  {
    hide ValidHHMM;
    if breaks == [] {
      assert Join(BreakTexts(breaks), ", ") + after == after;
    } else {
      var b, rest := breaks[0], breaks[1..];
      BreaksThen(rest, after);
      var tail := Join(BreakTexts(rest), ", ") + after;
      var next := if rest == [] then after else ", " + tail;
      assert DigitFree(", ");
      JoinBreaks(breaks, after);
      if rest != [] {
        WordsBefore(", ", tail);
      }
      SpanTimes(b.start, b.end, next);
    }
  }

  lemma TailThen(d: Day, lang: string, next: string)
    requires DayTimesValid(d)
    ensures ClockTimes(BreaksTail(d, lang) + next) == BreakTimes(d.breaks) + ClockTimes(next)
  {
    hide ValidHHMM;
    if d.breaks == [] {
      assert BreaksTail(d, lang) + next == next;
    } else {
      var word, inner := " (" + BreakWord(d, lang) + " ", Join(BreakTexts(d.breaks), ", ");
      BreakWordHasNoDigit(d, lang);
      assert DigitFree(")");
      assert BreaksTail(d, lang) + next == word + (inner + (")" + next));
      WordsBefore(word, inner + (")" + next));
      BreaksThen(d.breaks, ")" + next);
      WordsBefore(")", next);
    }
  }

  lemma DayTextParts(d: Day, lang: string)
    ensures DayText(d, lang) == Heading(d, lang) + ": " + d.start + "–" + d.end + BreaksTail(d, lang)
  {
    hide WeekdayName, CapitalizeFirst, Join;
  }

  lemma Regroup(a: string, b: string, c: string, d: string, e: string, f: string)
    ensures a + b + c + d + e + f == (a + b) + (c + (d + (e + f)))
  {
  }

  // What a day's wording adds to the times of what follows it.
  lemma TimesSplit(d: Day, lang: string, next: string)
    requires ValidWeekday(d.ref) && DayTimesValid(d)
    ensures ClockTimes(DayText(d, lang) + next) == DayTimes(d) + ClockTimes(next)
  {
    hide ValidHHMM, DayText, Heading, BreaksTail, ClockTimes, DayTimesValid;
    var head, tail := Heading(d, lang) + ": ", BreaksTail(d, lang);
    HeadingHasNoDigit(d, lang);
    DayTextParts(d, lang);
    assert DayText(d, lang) + next == Heading(d, lang) + ": " + d.start + "–" + d.end + (tail + next);
    Regroup(Heading(d, lang), ": ", d.start, "–", d.end, tail + next);
    WordsBefore(head, d.start + ("–" + (d.end + (tail + next))));
    ShiftIsValid(d);
    SpanTimes(d.start, d.end, tail + next);
    TailThen(d, lang, next);
  }

  lemma ShiftIsValid(d: Day)
    requires DayTimesValid(d)
    ensures ValidHHMM(d.start) && ValidHHMM(d.end)
  {
  }

  // The times in a day's wording, in either language, are its start, its end, and those of its breaks.
  lemma DayTextTimes(d: Day, lang: string)
    requires ValidWeekday(d.ref) && DayTimesValid(d)
    ensures ClockTimes(DayText(d, lang)) == DayTimes(d)
  {
    hide DayText, DayTimes;
    TimesSplit(d, lang, "");
    TooShort("");
    assert DayText(d, lang) + "" == DayText(d, lang);
  }

  // ----- the week's wording -----

  lemma {:induction false} LinesTimes(days: Schedule, lang: string)
    requires forall i | 0 <= i < |days| :: ValidWeekday(days[i].ref) && DayTimesValid(days[i])
    ensures ClockTimes(Join(DayTexts(days, lang), "; ")) == WeekTimes(days)
  {
    hide ValidHHMM, DayText, DayTimes, ValidWeekday, DayTimesValid;
    if days == [] {
      TooShort("");
    } else {
      var d, rest := days[0], days[1..];
      DayTextTimes(d, lang);
      LinesTimes(rest, lang);
      var texts, tail := DayTexts(days, lang), Join(DayTexts(rest, lang), "; ");
      assert texts[1..] == DayTexts(rest, lang);
      assert DigitFree("; ");
      if rest == [] {
        assert texts == [DayText(d, lang)] && WeekTimes(days) == DayTimes(d);
      } else {
        assert Join(texts, "; ") == DayText(d, lang) + ("; " + tail);
        TimesSplit(d, lang, "; " + tail);
        WordsBefore("; ", tail);
      }
    }
  }

  function DayTexts(days: Schedule, lang: string): seq<string> {
    if days == [] then [] else [DayText(days[0], lang)] + DayTexts(days[1..], lang)
  }

  function WeekTimes(days: Schedule): seq<string> {
    if days == [] then [] else DayTimes(days[0]) + WeekTimes(days[1..])
  }

  // The lines of a canonical week are its days' wordings, Monday first.
  lemma {:induction false} LinesAreDays(days: Schedule, j: nat, k: nat, lang: string)
    requires Acceptable(days) && IsCanonical(days) && j <= |days| && k <= 7
    requires forall i | 0 <= i < j :: WeekdayIndex(days[i].ref) < k
    requires forall i | j <= i < |days| :: k <= WeekdayIndex(days[i].ref)
    ensures DayLines(days, WEEKDAY_ORDER[k..], lang) == DayTexts(days[j..], lang)
    decreases 7 - k
  {
    hide DayText, Acceptable, IsCanonical, WeekdayIndex;
    if k == 7 {
      PastSunday(days, j);
      assert days[j..] == [];
    } else {
      var refs := WEEKDAY_ORDER[k..];
      assert refs[0] == WEEKDAY_ORDER[k] && refs[1..] == WEEKDAY_ORDER[k + 1..];
      NextDay(days, j, k);
      if j < |days| && WeekdayIndex(days[j].ref) == k {
        LinesAreDays(days, j + 1, k + 1, lang);
        assert days[j..][1..] == days[j + 1..];
      } else {
        LinesAreDays(days, j, k + 1, lang);
      }
    }
  }

  lemma PastSunday(days: Schedule, j: nat)
    requires Acceptable(days) && j <= |days| && forall i | j <= i < |days| :: 7 <= WeekdayIndex(days[i].ref)
    ensures j == |days|
  {
    if j < |days| {
      assert DayOK(days[j]);
      WeekdayIndexInjective(days[j].ref, days[j].ref);
    }
  }

  // Which day the k-th weekday finds.
  lemma NextDay(days: Schedule, j: nat, k: nat)
    requires Acceptable(days) && IsCanonical(days) && j <= |days| && k < 7
    requires forall i | 0 <= i < j :: WeekdayIndex(days[i].ref) < k
    requires forall i | j <= i < |days| :: k <= WeekdayIndex(days[i].ref)
    ensures if j < |days| && WeekdayIndex(days[j].ref) == k
            then DayByRef(days, WEEKDAY_ORDER[k]) == Some(days[j])
                 && forall i | j + 1 <= i < |days| :: k + 1 <= WeekdayIndex(days[i].ref)
            else DayByRef(days, WEEKDAY_ORDER[k]).None?
                 && forall i | j <= i < |days| :: k + 1 <= WeekdayIndex(days[i].ref)
  {
    var ref := WEEKDAY_ORDER[k];
    OrderIndex(k);
    forall i | 0 <= i < |days| ensures days[i].ref == ref <==> WeekdayIndex(days[i].ref) == k {
      assert DayOK(days[i]);
      WeekdayIndexInjective(days[i].ref, ref);
    }
    hide Acceptable, WeekdayIndex;
    IndexesIncrease(days);
    if j < |days| && WeekdayIndex(days[j].ref) == k {
      FirstUnique(days, (d: Day) => d.ref == ref, j);
    } else {
      FirstIsIn(days, (d: Day) => d.ref == ref);
    }
  }

  lemma OrderIndex(k: nat)
    requires k < 7
    ensures ValidWeekday(WEEKDAY_ORDER[k]) && WeekdayIndex(WEEKDAY_ORDER[k]) == k
  {
  }

  lemma IndexesIncrease(days: Schedule)
    requires IsCanonical(days)
    ensures forall i, j | 0 <= i < j < |days| :: WeekdayIndex(days[i].ref) < WeekdayIndex(days[j].ref)
  {
    hide WeekdayIndex;
    var indexes := Map(days, (d: Day) => WeekdayIndex(d.ref));
    assert forall i | 0 <= i < |days| :: indexes[i] == WeekdayIndex(days[i].ref);
  }

  // The times in the week's wording are those of the worked days, Monday first.
  lemma FullTextTimes(s: Schedule, lang: string)
    requires Acceptable(s)
    ensures ClockTimes(FullText(Canonical(s), lang)) == WeekTimes(Canonical(s))
  {
    hide DayText, DayTimes, Canonical, WeekdayIndex, IsCanonical, ClockTimes;
    CanonicalIsCanonical(s);
    var days := Canonical(s);
    forall i | 0 <= i < |days| ensures ValidWeekday(days[i].ref) && DayTimesValid(days[i]) {
      assert DayOK(days[i]);
      DayIsReadable(days[i]);
    }
    assert WEEKDAY_ORDER[0..] == WEEKDAY_ORDER && days[0..] == days;
    LinesAreDays(days, 0, 0, lang);
    LinesTimes(days, lang);
  }

  // No weekday is called by another's name.
  lemma NamesDiffer(ref: string, other: string, lang: string)
    requires ValidWeekday(ref) && ValidWeekday(other) && ref != other
    ensures WeekdayName(ref, lang) != WeekdayName(other, lang)
  {
    var name, name' := WeekdayName(ref, lang), WeekdayName(other, lang);
    assert |name| != |name'| || name[0] != name'[0] || name[1] != name'[1];
  }

  // A day's wording begins with its weekday's name, a capital first.
  lemma WordingNamesItsDay(d: Day, lang: string)
    requires ValidWeekday(d.ref)
    ensures WeekdayName(d.ref, lang) != "" && CapitalizeFirst(WeekdayName(d.ref, lang)) + ": " <= DayText(d, lang)
  {
    DayTextParts(d, lang);
  }

  lemma MondayIsCapitalized()
    ensures CapitalizeFirst(WeekdayName("mon", "ru")) == "Понедельник"
    ensures CapitalizeFirst(WeekdayName("mon", "kk")) == "Дүйсенбі"
  {
  }

  lemma DayIsReadable(d: Day)
    requires DayOK(d)
    ensures ValidWeekday(d.ref) && DayTimesValid(d)
  {
    forall i | 0 <= i < |d.breaks| ensures ValidHHMM(d.breaks[i].start) && ValidHHMM(d.breaks[i].end) {
      assert BreakOK(d.breaks[i], ParseHHMM(d.start), ParseHHMM(d.end));
    }
  }

  // ----- acceptance, minute by minute -----

  type Minute = m: nat | m < 1440

  /** The minutes of a day from one on until another. */
  datatype Span = Span(from: Minute, until: Minute)

  ghost predicate Covers(s: Span, minute: nat) {
    s.from <= minute < s.until
  }

  ghost predicate HasMinutes(s: Span) {
    exists minute :: Covers(s, minute)
  }

  function WrittenBreaks(spans: seq<Span>): (r: seq<Break>)
    ensures |r| == |spans|
    ensures forall i | 0 <= i < |spans| :: r[i] == Break(ClockText(spans[i].from), ClockText(spans[i].until))
  {
    if spans == [] then []
    else [Break(ClockText(spans[0].from), ClockText(spans[0].until))] + WrittenBreaks(spans[1..])
  }

  ghost predicate SpansOK(shift: Span, spans: seq<Span>) {
    && HasMinutes(shift) && (forall i | 0 <= i < |spans| :: HasMinutes(spans[i]))
    && (forall i, m | 0 <= i < |spans| && Covers(spans[i], m) :: Covers(shift, m))
    && (forall i, j, m | 0 <= i < j < |spans| && Covers(spans[i], m) :: !Covers(spans[j], m))
  }

  // A written day is acceptable exactly when it is a weekday, shift and breaks have minutes, those of the breaks
  // are the shift's, and no two breaks share one.
  lemma DayOKByMinutes(ref: string, name: string, shift: Span, spans: seq<Span>)
    ensures DayOK(Day(ref, name, ClockText(shift.from), ClockText(shift.until), WrittenBreaks(spans))) <==>
            ref in {"mon", "tue", "wed", "thu", "fri", "sat", "sun"} && SpansOK(shift, spans)
  {
    hide ClockText, ValidHHMM, ParseHHMM;
    var breaks := WrittenBreaks(spans);
    EveryMinuteParses(shift.from);
    EveryMinuteParses(shift.until);
    forall i | 0 <= i < |spans|
      ensures BreakIs(breaks[i], spans[i])
    {
      EveryMinuteParses(spans[i].from);
      EveryMinuteParses(spans[i].until);
    }
    SpansIff(shift, spans);
    BreaksIff(shift, spans, breaks);
    assert ValidWeekday(ref) <==> ref in {"mon", "tue", "wed", "thu", "fri", "sat", "sun"};
  }

  ghost predicate BreakIs(b: Break, s: Span) {
    && ValidHHMM(b.start) && ValidHHMM(b.end)
    && ParseHHMM(b.start) == s.from && ParseHHMM(b.end) == s.until
  }

  ghost predicate SpansApart(s: Span, t: Span) {
    s.until <= t.from || t.until <= s.from
  }

  ghost predicate SpansInside(shift: Span, spans: seq<Span>) {
    && shift.from < shift.until
    && (forall i | 0 <= i < |spans| :: shift.from <= spans[i].from < spans[i].until <= shift.until)
    && (forall i, j | 0 <= i < j < |spans| :: SpansApart(spans[i], spans[j]))
  }

  lemma BreaksIff(shift: Span, spans: seq<Span>, breaks: seq<Break>)
    requires |breaks| == |spans| && forall i | 0 <= i < |spans| :: BreakIs(breaks[i], spans[i])
    ensures shift.from < shift.until && BreaksOK(breaks, shift.from, shift.until) <==> SpansInside(shift, spans)
  {
    hide ValidHHMM, ParseHHMM;
    forall i | 0 <= i < |spans|
      ensures BreakOK(breaks[i], shift.from, shift.until) <==>
              shift.from <= spans[i].from < spans[i].until <= shift.until
    {
      assert BreakIs(breaks[i], spans[i]);
    }
    forall i, j | 0 <= i < j < |spans| ensures Apart(breaks[i], breaks[j]) <==> SpansApart(spans[i], spans[j]) {
      assert BreakIs(breaks[i], spans[i]) && BreakIs(breaks[j], spans[j]);
    }
  }

  lemma SpansIff(shift: Span, spans: seq<Span>)
    ensures SpansOK(shift, spans) <==> SpansInside(shift, spans)
  {
    if SpansOK(shift, spans) {
      OkIsInside(shift, spans);
    }
    if SpansInside(shift, spans) {
      InsideIsOk(shift, spans);
    }
  }

  lemma InsideIsOk(shift: Span, spans: seq<Span>)
    requires SpansInside(shift, spans)
    ensures SpansOK(shift, spans)
  {
    assert Covers(shift, shift.from);
    forall i | 0 <= i < |spans| ensures HasMinutes(spans[i]) {
      assert Covers(spans[i], spans[i].from);
    }
    forall i, m | 0 <= i < |spans| && Covers(spans[i], m) ensures Covers(shift, m) {
      assert shift.from <= spans[i].from < spans[i].until <= shift.until;
    }
    forall i, j, m | 0 <= i < j < |spans| && Covers(spans[i], m) ensures !Covers(spans[j], m) {
      assert SpansApart(spans[i], spans[j]);
    }
  }

  lemma OkIsInside(shift: Span, spans: seq<Span>)
    requires SpansOK(shift, spans)
    ensures SpansInside(shift, spans)
  {
    forall i | 0 <= i < |spans| ensures shift.from <= spans[i].from < spans[i].until <= shift.until {
      assert HasMinutes(spans[i]);
      var m :| Covers(spans[i], m);
      var first, last := spans[i].from, spans[i].until - 1;
      assert Covers(spans[i], first) && Covers(spans[i], last);
      assert Covers(shift, first) && Covers(shift, last);
    }
    forall i, j | 0 <= i < j < |spans| ensures SpansApart(spans[i], spans[j]) {
      var m := if spans[i].from < spans[j].from then spans[j].from else spans[i].from;
      assert !(Covers(spans[i], m) && Covers(spans[j], m));
    }
  }
}
