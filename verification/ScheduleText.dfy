/** The customer-facing wording of a weekly schedule, in Russian and in Kazakh. */
module ScheduleText {
  import opened Wrappers
  import opened Text
  import opened Schedules

  function WeekdayName(ref: string, lang: string): string {
    if lang == "kk" then
      if ref == "mon" then "дүйсенбі" else if ref == "tue" then "сейсенбі" else if ref == "wed" then "сәрсенбі"
      else if ref == "thu" then "бейсенбі" else if ref == "fri" then "жұма" else if ref == "sat" then "сенбі"
      else if ref == "sun" then "жексенбі" else ""
    else
      if ref == "mon" then "понедельник" else if ref == "tue" then "вторник" else if ref == "wed" then "среда"
      else if ref == "thu" then "четверг" else if ref == "fri" then "пятница" else if ref == "sat" then "суббота"
      else if ref == "sun" then "воскресенье" else ""
  }

  // Upper case of the letters the weekday names and refs begin with.
  function Upper(c: char): char {
    if 'а' <= c <= 'я' || 'a' <= c <= 'z' then (c as int - 32) as char else c
  }

  function CapitalizeFirst(s: string): string {
    if s == "" then s else [Upper(s[0])] + s[1..]
  }

  function BreakText(b: Break): string {
    b.start + "–" + b.end
  }

  function BreakTexts(breaks: seq<Break>): seq<string> {
    if breaks == [] then [] else [BreakText(breaks[0])] + BreakTexts(breaks[1..])
  }

  function DayText(d: Day, lang: string): string {
    var name := WeekdayName(d.ref, lang);
    var text := CapitalizeFirst(if name == "" then d.ref else name) + ": " + d.start + "–" + d.end;
    if d.breaks == [] then text
    else
      var word := if lang == "kk" then if |d.breaks| > 1 then "үзілістер" else "үзіліс"
                  else if |d.breaks| > 1 then "перерывы" else "перерыв";
      text + " (" + word + " " + Join(BreakTexts(d.breaks), ", ") + ")"
  }

  function DayByRef(s: Schedule, ref: string): Option<Day> {
    First(s, (d: Day) => d.ref == ref)
  }

  function DayLines(s: Schedule, refs: seq<string>, lang: string): seq<string> {
    if refs == [] then []
    else
      var d := DayByRef(s, refs[0]);
      (if d.Some? then [DayText(d.value, lang)] else []) + DayLines(s, refs[1..], lang)
  }

  function FullText(s: Schedule, lang: string): string {
    Join(DayLines(s, WEEKDAY_ORDER, lang), "; ")
  }

  lemma DayTextNotBlank(d: Day, lang: string)
    ensures !Blank(DayText(d, lang))
  {
    var name := WeekdayName(d.ref, lang);
    var head := CapitalizeFirst(if name == "" then d.ref else name);
    assert DayText(d, lang)[|head|] == ':';
  }

  lemma {:induction false} DayLinesSameCount(s: Schedule, refs: seq<string>, lang: string, lang': string)
    ensures |DayLines(s, refs, lang)| == |DayLines(s, refs, lang')|
  {
    if refs != [] {
      DayLinesSameCount(s, refs[1..], lang, lang');
    }
  }

  lemma {:induction false} DayLinesNotBlank(s: Schedule, refs: seq<string>, lang: string, i: nat)
    requires i < |DayLines(s, refs, lang)|
    ensures !Blank(DayLines(s, refs, lang)[i])
  {
    var d := DayByRef(s, refs[0]);
    if d.Some? {
      DayTextNotBlank(d.value, lang);
      if i > 0 {
        DayLinesNotBlank(s, refs[1..], lang, i - 1);
      }
    } else {
      DayLinesNotBlank(s, refs[1..], lang, i);
    }
  }

  // Whether a week has any wording does not depend on the language.
  lemma FullTextBlankInEveryLanguage(s: Schedule, lang: string, lang': string)
    ensures Blank(FullText(s, lang)) <==> Blank(FullText(s, lang'))
  {
    DayLinesSameCount(s, WEEKDAY_ORDER, lang, lang');
    FullTextBlankIffNoLines(s, lang);
    FullTextBlankIffNoLines(s, lang');
  }

  lemma FullTextBlankIffNoLines(s: Schedule, lang: string)
    ensures Blank(FullText(s, lang)) <==> DayLines(s, WEEKDAY_ORDER, lang) == []
  {
    var lines := DayLines(s, WEEKDAY_ORDER, lang);
    if lines != [] {
      DayLinesNotBlank(s, WEEKDAY_ORDER, lang, 0);
      var i :| 0 <= i < |lines[0]| && !IsSpace(lines[0][i]);
      assert Join(lines, "; ")[i] == lines[0][i];
    }
  }

  // A week with known days has wording exactly when it has a day.
  lemma FullTextBlankIffNoDays(s: Schedule, lang: string)
    requires forall d | d in s :: d.ref in WEEKDAY_ORDER
    ensures Blank(FullText(s, lang)) <==> s == []
  {
    if s == [] {
      EmptyWeekIsBlank(lang);
    } else {
      FullTextBlankIffNoLines(s, lang);
      DayGivesLine(s, WEEKDAY_ORDER, lang, s[0]);
    }
  }

  lemma EmptyWeekIsBlank(lang: string)
    ensures Blank(FullText([], lang))
  {
    FullTextBlankIffNoLines([], lang);
    NoDaysNoLines(WEEKDAY_ORDER, lang);
  }

  lemma {:induction false} NoDaysNoLines(refs: seq<string>, lang: string)
    ensures DayLines([], refs, lang) == []
  {
    if refs != [] {
      NoDaysNoLines(refs[1..], lang);
    }
  }

  lemma {:induction false} DayGivesLine(s: Schedule, refs: seq<string>, lang: string, d: Day)
    requires d in s && d.ref in refs
    ensures DayLines(s, refs, lang) != []
  {
    if refs[0] == d.ref {
      FirstIsIn(s, (e: Day) => e.ref == d.ref);
    } else {
      DayGivesLine(s, refs[1..], lang, d);
    }
  }
}
