/** Is a point, or a whole requested interval, inside a shift and clear of its breaks? */
module Shifts {
  import opened Wrappers
  import opened Schedules

  datatype ShiftState = OnDuty | BreakOverlap | Off

  // Stored days are normalised, so their clock times parse; parsing anything else panics.
  predicate TimesParse(day: Option<Day>) {
    day.Some? ==>
      && ValidHHMM(day.value.start) && ValidHHMM(day.value.end)
      && forall i | 0 <= i < |day.value.breaks| ::
           ValidHHMM(day.value.breaks[i].start) && ValidHHMM(day.value.breaks[i].end)
  }

  predicate InBreak(b: Break, t: nat)
    requires ValidHHMM(b.start) && ValidHHMM(b.end)
  {
    ParseHHMM(b.start) <= t < ParseHHMM(b.end)
  }

  function EvaluateShiftPoint(day: Option<Day>, at: string): Result<ShiftState>
    requires TimesParse(day)
  {
    if !ValidHHMM(at) then Failure("invalid time")
    else if day.None? then Success(Off)
    else
      var t := ParseHHMM(at);
      if t < ParseHHMM(day.value.start) || t >= ParseHHMM(day.value.end) then Success(Off)
      else if exists i | 0 <= i < |day.value.breaks| :: InBreak(day.value.breaks[i], t) then Success(BreakOverlap)
      else Success(OnDuty)
  }

  predicate Touches(b: Break, from: nat, to: nat)
    requires ValidHHMM(b.start) && ValidHHMM(b.end)
  {
    from < ParseHHMM(b.end) && to > ParseHHMM(b.start)
  }

  function EvaluateShift(day: Option<Day>, reqStart: string, reqEnd: string): Result<ShiftState>
    requires TimesParse(day)
  {
    if !ValidHHMM(reqStart) then Failure("invalid interval start")
    else if !ValidHHMM(reqEnd) then Failure("invalid interval end")
    else
      var a, b := ParseHHMM(reqStart), ParseHHMM(reqEnd);
      if a >= b then Failure("interval start must be before end")
      else if day.None? then Success(Off)
      else if a < ParseHHMM(day.value.start) || b > ParseHHMM(day.value.end) then Success(Off)
      else if exists i | 0 <= i < |day.value.breaks| :: Touches(day.value.breaks[i], a, b) then Success(BreakOverlap)
      else Success(OnDuty)
  }

  ghost predicate Within(at: string, reqStart: string, reqEnd: string)
    requires ValidHHMM(reqStart) && ValidHHMM(reqEnd)
  {
    ValidHHMM(at) && ParseHHMM(reqStart) <= ParseHHMM(at) < ParseHHMM(reqEnd)
  }

  // Some minute of the interval is classified st as a point.
  ghost predicate SomeMinute(day: Option<Day>, reqStart: string, reqEnd: string, st: ShiftState)
    requires TimesParse(day) && ValidHHMM(reqStart) && ValidHHMM(reqEnd)
  {
    exists at :: Within(at, reqStart, reqEnd) && EvaluateShiftPoint(day, at) == Success(st)
  }

  // The interval verdict is the worst point verdict in the interval: off if any
  // minute is off, else overlapping if any minute is in a break, else on duty.
  lemma IntervalIsWorstPoint(day: Option<Day>, reqStart: string, reqEnd: string)
    requires day.Some? ==> DayOK(day.value)
    requires ValidHHMM(reqStart) && ValidHHMM(reqEnd) && ParseHHMM(reqStart) < ParseHHMM(reqEnd)
    ensures TimesParse(day) && EvaluateShift(day, reqStart, reqEnd).Success?
    ensures var st := EvaluateShift(day, reqStart, reqEnd).value;
            && (st == Off <==> SomeMinute(day, reqStart, reqEnd, Off))
            && (st == BreakOverlap <==>
                  !SomeMinute(day, reqStart, reqEnd, Off) && SomeMinute(day, reqStart, reqEnd, BreakOverlap))
            && (st == OnDuty <==>
                  forall at | Within(at, reqStart, reqEnd) :: EvaluateShiftPoint(day, at) == Success(OnDuty))
  {
    hide ValidHHMM, ParseHHMM;
    DayTimesParse(day);
    assert Within(reqStart, reqStart, reqEnd);
    if day.Some? {
      var d, a, b := day.value, ParseHHMM(reqStart), ParseHHMM(reqEnd);
      var start, end := ParseHHMM(d.start), ParseHHMM(d.end);
      if b > end {
        var at := if a >= end then reqStart else d.end;
        assert Within(at, reqStart, reqEnd) && EvaluateShiftPoint(day, at) == Success(Off);
      } else if start <= a {
        OverlapHasWitness(d, reqStart, reqEnd);
      }
    }
  }

  lemma DayTimesParse(day: Option<Day>)
    requires day.Some? ==> DayOK(day.value)
    ensures TimesParse(day)
  {
  }

  // Inside the shift, the interval touches a break exactly when one of its minutes lies in that break.
  lemma OverlapHasWitness(d: Day, reqStart: string, reqEnd: string)
    requires DayOK(d) && TimesParse(Some(d))
    requires ValidHHMM(reqStart) && ValidHHMM(reqEnd) && ParseHHMM(reqStart) < ParseHHMM(reqEnd)
    requires ParseHHMM(d.start) <= ParseHHMM(reqStart) && ParseHHMM(reqEnd) <= ParseHHMM(d.end)
    ensures (exists i | 0 <= i < |d.breaks| :: Touches(d.breaks[i], ParseHHMM(reqStart), ParseHHMM(reqEnd))) <==>
            SomeMinute(Some(d), reqStart, reqEnd, BreakOverlap)
  {
    hide ValidHHMM, ParseHHMM;
    var a, b := ParseHHMM(reqStart), ParseHHMM(reqEnd);
    if i :| 0 <= i < |d.breaks| && Touches(d.breaks[i], a, b) {
      var br := d.breaks[i];
      assert BreakOK(br, ParseHHMM(d.start), ParseHHMM(d.end));
      var at := if a >= ParseHHMM(br.start) then reqStart else br.start;
      assert Within(at, reqStart, reqEnd) && InBreak(br, ParseHHMM(at));
    }
    if SomeMinute(Some(d), reqStart, reqEnd, BreakOverlap) {
      var at :| Within(at, reqStart, reqEnd) && EvaluateShiftPoint(Some(d), at) == Success(BreakOverlap);
      var i :| 0 <= i < |d.breaks| && InBreak(d.breaks[i], ParseHHMM(at));
      assert Touches(d.breaks[i], a, b);
    }
  }
}
