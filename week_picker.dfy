/**
  * The frontend's week picker. It shows the Wednesday that ends the selected
  * week, steps a week back or forward, and snaps any chosen day to a Wednesday
  * before passing it on as "YYYY-MM-DD" text. Dates are the day ordinals of
  * module Calendar; dayjs numbers weekdays from Sunday = 0.
  */
module WeekPicker {
  import opened Wrappers
  import opened Calendar
  import opened Scheduler

  /** dayjs's `WEDNESDAY` in its Sunday-first numbering. */
  const WednesdayDay := 3

  /** What dayjs's `format` writes for a date it could not parse. */
  const InvalidDate := "Invalid Date"

  /** dayjs `day()`: Sunday is 0, Wednesday 3, Saturday 6. */
  function DayOfWeek(d: int): (w: int)
    ensures 0 <= w < 7
  {
    d % 7
  }

  /** The two weekday numberings name the same day: dayjs's is Python's plus one, modulo 7. */
  lemma DayOfWeekAgrees(d: int)
    ensures DayOfWeek(d) == (Weekday(d) + 1) % 7
    ensures DayOfWeek(d) == WednesdayDay <==> Weekday(d) == Wednesday
  {
  }

  /** The Sunday that starts the dayjs week holding `d`. */
  function WeekSunday(d: int): int {
    d - DayOfWeek(d)
  }

  /**
    * `ensureWednesday`: the Wednesday of the Sunday-to-Saturday week holding `d`,
    * reached by subtracting `day() - 3` days.
    */
  function EnsureWednesday(d: int): (r: int)
    ensures DayOfWeek(r) == WednesdayDay
    ensures WeekSunday(r) == WeekSunday(d)
    ensures -3 <= r - d <= 3
  {
    d - (DayOfWeek(d) - WednesdayDay)
  }

  /** Sunday to Tuesday move forward, Thursday to Saturday move back, a Wednesday stays. */
  lemma EnsureWednesdayDirection(d: int)
    ensures DayOfWeek(d) < WednesdayDay ==> EnsureWednesday(d) > d
    ensures DayOfWeek(d) == WednesdayDay <==> EnsureWednesday(d) == d
    ensures DayOfWeek(d) > WednesdayDay ==> EnsureWednesday(d) < d
  {
  }

  /** It is the only Wednesday of that Sunday-start week. */
  lemma {:induction false} EnsureWednesdayUnique(d: int, w: int)
    requires DayOfWeek(w) == WednesdayDay && WeekSunday(w) == WeekSunday(d)
    ensures w == EnsureWednesday(d)
  {
  }

  /** Snapping twice is snapping once. */
  lemma EnsureWednesdayIdempotent(d: int)
    ensures EnsureWednesday(EnsureWednesday(d)) == EnsureWednesday(d)
  {
  }

  /**
    * The frontend and the backend disagree from Sunday to Tuesday: the picker snaps
    * forward to the coming Wednesday while `current_wednesday` goes back to the last one.
    */
  lemma {:induction false} PickerVersusCurrentWednesday(now: int, z: Zone)
    ensures var today := Today(z, now);
      EnsureWednesday(today) == CurrentWednesday(now, z) + (if DayOfWeek(today) < WednesdayDay then 7 else 0)
  {
    var today := Today(z, now);
    DayOfWeekAgrees(today);
    DayOfWeekAgrees(CurrentWednesday(now, z));
  }

  /** Snapping a date of the calendar's range stays within the range. */
  lemma SnapInRange(d: int)
    requires InRange(d)
    ensures InRange(EnsureWednesday(d))
  {
    assert DayOfWeek(MaxOrdinal) == 5;
  }

  /** `format`: the snapped date as "YYYY-MM-DD". */
  function Format(d: int): (s: string)
    requires InRange(d)
    ensures |s| == 10
  {
    SnapInRange(d);
    IsoText(EnsureWednesday(d))
  }

  /** What `format` writes reads back as the Wednesday it snapped to. */
  lemma FormatReadsBack(d: int)
    requires InRange(d)
    ensures InRange(EnsureWednesday(d)) && ParseIso(Format(d)) == Some(EnsureWednesday(d))
  {
    SnapInRange(d);
    IsoRoundTrip(EnsureWednesday(d));
  }

  /** `dayjs(value)` for the picker's "YYYY-MM-DD" value; None when it does not name a calendar date. */
  function Parse(value: string): Option<int> {
    ParseIso(value)
  }

  /** `current`: the Wednesday of the week of the value shown. */
  function Current(value: string): (c: Option<int>)
    ensures c.Some? <==> Parse(value).Some?
    ensures c.Some? ==> InRange(c.value) && DayOfWeek(c.value) == WednesdayDay
    ensures c.Some? ==> WeekSunday(c.value) == WeekSunday(Parse(value).value)
  {
    match Parse(value)
    case None => None
    case Some(d) =>
      ParsedInRange(value);
      SnapInRange(d);
      Some(EnsureWednesday(d))
  }

  /** The current date is exactly the parsed value snapped to its Wednesday. */
  lemma CurrentIsSnapped(value: string)
    requires Parse(value).Some?
    ensures Current(value) == Some(EnsureWednesday(Parse(value).value))
  {
    EnsureWednesdayUnique(Parse(value).value, Current(value).value);
  }

  /**
    * The text `onChange` receives for `date`: its formatted Wednesday, "Invalid Date"
    * when there is no date, None when the date leaves the modelled calendar.
    */
  function Emit(date: Option<int>): Option<string> {
    match date
    case None => Some(InvalidDate)
    case Some(d) => if InRange(d) then Some(Format(d)) else None
  }

  /** dayjs `add(k, "day")`; `subtract(k, "day")` is `add(-k, "day")`. */
  function AddDays(c: int, k: int): int {
    c + k
  }

  /** The text emitted for the date `k` days after `current`, when there is one. */
  function Step(current: Option<int>, k: int): Option<string> {
    match current
    case None => Emit(None)
    case Some(c) => Emit(Some(AddDays(c, k)))
  }

  /** `goPrevious`: the Wednesday seven days before the current one. */
  function GoPrevious(value: string): (r: Option<string>)
    ensures Parse(value).None? ==> r == Some(InvalidDate)
  {
    Step(Current(value), -7)
  }

  /** `goNext`: the Wednesday seven days after the current one. */
  function GoNext(value: string): (r: Option<string>)
    ensures Parse(value).None? ==> r == Some(InvalidDate)
  {
    Step(Current(value), 7)
  }

  /** `handleInputChange`: the chosen day snapped to its Wednesday, today's when the input is cleared. */
  function HandleInputChange(input: string, today: int): (r: Option<string>)
    ensures input != "" && Parse(input).None? ==> r == Some(InvalidDate)
  {
    if input == "" then Emit(Some(today)) else Emit(Parse(input))
  }

  /** Whatever reaches `onChange` as a date is the text of a Wednesday. */
  lemma {:induction false} EmittedIsWednesday(date: Option<int>)
    requires Emit(date).Some? && Emit(date).value != InvalidDate
    ensures ParseIso(Emit(date).value).Some?
    ensures DayOfWeek(ParseIso(Emit(date).value).value) == WednesdayDay
  {
    FormatReadsBack(date.value);
  }

  /** A Wednesday is emitted as its own text. */
  lemma EmitWednesday(d: int)
    requires InRange(d) && DayOfWeek(d) == WednesdayDay
    ensures Emit(Some(d)) == Some(IsoText(d))
  {
    assert EnsureWednesday(d) == d;
  }

  /** A date in range is sent on as text that reads back as its week's Wednesday. */
  lemma EmitReadsBack(d: int)
    requires InRange(d)
    ensures Emit(Some(d)).Some? && ParseIso(Emit(Some(d)).value) == Some(EnsureWednesday(d))
  {
    FormatReadsBack(d);
  }

  /**
    * A chosen day is sent on as the text of its week's Wednesday; a cleared input
    * stands for today, and text that is not a date is sent on as "Invalid Date".
    */
  lemma {:induction false} InputChangeSnaps(input: string, today: int)
    requires InRange(today)
    ensures input == "" ==>
      HandleInputChange(input, today).Some?
      && ParseIso(HandleInputChange(input, today).value) == Some(EnsureWednesday(today))
    ensures input != "" && Parse(input).Some? ==>
      HandleInputChange(input, today).Some?
      && ParseIso(HandleInputChange(input, today).value) == Some(EnsureWednesday(Parse(input).value))
    ensures input != "" && Parse(input).None? ==> HandleInputChange(input, today) == Some(InvalidDate)
  {
    if input == "" {
      EmitReadsBack(today);
    } else if Parse(input).Some? {
      ParsedInRange(input);
      EmitReadsBack(Parse(input).value);
    }
  }

  /** Stepping a Wednesday by whole weeks emits the text of the Wednesday `d` reached. */
  lemma {:induction false} StepByWeeks(c: int, k: int, d: int)
    requires DayOfWeek(c) == WednesdayDay && k % 7 == 0 && d == AddDays(c, k) && InRange(d)
    ensures Step(Some(c), k) == Some(IsoText(d))
  {
    ShiftByWeeks(c, k);
    EmitWednesday(d);
  }

  /** Whole weeks keep the day of the week. */
  lemma ShiftByWeeks(c: int, k: int)
    requires k % 7 == 0
    ensures DayOfWeek(AddDays(c, k)) == DayOfWeek(c)
  {
    var q := c / 7 + k / 7;
    assert c + k == 7 * q + c % 7;
  }

  /** Stepping moves by exactly one week: the text emitted reads back as the current Wednesday ± 7. */
  lemma {:induction false} StepsAreOneWeek(value: string, c: int)
    requires Current(value) == Some(c)
    ensures InRange(AddDays(c, -7)) ==>
      GoPrevious(value).Some? && ParseIso(GoPrevious(value).value) == Some(AddDays(c, -7))
    ensures InRange(AddDays(c, 7)) ==>
      GoNext(value).Some? && ParseIso(GoNext(value).value) == Some(AddDays(c, 7))
  {
    var p, n := AddDays(c, -7), AddDays(c, 7);
    if InRange(p) {
      StepByWeeks(c, -7, p);
      IsoRoundTrip(p);
    }
    if InRange(n) {
      StepByWeeks(c, 7, n);
      IsoRoundTrip(n);
    }
  }

  /** Going forward and then back returns to the Wednesday the picker showed. */
  lemma {:induction false} NextThenPrevious(w: int)
    requires InRange(w) && InRange(AddDays(w, 7)) && DayOfWeek(w) == WednesdayDay
    ensures GoNext(IsoText(w)).Some?
    ensures GoPrevious(GoNext(IsoText(w)).value) == Some(IsoText(w))
  {
    var n := AddDays(w, 7);
    ShownWednesday(w);
    StepByWeeks(w, 7, n);
    assert GoNext(IsoText(w)) == Some(IsoText(n));
    ShiftByWeeks(w, 7);
    ShownWednesday(n);
    StepByWeeks(n, -7, w);
    assert GoPrevious(IsoText(n)) == Some(IsoText(w));
  }

  /** The picker showing a Wednesday's text takes that Wednesday as current. */
  lemma ShownWednesday(w: int)
    requires InRange(w) && DayOfWeek(w) == WednesdayDay
    ensures Current(IsoText(w)) == Some(w)
  {
    IsoRoundTrip(w);
    CurrentOfParsed(IsoText(w), w);
  }

  /** A value that reads as a Wednesday makes that Wednesday current. */
  lemma CurrentOfParsed(value: string, w: int)
    requires Parse(value) == Some(w) && DayOfWeek(w) == WednesdayDay
    ensures Current(value) == Some(w)
  {
  }
}
