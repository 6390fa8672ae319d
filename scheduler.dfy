/**
  * The weekly cycle clock. A business week ends on a Wednesday. Dates are
  * day ordinals (module Calendar); instants are whole seconds on the same
  * scale, so that `d * 86400` is midnight UTC of day `d`; wall-clock times are
  * seconds on the same scale read in the zone. The timezone itself is given
  * by its two offset functions; the tz database behind them is not modelled.
  */
module Scheduler {
  import opened Calendar

  /** A UTC offset; Python's tzinfo must keep it strictly within one day. */
  type Offset = o: int | -86400 < o < 86400

  /**
    * A timezone: `utcOffset(t)` is the offset in force at instant `t`
    * (what `astimezone` applies), and `localizeOffset(w)` is the offset
    * `localize` attaches to wall-clock time `w`.
    */
  datatype Zone = Zone(utcOffset: int -> Offset, localizeOffset: int -> Offset)

  type Hour = h: int | 0 <= h < 24
  type Minute = m: int | 0 <= m < 60

  /** `t.astimezone(zone)`, as wall-clock seconds. */
  function ToLocal(z: Zone, t: int): int {
    t + z.utcOffset(t)
  }

  /** `zone.localize(naive)`: the instant a wall-clock time stands for. */
  function Localize(z: Zone, w: int): int {
    w - z.localizeOffset(w)
  }

  /** The wall-clock time occurs in the zone: localizing it and reading it back gives it again. */
  predicate WallTimeExists(z: Zone, w: int) {
    ToLocal(z, Localize(z, w)) == w
  }

  /** `.date()` of a wall-clock time. */
  function LocalDate(w: int): int {
    w / 86400
  }

  /** `datetime.combine(d, time(hour, minute))`. */
  function WallAt(d: int, hour: Hour, minute: Minute): (w: int)
    ensures LocalDate(w) == d && w % 86400 == hour * 3600 + minute * 60
  {
    d * 86400 + hour * 3600 + minute * 60
  }

  /** The local date of an instant. */
  function Today(z: Zone, now: int): int {
    LocalDate(ToLocal(z, now))
  }

  // ---------------------------------------------------------------------------
  // week_bounds

  /** `week_bounds`: the inclusive seven-day window that ends on `weekEnd`. */
  function WeekBounds(weekEnd: int): (r: (int, int))
    ensures r.1 == weekEnd && r.1 - r.0 + 1 == 7
  {
    (weekEnd - 6, weekEnd)
  }

  /** The Wednesday that closes the week holding `d`: the first Wednesday on or after `d`. */
  function WeekEndOf(d: int): int {
    d + (Wednesday - Weekday(d)) % 7
  }

  /**
    * Wednesday-ending weeks cover the calendar without gaps or overlaps: every day
    * lies in the week of exactly one Wednesday.
    */
  lemma {:induction false} WeeksPartitionDays(d: int, e: int)
    ensures Weekday(WeekEndOf(d)) == Wednesday
    ensures WeekBounds(WeekEndOf(d)).0 <= d <= WeekBounds(WeekEndOf(d)).1
    ensures Weekday(e) == Wednesday && WeekBounds(e).0 <= d <= WeekBounds(e).1 ==> e == WeekEndOf(d)
  {
    var k := (Wednesday - Weekday(d)) % 7;
    assert Weekday(d + k) == Wednesday;
    if Weekday(e) == Wednesday && e - 6 <= d <= e {
      assert (e - d) % 7 == k;
    }
  }

  /** Consecutive weeks meet: the next week starts the day after this one ends. */
  lemma NextWeekFollows(weekEnd: int)
    ensures WeekBounds(weekEnd + 7).0 == WeekBounds(weekEnd).1 + 1
    ensures Weekday(weekEnd) == Wednesday ==> Weekday(WeekBounds(weekEnd).0) == 3
  {
  }

  // ---------------------------------------------------------------------------
  // current_wednesday

  /** `current_wednesday`: the most recent local Wednesday, today included. */
  function CurrentWednesday(now: int, z: Zone): (d: int)
    ensures Weekday(d) == Wednesday
    ensures 0 <= Today(z, now) - d <= 6
    ensures Weekday(Today(z, now)) == Wednesday ==> d == Today(z, now)
  {
    var today := Today(z, now);
    today - (Weekday(today) - Wednesday) % 7
  }

  /** There is only one such Wednesday, so the week it closes is the current week. */
  lemma {:induction false} CurrentWednesdayUnique(now: int, z: Zone, w: int)
    requires Weekday(w) == Wednesday && 0 <= Today(z, now) - w <= 6
    ensures w == CurrentWednesday(now, z)
    ensures WeekBounds(w).0 <= Today(z, now) <= WeekBounds(w).1 + 6
  {
    var d := CurrentWednesday(now, z);
    assert (w - d) % 7 == 0;
  }

  /** The current week ends today at the latest and started at most six days earlier. */
  lemma {:induction false} CurrentWeekEndsOnOrBeforeToday(now: int, z: Zone)
    ensures var (start, end) := WeekBounds(CurrentWednesday(now, z));
      start <= Today(z, now) - 6 <= end && end <= Today(z, now)
  {
  }

  // ---------------------------------------------------------------------------
  // next_wednesday_at

  /**
    * The local date `next_wednesday_at` settles on: this week's Wednesday (today or
    * later) unless its hour:minute is not after `now`, in which case the one after.
    */
  function NextWednesdayDate(now: int, z: Zone, hour: Hour, minute: Minute): (d: int)
    ensures Weekday(d) == Wednesday
    ensures Today(z, now) <= d <= Today(z, now) + 9
    ensures Localize(z, WallAt(d, hour, minute)) > now
    ensures forall w | Today(z, now) <= w < d && Weekday(w) == Wednesday ::
              Localize(z, WallAt(w, hour, minute)) <= now
  {
    var today := Today(z, now);
    var candidate := WeekEndOf(today);
    WednesdaysFrom(today);
    NowWithinToday(z, now);
    if Localize(z, WallAt(candidate, hour, minute)) <= now then candidate + 7 else candidate
  }

  /** The first Wednesday on or after `d` is at most six days away, and it is the only one in the seven days after it. */
  lemma {:induction false} WednesdaysFrom(d: int)
    ensures Weekday(WeekEndOf(d)) == Wednesday && d <= WeekEndOf(d) <= d + 6
    ensures forall w | d <= w < WeekEndOf(d) :: Weekday(w) != Wednesday
    ensures forall w | d <= w < WeekEndOf(d) + 7 && Weekday(w) == Wednesday :: w == WeekEndOf(d)
  {
    var c := WeekEndOf(d);
    WeeksPartitionDays(d, c);
    forall w | d <= w < c + 7 && Weekday(w) == Wednesday
      ensures w == c
    {
      assert (w - c) % 7 == 0;
    }
    forall w | d <= w < c
      ensures Weekday(w) != Wednesday
    {
      assert (c - w) % 7 == c - w;
    }
  }

  /** An instant lies between the start of the day before its local date and the end of the day after. */
  lemma NowWithinToday(z: Zone, now: int)
    ensures (Today(z, now) - 1) * 86400 < now < (Today(z, now) + 2) * 86400
  {
  }

  /** A zone whose offset never changes, such as America/Sao_Paulo since 2019. */
  ghost predicate FixedOffset(z: Zone, o: Offset) {
    forall t :: z.utcOffset(t) == o && z.localizeOffset(t) == o
  }

  /** In a fixed-offset zone the Wednesday chosen is at most a week away. */
  lemma {:induction false} NextWednesdayWithinWeek(now: int, z: Zone, o: Offset, hour: Hour, minute: Minute)
    requires FixedOffset(z, o)
    ensures NextWednesdayDate(now, z, hour, minute) <= Today(z, now) + 7
  {
    var today := Today(z, now);
    var candidate := WeekEndOf(today);
    WednesdaysFrom(today);
    if Localize(z, WallAt(candidate, hour, minute)) <= now {
      assert WallAt(candidate, hour, minute) <= ToLocal(z, now);
      assert candidate == today;
    }
  }

  /** `next_wednesday_at`: the instant of hour:minute local time on that Wednesday. */
  function NextWednesdayAt(now: int, z: Zone, hour: Hour := 9, minute: Minute := 0): (t: int)
    ensures t > now
  {
    Localize(z, WallAt(NextWednesdayDate(now, z, hour, minute), hour, minute))
  }

  /**
    * Where the wall-clock time exists (not skipped by a daylight-saving change), the
    * result reads locally as a Wednesday at exactly hour:minute, today or later.
    */
  lemma {:induction false} NextWednesdayAtReadsLocally(now: int, z: Zone, hour: Hour, minute: Minute)
    requires WallTimeExists(z, WallAt(NextWednesdayDate(now, z, hour, minute), hour, minute))
    ensures var w := ToLocal(z, NextWednesdayAt(now, z, hour, minute));
      && Weekday(LocalDate(w)) == Wednesday
      && w % 86400 == hour * 3600 + minute * 60
      && Today(z, now) <= LocalDate(w) <= Today(z, now) + 9
  {
  }

  // ---------------------------------------------------------------------------
  // is_within_reminder_window

  /** The reminder's target: hour:minute local time on the current Wednesday. */
  function ReminderTarget(now: int, z: Zone, hour: Hour, minute: Minute): int {
    Localize(z, WallAt(CurrentWednesday(now, z), hour, minute))
  }

  /** `is_within_reminder_window`: `now` is at most `tolerance` minutes from the target, either side. */
  function IsWithinReminderWindow(now: int, z: Zone, hour: Hour := 9, minute: Minute := 0,
                                  toleranceMinutes: int := 15): (r: bool)
    ensures var target := ReminderTarget(now, z, hour, minute);
      r <==> target - toleranceMinutes * 60 <= now <= target + toleranceMinutes * 60
  {
    var target := ReminderTarget(now, z, hour, minute);
    var delta := if now >= target then now - target else target - now;
    delta <= toleranceMinutes * 60
  }

  /**
    * The window is symmetric and closed: instants exactly the tolerance before or after
    * the target are inside, one minute further out on either side is outside.
    */
  lemma {:induction false} ReminderWindowEdges(now: int, z: Zone, hour: Hour, minute: Minute, tol: nat)
    requires now == ReminderTarget(now, z, hour, minute) + tol * 60
          || now == ReminderTarget(now, z, hour, minute) - tol * 60
    ensures IsWithinReminderWindow(now, z, hour, minute, tol)
    ensures !IsWithinReminderWindow(now, z, hour, minute, tol - 1)
  {
    assert now != ReminderTarget(now, z, hour, minute) ==> tol > 0;
    if tol == 0 {
      assert now == ReminderTarget(now, z, hour, minute);
    }
  }

  /** The target is never a future Wednesday: it reads locally as today or an earlier day. */
  lemma {:induction false} ReminderTargetNotAhead(now: int, z: Zone, hour: Hour, minute: Minute)
    requires WallTimeExists(z, WallAt(CurrentWednesday(now, z), hour, minute))
    ensures var w := ToLocal(z, ReminderTarget(now, z, hour, minute));
      && Weekday(LocalDate(w)) == Wednesday
      && Today(z, now) - 6 <= LocalDate(w) <= Today(z, now)
  {
  }
}
