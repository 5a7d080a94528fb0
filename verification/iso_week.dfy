/**
  Monday-first week arithmetic (the week of ISO 8601:2004 section 4.1.4,
  whose weeks begin on Monday) as the mirror's `currentISOWeekStart` does it.

  Instants are whole seconds since 1970-01-01T00:00:00Z. The calendar is
  reduced to a fixed offset `zone` (seconds east of UTC), so every local day
  is 86400 seconds long. Weekdays follow Foundation's numbering,
  Sunday = 1 ... Saturday = 7.
 */
module IsoWeek {

  type Instant = int

  const SecondsPerDay: int := 86400
  const DaysPerWeek: int := 7

  const Sunday: int := 1
  const Monday: int := 2
  const Thursday: int := 5
  const Saturday: int := 7

  /** 1970-01-01 was a Thursday. */
  const EpochWeekday: int := Thursday

  /** Local calendar day holding `t`, counted from 1970-01-01 (floor division). */
  function DayNumber(t: Instant, zone: int): int
  {
    (t + zone) / SecondsPerDay
  }

  /** The first instant of local day `day`. */
  function DayStart(day: int, zone: int): (r: Instant)
    ensures DayNumber(r, zone) == day
    ensures IsStartOfDay(r, zone)
  {
    day * SecondsPerDay - zone
  }

  predicate IsStartOfDay(t: Instant, zone: int)
  {
    (t + zone) % SecondsPerDay == 0
  }

  /** `Calendar.startOfDay(for:)`: the latest start of a day not after `t`. */
  function StartOfDay(t: Instant, zone: int): (r: Instant)
    ensures IsStartOfDay(r, zone)
    ensures r <= t < r + SecondsPerDay
    ensures DayNumber(r, zone) == DayNumber(t, zone)
  {
    DayStart(DayNumber(t, zone), zone)
  }

  /** `Calendar.component(.weekday, from:)` on local day `day`: the epoch's
      weekday advanced by one place per day, cyclically. */
  function WeekdayOfDay(day: int): (w: int)
    ensures Sunday <= w <= Saturday
    ensures (w - EpochWeekday - day) % DaysPerWeek == 0
  {
    (day + EpochWeekday - 1) % DaysPerWeek + 1
  }

  /** The weekday of the local day holding `t`. Day 0 (1970-01-01) is a
      Thursday, and each later local day moves one place on. */
  function Weekday(t: Instant, zone: int): (w: int)
    ensures Sunday <= w <= Saturday
    ensures DayNumber(t, zone) == 0 ==> w == EpochWeekday
    ensures (w - EpochWeekday - DayNumber(t, zone)) % DaysPerWeek == 0
  {
    WeekdayOfDay(DayNumber(t, zone))
  }

  /** `(weekday + 5) % 7`: days back from `weekday` to the Monday before
      it. The weekday component is always in 1...7, where Swift's
      truncating `%` and Dafny's agree. */
  function MondayDelta(weekday: int): (delta: int)
    requires Sunday <= weekday <= Saturday
    ensures 0 <= delta < DaysPerWeek
    ensures (weekday - delta - Monday) % DaysPerWeek == 0
  {
    (weekday + 5) % 7
  }

  /** The delta is zero exactly on Monday and is six on Sunday. */
  lemma MondayDeltaValues(weekday: int)
    requires Sunday <= weekday <= Saturday
    ensures MondayDelta(weekday) == 0 <==> weekday == Monday
    ensures weekday == Sunday ==> MondayDelta(weekday) == 6
  {
  }

  /** Calendar anchors: 1970-01-01 was a Thursday and 2026-10-10 (local
      day 20736) a Saturday. */
  lemma KnownWeekdays()
    ensures WeekdayOfDay(0) == Thursday
    ensures WeekdayOfDay(20736) == Saturday
  {
  }

  /** Stepping `n` days back from a day moves its weekday back `n` places. */
  lemma WeekdayShift(day: int, n: int)
    ensures (WeekdayOfDay(day) - n - WeekdayOfDay(day - n)) % DaysPerWeek == 0
  {
  }

  /** `currentISOWeekStart(now:)`: start of the local day, moved back
      `MondayDelta` whole days. */
  function CurrentISOWeekStart(now: Instant, zone: int): (r: Instant)
    ensures IsStartOfDay(r, zone)
    ensures Weekday(r, zone) == Monday
    ensures r <= StartOfDay(now, zone) <= r + 6 * SecondsPerDay
  {
    var sod := StartOfDay(now, zone);
    var delta := MondayDelta(Weekday(sod, zone));
    WeekStartStep(DayNumber(sod, zone), delta, zone);
    sod - delta * SecondsPerDay
  }

  lemma WeekStartStep(day: int, delta: int, zone: int)
    requires delta == MondayDelta(WeekdayOfDay(day))
    ensures DayStart(day, zone) - delta * SecondsPerDay == DayStart(day - delta, zone)
    ensures WeekdayOfDay(day - delta) == Monday
  {
    WeekdayShift(day, delta);
  }

  /** An instant that begins a day is the start of its own day number. */
  lemma StartOfDayIsDayStart(t: Instant, zone: int)
    requires IsStartOfDay(t, zone)
    ensures t == DayStart(DayNumber(t, zone), zone)
  {
  }

  /** Start-of-day instants are ordered as their day numbers. */
  lemma DayStartOrder(a: int, b: int, zone: int)
    ensures DayStart(a, zone) <= DayStart(b, zone) <==> a <= b
    ensures DayStart(b, zone) - DayStart(a, zone) == (b - a) * SecondsPerDay
  {
  }

  /** Two Mondays less than a week apart are the same day. */
  lemma MondaysAWeekApart(a: int, b: int)
    requires WeekdayOfDay(a) == Monday && WeekdayOfDay(b) == Monday
    requires a <= b <= a + 6
    ensures a == b
  {
    WeekdayShift(b, b - a);
  }

  /** The week start is the ONLY Monday start of day that lies at most six
      days before the start of `now`'s day: an independent characterisation
      of `currentISOWeekStart`. */
  lemma {:induction false} WeekStartUnique(now: Instant, zone: int, m: Instant)
    requires IsStartOfDay(m, zone) && Weekday(m, zone) == Monday
    requires m <= StartOfDay(now, zone) <= m + 6 * SecondsPerDay
    ensures m == CurrentISOWeekStart(now, zone)
  {
    var r := CurrentISOWeekStart(now, zone);
    var sod := StartOfDay(now, zone);
    StartOfDayIsDayStart(m, zone);
    StartOfDayIsDayStart(r, zone);
    StartOfDayIsDayStart(sod, zone);
    var dm, dr, ds := DayNumber(m, zone), DayNumber(r, zone), DayNumber(sod, zone);
    DayStartOrder(dm, ds, zone);
    DayStartOrder(dr, ds, zone);
    DayStartOrder(ds, dm + 6, zone);
    DayStartOrder(ds, dr + 6, zone);
    assert DayStart(dm + 6, zone) == m + 6 * SecondsPerDay;
    assert DayStart(dr + 6, zone) == r + 6 * SecondsPerDay;
    if dm <= dr {
      MondaysAWeekApart(dm, dr);
    } else {
      MondaysAWeekApart(dr, dm);
    }
  }

  /** Every instant of the week that begins at `CurrentISOWeekStart(now)`
      maps back to that same week start. */
  lemma {:induction false} WeekStartConstantOnWeek(now: Instant, t: Instant, zone: int)
    requires CurrentISOWeekStart(now, zone) <= t < CurrentISOWeekStart(now, zone) + DaysPerWeek * SecondsPerDay
    ensures CurrentISOWeekStart(t, zone) == CurrentISOWeekStart(now, zone)
  {
    var r := CurrentISOWeekStart(now, zone);
    var sod := StartOfDay(t, zone);
    StartOfDayIsDayStart(r, zone);
    StartOfDayIsDayStart(sod, zone);
    var dr, ds := DayNumber(r, zone), DayNumber(sod, zone);
    DayStartOrder(dr, ds, zone);
    DayStartOrder(ds, dr + 6, zone);
    assert DayStart(dr + 6, zone) == r + 6 * SecondsPerDay;
    assert DayStart(dr + 7, zone) == r + 7 * SecondsPerDay;
    DayStartOrder(ds, dr + 7, zone);
    WeekStartUnique(t, zone, r);
  }

  /** Applying the week start to its own result changes nothing. */
  lemma {:induction false} CurrentISOWeekStartIdempotent(now: Instant, zone: int)
    ensures CurrentISOWeekStart(CurrentISOWeekStart(now, zone), zone) == CurrentISOWeekStart(now, zone)
  {
    WeekStartConstantOnWeek(now, CurrentISOWeekStart(now, zone), zone);
  }
}
