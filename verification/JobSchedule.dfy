/** When a scheduled job runs next. Timestamps are milliseconds, bounded by what the
    source language stores exactly; every operation that would leave that range fails. */
module JobSchedule {
  import opened Text

  const MAX_SAFE_INTEGER := 9007199254740991
  const MINUTE_MS := 60000
  const INTERVAL_MINUTES_MIN := 1
  const INTERVAL_MINUTES_MAX := 525600

  predicate SafeInteger(n: int) { -MAX_SAFE_INTEGER <= n <= MAX_SAFE_INTEGER }
  predicate SafeTimestamp(n: int) { 0 <= n <= MAX_SAFE_INTEGER }

  datatype ScheduleInput = EveryMinutes(minutes: int) | DailyAt(localTime: string, zone: string)
  datatype Schedule = Interval(minutes: int, anchor: int) | Daily(localTime: string, zone: string)

  /** What the calendar library answers: whether a zone is supported, the local date of an
      instant (as a day number), and the instant of a local time on a date. */
  datatype Calendar = Calendar(
    supported: string -> bool,
    day: (string, int) -> int,
    instant: (string, string, int) -> Option<int>)

  function Tomorrow(cal: Calendar, zone: string, localTime: string, t: int): Option<int> {
    cal.instant(zone, localTime, cal.day(zone, t) + 1)
  }

  // The wall clock of the following day lies ahead.
  ghost predicate Advancing(cal: Calendar) {
    forall zone, localTime, t :: Tomorrow(cal, zone, localTime, t).Some? ==> t < Tomorrow(cal, zone, localTime, t).value
  }

  predicate DailyTime(s: string) {
    && |s| == 5 && s[2] == ':'
    && (('0' <= s[0] <= '1' && '0' <= s[1] <= '9') || (s[0] == '2' && '0' <= s[1] <= '3'))
    && '0' <= s[3] <= '5' && '0' <= s[4] <= '9'
  }

  predicate ValidInput(cal: Calendar, input: ScheduleInput) {
    match input
    case EveryMinutes(minutes) => INTERVAL_MINUTES_MIN <= minutes <= INTERVAL_MINUTES_MAX
    case DailyAt(localTime, zone) => DailyTime(localTime) && cal.supported(zone)
  }

  predicate ValidSchedule(cal: Calendar, schedule: Schedule) {
    match schedule
    case Interval(minutes, anchor) => SafeTimestamp(anchor) && ValidInput(cal, EveryMinutes(minutes))
    case Daily(localTime, zone) => ValidInput(cal, DailyAt(localTime, zone))
  }

  function Establish(cal: Calendar, input: ScheduleInput, anchor: int): (r: Option<Schedule>)
    ensures r.Some? ==> ValidSchedule(cal, r.value)
  {
    if !SafeTimestamp(anchor) || !ValidInput(cal, input) then None
    else match input
      case EveryMinutes(minutes) => Some(Interval(minutes, anchor))
      case DailyAt(localTime, zone) => Some(Daily(localTime, zone))
  }

  function IntervalOccurrenceAfter(minutes: int, anchor: int, after: int): Option<int> {
    var duration := minutes * MINUTE_MS;
    if !SafeInteger(duration) || duration <= 0 then None
    else if after < anchor then Some(anchor)
    else
      var elapsed := after - anchor;
      var periods := elapsed / duration + 1;
      var offset := periods * duration;
      if SafeInteger(elapsed) && SafeInteger(periods) && SafeInteger(offset) && SafeTimestamp(anchor + offset)
      then Some(anchor + offset) else None
  }

  function DailyOccurrenceAfter(cal: Calendar, localTime: string, zone: string, after: int): Option<int> {
    var candidate := cal.instant(zone, localTime, cal.day(zone, after));
    var chosen :=
      if candidate.Some? && candidate.value <= after then Tomorrow(cal, zone, localTime, after) else candidate;
    if chosen.Some? && SafeTimestamp(chosen.value) then chosen else None
  }

  function FirstOccurrenceAfter(cal: Calendar, schedule: Schedule, after: int): Option<int> {
    if !SafeTimestamp(after) || !ValidSchedule(cal, schedule) then None
    else match schedule
      case Interval(minutes, anchor) => IntervalOccurrenceAfter(minutes, anchor, after)
      case Daily(localTime, zone) => DailyOccurrenceAfter(cal, localTime, zone, after)
  }

  function Later(a: int, b: int): int { if a < b then b else a }

  function AdvanceOccurrence(cal: Calendar, schedule: Schedule, persisted: int, now: int): Option<int> {
    if !SafeTimestamp(persisted) || !SafeTimestamp(now) then None
    else FirstOccurrenceAfter(cal, schedule, Later(persisted, now))
  }

  ghost predicate IsClockTime(s: string) {
    exists hour: nat, minute: nat ::
      hour < 24 && minute < 60 && s == [Digit(hour / 10), Digit(hour % 10), ':', Digit(minute / 10), Digit(minute % 10)]
  }

  /** A schedule is established exactly from an interval of 1 to 525,600 minutes, or from a
      time of day, written with two digits each for the hour and the minute, in a supported
      zone; and keeps what it was given, the interval with its anchor. */
  lemma EstablishedExactlyWhen(cal: Calendar, input: ScheduleInput, anchor: int)
    ensures match input
      case EveryMinutes(minutes) =>
        Establish(cal, input, anchor) == if SafeTimestamp(anchor) && 1 <= minutes <= 525_600 then Some(Interval(minutes, anchor)) else None
      case DailyAt(localTime, zone) =>
        && (Establish(cal, input, anchor) == Some(Daily(localTime, zone)) || Establish(cal, input, anchor) == None)
        && (Establish(cal, input, anchor).Some? <==> SafeTimestamp(anchor) && cal.supported(zone) && IsClockTime(localTime))
  {
    if input.DailyAt? && DailyTime(input.localTime) {
      var s := input.localTime;
      var hour, minute := DigitValue(s[0]) * 10 + DigitValue(s[1]), DigitValue(s[3]) * 10 + DigitValue(s[4]);
      assert hour / 10 == DigitValue(s[0]) && hour % 10 == DigitValue(s[1]);
      assert minute / 10 == DigitValue(s[3]) && minute % 10 == DigitValue(s[4]);
      assert s == [Digit(hour / 10), Digit(hour % 10), ':', Digit(minute / 10), Digit(minute % 10)];
    }
  }

  // ------------------------------------------------------------------------ the days

  /** A zone whose days follow one another, and in which the wall clock of a day is on that
      day. Where a zone skips or repeats a day this does not hold. */
  ghost predicate Regular(cal: Calendar, zone: string) {
    && (forall t, u :: t <= u ==> cal.day(zone, t) <= cal.day(zone, u))
    && (forall localTime, d :: cal.instant(zone, localTime, d).Some? ==> cal.day(zone, cal.instant(zone, localTime, d).value) == d)
  }

  /** The next occurrence of a daily schedule is the first of all its instants that lie
      strictly after the given one. */
  lemma DailyOccurrenceIsLeast(cal: Calendar, localTime: string, zone: string, after: int, t: int)
    requires Regular(cal, zone) && FirstOccurrenceAfter(cal, Daily(localTime, zone), after) == Some(t)
    ensures after < t && exists d :: cal.instant(zone, localTime, d) == Some(t)
    ensures forall d, u :: cal.instant(zone, localTime, d) == Some(u) && after < u ==> t <= u
  {
    var today := cal.day(zone, after);
    forall d, u | cal.instant(zone, localTime, d) == Some(u) && after < u ensures t <= u {
      assert cal.day(zone, u) == d && today <= d;
      var e := cal.day(zone, t);
      assert cal.instant(zone, localTime, e) == Some(t) && (e == today || e == today + 1);
      assert u < t ==> cal.day(zone, u) <= cal.day(zone, t);
    }
  }

  /** There is one whenever the clock time exists on this day and the next, in range. */
  lemma DailyOccurrenceExists(cal: Calendar, localTime: string, zone: string, after: int, today: int, tomorrow: int)
    requires ValidSchedule(cal, Daily(localTime, zone)) && SafeTimestamp(after) && SafeTimestamp(today) && SafeTimestamp(tomorrow)
    requires cal.instant(zone, localTime, cal.day(zone, after)) == Some(today)
    requires cal.instant(zone, localTime, cal.day(zone, after) + 1) == Some(tomorrow)
    ensures FirstOccurrenceAfter(cal, Daily(localTime, zone), after) == Some(if after < today then today else tomorrow)
  {
  }

  // ------------------------------------------------------------------- the lattice

  // The k-th instant of an interval schedule.
  function Point(minutes: int, anchor: int, k: nat): int { anchor + k * (minutes * MINUTE_MS) }

  ghost predicate OnLattice(minutes: int, anchor: int, t: int) { exists k: nat :: t == Point(minutes, anchor, k) }

  // `t` is the first instant of the schedule strictly after `after`.
  ghost predicate Least(minutes: int, anchor: int, after: int, t: int) {
    && OnLattice(minutes, anchor, t) && after < t
    && forall k: nat :: after < Point(minutes, anchor, k) ==> t <= Point(minutes, anchor, k)
  }

  lemma ProductsOrdered(a: int, b: int, d: int)
    requires d >= 0 && a <= b
    ensures a * d <= b * d
  {
  }

  lemma QuotientBounds(n: int, d: int)
    requires n >= 0 && d > 0
    ensures n / d >= 0 && (n / d) * d <= n < (n / d + 1) * d
  {
    assert n == (n / d) * d + n % d;
    assert (n / d + 1) * d == (n / d) * d + d;
  }

  // The index of the first instant strictly after `after`.
  function FirstIndex(minutes: int, anchor: int, after: int): nat
    requires minutes > 0
  {
    if after < anchor then 0
    else
      QuotientBounds(after - anchor, minutes * MINUTE_MS);
      (after - anchor) / (minutes * MINUTE_MS) + 1
  }

  lemma FirstIndexIsLeast(minutes: int, anchor: int, after: int)
    requires minutes > 0
    ensures Least(minutes, anchor, after, Point(minutes, anchor, FirstIndex(minutes, anchor, after)))
  {
    var d := minutes * MINUTE_MS;
    var first := FirstIndex(minutes, anchor, after);
    if after >= anchor { QuotientBounds(after - anchor, d); }
    assert after < Point(minutes, anchor, first);
    forall k: nat | after < Point(minutes, anchor, k) ensures Point(minutes, anchor, first) <= Point(minutes, anchor, k) {
      if k < first { ProductsOrdered(k, first - 1, d); } else { ProductsOrdered(first, k, d); }
    }
  }

  /** The next occurrence of an interval schedule is exactly the least anchor + k times
      the duration strictly after the given instant; there is none exactly when that
      instant is out of the representable range. */
  lemma IntervalOccurrenceIsLeast(cal: Calendar, minutes: int, anchor: int, after: int, t: int)
    requires ValidSchedule(cal, Interval(minutes, anchor)) && SafeTimestamp(after)
    ensures FirstOccurrenceAfter(cal, Interval(minutes, anchor), after) == Some(t) <==>
            Least(minutes, anchor, after, t) && SafeTimestamp(t)
  {
    var d := minutes * MINUTE_MS;
    var first := FirstIndex(minutes, anchor, after);
    FirstIndexIsLeast(minutes, anchor, after);
    if after >= anchor {
      QuotientBounds(after - anchor, d);
      ProductsOrdered(1, d, first);
      assert first * d <= after - anchor + d;
      assert first <= first * d;
    }
    if Least(minutes, anchor, after, t) {
      var k: nat :| t == Point(minutes, anchor, k);
      assert t == Point(minutes, anchor, first);
    }
  }

  /** Whatever the schedule, an occurrence lies strictly after the instant asked about. */
  lemma OccurrenceIsLater(cal: Calendar, schedule: Schedule, after: int)
    requires Advancing(cal)
    ensures var r := FirstOccurrenceAfter(cal, schedule, after); r.Some? ==> after < r.value && SafeTimestamp(r.value)
  {
    var r := FirstOccurrenceAfter(cal, schedule, after);
    if r.Some? && schedule.Interval? {
      IntervalOccurrenceIsLeast(cal, schedule.minutes, schedule.anchor, after, r.value);
    }
  }

  // An occurrence of this schedule; the calendar days are not examined further.
  ghost predicate OnSchedule(schedule: Schedule, t: int) {
    schedule.Interval? ==> OnLattice(schedule.minutes, schedule.anchor, t)
  }

  lemma OccurrenceOnSchedule(cal: Calendar, schedule: Schedule, after: int)
    ensures var r := FirstOccurrenceAfter(cal, schedule, after); r.Some? ==> OnSchedule(schedule, r.value)
  {
    var r := FirstOccurrenceAfter(cal, schedule, after);
    if r.Some? && schedule.Interval? {
      IntervalOccurrenceIsLeast(cal, schedule.minutes, schedule.anchor, after, r.value);
    }
  }

  /** A claim, however late, moves to the first instant past both the claimed occurrence
      and the present: the missed instants in between are passed over and none ahead is. */
  lemma LateClaimSkipsOnlyThePast(cal: Calendar, minutes: int, anchor: int, persisted: int, now: int, t: int)
    requires ValidSchedule(cal, Interval(minutes, anchor)) && SafeTimestamp(persisted) && SafeTimestamp(now)
    requires AdvanceOccurrence(cal, Interval(minutes, anchor), persisted, now) == Some(t)
    ensures OnLattice(minutes, anchor, t) && persisted < t && now < t
    ensures forall k: nat :: persisted < Point(minutes, anchor, k) < t ==> Point(minutes, anchor, k) <= now
  {
    IntervalOccurrenceIsLeast(cal, minutes, anchor, Later(persisted, now), t);
  }

  /** And it does move there, unless that instant is out of range: a claim of an interval job
      advances exactly to the least point past both. */
  lemma AdvanceIsLeast(cal: Calendar, minutes: int, anchor: int, persisted: int, now: int, t: int)
    requires ValidSchedule(cal, Interval(minutes, anchor)) && SafeTimestamp(persisted) && SafeTimestamp(now)
    ensures AdvanceOccurrence(cal, Interval(minutes, anchor), persisted, now) == Some(t) <==>
            Least(minutes, anchor, if persisted < now then now else persisted, t) && SafeTimestamp(t)
  {
    IntervalOccurrenceIsLeast(cal, minutes, anchor, Later(persisted, now), t);
  }

  /** A daily job advances to its first instant past both, where days follow one another. */
  lemma DailyAdvanceIsLeast(cal: Calendar, localTime: string, zone: string, persisted: int, now: int)
    requires Regular(cal, zone) && ValidSchedule(cal, Daily(localTime, zone)) && SafeTimestamp(persisted) && SafeTimestamp(now)
    ensures var r := AdvanceOccurrence(cal, Daily(localTime, zone), persisted, now);
      && r == FirstOccurrenceAfter(cal, Daily(localTime, zone), if persisted < now then now else persisted)
      && (r.Some? ==>
            && persisted < r.value && now < r.value && (exists d :: cal.instant(zone, localTime, d) == r)
            && forall d, u :: cal.instant(zone, localTime, d) == Some(u) && persisted < u && now < u ==> r.value <= u)
  {
    var r := AdvanceOccurrence(cal, Daily(localTime, zone), persisted, now);
    if r.Some? { DailyOccurrenceIsLeast(cal, localTime, zone, Later(persisted, now), r.value); }
  }
}
