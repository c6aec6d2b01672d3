/** `get_busy_status` and `process_datetime` of `src/workers/calendar.rs`:
    the parsed calendar events and the nightly quiet hours become blocking
    periods, which are sorted and swept. The configured time zone is a fixed
    offset, in seconds east of UTC; instants are seconds since the epoch. */
module Availability {
  import opened Wrappers
  import opened BusyIntervals

  const Day: int := 86400
  const Hour: int := 3600

  /** Quiet hours run from 23:00 to 08:00 local time. */
  const QuietStartHour: int := 23
  const QuietEndHour: int := 8

  /** An iCalendar start or end: an all-day date (days since the epoch) or a
      date-time, given as its UTC instant when it can be converted to one. */
  datatype DatePerhapsTime =
    | Date(day: int)
    | DateTime(utc: Option<int>)

  /** A calendar component: an event, with its cancellation status and
      optional start and end, or anything else. */
  datatype Component =
    | Event(cancelled: bool, start: Option<DatePerhapsTime>, end: Option<DatePerhapsTime>)
    | OtherComponent

  /** `process_datetime`: a date becomes midnight local time; a date-time
      keeps its UTC instant, if it has one. */
  function ProcessDatetime(dt: DatePerhapsTime, tzOffset: int): (r: Option<int>)
    ensures dt.Date? ==> r.Some? && (r.value + tzOffset) % Day == 0
    ensures dt.Date? ==> (r.value + tzOffset) / Day == dt.day
    ensures dt.DateTime? ==> r == dt.utc
  {
    match dt
    case Date(day) => Some(day * Day - tzOffset)
    case DateTime(utc) => utc
  }

  /** The blocking period an event contributes, if any. */
  function EventInterval(c: Component, now: int, tzOffset: int): (r: Option<Interval>)
    ensures r.Some? ==> r.value.end >= now && r.value.start <= now + Day
  {
    match c
    case OtherComponent => None
    case Event(cancelled, start, end) =>
      if cancelled then None
      else if start.None? || end.None? then None
      else
        match (ProcessDatetime(start.value, tzOffset), ProcessDatetime(end.value, tzOffset))
        case (Some(s), Some(e)) =>
          if e >= now && s <= now + Day then Some(Interval(s, e)) else None
        case _ => None
  }

  /** An event is skipped exactly when it is cancelled, lacks a start or an
      end, has a start or an end that does not convert, or lies outside the
      next day (both bounds included). */
  lemma EventIntervalKept(c: Component, now: int, tzOffset: int)
    requires c.Event?
    ensures EventInterval(c, now, tzOffset).None? <==>
      || c.cancelled
      || c.start.None? || c.end.None?
      || ProcessDatetime(c.start.value, tzOffset).None?
      || ProcessDatetime(c.end.value, tzOffset).None?
      || ProcessDatetime(c.end.value, tzOffset).value < now
      || ProcessDatetime(c.start.value, tzOffset).value > now + Day
    ensures EventInterval(c, now, tzOffset).Some? ==>
      EventInterval(c, now, tzOffset).value ==
        Interval(ProcessDatetime(c.start.value, tzOffset).value, ProcessDatetime(c.end.value, tzOffset).value)
  {
  }

  /** The periods the events contribute, in feed order. */
  function EventIntervals(cs: seq<Component>, now: int, tzOffset: int): (r: seq<Interval>)
    ensures |r| <= |cs|
    ensures forall i :: 0 <= i < |r| ==> r[i].end >= now && r[i].start <= now + Day
  {
    if cs == [] then []
    else
      EventIntervals(cs[..|cs| - 1], now, tzOffset) +
        match EventInterval(cs[|cs| - 1], now, tzOffset)
        case Some(iv) => [iv]
        case None => []
  }

  /** The four quiet-hours instants: yesterday 23:00, today 08:00, today
      23:00 and tomorrow 08:00. */
  datatype QuietInstants = QuietInstants(yesterdayStart: int, todayEnd: int, todayStart: int, tomorrowEnd: int)

  /** The quiet-hours periods: tonight's always, last night's only while it
      has not ended. */
  function QuietWindows(now: int, q: QuietInstants): (r: seq<Interval>)
    ensures |r| == if q.todayEnd >= now then 2 else 1
    ensures r[|r| - 1] == Interval(q.todayStart, q.tomorrowEnd)
    ensures |r| == 2 ==> r[0] == Interval(q.yesterdayStart, q.todayEnd)
  {
    (if q.todayEnd >= now then [Interval(q.yesterdayStart, q.todayEnd)] else [])
      + [Interval(q.todayStart, q.tomorrowEnd)]
  }

  /** Everything that blocks, in the order `get_busy_status` pushes it. */
  function Blocking(cs: seq<Component>, now: int, tzOffset: int, q: QuietInstants): (r: seq<Interval>)
    ensures |r| > 0
  {
    EventIntervals(cs, now, tzOffset) + QuietWindows(now, q)
  }

  /** The status `get_busy_status` reports. */
  function BusyStatusOf(cs: seq<Component>, now: int, tzOffset: int, q: QuietInstants): BusyStatus {
    SweepResult(now, SortIntervals(Blocking(cs, now, tzOffset, q)))
  }

  /** The events loop of `get_busy_status`: each event that is not
      cancelled, has both ends and overlaps the next day, in feed order. */
  method CollectEvents(cs: seq<Component>, now: int, tzOffset: int) returns (blocking: seq<Interval>)
    ensures blocking == EventIntervals(cs, now, tzOffset)
  {
    var tomorrowNow := now + Day;
    blocking := [];
    for i := 0 to |cs|
      invariant blocking == EventIntervals(cs[..i], now, tzOffset)
    {
      assert cs[..i + 1][..i] == cs[..i];
      match cs[i]
      case OtherComponent =>
      case Event(cancelled, start, end) =>
        if cancelled {
          continue;
        }
        if start.Some? && end.Some? {
          var s, e := ProcessDatetime(start.value, tzOffset), ProcessDatetime(end.value, tzOffset);
          if s.Some? && e.Some? {
            if e.value >= now && s.value <= tomorrowNow {
              blocking := blocking + [Interval(s.value, e.value)];
            }
          }
        }
    }
    assert cs[..|cs|] == cs;
  }

  /** `get_busy_status` once the feed is fetched and parsed: collect, sort
      in place, sweep. */
  method GetBusyStatus(cs: seq<Component>, now: int, tzOffset: int, q: QuietInstants)
    returns (isBusy: bool, transition: int)
    ensures BusyStatus(isBusy, transition) == BusyStatusOf(cs, now, tzOffset, q)
  {
    var blocking := CollectEvents(cs, now, tzOffset);
    if q.todayEnd >= now {
      blocking := blocking + [Interval(q.yesterdayStart, q.todayEnd)];
    }
    blocking := blocking + [Interval(q.todayStart, q.tomorrowEnd)];
    assert blocking == Blocking(cs, now, tzOffset, q);
    var a := new Interval[|blocking|](k requires 0 <= k < |blocking| => blocking[k]);
    assert a[..] == blocking;
    SortInPlace(a);
    isBusy, transition := Sweep(a, now);
  }

  /** Free exactly when every blocking period starts strictly after `now`;
      the transition is then the earliest start. */
  lemma FreeIffNothingStarted(cs: seq<Component>, now: int, tzOffset: int, q: QuietInstants)
    ensures !BusyStatusOf(cs, now, tzOffset, q).isBusy <==>
      forall i :: 0 <= i < |Blocking(cs, now, tzOffset, q)| ==> Blocking(cs, now, tzOffset, q)[i].start > now
    ensures !BusyStatusOf(cs, now, tzOffset, q).isBusy ==>
      && BusyStatusOf(cs, now, tzOffset, q).transition > now
      && (forall i :: 0 <= i < |Blocking(cs, now, tzOffset, q)| ==>
            Blocking(cs, now, tzOffset, q)[i].start >= BusyStatusOf(cs, now, tzOffset, q).transition)
      && (exists i :: 0 <= i < |Blocking(cs, now, tzOffset, q)| &&
            Blocking(cs, now, tzOffset, q)[i].start == BusyStatusOf(cs, now, tzOffset, q).transition)
  {
    SortedSweepFree(now, Blocking(cs, now, tzOffset, q));
  }

  /** Busy until the first instant from `now` on at which every period that
      has begun is over. */
  lemma BusyUntilSettled(cs: seq<Component>, now: int, tzOffset: int, q: QuietInstants)
    requires BusyStatusOf(cs, now, tzOffset, q).isBusy
    ensures BusyStatusOf(cs, now, tzOffset, q).transition >= now
    ensures Settled(Blocking(cs, now, tzOffset, q), BusyStatusOf(cs, now, tzOffset, q).transition)
    ensures forall x :: now <= x < BusyStatusOf(cs, now, tzOffset, q).transition ==>
      !Settled(Blocking(cs, now, tzOffset, q), x)
  {
    SortedSweepBusy(now, Blocking(cs, now, tzOffset, q));
  }

  /** While tonight's quiet hours have not ended, a busy answer means some
      period is under way at every instant from `now` to the transition. */
  lemma BusyIsCovered(cs: seq<Component>, now: int, tzOffset: int, q: QuietInstants, x: int)
    requires q.tomorrowEnd >= now
    requires BusyStatusOf(cs, now, tzOffset, q).isBusy
    requires now <= x <= BusyStatusOf(cs, now, tzOffset, q).transition
    ensures Covered(Blocking(cs, now, tzOffset, q), x)
  {
    SortedSweepCovers(now, Blocking(cs, now, tzOffset, q), x);
  }

  /** The quiet-hours instants as `get_busy_status` computes them: the day is
      taken from the UTC date of `now`, then 23:00 and 08:00 of that day and
      its neighbours are read as local time. */
  function AsWrittenQuietInstants(now: int, tzOffset: int): (q: QuietInstants)
    ensures q.todayStart - q.yesterdayStart == Day && q.tomorrowEnd - q.todayEnd == Day
    ensures LocalTimeOfDay(q.yesterdayStart, tzOffset) == QuietStartHour * Hour
    ensures LocalTimeOfDay(q.todayStart, tzOffset) == QuietStartHour * Hour
    ensures LocalTimeOfDay(q.todayEnd, tzOffset) == QuietEndHour * Hour
    ensures LocalTimeOfDay(q.tomorrowEnd, tzOffset) == QuietEndHour * Hour
    // the local midnight the instants hang on is the UTC midnight of `now`
    ensures 0 <= now - (q.todayEnd + tzOffset - QuietEndHour * Hour) < Day
    ensures q.todayStart == q.todayEnd + (QuietStartHour - QuietEndHour) * Hour
  {
    var utcDay := now / Day;
    DayShift(utcDay - 1, QuietStartHour * Hour);
    DayShift(utcDay, QuietStartHour * Hour);
    DayShift(utcDay, QuietEndHour * Hour);
    DayShift(utcDay + 1, QuietEndHour * Hour);
    QuietInstants(
      (utcDay - 1) * Day + QuietStartHour * Hour - tzOffset,
      utcDay * Day + QuietEndHour * Hour - tzOffset,
      utcDay * Day + QuietStartHour * Hour - tzOffset,
      (utcDay + 1) * Day + QuietEndHour * Hour - tzOffset)
  }

  /** The quiet-hours instants with the day taken from the local date of
      `now`. */
  function LocalQuietInstants(now: int, tzOffset: int): (q: QuietInstants)
    ensures q.todayStart - q.yesterdayStart == Day && q.tomorrowEnd - q.todayEnd == Day
    ensures q.tomorrowEnd > now
    ensures LocalTimeOfDay(q.yesterdayStart, tzOffset) == QuietStartHour * Hour
    ensures LocalTimeOfDay(q.todayStart, tzOffset) == QuietStartHour * Hour
    ensures LocalTimeOfDay(q.todayEnd, tzOffset) == QuietEndHour * Hour
    ensures LocalTimeOfDay(q.tomorrowEnd, tzOffset) == QuietEndHour * Hour
    // the local midnight the instants hang on is the local midnight of `now`
    ensures 0 <= (now + tzOffset) - (q.todayEnd + tzOffset - QuietEndHour * Hour) < Day
    ensures q.todayStart == q.todayEnd + (QuietStartHour - QuietEndHour) * Hour
  {
    var localDay := (now + tzOffset) / Day;
    DayShift(localDay - 1, QuietStartHour * Hour);
    DayShift(localDay, QuietStartHour * Hour);
    DayShift(localDay, QuietEndHour * Hour);
    DayShift(localDay + 1, QuietEndHour * Hour);
    QuietInstants(
      (localDay - 1) * Day + QuietStartHour * Hour - tzOffset,
      localDay * Day + QuietEndHour * Hour - tzOffset,
      localDay * Day + QuietStartHour * Hour - tzOffset,
      (localDay + 1) * Day + QuietEndHour * Hour - tzOffset)
  }

  /** Which date the quiet-hours day is read from: the UTC date of `now`,
      as `get_busy_status` does, or its local date. */
  datatype QuietDate = UtcDate | LocalDate

  /** The quiet-hours instants for the chosen date: in both cases 23:00 and
      08:00 local time, one day apart, hung on the midnight of that date. */
  function QuietInstantsOn(date: QuietDate, now: int, tzOffset: int): (q: QuietInstants)
    ensures q.todayStart - q.yesterdayStart == Day && q.tomorrowEnd - q.todayEnd == Day
    ensures LocalTimeOfDay(q.todayStart, tzOffset) == QuietStartHour * Hour
    ensures LocalTimeOfDay(q.todayEnd, tzOffset) == QuietEndHour * Hour
    ensures q.todayStart == q.todayEnd + (QuietStartHour - QuietEndHour) * Hour
    ensures date.UtcDate? ==> q == AsWrittenQuietInstants(now, tzOffset)
    ensures date.LocalDate? ==> q == LocalQuietInstants(now, tzOffset)
  {
    match date
    case UtcDate => AsWrittenQuietInstants(now, tzOffset)
    case LocalDate => LocalQuietInstants(now, tzOffset)
  }

  /** Seconds since local midnight. */
  function LocalTimeOfDay(now: int, tzOffset: int): (r: int)
    ensures 0 <= r < Day
  {
    (now + tzOffset) % Day
  }

  /** A time of day does not move when whole days are added. */
  lemma DayShift(k: int, r: int)
    requires 0 <= r < Day
    ensures (k * Day + r) % Day == r
  {
  }

  /** Quiet hours, both ends included: 23:00 to 08:00 local time. */
  predicate InQuietHours(now: int, tzOffset: int) {
    LocalTimeOfDay(now, tzOffset) >= QuietStartHour * Hour
      || LocalTimeOfDay(now, tzOffset) <= QuietEndHour * Hour
  }

  /** The local-date instants, relative to the latest local midnight `m`. */
  lemma LocalInstantsFromMidnight(now: int, tzOffset: int)
    ensures LocalQuietInstants(now, tzOffset) == QuietInstants(
      now - LocalTimeOfDay(now, tzOffset) - Day + QuietStartHour * Hour,
      now - LocalTimeOfDay(now, tzOffset) + QuietEndHour * Hour,
      now - LocalTimeOfDay(now, tzOffset) + QuietStartHour * Hour,
      now - LocalTimeOfDay(now, tzOffset) + Day + QuietEndHour * Hour)
  {
    var localDay := (now + tzOffset) / Day;
    var r := LocalTimeOfDay(now, tzOffset);
    assert now + tzOffset == localDay * Day + r;
    assert (localDay - 1) * Day == localDay * Day - Day;
    assert (localDay + 1) * Day == localDay * Day + Day;
  }

  /** The UTC-date instants, relative to the latest UTC midnight: 23:00
      yesterday, 08:00 today, 23:00 today and 08:00 tomorrow of the UTC
      date, each read as local time. */
  lemma AsWrittenInstantsFromMidnight(now: int, tzOffset: int)
    ensures AsWrittenQuietInstants(now, tzOffset) == QuietInstants(
      now - now % Day - Day + QuietStartHour * Hour - tzOffset,
      now - now % Day + QuietEndHour * Hour - tzOffset,
      now - now % Day + QuietStartHour * Hour - tzOffset,
      now - now % Day + Day + QuietEndHour * Hour - tzOffset)
  {
    var utcDay := now / Day;
    assert now == utcDay * Day + now % Day;
    assert (utcDay - 1) * Day == utcDay * Day - Day;
    assert (utcDay + 1) * Day == utcDay * Day + Day;
  }

  /** With no events and the local-date instants, the status follows the
      clock: inside quiet hours it is busy until the next 08:00, outside it
      is free until the next 23:00. */
  lemma QuietHoursOnly(now: int, tzOffset: int)
    ensures BusyStatusOf([], now, tzOffset, LocalQuietInstants(now, tzOffset)).isBusy <==> InQuietHours(now, tzOffset)
    ensures LocalTimeOfDay(now, tzOffset) <= QuietEndHour * Hour ==>
      BusyStatusOf([], now, tzOffset, LocalQuietInstants(now, tzOffset)).transition
        == now - LocalTimeOfDay(now, tzOffset) + QuietEndHour * Hour
    ensures LocalTimeOfDay(now, tzOffset) >= QuietStartHour * Hour ==>
      BusyStatusOf([], now, tzOffset, LocalQuietInstants(now, tzOffset)).transition
        == now - LocalTimeOfDay(now, tzOffset) + Day + QuietEndHour * Hour
    ensures !InQuietHours(now, tzOffset) ==>
      BusyStatusOf([], now, tzOffset, LocalQuietInstants(now, tzOffset)).transition
        == now - LocalTimeOfDay(now, tzOffset) + QuietStartHour * Hour
  {
    var q := LocalQuietInstants(now, tzOffset);
    var r := LocalTimeOfDay(now, tzOffset);
    LocalInstantsFromMidnight(now, tzOffset);
    var b := Blocking([], now, tzOffset, q);
    assert b == QuietWindows(now, q);
    if r <= QuietEndHour * Hour {
      assert b == [Interval(q.yesterdayStart, q.todayEnd), Interval(q.todayStart, q.tomorrowEnd)];
      SweepTwoApart(now, b[0], b[1]);
    } else {
      assert b == [Interval(q.todayStart, q.tomorrowEnd)];
      SweepOne(now, b[0]);
    }
  }

  /** The UTC-date instants at 23:00 UTC with an offset of +10:00. */
  lemma AsWrittenInstantsAt23Utc()
    ensures AsWrittenQuietInstants(23 * Hour, 10 * Hour)
      == QuietInstants(-Day + 13 * Hour, -2 * Hour, 13 * Hour, 22 * Hour)
  {
    assert (23 * Hour) / Day == 0;
  }

  /** With the UTC-date instants and an offset of +10:00, at 23:00 UTC
      (09:00 local, outside quiet hours) no quiet-hours window is ahead:
      tonight's ended at 22:00 UTC, and the status is busy with the
      transition at `now` itself, instead of free until 13:00 UTC. */
  lemma AsWrittenQuietInstantsMissTonight()
    ensures !InQuietHours(23 * Hour, 10 * Hour)
    ensures AsWrittenQuietInstants(23 * Hour, 10 * Hour).tomorrowEnd < 23 * Hour
    ensures BusyStatusOf([], 23 * Hour, 10 * Hour, AsWrittenQuietInstants(23 * Hour, 10 * Hour))
      == BusyStatus(true, 23 * Hour)
    ensures BusyStatusOf([], 23 * Hour, 10 * Hour, LocalQuietInstants(23 * Hour, 10 * Hour))
      == BusyStatus(false, Day + 13 * Hour)
  {
    AsWrittenInstantsAt23Utc();
    AsWrittenBusyAt23Utc();
    LocalFreeAt23Utc();
  }

  /** The local-date instants at 23:00 UTC with an offset of +10:00 keep
      tonight's window ahead. */
  lemma LocalFreeAt23Utc()
    ensures !InQuietHours(23 * Hour, 10 * Hour)
    ensures BusyStatusOf([], 23 * Hour, 10 * Hour, LocalQuietInstants(23 * Hour, 10 * Hour))
      == BusyStatus(false, Day + 13 * Hour)
  {
    assert LocalTimeOfDay(23 * Hour, 10 * Hour) == 9 * Hour;
    QuietHoursOnly(23 * Hour, 10 * Hour);
  }

  /** The UTC-date instants at 23:00 UTC with an offset of +10:00 leave only
      a window that has already ended. */
  lemma AsWrittenBusyAt23Utc()
    ensures BusyStatusOf([], 23 * Hour, 10 * Hour, AsWrittenQuietInstants(23 * Hour, 10 * Hour))
      == BusyStatus(true, 23 * Hour)
  {
    var now, tzOffset := 23 * Hour, 10 * Hour;
    var q := AsWrittenQuietInstants(now, tzOffset);
    AsWrittenInstantsAt23Utc();
    var b := Blocking([], now, tzOffset, q);
    assert b == [Interval(13 * Hour, 22 * Hour)];
    SweepOne(now, b[0]);
  }

}
