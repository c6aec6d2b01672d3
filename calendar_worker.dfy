/** `calendar_worker` of `src/workers/calendar.rs`: every tick it fetches the
    calendar, recomputes the busy status and stores it in the shared cache,
    skipping the store when nothing changed; it gives up after five
    consecutive failures. A tick is the instant it ran at and the parsed
    feed, or nothing when fetching or parsing failed. */
module CalendarWorker {
  import opened Wrappers
  import opened BusyIntervals
  import opened Availability

  /** `CalendarCache`: the status and its transition, formatted with
      `%Y-%m-%d %H:%M`. The format keeps the instant up to the minute and
      drops the seconds, so the timestamp is the minute it names. */
  datatype CalendarCache = CalendarCache(isBusy: bool, timestamp: int)

  const MaxConsecutiveFails: nat := 5

  /** One run of the worker's loop. */
  datatype Tick = Tick(now: int, feed: Option<seq<Component>>)

  /** The minute an instant falls in, as the timestamp format writes it. */
  function MinuteOf(t: int): (m: int)
    ensures m * 60 <= t < m * 60 + 60
  {
    t / 60
  }

  /** What a tick computes: the new cache value, or nothing when the
      fetch or the parse failed. `date` says which date the quiet hours
      are read from: `UtcDate` is the code as written, `LocalDate` its
      correction. */
  function Outcome(t: Tick, tzOffset: int, date: QuietDate): (o: Option<CalendarCache>)
    ensures o.None? <==> t.feed.None?
    ensures t.feed.Some? ==>
      var st := BusyStatusOf(t.feed.value, t.now, tzOffset, QuietInstantsOn(date, t.now, tzOffset));
      o.value.isBusy == st.isBusy && o.value.timestamp * 60 <= st.transition < o.value.timestamp * 60 + 60
  {
    match t.feed
    case None => None
    case Some(cs) =>
      var st := BusyStatusOf(cs, t.now, tzOffset, QuietInstantsOn(date, t.now, tzOffset));
      Some(CalendarCache(st.isBusy, MinuteOf(st.transition)))
  }

  /** The outcomes of a run of ticks, tick by tick. */
  function Outcomes(ticks: seq<Tick>, tzOffset: int, date: QuietDate): (outs: seq<Option<CalendarCache>>)
    ensures |outs| == |ticks|
    ensures forall i :: 0 <= i < |ticks| ==> outs[i] == Outcome(ticks[i], tzOffset, date)
  {
    seq(|ticks|, i requires 0 <= i < |ticks| => Outcome(ticks[i], tzOffset, date))
  }

  /** At 23:00 UTC with an offset of +10:00 and an empty calendar, the
      worker as written caches "busy until 23:00 UTC", while reading the
      quiet hours from the local date caches "free until 13:00 UTC the
      next day", tonight's start of quiet hours. */
  lemma OutcomeAt23UtcPlus10()
    ensures Outcome(Tick(23 * Hour, Some([])), 10 * Hour, UtcDate)
      == Some(CalendarCache(true, MinuteOf(23 * Hour)))
    ensures Outcome(Tick(23 * Hour, Some([])), 10 * Hour, LocalDate)
      == Some(CalendarCache(false, MinuteOf(Day + 13 * Hour)))
  {
    AsWrittenQuietInstantsMissTonight();
  }

  /** The failures at the end of `outs`, counted back to the last success. */
  function TrailingFailures(outs: seq<Option<CalendarCache>>): (n: nat)
    ensures n <= |outs|
  {
    if outs == [] then 0
    else if outs[|outs| - 1].None? then 1 + TrailingFailures(outs[..|outs| - 1])
    else 0
  }

  /** After the first `k` outcomes the worker has given up. */
  predicate GivesUpAfter(outs: seq<Option<CalendarCache>>, k: nat)
    requires k <= |outs|
  {
    TrailingFailures(outs[..k]) >= MaxConsecutiveFails
  }

  /** The number of ticks run from tick `k` on: up to the first one after
      which the worker gives up, or all of them. */
  function StopFrom(outs: seq<Option<CalendarCache>>, k: nat): (n: nat)
    requires k <= |outs|
    ensures k <= n <= |outs|
    ensures forall j :: k < j < n ==> !GivesUpAfter(outs, j)
    ensures n == |outs| || GivesUpAfter(outs, n)
    decreases |outs| - k
  {
    if k == |outs| then k
    else if GivesUpAfter(outs, k + 1) then k + 1
    else StopFrom(outs, k + 1)
  }

  /** How many ticks the worker runs. */
  function TicksRun(outs: seq<Option<CalendarCache>>): nat {
    StopFrom(outs, 0)
  }

  /** The cached value after the outcomes `outs`, starting from `init`. */
  function CacheAfter(init: CalendarCache, outs: seq<Option<CalendarCache>>): CalendarCache {
    if outs == [] then init
    else outs[|outs| - 1].GetOr(CacheAfter(init, outs[..|outs| - 1]))
  }

  /** The writes to the cache during the outcomes `outs`: one for each
      success whose value differs from the one cached. */
  function WritesDuring(init: CalendarCache, outs: seq<Option<CalendarCache>>): nat {
    if outs == [] then 0
    else
      var before := outs[..|outs| - 1];
      var o := outs[|outs| - 1];
      WritesDuring(init, before) + (if o.Some? && o.value != CacheAfter(init, before) then 1 else 0)
  }

  /** The shared `RwLock<CalendarCache>`; `writes` counts the writes. */
  class SharedCache {
    var value: CalendarCache
    ghost var writes: nat

    constructor(init: CalendarCache)
      ensures value == init && writes == 0
    {
      value := init;
      writes := 0;
    }

    /** Takes the write lock and replaces the value. */
    method Store(v: CalendarCache)
      modifies this
      ensures value == v && writes == old(writes) + 1
    {
      value := v;
      writes := writes + 1;
    }
  }

  /** A successful fetch: `get_busy_status` and the new cache value. */
  method Refresh(cs: seq<Component>, now: int, tzOffset: int, date: QuietDate) returns (c: CalendarCache)
    ensures Outcome(Tick(now, Some(cs)), tzOffset, date) == Some(c)
  {
    var isBusy, transition := GetBusyStatus(cs, now, tzOffset, QuietInstantsOn(date, now, tzOffset));
    c := CalendarCache(isBusy, MinuteOf(transition));
  }

  /** One tick's fetch, parse and, when both succeed, refresh. */
  method Attempt(t: Tick, tzOffset: int, date: QuietDate) returns (o: Option<CalendarCache>)
    ensures o == Outcome(t, tzOffset, date)
  {
    match t.feed {
      case None =>
        o := None;
      case Some(cs) =>
        var c := Refresh(cs, t.now, tzOffset, date);
        o := Some(c);
    }
  }

  /** The worker: without `CALENDAR_URL` it returns at once; otherwise it
      runs tick after tick until five in a row have failed. */
  method Run(cache: SharedCache, calendarUrl: Option<string>, ticks: seq<Tick>, tzOffset: int, date: QuietDate)
    returns (ticksRun: nat)
    modifies cache
    ensures calendarUrl.None? ==> ticksRun == 0 && cache.value == old(cache.value) && cache.writes == old(cache.writes)
    ensures calendarUrl.Some? ==> ticksRun == TicksRun(Outcomes(ticks, tzOffset, date))
    ensures ticksRun <= |ticks|
    ensures cache.value == CacheAfter(old(cache.value), Outcomes(ticks, tzOffset, date)[..ticksRun])
    ensures cache.writes == old(cache.writes) + WritesDuring(old(cache.value), Outcomes(ticks, tzOffset, date)[..ticksRun])
  {
    if calendarUrl.None? {
      assert Outcomes(ticks, tzOffset, date)[..0] == [];
      return 0;
    }
    ticksRun := Poll(cache, ticks, tzOffset, date);
  }

  /** The worker's loop, tick after tick until five in a row have failed. */
  method Poll(cache: SharedCache, ticks: seq<Tick>, tzOffset: int, date: QuietDate) returns (ticksRun: nat)
    modifies cache
    ensures ticksRun == TicksRun(Outcomes(ticks, tzOffset, date))
    ensures cache.value == CacheAfter(old(cache.value), Outcomes(ticks, tzOffset, date)[..ticksRun])
    ensures cache.writes == old(cache.writes) + WritesDuring(old(cache.value), Outcomes(ticks, tzOffset, date)[..ticksRun])
  {
    ghost var outs := Outcomes(ticks, tzOffset, date);
    var init := cache.value;
    ghost var initWrites := cache.writes;
    var consecutiveFailCount: nat := 0;
    for i := 0 to |ticks|
      invariant consecutiveFailCount == TrailingFailures(outs[..i]) < MaxConsecutiveFails
      invariant TicksRun(outs) == StopFrom(outs, i)
      invariant cache.value == CacheAfter(init, outs[..i])
      invariant cache.writes == initWrites + WritesDuring(init, outs[..i])
    {
      var fetched := Attempt(ticks[i], tzOffset, date);
      assert outs[i] == fetched;
      match fetched {
        case Some(newCache) =>
          consecutiveFailCount := 0;
          StepSuccess(init, outs, i);
          if cache.value == newCache {
            continue;
          }
          cache.Store(newCache);
        case None =>
          consecutiveFailCount := consecutiveFailCount + 1;
          StepFailure(init, outs, i);
          if consecutiveFailCount >= MaxConsecutiveFails {
            return i + 1;
          }
      }
    }
    assert outs[..|ticks|] == outs;
    ticksRun := |ticks|;
  }

  /** One more failed tick: the cache is unchanged, nothing is written and
      the failure count grows by one. */
  lemma StepFailure(init: CalendarCache, outs: seq<Option<CalendarCache>>, i: nat)
    requires i < |outs| && outs[i].None?
    ensures CacheAfter(init, outs[..i + 1]) == CacheAfter(init, outs[..i])
    ensures WritesDuring(init, outs[..i + 1]) == WritesDuring(init, outs[..i])
    ensures TrailingFailures(outs[..i + 1]) == TrailingFailures(outs[..i]) + 1
  {
    assert outs[..i + 1][..i] == outs[..i];
  }

  /** One more successful tick: its value is cached, written only when it
      differs, and the failure count restarts. */
  lemma StepSuccess(init: CalendarCache, outs: seq<Option<CalendarCache>>, i: nat)
    requires i < |outs| && outs[i].Some?
    ensures CacheAfter(init, outs[..i + 1]) == outs[i].value
    ensures WritesDuring(init, outs[..i + 1]) ==
      WritesDuring(init, outs[..i]) + if outs[i].value != CacheAfter(init, outs[..i]) then 1 else 0
    ensures TrailingFailures(outs[..i + 1]) == 0
  {
    assert outs[..i + 1][..i] == outs[..i];
  }

  /** At least `n` failures close `outs` exactly when its last `n` outcomes
      are all failures. */
  lemma {:induction false} TrailingFailuresAtLeast(outs: seq<Option<CalendarCache>>, n: nat)
    ensures TrailingFailures(outs) >= n <==> |outs| >= n && forall j :: |outs| - n <= j < |outs| ==> outs[j].None?
    decreases |outs|
  {
    if n > 0 && outs != [] {
      var before := outs[..|outs| - 1];
      TrailingFailuresAtLeast(before, n - 1);
      if outs[|outs| - 1].None? {
        assert forall j :: 0 <= j < |outs| - 1 ==> outs[j] == before[j];
      }
    }
  }

  /** The `k` outcomes before index `k` end with five failures in a row. */
  predicate FailureRunEndsAt(outs: seq<Option<CalendarCache>>, k: nat)
    requires k <= |outs|
  {
    k >= MaxConsecutiveFails && forall j :: k - MaxConsecutiveFails <= j < k ==> outs[j].None?
  }

  /** The worker stops only after five failures in a row: either it ran
      every tick, or the last five ticks it ran all failed; and no five
      failures in a row occur earlier. */
  lemma StopsAfterFiveFailures(outs: seq<Option<CalendarCache>>)
    ensures TicksRun(outs) == |outs| || FailureRunEndsAt(outs, TicksRun(outs))
    ensures forall k :: 0 <= k < TicksRun(outs) ==> !FailureRunEndsAt(outs, k)
  {
    var n := TicksRun(outs);
    if n < |outs| {
      TrailingFailuresAtLeast(outs[..n], MaxConsecutiveFails);
      assert forall j :: n - MaxConsecutiveFails <= j < n ==> outs[..n][j] == outs[j];
    }
    forall k | 0 <= k < n ensures !FailureRunEndsAt(outs, k) {
      if k > 0 {
        assert !GivesUpAfter(outs, k);
      }
      TrailingFailuresAtLeast(outs[..k], MaxConsecutiveFails);
      assert forall j :: 0 <= j < k ==> outs[..k][j] == outs[j];
    }
  }

  /** Every outcome in `outs` is a failure. */
  predicate AllFailures(outs: seq<Option<CalendarCache>>) {
    forall j :: 0 <= j < |outs| ==> outs[j].None?
  }

  /** Outcome `j` is the last success in `outs`. */
  predicate LastSuccess(outs: seq<Option<CalendarCache>>, j: nat)
    requires j < |outs|
  {
    outs[j].Some? && forall m :: j < m < |outs| ==> outs[m].None?
  }

  /** The cached value is the one computed by the last success, or the
      initial one when every tick failed. */
  lemma {:induction false} CacheIsLastSuccess(init: CalendarCache, outs: seq<Option<CalendarCache>>)
    ensures AllFailures(outs) ==> CacheAfter(init, outs) == init
    ensures forall j :: 0 <= j < |outs| && LastSuccess(outs, j) ==> CacheAfter(init, outs) == outs[j].value
    decreases |outs|
  {
    if outs != [] {
      var last := |outs| - 1;
      var before := outs[..last];
      CacheIsLastSuccess(init, before);
      if outs[last].None? {
        assert CacheAfter(init, outs) == CacheAfter(init, before);
        if AllFailures(outs) {
          assert forall j :: 0 <= j < |before| ==> before[j] == outs[j];
        }
        forall j | 0 <= j < |outs| && LastSuccess(outs, j)
          ensures CacheAfter(init, outs) == outs[j].value
        {
          assert j < last;
          assert forall m :: 0 <= m < |before| ==> before[m] == outs[m];
          assert LastSuccess(before, j);
        }
      } else {
        assert CacheAfter(init, outs) == outs[last].value;
        forall j | 0 <= j < |outs| && LastSuccess(outs, j)
          ensures j == last
        {
        }
      }
    }
  }

  /** A write happens exactly when an outcome changes the cached value. */
  lemma WriteIffChanged(init: CalendarCache, outs: seq<Option<CalendarCache>>, o: Option<CalendarCache>)
    ensures WritesDuring(init, outs + [o]) ==
      WritesDuring(init, outs) + (if CacheAfter(init, outs + [o]) != CacheAfter(init, outs) then 1 else 0)
  {
    assert (outs + [o])[..|outs|] == outs;
  }

  /** Never more writes than successes. */
  lemma {:induction false} WritesAtMostSuccesses(init: CalendarCache, outs: seq<Option<CalendarCache>>)
    ensures WritesDuring(init, outs) <= |set j | 0 <= j < |outs| && outs[j].Some?|
    decreases |outs|
  {
    if outs != [] {
      var before := outs[..|outs| - 1];
      WritesAtMostSuccesses(init, before);
      var prev := set j | 0 <= j < |before| && before[j].Some?;
      var all := set j | 0 <= j < |outs| && outs[j].Some?;
      assert prev <= all by {
        forall j | j in prev ensures j in all { assert before[j] == outs[j]; }
      }
      if outs[|outs| - 1].Some? {
        assert all == prev + {|outs| - 1} by {
          forall j | j in all ensures j in prev + {|outs| - 1} {
            if j < |outs| - 1 { assert before[j] == outs[j]; }
          }
        }
        assert |outs| - 1 !in prev;
        assert |all| == |prev| + 1;
      } else {
        assert all == prev by {
          forall j | j in all ensures j in prev {
            assert before[j] == outs[j];
          }
        }
      }
    }
  }

  /** A repeated value is written at most once: a second success computing
      the value just computed writes nothing. */
  lemma SameStatusWrittenOnce(init: CalendarCache, outs: seq<Option<CalendarCache>>, c: CalendarCache)
    ensures WritesDuring(init, outs + [Some(c), Some(c)]) == WritesDuring(init, outs + [Some(c)])
    ensures CacheAfter(init, outs + [Some(c), Some(c)]) == c
  {
    assert (outs + [Some(c), Some(c)])[..|outs| + 1] == outs + [Some(c)];
    assert (outs + [Some(c)])[..|outs|] == outs;
  }
}
