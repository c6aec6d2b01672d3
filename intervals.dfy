/** The interval part of `get_busy_status` in `src/workers/calendar.rs`: the
    blocking periods are sorted and then swept once, left to right, to decide
    whether `now` is busy and when that changes. Instants are seconds. */
module BusyIntervals {

  /** A blocking period, both ends included. */
  datatype Interval = Interval(start: int, end: int)

  /** The outcome of the sweep: busy or free, and the instant that changes. */
  datatype BusyStatus = BusyStatus(isBusy: bool, transition: int)

  /** The order of Rust's `(start, end)` tuples: by start, then by end. */
  predicate Before(x: Interval, y: Interval) {
    x.start < y.start || (x.start == y.start && x.end <= y.end)
  }

  predicate Sorted(s: seq<Interval>) {
    forall i, j :: 0 <= i < j < |s| ==> Before(s[i], s[j])
  }

  /** Inserts `x` into a sorted sequence. */
  function Insert(x: Interval, s: seq<Interval>): (r: seq<Interval>)
    requires Sorted(s)
    ensures Sorted(r)
    ensures multiset(r) == multiset(s) + multiset{x}
  {
    if s == [] then [x]
    else if Before(x, s[0]) then [x] + s
    else
      var rest := Insert(x, s[1..]);
      assert s == [s[0]] + s[1..];
      assert forall y :: y in multiset(rest) ==> Before(s[0], y) by {
        forall y | y in multiset(rest) ensures Before(s[0], y) {
          if y != x {
            assert y in multiset(s[1..]);
            var j :| 0 <= j < |s[1..]| && s[1..][j] == y;
            assert s[j + 1] == y;
          }
        }
      }
      assert forall j :: 0 <= j < |rest| ==> rest[j] in multiset(rest);
      [s[0]] + rest
  }

  /** The sorted order of `s`: the reference for the in-place sort. */
  function SortIntervals(s: seq<Interval>): (r: seq<Interval>)
    ensures Sorted(r)
    ensures multiset(r) == multiset(s)
  {
    if s == [] then []
    else
      assert s == s[..|s| - 1] + [s[|s| - 1]];
      Insert(s[|s| - 1], SortIntervals(s[..|s| - 1]))
  }

  /** Two sorted arrangements of the same intervals are the same sequence, so
      the result of sorting does not depend on the algorithm. */
  lemma {:induction false} SortedUnique(a: seq<Interval>, b: seq<Interval>)
    requires Sorted(a) && Sorted(b)
    requires multiset(a) == multiset(b)
    ensures a == b
  {
    if a == [] {
      assert |multiset(b)| == 0;
    } else {
      assert |multiset(b)| == |multiset(a)| > 0;
      assert b != [];
      assert a[0] in multiset(b);
      var j :| 0 <= j < |b| && b[j] == a[0];
      assert b[0] in multiset(a);
      var i :| 0 <= i < |a| && a[i] == b[0];
      assert Before(a[0], b[0]) by { if i > 0 { assert Before(a[0], a[i]); } }
      assert Before(b[0], a[0]) by { if j > 0 { assert Before(b[0], b[j]); } }
      assert a[0] == b[0];
      assert a == [a[0]] + a[1..];
      assert b == [b[0]] + b[1..];
      assert multiset(a) == multiset{a[0]} + multiset(a[1..]);
      assert multiset(b) == multiset{b[0]} + multiset(b[1..]);
      assert multiset(a[1..]) == multiset(a) - multiset{a[0]};
      assert multiset(b[1..]) == multiset(b) - multiset{b[0]};
      SortedUnique(a[1..], b[1..]);
    }
  }

  /** `Vec::sort` on the blocking periods, done in place by insertion. */
  method SortInPlace(a: array<Interval>)
    modifies a
    ensures Sorted(a[..])
    ensures multiset(a[..]) == multiset(old(a[..]))
    ensures a[..] == SortIntervals(old(a[..]))
  {
    var i := 0;
    while i < a.Length
      invariant 0 <= i <= a.Length
      invariant forall p, q :: 0 <= p < q < i ==> Before(a[p], a[q])
      invariant multiset(a[..]) == multiset(old(a[..]))
    {
      var j := i;
      while j > 0 && !Before(a[j - 1], a[j])
        invariant 0 <= j <= i
        invariant forall p, q :: 0 <= p < q <= i && q != j ==> Before(a[p], a[q])
        invariant multiset(a[..]) == multiset(old(a[..]))
      {
        a[j - 1], a[j] := a[j], a[j - 1];
        j := j - 1;
      }
      i := i + 1;
    }
    SortedUnique(a[..], SortIntervals(old(a[..])));
  }

  function Max(x: int, y: int): int {
    if x >= y then x else y
  }

  /** The latest end among `s`, and never earlier than `now`. */
  function RunningEnd(now: int, s: seq<Interval>): (r: int)
    ensures r >= now
    ensures forall i :: 0 <= i < |s| ==> s[i].end <= r
    ensures r == now || exists i :: 0 <= i < |s| && s[i].end == r
  {
    if s == [] then now
    else Max(RunningEnd(now, s[..|s| - 1]), s[|s| - 1].end)
  }

  /** Interval `i` touches the chain before it: it starts no later than the
      latest end so far. */
  predicate Chained(now: int, s: seq<Interval>, i: int)
    requires 0 <= i < |s|
  {
    s[i].start <= RunningEnd(now, s[..i])
  }

  /** The first interval, from `i` on, that starts after the chain before it
      has ended, or `|s|` when there is none. */
  function GapFrom(now: int, s: seq<Interval>, i: nat): (k: nat)
    requires i <= |s|
    ensures i <= k <= |s|
    ensures forall j :: i <= j < k ==> Chained(now, s, j)
    ensures k < |s| ==> !Chained(now, s, k)
    decreases |s| - i
  {
    if i == |s| then |s|
    else if !Chained(now, s, i) then i
    else GapFrom(now, s, i + 1)
  }

  /** Where the sweep stops: the first gap in the chain that starts at `now`. */
  function FirstGap(now: int, s: seq<Interval>): (k: nat)
    ensures k <= |s|
    ensures forall j :: 0 <= j < k ==> Chained(now, s, j)
    ensures k < |s| ==> !Chained(now, s, k)
  {
    GapFrom(now, s, 0)
  }

  /** The answer the sweep gives on `s`: busy when the first interval touches
      `now`, until the end of the chain; otherwise free until the first start. */
  function SweepResult(now: int, s: seq<Interval>): BusyStatus {
    var k := FirstGap(now, s);
    if k > 0 then BusyStatus(true, RunningEnd(now, s[..k]))
    else BusyStatus(false, if |s| > 0 then s[0].start else now)
  }

  /** The sweep loop of `get_busy_status`, over the sorted periods. */
  method Sweep(a: array<Interval>, now: int) returns (isBusy: bool, transition: int)
    ensures BusyStatus(isBusy, transition) == SweepResult(now, a[..])
  {
    isBusy := false;
    var lastEnd := now;
    var firstStart := now;
    var i := 0;
    while i < a.Length
      invariant 0 <= i <= a.Length
      invariant i <= FirstGap(now, a[..])
      invariant lastEnd == RunningEnd(now, a[..i])
      invariant isBusy == (i > 0)
      invariant firstStart == now
    {
      if a[i].start > lastEnd {
        firstStart := a[i].start;
        assert !Chained(now, a[..], i);
        break;
      }
      isBusy := true;
      assert a[..i + 1][..i] == a[..i];
      lastEnd := Max(lastEnd, a[i].end);
      i := i + 1;
    }
    assert i < a.Length ==> !Chained(now, a[..], i);
    assert i == FirstGap(now, a[..]);
    transition := if isBusy then lastEnd else firstStart;
  }

  /** No interval that has started by `t` is still running after `t`. */
  predicate Settled(s: seq<Interval>, t: int) {
    forall i :: 0 <= i < |s| && s[i].start <= t ==> s[i].end <= t
  }

  /** Some interval is under way at `x`. */
  predicate Covered(s: seq<Interval>, x: int) {
    exists i :: 0 <= i < |s| && s[i].start <= x <= s[i].end
  }

  /** On sorted periods the result is free exactly when every period starts
      strictly after `now`; the transition is then the first start. */
  lemma SweepFreeIff(now: int, s: seq<Interval>)
    requires Sorted(s) && |s| > 0
    ensures !SweepResult(now, s).isBusy <==> forall i :: 0 <= i < |s| ==> s[i].start > now
    ensures !SweepResult(now, s).isBusy ==> SweepResult(now, s).transition == s[0].start > now
    ensures !SweepResult(now, s).isBusy ==> forall i :: 0 <= i < |s| ==> s[i].start >= s[0].start
  {
    assert s[..0] == [];
    assert forall i :: 0 < i < |s| ==> Before(s[0], s[i]);
  }

  /** Every instant from `now` up to (not including) the end of the first `j`
      chained periods falls inside one of them. */
  lemma {:induction false} ChainCoversUpTo(now: int, s: seq<Interval>, j: nat, x: int)
    requires j <= FirstGap(now, s)
    requires now <= x < RunningEnd(now, s[..j])
    ensures exists i :: 0 <= i < j && s[i].start <= x < s[i].end
  {
    if j > 0 {
      var p := s[..j - 1];
      assert s[..j][..j - 1] == p;
      assert Chained(now, s, j - 1);
      if x < RunningEnd(now, p) {
        ChainCoversUpTo(now, s, j - 1, x);
      } else {
        assert s[..j][j - 1] == s[j - 1];
      }
    }
  }

  /** When busy, the transition is the first instant from `now` on at which
      every period that has begun is over: it is settled, no earlier instant
      from `now` is, and every later period starts after it. */
  lemma SweepBusyTransition(now: int, s: seq<Interval>)
    requires Sorted(s)
    requires SweepResult(now, s).isBusy
    ensures var t := SweepResult(now, s).transition;
      && t >= now
      && Settled(s, t)
      && (forall x :: now <= x < t ==> !Settled(s, x))
  {
    var k := FirstGap(now, s);
    var t := RunningEnd(now, s[..k]);
    forall i | 0 <= i < |s| && s[i].start <= t ensures s[i].end <= t {
      if i < k {
        assert s[..k][i] == s[i];
      }
    }
    forall x | now <= x < t ensures !Settled(s, x) {
      ChainCoversUpTo(now, s, k, x);
    }
  }

  /** When busy and no period ended before `now`, the periods leave no hole
      between `now` and the transition. */
  lemma SweepBusyCovers(now: int, s: seq<Interval>, x: int)
    requires forall i :: 0 <= i < |s| ==> s[i].end >= now
    requires SweepResult(now, s).isBusy
    requires now <= x <= SweepResult(now, s).transition
    ensures Covered(s, x)
  {
    var k := FirstGap(now, s);
    var t := RunningEnd(now, s[..k]);
    if x < t {
      ChainCoversUpTo(now, s, k, x);
    } else {
      assert s[..0] == [];
      assert Chained(now, s, 0);
      if t == now {
        assert s[0].start <= x <= s[0].end;
      } else {
        var i :| 0 <= i < k && s[..k][i].end == t;
        assert s[..k][i] == s[i];
        assert Chained(now, s, i);
        assert RunningEnd(now, s[..i]) <= t by {
          assert forall m :: 0 <= m < i ==> s[..i][m] == s[..k][m];
        }
      }
    }
  }

  /** Every element of `a` occurs in `b` when they hold the same multiset. */
  lemma SameElements(a: seq<Interval>, b: seq<Interval>)
    requires multiset(a) == multiset(b)
    ensures forall i :: 0 <= i < |a| ==> exists j :: 0 <= j < |b| && b[j] == a[i]
  {
    forall i | 0 <= i < |a| ensures exists j :: 0 <= j < |b| && b[j] == a[i] {
      assert a[i] in multiset(a);
      assert a[i] in multiset(b);
      var j :| 0 <= j < |b| && b[j] == a[i];
    }
  }

  /** Sorting does not change which instants are settled. */
  lemma SettledPermutation(a: seq<Interval>, b: seq<Interval>, t: int)
    requires multiset(a) == multiset(b)
    ensures Settled(a, t) <==> Settled(b, t)
  {
    SameElements(a, b);
    SameElements(b, a);
  }

  /** Sorting does not change which instants are covered. */
  lemma CoveredPermutation(a: seq<Interval>, b: seq<Interval>, x: int)
    requires multiset(a) == multiset(b)
    ensures Covered(a, x) <==> Covered(b, x)
  {
    SameElements(a, b);
    SameElements(b, a);
  }

  /** Sorted and swept, periods in any order give a free answer exactly when
      every period starts strictly after `now`, and then the transition is
      the earliest start. */
  lemma SortedSweepFree(now: int, b: seq<Interval>)
    requires |b| > 0
    ensures !SweepResult(now, SortIntervals(b)).isBusy <==> forall i :: 0 <= i < |b| ==> b[i].start > now
    ensures !SweepResult(now, SortIntervals(b)).isBusy ==>
      && SweepResult(now, SortIntervals(b)).transition > now
      && (forall i :: 0 <= i < |b| ==> b[i].start >= SweepResult(now, SortIntervals(b)).transition)
      && (exists i :: 0 <= i < |b| && b[i].start == SweepResult(now, SortIntervals(b)).transition)
  {
    var s := SortIntervals(b);
    assert |s| == |multiset(s)| == |multiset(b)| == |b|;
    SweepFreeIff(now, s);
    SameElements(s, b);
    SameElements(b, s);
  }

  /** Sorted and swept, periods in any order that give a busy answer keep
      it busy until the first instant from `now` on at which every period
      that has begun is over. */
  lemma SortedSweepBusy(now: int, b: seq<Interval>)
    requires SweepResult(now, SortIntervals(b)).isBusy
    ensures SweepResult(now, SortIntervals(b)).transition >= now
    ensures Settled(b, SweepResult(now, SortIntervals(b)).transition)
    ensures forall x :: now <= x < SweepResult(now, SortIntervals(b)).transition ==> !Settled(b, x)
  {
    var s := SortIntervals(b);
    SweepBusyTransition(now, s);
    SettledPermutation(s, b, SweepResult(now, s).transition);
    forall x | now <= x < SweepResult(now, s).transition ensures !Settled(b, x) {
      SettledPermutation(s, b, x);
    }
  }

  /** Sorted and swept, periods none of which ended before `now` leave no
      hole between `now` and a busy answer's transition. */
  lemma SortedSweepCovers(now: int, b: seq<Interval>, x: int)
    requires forall i :: 0 <= i < |b| ==> b[i].end >= now
    requires SweepResult(now, SortIntervals(b)).isBusy
    requires now <= x <= SweepResult(now, SortIntervals(b)).transition
    ensures Covered(b, x)
  {
    var s := SortIntervals(b);
    SameElements(s, b);
    SweepBusyCovers(now, s, x);
    CoveredPermutation(s, b, x);
  }

  /** A sequence that is already in order is its own sorted order. */
  lemma SortSorted(s: seq<Interval>)
    requires Sorted(s)
    ensures SortIntervals(s) == s
  {
    SortedUnique(SortIntervals(s), s);
  }

  /** A single period: busy until its end (or `now`) once it has started,
      otherwise free until it starts. */
  lemma SweepOne(now: int, w: Interval)
    ensures SweepResult(now, SortIntervals([w])) ==
      if w.start <= now then BusyStatus(true, Max(now, w.end)) else BusyStatus(false, w.start)
  {
    var s := [w];
    SortSorted(s);
    assert s[..0] == [] && s[..1] == s;
    if w.start <= now {
      assert Chained(now, s, 0);
      assert GapFrom(now, s, 1) == 1;
      assert RunningEnd(now, s) == Max(RunningEnd(now, s[..0]), w.end);
    } else {
      assert !Chained(now, s, 0);
    }
  }

  /** Two periods, the first under way at `now` and the second starting
      after it ends: busy until the first one ends. */
  lemma SweepTwoApart(now: int, w1: Interval, w2: Interval)
    requires w1.start <= now <= w1.end < w2.start
    ensures SweepResult(now, SortIntervals([w1, w2])) == BusyStatus(true, w1.end)
  {
    var s := [w1, w2];
    SortSorted(s);
    assert s[..0] == [] && s[..1] == [w1];
    assert RunningEnd(now, s[..1]) == w1.end by {
      assert RunningEnd(now, s[..1]) == Max(RunningEnd(now, s[..0]), w1.end);
    }
    assert GapFrom(now, s, 1) == 1 by {
      assert !Chained(now, s, 1);
    }
    assert FirstGap(now, s) == 1 by {
      assert Chained(now, s, 0);
    }
  }

  /** The sweep stops at the first gap: what follows the interval that opens
      the gap has no effect on the result. */
  lemma SweepIgnoresAfterGap(now: int, s: seq<Interval>, u: seq<Interval>)
    requires FirstGap(now, s) < |s|
    ensures SweepResult(now, s[..FirstGap(now, s) + 1] + u) == SweepResult(now, s)
  {
    var k := FirstGap(now, s);
    var s' := s[..k + 1] + u;
    assert forall j :: 0 <= j <= k ==> s'[..j] == s[..j];
    GapFromPrefix(now, s, s', 0);
  }

  lemma {:induction false} GapFromPrefix(now: int, s: seq<Interval>, s': seq<Interval>, j: nat)
    requires FirstGap(now, s) < |s|
    requires j <= FirstGap(now, s) < |s'|
    requires forall m :: 0 <= m <= FirstGap(now, s) ==> s'[..m] == s[..m] && s'[m] == s[m]
    ensures GapFrom(now, s', j) == FirstGap(now, s)
    decreases FirstGap(now, s) - j
  {
    var k := FirstGap(now, s);
    if j < k {
      assert Chained(now, s, j);
      GapFromPrefix(now, s, s', j + 1);
    } else {
      assert !Chained(now, s, k);
    }
  }

  /** Two worked cases: at 2 the first two periods chain and the third stays
      in the future; at 0 nothing has begun yet. */
  lemma SweepExamples()
    ensures SweepResult(2, [Interval(1, 3), Interval(2, 5), Interval(7, 9)]) == BusyStatus(true, 5)
    ensures SweepResult(0, [Interval(1, 3), Interval(2, 5), Interval(7, 9)]) == BusyStatus(false, 1)
  {
    var s := [Interval(1, 3), Interval(2, 5), Interval(7, 9)];
    assert s[..0] == [] && s[..1] == [Interval(1, 3)] && s[..2] == [Interval(1, 3), Interval(2, 5)];
    assert RunningEnd(2, s[..2]) == 5;
    assert GapFrom(2, s, 2) == 2;
    assert GapFrom(0, s, 0) == 0;
  }
}
