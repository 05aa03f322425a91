/** When a student's time on an exercise is long for this class: interpolated quantiles, Tukey
    fences over them, and the level a student is shown at. */
module Fences {
  import opened EditScripts

  const WATCH_SECS := 600
  const HELP_SECS := 1500
  const MIN_COHORT := 5
  const MIN_WATCH_SECS := 300
  const MIN_HELP_SECS := 600
  const STALL_SECS := 300

  // ---- Quantiles ----

  ghost predicate Ascending(s: seq<int>) {
    forall i, j :: 0 <= i < j < |s| ==> s[i] <= s[j]
  }

  /** Rounds half away from zero. */
  function Round(x: real): int {
    if x >= 0.0 then (x + 0.5).Floor else -((-x + 0.5).Floor)
  }

  function CeilOf(x: real): int { -((-x).Floor) }

  /** How far between the values around it a position lies. */
  function Frac(pos: real): real { pos - pos.Floor as real }

  lemma IndicesInside(n: nat, pos: real)
    requires n > 0 && 0.0 <= pos <= (n - 1) as real
    ensures 0 <= pos.Floor <= CeilOf(pos) <= pos.Floor + 1
    ensures CeilOf(pos) < n
    ensures 0.0 <= Frac(pos) < 1.0
    ensures Frac(pos) > 0.0 ==> CeilOf(pos) == pos.Floor + 1
  {
  }

  /** The position of a quantile among `n` values. */
  function Position(n: nat, q: real): (pos: real)
    requires n > 0 && 0.0 <= q <= 1.0
    ensures 0.0 <= pos <= (n - 1) as real
    ensures pos == q * (n - 1) as real
  {
    var m := (n - 1) as real;
    assert 0.0 <= q * m <= 1.0 * m by {
      ProductsOrdered(0.0, q, m);
      ProductsOrdered(q, 1.0, m);
    }
    q * m
  }

  lemma PositionMonotone(n: nat, p: real, q: real)
    requires n > 0 && 0.0 <= p <= q <= 1.0
    ensures Position(n, p) <= Position(n, q)
  {
    var m := (n - 1) as real;
    var x, y := Position(n, p), Position(n, q);
    assert x == p * m;
    assert y == q * m;
    Ordered(p, q, m, x, y);
  }

  lemma Ordered(p: real, q: real, m: real, x: real, y: real)
    requires p <= q && 0.0 <= m && x == p * m && y == q * m
    ensures x <= y
  {
    ProductsOrdered(p, q, m);
  }

  lemma ProductsOrdered(p: real, q: real, m: real)
    requires p <= q && 0.0 <= m
    ensures p * m <= q * m
  {
    assert (q - p) * m >= 0.0;
    assert q * m == p * m + (q - p) * m;
  }

  /** A value between two whole numbers, `f` of the way up. */
  function Between(lo: int, hi: int, f: real): real { lo as real + f * (hi - lo) as real }

  lemma BetweenBounds(lo: int, hi: int, f: real)
    requires lo <= hi && 0.0 <= f <= 1.0
    ensures lo as real <= Between(lo, hi, f) <= hi as real
  {
    var d := (hi - lo) as real;
    var x := Between(lo, hi, f) - lo as real;
    assert x == f * d;
    Ordered(0.0, f, d, 0.0, x);
    Ordered(f, 1.0, d, x, d);
  }

  lemma BetweenMonotone(lo: int, hi: int, f: real, g: real)
    requires lo <= hi && f <= g
    ensures Between(lo, hi, f) <= Between(lo, hi, g)
  {
    var d := (hi - lo) as real;
    var x, y := Between(lo, hi, f) - lo as real, Between(lo, hi, g) - lo as real;
    assert x == f * d;
    assert y == g * d;
    Ordered(f, g, d, x, y);
  }

  lemma RoundMonotone(x: real, y: real)
    requires x <= y
    ensures Round(x) <= Round(y)
  {
  }

  lemma RoundExact(n: int)
    ensures Round(n as real) == n
  {
  }

  /** The value at a position, which may lie between two. */
  function ValueAt(sorted: seq<int>, pos: real): int
    requires sorted != [] && 0.0 <= pos <= (|sorted| - 1) as real
  {
    IndicesInside(|sorted|, pos);
    Round(Between(sorted[pos.Floor], sorted[CeilOf(pos)], Frac(pos)))
  }

  /** The value a fraction `q` of the way along `sorted`, rounded. */
  function Quantile(sorted: seq<int>, q: real): int
    requires sorted != [] && 0.0 <= q <= 1.0
  {
    ValueAt(sorted, Position(|sorted|, q))
  }

  /** A value at a position lies between the values around it. */
  lemma ValueBounds(sorted: seq<int>, pos: real)
    requires sorted != [] && Ascending(sorted) && 0.0 <= pos <= (|sorted| - 1) as real
    ensures 0 <= pos.Floor <= CeilOf(pos) < |sorted|
    ensures sorted[pos.Floor] <= ValueAt(sorted, pos) <= sorted[CeilOf(pos)]
  {
    IndicesInside(|sorted|, pos);
    var lo, hi := sorted[pos.Floor], sorted[CeilOf(pos)];
    BetweenBounds(lo, hi, Frac(pos));
    RoundMonotone(lo as real, Between(lo, hi, Frac(pos)));
    RoundMonotone(Between(lo, hi, Frac(pos)), hi as real);
    RoundExact(lo);
    RoundExact(hi);
  }

  /** A later position holds no smaller value. */
  lemma ValueMonotone(sorted: seq<int>, x: real, y: real)
    requires sorted != [] && Ascending(sorted) && 0.0 <= x <= y <= (|sorted| - 1) as real
    ensures ValueAt(sorted, x) <= ValueAt(sorted, y)
  {
    ValueBounds(sorted, x);
    ValueBounds(sorted, y);
    IndicesInside(|sorted|, x);
    IndicesInside(|sorted|, y);
    if x.Floor < y.Floor {
      assert sorted[CeilOf(x)] <= sorted[y.Floor];
    } else if Frac(x) == 0.0 {
      assert CeilOf(x) == x.Floor;
    } else {
      var lo, hi := sorted[x.Floor], sorted[x.Floor + 1];
      BetweenMonotone(lo, hi, Frac(x), Frac(y));
      RoundMonotone(Between(lo, hi, Frac(x)), Between(lo, hi, Frac(y)));
    }
  }

  /** A higher quantile is no smaller. */
  lemma QuantileMonotone(sorted: seq<int>, p: real, q: real)
    requires sorted != [] && Ascending(sorted) && 0.0 <= p <= q <= 1.0
    ensures Quantile(sorted, p) <= Quantile(sorted, q)
  {
    PositionMonotone(|sorted|, p, q);
    ValueMonotone(sorted, Position(|sorted|, p), Position(|sorted|, q));
  }

  /** Three quarters of the way through `n` values. */
  lemma ThirdQuartile(n: nat)
    requires n > 0
    ensures Position(n, 0.75).Floor == 3 * (n - 1) / 4
  {
    var at, r := 3 * (n - 1) / 4, 3 * (n - 1) % 4;
    assert Position(n, 0.75) == 0.75 * (n - 1) as real == at as real + r as real / 4.0;
  }

  // ---- Fences ----

  /** Whole-number division as the server divides: toward zero. */
  function DivTrunc(a: int, b: int): int
    requires b > 0
  {
    if a >= 0 then a / b else -(-a / b)
  }

  datatype Fence = Fence(watch: int, help: int, cohort: nat, median: int)

  const FIXED := Fence(WATCH_SECS, HELP_SECS, 0, 0)

  /** A value put in its place among ascending ones. */
  function Placed(x: int, s: seq<int>): seq<int> {
    if s == [] || x <= s[0] then [x] + s else [s[0]] + Placed(x, s[1..])
  }

  function Sorted(s: seq<int>): seq<int> {
    if s == [] then [] else Placed(s[0], Sorted(s[1..]))
  }

  function ForCohort(times: seq<int>): Fence {
    if |times| < MIN_COHORT then FIXED
    else
      SortedCounts(times, 0);
      var t := Sorted(times);
      var q1, med, q3 := Quantile(t, 0.25), Quantile(t, 0.5), Quantile(t, 0.75);
      var iqr := q3 - q1;
      Fence(Max(Max(q3 + DivTrunc(iqr * 3, 2), DivTrunc(med * 3, 2)), MIN_WATCH_SECS),
            Max(Max(q3 + iqr * 3, med * 2), MIN_HELP_SECS),
            |t|, med)
  }

  /** How many of the times reach a bound. */
  function Reaching(times: seq<int>, bound: int): nat {
    if times == [] then 0 else (if times[0] >= bound then 1 else 0) + Reaching(times[1..], bound)
  }

  lemma ReachingCons(x: int, s: seq<int>, bound: int)
    ensures Reaching([x] + s, bound) == (if x >= bound then 1 else 0) + Reaching(s, bound)
  {
    ConsEnds(x, s);
  }

  lemma {:induction false} PlacedCounts(x: int, s: seq<int>, bound: int)
    ensures |Placed(x, s)| == |s| + 1
    ensures Reaching(Placed(x, s), bound) == (if x >= bound then 1 else 0) + Reaching(s, bound)
    decreases |s|
  {
    ReachingCons(x, s, bound);
    if s != [] && x > s[0] {
      PlacedCounts(x, s[1..], bound);
      ReachingCons(s[0], Placed(x, s[1..]), bound);
    }
  }

  lemma {:induction false} PlacedInOrder(x: int, s: seq<int>)
    ensures Ascending(s) ==> Ascending(Placed(x, s))
    ensures forall y :: y in Placed(x, s) <==> y == x || y in s
    decreases |s|
  {
    if s != [] && x > s[0] {
      var rest := Placed(x, s[1..]);
      PlacedInOrder(x, s[1..]);
      ConsEnds(s[0], rest);
      assert s == [s[0]] + s[1..];
      forall k | Ascending(s) && 0 <= k < |rest| ensures s[0] <= rest[k] {
        assert rest[k] in rest;
      }
    }
  }

  /** Sorting keeps every time, and so how many reach any bound. */
  lemma {:induction false} SortedCounts(s: seq<int>, bound: int)
    ensures |Sorted(s)| == |s| && Ascending(Sorted(s))
    ensures Reaching(Sorted(s), bound) == Reaching(s, bound)
    ensures forall y :: y in Sorted(s) <==> y in s
    decreases |s|
  {
    if s != [] {
      SortedCounts(s[1..], bound);
      PlacedCounts(s[0], Sorted(s[1..]), bound);
      PlacedInOrder(s[0], Sorted(s[1..]));
      assert s == [s[0]] + s[1..];
    }
  }

  lemma {:induction false} FewAbove(s: seq<int>, k: nat, bound: int)
    requires Ascending(s) && k < |s| && s[k] < bound
    ensures Reaching(s, bound) <= |s| - 1 - k
    decreases |s|
  {
    if k > 0 {
      FewAbove(s[1..], k - 1, bound);
    } else {
      AtMostAll(s[1..], bound);
    }
  }

  lemma {:induction false} AtMostAll(s: seq<int>, bound: int)
    ensures Reaching(s, bound) <= |s|
    decreases |s|
  {
    if s != [] {
      AtMostAll(s[1..], bound);
    }
  }

  /** The watch fence stands strictly above the third quartile, and below the help fence. */
  lemma FencesInOrder(times: seq<int>)
    requires forall k :: 0 <= k < |times| ==> times[k] >= 0
    ensures ForCohort(times).watch <= ForCohort(times).help
    ensures |times| >= MIN_COHORT ==>
              |Sorted(times)| == |times| && ForCohort(times).watch > Quantile(Sorted(times), 0.75)
  {
    if |times| >= MIN_COHORT {
      var t := Sorted(times);
      SortedCounts(times, 0);
      QuantileMonotone(t, 0.25, 0.5);
      QuantileMonotone(t, 0.5, 0.75);
      ValueBounds(t, Position(|t|, 0.25));
    }
  }

  function CeilQuarter(n: nat): nat { (n + 3) / 4 }

  /** The clock alone never singles out more than about a quarter of a class: of `n` times, at most
      a quarter of `n - 1`, rounded up, reach the watch fence. */
  lemma AtMostAQuarterReachWatch(times: seq<int>)
    requires |times| >= MIN_COHORT
    requires forall k :: 0 <= k < |times| ==> times[k] >= 0
    ensures Reaching(times, ForCohort(times).watch) <= CeilQuarter(|times| - 1)
  {
    var t := Sorted(times);
    var watch := ForCohort(times).watch;
    SortedCounts(times, watch);
    FencesInOrder(times);
    ValueBounds(t, Position(|t|, 0.75));
    ThirdQuartile(|t|);
    FewAbove(t, Position(|t|, 0.75).Floor, watch);
  }

  // ---- Levels ----

  datatype Signals = Signals(errors: int, failedRuns: int)

  /** Recent typing: how much, and how long ago, when that is known. */
  datatype EditActivity = EditActivity(recent: int, sinceLastSecs: Option<int>)

  datatype Level = Ok | Watch | Help

  datatype Reason =
    | ErrorsInRuns(count: int)
    | FailedRuns(count: int)
    | LongForClass(minutes: int, medianMinutes: int)
    | LongHere(minutes: int)
    | NoEdits(minutes: int)

  predicate Stalled(secs: int, edits: EditActivity, fence: Fence) {
    secs >= fence.watch && edits.sinceLastSecs.Some? && edits.sinceLastSecs.value >= STALL_SECS
  }

  predicate Working(edits: EditActivity) {
    edits.recent > 0 && edits.sinceLastSecs.Some? && edits.sinceLastSecs.value < STALL_SECS
  }

  predicate NeedsHelp(sig: Signals, secs: int, edits: EditActivity, fence: Fence) {
    || sig.errors >= 3
    || sig.failedRuns >= 2
    || (secs >= fence.help && !Working(edits))
    || (Stalled(secs, edits, fence) && (sig.errors >= 1 || sig.failedRuns >= 1))
  }

  predicate NeedsWatch(sig: Signals, secs: int, fence: Fence) {
    sig.errors >= 1 || sig.failedRuns >= 1 || secs >= fence.watch
  }

  function LevelOf(sig: Signals, secs: int, edits: EditActivity, fence: Fence): Level {
    if NeedsHelp(sig, secs, edits, fence) then Help else if NeedsWatch(sig, secs, fence) then Watch else Ok
  }

  /** When there is a reason to give, and with what figures. */
  predicate Applies(r: Reason, sig: Signals, secs: int, edits: EditActivity, fence: Fence) {
    match r
    case ErrorsInRuns(count) => sig.errors > 0 && count == sig.errors
    case FailedRuns(count) => sig.failedRuns > 0 && count == sig.failedRuns
    case LongForClass(minutes, median) =>
      secs >= fence.watch && fence.cohort > 0 && minutes == DivTrunc(secs, 60) && median == DivTrunc(fence.median, 60)
    case LongHere(minutes) => secs >= fence.watch && fence.cohort == 0 && minutes == DivTrunc(secs, 60)
    case NoEdits(minutes) => Stalled(secs, edits, fence) && minutes == DivTrunc(edits.sinceLastSecs.value, 60)
  }

  /** The level, and the reasons that apply, no more and no fewer. With the fences in order the level is
      `Ok` exactly when there is no reason. */
  method Assess(sig: Signals, secs: int, edits: EditActivity, fence: Fence) returns (level: Level, reasons: seq<Reason>)
    ensures level == LevelOf(sig, secs, edits, fence)
    ensures fence.watch <= fence.help ==> (level == Ok <==> reasons == [])
    ensures forall r :: r in reasons <==> Applies(r, sig, secs, edits, fence)
  {
    reasons := [];
    if sig.errors > 0 {
      reasons := reasons + [ErrorsInRuns(sig.errors)];
    }
    if sig.failedRuns > 0 {
      reasons := reasons + [FailedRuns(sig.failedRuns)];
    }
    var long := secs >= fence.watch;
    if long {
      var mins := DivTrunc(secs, 60);
      reasons := reasons + [if fence.cohort > 0 then LongForClass(mins, DivTrunc(fence.median, 60))
                            else LongHere(mins)];
    }
    var stalled := long && edits.sinceLastSecs.Some? && edits.sinceLastSecs.value >= STALL_SECS;
    if stalled {
      reasons := reasons + [NoEdits(DivTrunc(edits.sinceLastSecs.value, 60))];
    }
    var working := edits.recent > 0 && edits.sinceLastSecs.Some? && edits.sinceLastSecs.value < STALL_SECS;
    var help :=
      || sig.errors >= 3
      || sig.failedRuns >= 2
      || (secs >= fence.help && !working)
      || (stalled && (sig.errors >= 1 || sig.failedRuns >= 1));
    var watch := stalled || sig.errors >= 1 || sig.failedRuns >= 1 || long;
    level := if help then Help else if watch then Watch else Ok;
  }

  function Rank(level: Level): nat {
    match level
    case Help => 2
    case Watch => 1
    case Ok => 0
  }

  /** More trouble or more time never lowers a level. */
  lemma MoreTroubleRanksHigher(sig: Signals, sig': Signals, secs: int, secs': int, edits: EditActivity, fence: Fence)
    requires sig.errors <= sig'.errors && sig.failedRuns <= sig'.failedRuns && secs <= secs'
    ensures Rank(LevelOf(sig, secs, edits, fence)) <= Rank(LevelOf(sig', secs', edits, fence))
  {
  }

  /** With nothing but the clock against them, how many of a class are not shown as fine. */
  function FlaggedByClock(times: seq<int>, edits: seq<EditActivity>, fence: Fence): nat
    requires |edits| == |times|
  {
    if times == [] then 0
    else (if LevelOf(Signals(0, 0), times[0], edits[0], fence) == Ok then 0 else 1)
         + FlaggedByClock(times[1..], edits[1..], fence)
  }

  lemma {:induction false} FlaggedReach(times: seq<int>, edits: seq<EditActivity>, fence: Fence)
    requires |edits| == |times| && fence.watch <= fence.help
    ensures FlaggedByClock(times, edits, fence) == Reaching(times, fence.watch)
    decreases |times|
  {
    if times != [] {
      FlaggedReach(times[1..], edits[1..], fence);
    }
  }

  /** However anyone types, the clock alone flags at most about a quarter of those on an exercise. */
  lemma ClockFlagsFew(times: seq<int>, edits: seq<EditActivity>)
    requires |times| >= MIN_COHORT && |edits| == |times|
    requires forall k :: 0 <= k < |times| ==> times[k] >= 0
    ensures FlaggedByClock(times, edits, ForCohort(times)) <= CeilQuarter(|times| - 1)
  {
    FencesInOrder(times);
    FlaggedReach(times, edits, ForCohort(times));
    AtMostAQuarterReachWatch(times);
  }
}
