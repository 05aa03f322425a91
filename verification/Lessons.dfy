/** Cutting a list of times into lessons: two neighbours less than `gap` apart share one. */
module Lessons {
  import opened EditScripts

  datatype Span = Span(from: int, to: int)

  ghost predicate NewestFirst(times: seq<int>) {
    forall i, j :: 0 <= i < j < |times| ==> times[i] >= times[j]
  }

  /** A time and the one before it in the list are far enough apart to be in different lessons. */
  predicate Breaks(times: seq<int>, gap: int, i: nat)
    requires 0 < i < |times|
  {
    times[i - 1] - times[i] >= gap
  }

  /** Which lesson a time is in, the newest being 0. */
  function LessonOf(times: seq<int>, gap: int, i: nat): nat
    requires i < |times|
  {
    if i == 0 then 0 else LessonOf(times, gap, i - 1) + if Breaks(times, gap, i) then 1 else 0
  }

  /** Two times are in one lesson exactly when no neighbours between them are `gap` apart. */
  lemma {:induction false} SameLessonIffLinked(times: seq<int>, gap: int, i: nat, j: nat)
    requires i <= j < |times|
    ensures LessonOf(times, gap, i) <= LessonOf(times, gap, j)
    ensures LessonOf(times, gap, i) == LessonOf(times, gap, j)
            <==> forall k: nat :: i < k <= j ==> !Breaks(times, gap, k)
    decreases j
  {
    if i < j {
      SameLessonIffLinked(times, gap, i, j - 1);
    }
  }

  /** The first `n` times are in the spans of their lessons, which begin and end with them. */
  ghost predicate Spans(times: seq<int>, gap: int, n: nat, out: seq<Span>)
    requires n <= |times|
  {
    && |out| == (if n == 0 then 0 else LessonOf(times, gap, n - 1) + 1)
    && (forall i: nat :: i < n ==> InSpan(times, gap, i, out))
    && (forall i: nat :: i < n && (i == 0 || Breaks(times, gap, i)) ==> SpanEndsAt(times, gap, i, out))
    && (forall i: nat :: i + 1 < n && Breaks(times, gap, i + 1) ==> SpanStartsAt(times, gap, i, out))
    && (n > 0 ==> Last(out).from == times[n - 1])
  }

  ghost predicate InSpan(times: seq<int>, gap: int, i: nat, out: seq<Span>)
    requires i < |times|
  {
    var l := LessonOf(times, gap, i);
    l < |out| && out[l].from <= times[i] <= out[l].to
  }

  ghost predicate SpanEndsAt(times: seq<int>, gap: int, i: nat, out: seq<Span>)
    requires i < |times|
  {
    LessonOf(times, gap, i) < |out| && out[LessonOf(times, gap, i)].to == times[i]
  }

  ghost predicate SpanStartsAt(times: seq<int>, gap: int, i: nat, out: seq<Span>)
    requires i < |times|
  {
    LessonOf(times, gap, i) < |out| && out[LessonOf(times, gap, i)].from == times[i]
  }

  /** A time close to the one before it joins that one's lesson. */
  lemma Joins(times: seq<int>, gap: int, n: nat, out: seq<Span>)
    requires NewestFirst(times) && 0 < n < |times| && Spans(times, gap, n, out) && !Breaks(times, gap, n)
    ensures Spans(times, gap, n + 1, DropLast(out) + [Last(out).(from := times[n])])
  {
    var out' := DropLast(out) + [Last(out).(from := times[n])];
    forall i: nat | i < n + 1 ensures InSpan(times, gap, i, out') {
      assert i < n ==> InSpan(times, gap, i, out);
      assert InSpan(times, gap, n - 1, out);
    }
    forall i: nat | i < n + 1 && (i == 0 || Breaks(times, gap, i)) ensures SpanEndsAt(times, gap, i, out') {
      assert SpanEndsAt(times, gap, i, out);
    }
    forall i: nat | i + 1 < n + 1 && Breaks(times, gap, i + 1) ensures SpanStartsAt(times, gap, i, out') {
      assert SpanStartsAt(times, gap, i, out);
      assert InSpan(times, gap, i + 1, out);
    }
  }

  /** Any other time begins a lesson. */
  lemma Begins(times: seq<int>, gap: int, n: nat, out: seq<Span>)
    requires NewestFirst(times) && n < |times| && Spans(times, gap, n, out) && (n > 0 ==> Breaks(times, gap, n))
    ensures Spans(times, gap, n + 1, out + [Span(times[n], times[n])])
  {
    var out' := out + [Span(times[n], times[n])];
    forall i: nat | i < n + 1 ensures InSpan(times, gap, i, out') {
      assert i < n ==> InSpan(times, gap, i, out);
    }
    forall i: nat | i < n + 1 && (i == 0 || Breaks(times, gap, i)) ensures SpanEndsAt(times, gap, i, out') {
      assert i < n ==> SpanEndsAt(times, gap, i, out);
    }
    forall i: nat | i + 1 < n + 1 && Breaks(times, gap, i + 1) ensures SpanStartsAt(times, gap, i, out') {
      assert i + 1 < n ==> SpanStartsAt(times, gap, i, out);
    }
  }

  /** Spans come newest first, each whole, with neighbours at least `gap` apart. */
  ghost predicate Apart(gap: int, out: seq<Span>) {
    && (forall j :: 0 <= j < |out| ==> out[j].from <= out[j].to)
    && (forall j :: 0 < j < |out| ==> out[j - 1].from - out[j].to >= gap)
  }

  method Lessons(times: seq<int>, gap: int) returns (out: seq<Span>)
    requires NewestFirst(times)
    ensures Spans(times, gap, |times|, out)
    ensures Apart(gap, out)
  {
    out := [];
    for n := 0 to |times|
      invariant Spans(times, gap, n, out)
      invariant Apart(gap, out)
    {
      var t := times[n];
      if out != [] && Last(out).from - t < gap {
        Joins(times, gap, n, out);
        out := DropLast(out) + [Last(out).(from := t)];
      } else {
        Begins(times, gap, n, out);
        out := out + [Span(t, t)];
      }
    }
  }

  lemma {:induction false} LaterSpansAreOlder(gap: int, out: seq<Span>, i: nat, j: nat)
    requires gap > 0 && Apart(gap, out) && i < j < |out|
    ensures out[j].to < out[i].from
    decreases j
  {
    if i < j - 1 {
      LaterSpansAreOlder(gap, out, i, j - 1);
    }
  }

  /** Every time lies in one lesson's span and no other. */
  lemma InNoOtherSpan(times: seq<int>, gap: int, out: seq<Span>, i: nat, j: nat)
    requires gap > 0 && Spans(times, gap, |times|, out) && Apart(gap, out)
    requires i < |times| && j < |out|
    ensures out[j].from <= times[i] <= out[j].to <==> j == LessonOf(times, gap, i)
  {
    var l := LessonOf(times, gap, i);
    assert InSpan(times, gap, i, out);
    if l < j {
      LaterSpansAreOlder(gap, out, l, j);
    } else if j < l {
      LaterSpansAreOlder(gap, out, j, l);
    }
  }
}
