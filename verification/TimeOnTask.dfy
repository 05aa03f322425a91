/** Time on task: every event credits the time until the student's next one, capped, to the file
    and exercise it names. Four places add that up, and have to agree. */
module TimeOnTask {
  import opened EditScripts

  const IDLE_GAP_SECS := 120

  /** One file event of one student; `closed` says the file was closed. */
  datatype Event = Event(at: int, closed: bool, path: string, relative: Option<string>, exercise: Option<string>)

  function Clamp(x: int, lo: int, hi: int): int
    requires lo <= hi
  {
    if x < lo then lo else if x > hi then hi else x
  }

  function GapBetween(cur: Event, next: Event): nat { Clamp(next.at - cur.at, 0, IDLE_GAP_SECS) }

  // What time can be added up by.

  function PathOf(e: Event): string { e.path }

  function ExerciseOf(e: Event): Option<string> { e.exercise }

  function Everything(e: Event): () { () }

  /** What an event credits to `k`, when the next one follows it. */
  function Credit<K(==)>(cur: Event, next: Event, key: Event -> K, k: K): nat {
    if cur.closed || key(cur) != k then 0 else GapBetween(cur, next)
  }

  /** What the first `n` pairs of neighbouring events credit to `k`. */
  function SecondsUpTo<K(==)>(evs: seq<Event>, n: nat, key: Event -> K, k: K): nat
    requires n == 0 || n < |evs|
  {
    if n == 0 then 0
    else SecondsUpTo(evs, n - 1, key, k) + Credit(evs[n - 1], evs[n], key, k)
  }

  function Pairs(evs: seq<Event>): nat { if evs == [] then 0 else |evs| - 1 }

  function Seconds<K(==)>(evs: seq<Event>, key: Event -> K, k: K): nat {
    SecondsUpTo(evs, Pairs(evs), key, k)
  }

  function Total(evs: seq<Event>): nat { Seconds(evs, Everything, ()) }

  // ---- The four loops ----

  /** What is known of a file: as its first credited event had it, and the seconds so far. */
  datatype FileTime = FileTime(relative: Option<string>, exercise: Option<string>, seconds: nat)

  /** A pair that credits some time to a path. */
  predicate Credits(evs: seq<Event>, i: nat, path: string)
    requires i + 1 < |evs|
  {
    Credit(evs[i], evs[i + 1], PathOf, path) > 0
  }

  /** The labels of a file are those of its first event that was credited any time. */
  ghost predicate LabelledByFirst(evs: seq<Event>, n: nat, path: string, file: FileTime)
    requires n == 0 || n < |evs|
  {
    exists i: nat :: i < n && Credits(evs, i, path)
                     && (forall j: nat :: j < i ==> !Credits(evs, j, path))
                     && file.relative == evs[i].relative && file.exercise == evs[i].exercise
  }

  /** The files and exercises a map of seconds holds: those with any time, with all of it. */
  ghost predicate FilesUpTo(evs: seq<Event>, n: nat, files: map<string, FileTime>)
    requires n == 0 || n < |evs|
  {
    forall p :: && (p in files <==> SecondsUpTo(evs, n, PathOf, p) > 0)
                && (p in files ==> files[p].seconds == SecondsUpTo(evs, n, PathOf, p))
  }

  ghost predicate LabelsUpTo(evs: seq<Event>, n: nat, files: map<string, FileTime>)
    requires n == 0 || n < |evs|
  {
    forall p :: p in files ==> LabelledByFirst(evs, n, p, files[p])
  }

  ghost predicate ExercisesUpTo(evs: seq<Event>, n: nat, secs: map<string, nat>)
    requires n == 0 || n < |evs|
  {
    forall x :: && (x in secs <==> SecondsUpTo(evs, n, ExerciseOf, Some(x)) > 0)
                && (x in secs ==> secs[x] == SecondsUpTo(evs, n, ExerciseOf, Some(x)))
  }

  /** Without seconds there was no credit. */
  lemma {:induction false} NoSecondsNoCredit(evs: seq<Event>, n: nat, path: string)
    requires n == 0 || n < |evs|
    requires SecondsUpTo(evs, n, PathOf, path) == 0
    ensures forall j: nat :: j < n ==> !Credits(evs, j, path)
  {
    if n > 0 {
      NoSecondsNoCredit(evs, n - 1, path);
    }
  }

  datatype Report = Report(files: map<string, FileTime>, exercises: map<string, nat>, total: nat)

  /** What the Analytics report holds after `n` pairs. */
  ghost predicate Reported(evs: seq<Event>, n: nat, r: Report)
    requires n == 0 || n < |evs|
  {
    && FilesUpTo(evs, n, r.files)
    && LabelsUpTo(evs, n, r.files)
    && ExercisesUpTo(evs, n, r.exercises)
    && r.total == SecondsUpTo(evs, n, Everything, ())
  }

  function AddFile(evs: seq<Event>, n: nat, files: map<string, FileTime>, gap: nat): map<string, FileTime>
    requires n < |evs|
  {
    var e := evs[n];
    var entry := if e.path in files then files[e.path] else FileTime(e.relative, e.exercise, 0);
    files[e.path := entry.(seconds := entry.seconds + gap)]
  }

  function AddTo(secs: map<string, nat>, ex: Option<string>, gap: nat): map<string, nat> {
    if ex.None? then secs
    else secs[ex.value := (if ex.value in secs then secs[ex.value] else 0) + gap]
  }

  /** The report with one more pair entered under its path and its exercise. */
  function EnterPair(evs: seq<Event>, n: nat, r: Report): Report
    requires n + 1 < |evs|
  {
    var cur, gap := evs[n], GapBetween(evs[n], evs[n + 1]);
    if cur.closed || gap == 0 then r
    else Report(AddFile(evs, n, r.files, gap), AddTo(r.exercises, cur.exercise, gap), r.total + gap)
  }

  /** A pair that credits nothing leaves the report as it is. */
  lemma NothingCredited(evs: seq<Event>, n: nat, r: Report)
    requires n + 1 < |evs| && Reported(evs, n, r)
    requires Credit(evs[n], evs[n + 1], Everything, ()) == 0
    ensures Reported(evs, n + 1, r)
  {
    forall p | p in r.files ensures LabelledByFirst(evs, n + 1, p, r.files[p]) {
      assert LabelledByFirst(evs, n, p, r.files[p]);
    }
  }

  /** One more credited pair: its file is labelled, and the others stay as they were. */
  lemma LabelsStep(evs: seq<Event>, n: nat, files: map<string, FileTime>, files': map<string, FileTime>)
    requires n + 1 < |evs| && FilesUpTo(evs, n, files) && LabelsUpTo(evs, n, files)
    requires Credits(evs, n, evs[n].path) && files' == AddFile(evs, n, files, GapBetween(evs[n], evs[n + 1]))
    ensures LabelsUpTo(evs, n + 1, files')
  {
    forall p | p in files' ensures LabelledByFirst(evs, n + 1, p, files'[p]) {
      if p in files {
        assert LabelledByFirst(evs, n, p, files[p]);
        LabelStays(evs, n, p, files[p], files'[p]);
      } else {
        NoSecondsNoCredit(evs, n, p);
        assert Credits(evs, n, p);
      }
    }
  }

  lemma LabelStays(evs: seq<Event>, n: nat, p: string, file: FileTime, file': FileTime)
    requires n + 1 < |evs| && LabelledByFirst(evs, n, p, file)
    requires file'.relative == file.relative && file'.exercise == file.exercise
    ensures LabelledByFirst(evs, n + 1, p, file')
  {
  }

  lemma FilesStep(evs: seq<Event>, n: nat, files: map<string, FileTime>, files': map<string, FileTime>)
    requires n + 1 < |evs| && FilesUpTo(evs, n, files)
    requires Credits(evs, n, evs[n].path) && files' == AddFile(evs, n, files, GapBetween(evs[n], evs[n + 1]))
    ensures FilesUpTo(evs, n + 1, files')
  {
  }

  lemma ExercisesStep(evs: seq<Event>, n: nat, secs: map<string, nat>, secs': map<string, nat>)
    requires n + 1 < |evs| && ExercisesUpTo(evs, n, secs) && !evs[n].closed && GapBetween(evs[n], evs[n + 1]) > 0
    requires secs' == AddTo(secs, evs[n].exercise, GapBetween(evs[n], evs[n + 1]))
    ensures ExercisesUpTo(evs, n + 1, secs')
  {
  }

  lemma SomeCredited(evs: seq<Event>, n: nat, r: Report, r': Report)
    requires n + 1 < |evs| && Reported(evs, n, r)
    requires !evs[n].closed && GapBetween(evs[n], evs[n + 1]) > 0 && r' == EnterPair(evs, n, r)
    ensures Reported(evs, n + 1, r')
  {
    LabelsStep(evs, n, r.files, r'.files);
    FilesStep(evs, n, r.files, r'.files);
    ExercisesStep(evs, n, r.exercises, r'.exercises);
  }

  lemma EnterKeeps(evs: seq<Event>, n: nat, r: Report, r': Report)
    requires n + 1 < |evs| && Reported(evs, n, r) && r' == EnterPair(evs, n, r)
    ensures Reported(evs, n + 1, r')
  {
    if evs[n].closed || GapBetween(evs[n], evs[n + 1]) == 0 {
      NothingCredited(evs, n, r);
    } else {
      SomeCredited(evs, n, r, r');
    }
  }

  /** The report of the first `n` pairs, entered one by one. */
  function Entered(evs: seq<Event>, n: nat): Report
    requires n == 0 || n < |evs|
  {
    if n == 0 then Report(map[], map[], 0) else EnterPair(evs, n - 1, Entered(evs, n - 1))
  }

  lemma {:induction false} EnteredIsReported(evs: seq<Event>, n: nat, r: Report)
    requires (n == 0 || n < |evs|) && r == Entered(evs, n)
    ensures Reported(evs, n, r)
    decreases n
  {
    if n > 0 {
      var before := Entered(evs, n - 1);
      EnteredIsReported(evs, n - 1, before);
      EnterKeeps(evs, n - 1, before, r);
    }
  }

  /** The Analytics report. */
  method TimePerFile(evs: seq<Event>) returns (files: map<string, FileTime>, exercises: map<string, nat>, total: nat)
    ensures Reported(evs, Pairs(evs), Report(files, exercises, total))
  {
    files, exercises, total := map[], map[], 0;
    for i := 0 to Pairs(evs)
      invariant i == 0 || i < |evs|
      invariant Report(files, exercises, total) == Entered(evs, i)
    {
      var cur, next := evs[i], evs[i + 1];
      if cur.closed {
        continue;
      }
      var gap := GapBetween(cur, next);
      if gap == 0 {
        continue;
      }
      total := total + gap;
      var entry := if cur.path in files then files[cur.path] else FileTime(cur.relative, cur.exercise, 0);
      files := files[cur.path := entry.(seconds := entry.seconds + gap)];
      if cur.exercise.Some? {
        var ex := cur.exercise.value;
        exercises := exercises[ex := (if ex in exercises then exercises[ex] else 0) + gap];
      }
    }
    EnteredIsReported(evs, Pairs(evs), Report(files, exercises, total));
  }

  /** A pair the exercise loops look at for `x`, whether or not any time passed. */
  predicate Touches(evs: seq<Event>, i: nat, x: string)
    requires i < |evs|
  {
    !evs[i].closed && evs[i].exercise == Some(x)
  }

  /** One student's share of what the overview measures a class by. Exercises without any time stay
      in the map, at 0; only those above it are counted. */
  method CohortTimes(evs: seq<Event>) returns (secs: map<string, nat>)
    ensures forall x :: x in secs <==> exists i: nat :: i < Pairs(evs) && Touches(evs, i, x)
    ensures forall x :: x in secs ==> secs[x] == Seconds(evs, ExerciseOf, Some(x))
    ensures forall x :: Seconds(evs, ExerciseOf, Some(x)) > 0 <==> x in secs && secs[x] > 0
  {
    secs := map[];
    for i := 0 to Pairs(evs)
      invariant i == 0 || i < |evs|
      invariant forall x :: x in secs <==> exists j: nat :: j < i && Touches(evs, j, x)
      invariant forall x :: SecondsUpTo(evs, i, ExerciseOf, Some(x)) == if x in secs then secs[x] else 0
    {
      var cur, next := evs[i], evs[i + 1];
      if cur.exercise.None? {
        continue;
      }
      if cur.closed {
        continue;
      }
      var ex := cur.exercise.value;
      assert Touches(evs, i, ex);
      secs := secs[ex := (if ex in secs then secs[ex] else 0) + GapBetween(cur, next)];
    }
  }

  /** Active time on whatever the student has open now. */
  method CurrentExercise(evs: seq<Event>) returns (seconds: nat)
    requires evs != []
    ensures seconds == Seconds(evs, ExerciseOf, Last(evs).exercise)
  {
    var current := Last(evs).exercise;
    seconds := 0;
    for i := 0 to |evs| - 1
      invariant seconds == SecondsUpTo(evs, i, ExerciseOf, current)
    {
      var cur, next := evs[i], evs[i + 1];
      if cur.closed || cur.exercise != current {
        continue;
      }
      seconds := seconds + GapBetween(cur, next);
    }
  }

  /** Where each exercise stands in the order of a course: at its last mention. */
  ghost predicate Indexes(order: seq<string>, index: map<string, nat>) {
    && (forall x :: x in index <==> x in order)
    && (forall x :: x in index ==> index[x] < |order| && order[index[x]] == x)
  }

  method IndexOf(order: seq<string>) returns (index: map<string, nat>)
    ensures Indexes(order, index)
  {
    index := map[];
    for i := 0 to |order|
      invariant Indexes(order[..i], index)
    {
      index := index[order[i] := i];
      assert order[..i + 1] == order[..i] + [order[i]];
    }
    assert order[..|order|] == order;
  }

  /** The latest event of the first `n` that names an exercise. */
  function LatestExercise(evs: seq<Event>, n: nat): Option<string>
    requires n <= |evs|
  {
    if n == 0 then None
    else if evs[n - 1].exercise.Some? then evs[n - 1].exercise
    else LatestExercise(evs, n - 1)
  }

  function IndexAt(index: map<string, nat>, exercise: Option<string>): Option<nat> {
    if exercise.Some? && exercise.value in index then Some(index[exercise.value]) else None
  }

  /** What the first `n` pairs credit to each exercise, by index. */
  ghost predicate Credited(evs: seq<Event>, order: seq<string>, index: map<string, nat>, n: nat, secs: map<nat, nat>)
    requires (n == 0 || n < |evs|) && forall x :: x in order ==> x in index
  {
    forall x :: x in order ==>
      SecondsUpTo(evs, n, ExerciseOf, Some(x)) == if index[x] in secs then secs[index[x]] else 0
  }

  lemma CreditsNext(evs: seq<Event>, order: seq<string>, index: map<string, nat>, n: nat, secs: map<nat, nat>,
                    ex: Option<nat>, gap: nat)
    requires Indexes(order, index) && n + 1 < |evs| && Credited(evs, order, index, n, secs)
    requires evs[n].exercise.Some? ==> evs[n].exercise.value in order
    requires ex == IndexAt(index, evs[n].exercise) && !evs[n].closed && gap == GapBetween(evs[n], evs[n + 1])
    ensures Credited(evs, order, index, n + 1,
                     if ex.None? then secs
                     else secs[ex.value := (if ex.value in secs then secs[ex.value] else 0) + gap])
  {
    var secs' := if ex.None? then secs else secs[ex.value := (if ex.value in secs then secs[ex.value] else 0) + gap];
    forall x | x in order
      ensures SecondsUpTo(evs, n + 1, ExerciseOf, Some(x)) == if index[x] in secs' then secs'[index[x]] else 0
    {
      assert order[index[x]] == x;
    }
  }

  lemma CreditsNothing(evs: seq<Event>, order: seq<string>, index: map<string, nat>, n: nat, secs: map<nat, nat>)
    requires Indexes(order, index) && n + 1 < |evs| && Credited(evs, order, index, n, secs) && evs[n].closed
    ensures Credited(evs, order, index, n + 1, secs)
    ensures SecondsUpTo(evs, n + 1, Everything, ()) == SecondsUpTo(evs, n, Everything, ())
  {
  }

  /** One student's part of a recap, per index of `order`, which names every exercise there is any
      activity on. */
  method RecapTotals(evs: seq<Event>, order: seq<string>)
    returns (byExercise: map<nat, nat>, total: nat, last: Option<nat>, index: map<string, nat>)
    requires forall i :: 0 <= i < |evs| && evs[i].exercise.Some? ==> evs[i].exercise.value in order
    ensures Indexes(order, index)
    ensures forall k :: k in byExercise ==> k < |order| && k in index.Values
    ensures forall x :: x in order ==>
                          Seconds(evs, ExerciseOf, Some(x))
                          == if index[x] in byExercise then byExercise[index[x]] else 0
    ensures total == Total(evs)
    ensures last == IndexAt(index, LatestExercise(evs, |evs|))
    ensures LatestExercise(evs, |evs|).Some? ==> last.Some?
  {
    index := IndexOf(order);
    byExercise, total, last := map[], 0, None;
    for i := 0 to |evs|
      invariant forall k :: k in byExercise ==> k < |order| && k in index.Values
      invariant Credited(evs, order, index, Min(i, Pairs(evs)), byExercise)
      invariant total == SecondsUpTo(evs, Min(i, Pairs(evs)), Everything, ())
      invariant LatestExercise(evs, i).Some? ==> LatestExercise(evs, i).value in order
      invariant last == IndexAt(index, LatestExercise(evs, i))
    {
      var e := evs[i];
      var ex := IndexAt(index, e.exercise);
      if ex.Some? {
        last := ex;
      }
      if i + 1 == |evs| {
        continue;
      }
      var next := evs[i + 1];
      if e.closed {
        CreditsNothing(evs, order, index, i, byExercise);
        continue;
      }
      var gap := GapBetween(e, next);
      CreditsNext(evs, order, index, i, byExercise, ex, gap);
      total := total + gap;
      if ex.Some? {
        assert index[e.exercise.value] in index.Values;
        byExercise := byExercise[ex.value := (if ex.value in byExercise then byExercise[ex.value] else 0) + gap];
      }
    }
  }

  /** The four loops, over one student's events, agree on every exercise. */
  method AllAgree(evs: seq<Event>, order: seq<string>, x: string)
      returns (analytics: nat, cohort: nat, current: nat, recap: nat)
    requires evs != []
    requires forall i :: 0 <= i < |evs| && evs[i].exercise.Some? ==> evs[i].exercise.value in order
    requires x in order
    ensures analytics == cohort == recap == Seconds(evs, ExerciseOf, Some(x))
    ensures Last(evs).exercise == Some(x) ==> current == recap
  {
    var files, exercises, total := TimePerFile(evs);
    var secs := CohortTimes(evs);
    current := CurrentExercise(evs);
    var byExercise, sum, last, index := RecapTotals(evs, order);
    analytics := if x in exercises then exercises[x] else 0;
    cohort := if x in secs then secs[x] else 0;
    recap := if index[x] in byExercise then byExercise[index[x]] else 0;
  }

  // ---- Nothing is lost or counted twice ----

  /** The seconds of the first `n` pairs, summed over a list of keys. */
  function SumOver<K(==)>(evs: seq<Event>, n: nat, key: Event -> K, keys: seq<K>): nat
    requires n == 0 || n < |evs|
  {
    if keys == [] then 0 else SecondsUpTo(evs, n, key, keys[0]) + SumOver(evs, n, key, keys[1..])
  }

  lemma {:induction false} SumStart<K(!new)>(evs: seq<Event>, key: Event -> K, keys: seq<K>)
    ensures SumOver(evs, 0, key, keys) == 0
    decreases |keys|
  {
    if keys != [] {
      SumStart(evs, key, keys[1..]);
    }
  }

  /** A pair adds its gap to exactly one of the sums. */
  lemma {:induction false} SumStep<K(!new)>(evs: seq<Event>, n: nat, key: Event -> K, keys: seq<K>)
    requires n + 1 < |evs| && Distinct(keys)
    ensures SumOver(evs, n + 1, key, keys)
         == SumOver(evs, n, key, keys)
            + if key(evs[n]) in keys then Credit(evs[n], evs[n + 1], Everything, ()) else 0
    decreases |keys|
  {
    if keys != [] {
      SumStep(evs, n, key, keys[1..]);
      assert keys[0] !in keys[1..];
    }
  }

  lemma {:induction false} SumsUpTo<K(!new)>(evs: seq<Event>, n: nat, key: Event -> K, keys: seq<K>)
    requires (n == 0 || n < |evs|) && Distinct(keys)
    requires forall i: nat :: i < n && Credit(evs[i], evs[i + 1], Everything, ()) > 0 ==> key(evs[i]) in keys
    ensures SumOver(evs, n, key, keys) == SecondsUpTo(evs, n, Everything, ())
    decreases n
  {
    if n == 0 {
      SumStart(evs, key, keys);
    } else {
      SumsUpTo(evs, n - 1, key, keys);
      SumStep(evs, n - 1, key, keys);
    }
  }

  lemma {:induction false} CreditedKeysHaveSeconds<K(!new)>(evs: seq<Event>, n: nat, i: nat, key: Event -> K)
    requires i < n < |evs| && Credit(evs[i], evs[i + 1], Everything, ()) > 0
    ensures SecondsUpTo(evs, n, key, key(evs[i])) > 0
    decreases n
  {
    if i < n - 1 {
      CreditedKeysHaveSeconds(evs, n - 1, i, key);
    }
  }

  /** Split by anything, the seconds sum to the total: over any list that names, once each, at least
      the keys that have any. */
  lemma PartsSumToTotal<K(!new)>(evs: seq<Event>, key: Event -> K, keys: seq<K>)
    requires Distinct(keys) && (forall k: K :: Seconds(evs, key, k) > 0 ==> k in keys)
    ensures SumOver(evs, Pairs(evs), key, keys) == Total(evs)
  {
    var n := Pairs(evs);
    forall i: nat | i < n && Credit(evs[i], evs[i + 1], Everything, ()) > 0 ensures key(evs[i]) in keys {
      CreditedKeysHaveSeconds(evs, n, i, key);
      assert Seconds(evs, key, key(evs[i])) > 0;
    }
    SumsUpTo(evs, n, key, keys);
  }

  function SumFiles(files: map<string, FileTime>, paths: seq<string>): nat
    requires forall p :: p in paths ==> p in files
  {
    if paths == [] then 0 else files[paths[0]].seconds + SumFiles(files, paths[1..])
  }

  lemma {:induction false} FilesAreParts(evs: seq<Event>, files: map<string, FileTime>, paths: seq<string>)
    requires FilesUpTo(evs, Pairs(evs), files) && (forall p :: p in paths ==> p in files)
    ensures SumFiles(files, paths) == SumOver(evs, Pairs(evs), PathOf, paths)
    decreases |paths|
  {
    if paths != [] {
      assert paths[0] in files;
      FilesAreParts(evs, files, paths[1..]);
    }
  }

  /** In whatever order the report lists its files, their seconds sum to its total. */
  lemma FilesSumToTotal(evs: seq<Event>, files: map<string, FileTime>, paths: seq<string>)
    requires FilesUpTo(evs, Pairs(evs), files)
    requires Distinct(paths) && (forall p :: p in paths <==> p in files)
    ensures SumFiles(files, paths) == Total(evs)
  {
    FilesAreParts(evs, files, paths);
    PartsSumToTotal(evs, PathOf, paths);
  }

  function Tags(xs: seq<string>): seq<Option<string>> {
    seq(|xs|, i requires 0 <= i < |xs| => Some(xs[i]))
  }

  /** Tagged and untagged seconds sum to the total. */
  lemma ExercisesSumToTotal(evs: seq<Event>, xs: seq<string>)
    requires Distinct(xs) && (forall x :: Seconds(evs, ExerciseOf, Some(x)) > 0 ==> x in xs)
    ensures SumOver(evs, Pairs(evs), ExerciseOf, Tags(xs)) + Seconds(evs, ExerciseOf, None) == Total(evs)
  {
    var keys := [None] + Tags(xs);
    assert keys[1..] == Tags(xs);
    forall k: Option<string> | Seconds(evs, ExerciseOf, k) > 0 ensures k in keys {
      if k.Some? {
        var i :| 0 <= i < |xs| && xs[i] == k.value;
        assert keys[i + 1] == k;
      } else {
        assert keys[0] == k;
      }
    }
    PartsSumToTotal(evs, ExerciseOf, keys);
  }

  ghost predicate InTimeOrder(evs: seq<Event>) {
    forall i, j :: 0 <= i < j < |evs| ==> evs[i].at <= evs[j].at
  }

  lemma {:induction false} ElapsedUpTo(evs: seq<Event>, n: nat)
    requires n < |evs| && InTimeOrder(evs)
    ensures SecondsUpTo(evs, n, Everything, ()) <= evs[n].at - evs[0].at
  {
    if n > 0 {
      ElapsedUpTo(evs, n - 1);
    }
  }

  /** Nobody is credited more time than passed. */
  lemma TotalWithinElapsed(evs: seq<Event>)
    requires evs != [] && InTimeOrder(evs)
    ensures Total(evs) <= Last(evs).at - evs[0].at
  {
    ElapsedUpTo(evs, |evs| - 1);
  }

  /** Nor more than the cap for each event but the last. */
  lemma {:induction false} TotalWithinCaps(evs: seq<Event>, n: nat)
    requires n == 0 || n < |evs|
    ensures SecondsUpTo(evs, n, Everything, ()) <= n * IDLE_GAP_SECS
  {
    if n > 0 {
      TotalWithinCaps(evs, n - 1);
    }
  }
}
