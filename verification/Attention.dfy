/** The watch list beside the class view: one entry per unbroken run of flagged polls, and the order
    in which a teacher is led through the entries. */
module Attention {
  import opened EditScripts

  datatype Struggle = Help | Watch | Fine

  datatype Student = Student(name: string, struggle: Struggle, seconds: int)

  datatype Entry = Entry(rank: nat, flaggedAt: int, seenAt: Option<int>, snoozedUntil: Option<int>)

  type Entries = map<string, Entry>

  function RankOf(s: Student): nat {
    match s.struggle
    case Help => 2
    case Watch => 1
    case Fine => 0
  }

  ghost predicate DistinctNames(students: seq<Student>) {
    forall i, j :: 0 <= i < j < |students| ==> students[i].name != students[j].name
  }

  // ---- Polls ----

  /** A flag as bad as the one already known, or milder, changes nothing. */
  predicate KnownAsBad(entries: Entries, s: Student) { s.name in entries && entries[s.name].rank >= RankOf(s) }

  function EntryFor(entries: Entries, s: Student, now: int): Entry {
    if KnownAsBad(entries, s) then entries[s.name] else Entry(RankOf(s), now, None, None)
  }

  predicate Escalates(entries: Entries, s: Student) { RankOf(s) == 2 && !KnownAsBad(entries, s) }

  ghost predicate HasFlagged(students: seq<Student>, name: string) {
    exists s :: s in students && s.name == name && RankOf(s) > 0
  }

  /** What a poll should make of everyone on the board. */
  ghost predicate IsUpdate(entries: Entries, students: seq<Student>, now: int, next: Entries, escalated: seq<string>) {
    && (forall s :: s in students && RankOf(s) > 0 ==> s.name in next && next[s.name] == EntryFor(entries, s, now))
    && (forall n :: n in next ==> HasFlagged(students, n))
    && (forall s :: s in students ==> (s.name in escalated <==> Escalates(entries, s)))
    && (forall n :: n in escalated ==> HasFlagged(students, n))
    && (forall i, j :: 0 <= i < j < |escalated| ==> escalated[i] != escalated[j])
  }

  method Update(entries: Entries, students: seq<Student>, now: int) returns (next: Entries, escalated: seq<string>)
    requires DistinctNames(students)
    ensures IsUpdate(entries, students, now, next, escalated)
  {
    next, escalated := map[], [];
    for k := 0 to |students|
      invariant IsUpdate(entries, students[..k], now, next, escalated)
    {
      var s := students[k];
      var rank := RankOf(s);
      OneMore(entries, students, now, next, escalated, k);
      if rank == 0 {
        continue;
      }
      if s.name in entries && entries[s.name].rank >= rank {
        next := next[s.name := entries[s.name]];
      } else {
        next := next[s.name := Entry(rank, now, None, None)];
        if rank == 2 {
          escalated := escalated + [s.name];
        }
      }
    }
    assert students[..|students|] == students;
  }

  lemma StillHas(before: seq<Student>, s: Student, name: string)
    requires HasFlagged(before, name) || (name == s.name && RankOf(s) > 0)
    ensures HasFlagged(before + [s], name)
  {
    if HasFlagged(before, name) {
      var t :| t in before && t.name == name && RankOf(t) > 0;
      assert t in before + [s];
    } else {
      assert s in before + [s];
    }
  }

  lemma OneMore(entries: Entries, students: seq<Student>, now: int, next: Entries, escalated: seq<string>, k: nat)
    requires DistinctNames(students) && k < |students|
    requires IsUpdate(entries, students[..k], now, next, escalated)
    ensures var s := students[k];
            IsUpdate(entries, students[..k + 1], now,
                     if RankOf(s) > 0 then next[s.name := EntryFor(entries, s, now)] else next,
                     if Escalates(entries, s) then escalated + [s.name] else escalated)
  {
    var s, before := students[k], students[..k];
    TakeMore(students, k);
    forall t | t in before ensures t.name != s.name {
      var i :| 0 <= i < k && before[i] == t;
      assert students[i].name != students[k].name;
    }
    StudentAfter(entries, before, s, now, next, escalated,
                 if RankOf(s) > 0 then next[s.name := EntryFor(entries, s, now)] else next,
                 if Escalates(entries, s) then escalated + [s.name] else escalated);
  }

  lemma StudentAfter(entries: Entries, before: seq<Student>, s: Student, now: int, next: Entries,
                     escalated: seq<string>, next': Entries, escalated': seq<string>)
    requires IsUpdate(entries, before, now, next, escalated) && forall t :: t in before ==> t.name != s.name
    requires next' == if RankOf(s) > 0 then next[s.name := EntryFor(entries, s, now)] else next
    requires escalated' == if Escalates(entries, s) then escalated + [s.name] else escalated
    ensures IsUpdate(entries, before + [s], now, next', escalated')
  {
    assert !HasFlagged(before, s.name);
    forall n | HasFlagged(before, n) || (n == s.name && RankOf(s) > 0) ensures HasFlagged(before + [s], n) {
      StillHas(before, s, n);
    }
  }

  /** What a teacher does, and the polls in between. */
  datatype Action =
    | Poll(students: seq<Student>, now: int)
    | Seen(student: string, now: int)
    | Snooze(student: string, until: int)

  function MarkSeen(entries: Entries, student: string, now: int): Entries {
    if student in entries then entries[student := entries[student].(seenAt := Some(now))] else entries
  }

  function Snoozed(entries: Entries, student: string, until: int): Entries {
    if student in entries then entries[student := entries[student].(snoozedUntil := Some(until))] else entries
  }

  /** A list worth keeping: an entry has the rank of some flag. */
  predicate Ranked(entries: Entries) { forall n :: n in entries ==> entries[n].rank > 0 }

  /** What is left of a saved list when it is read back. */
  function Pruned(entries: Entries, now: int, maxAge: int): Entries {
    map n | n in entries && now - entries[n].flaggedAt <= maxAge :: entries[n]
  }

  /** The entries before each action and after the last, and whom each poll announced. `saved` is the
      list the page starts with. */
  ghost predicate Happens(saved: Entries, actions: seq<Action>, states: seq<Entries>, announced: seq<seq<string>>) {
    && |states| == |actions| + 1 && |announced| == |actions|
    && Ranked(saved) && states[0] == saved
    && forall k :: 0 <= k < |actions| ==> Does(actions[k], states[k], states[k + 1], announced[k])
  }

  ghost predicate Does(a: Action, entries: Entries, next: Entries, escalated: seq<string>) {
    match a
    case Poll(students, now) => DistinctNames(students) && IsUpdate(entries, students, now, next, escalated)
    case Seen(student, now) => next == MarkSeen(entries, student, now) && escalated == []
    case Snooze(student, until) => next == Snoozed(entries, student, until) && escalated == []
  }

  /** How bad a poll found a student, 0 for one it did not flag or find. */
  function RankIn(students: seq<Student>, name: string): nat {
    if students == [] then 0 else if students[0].name == name then RankOf(students[0]) else RankIn(students[1..], name)
  }

  /** The worst of the unbroken stretch of flags that the first `n` actions end in, which may have begun
      before them. */
  function StretchRank(saved: Entries, actions: seq<Action>, n: nat, name: string): nat
    requires n <= |actions|
  {
    if n == 0 then (if name in saved then saved[name].rank else 0)
    else if !actions[n - 1].Poll? then StretchRank(saved, actions, n - 1, name)
    else
      var rank := RankIn(actions[n - 1].students, name);
      if rank == 0 then 0 else Max(rank, StretchRank(saved, actions, n - 1, name))
  }

  lemma {:induction false} RankInIs(students: seq<Student>, name: string)
    requires DistinctNames(students)
    ensures forall i :: 0 <= i < |students| && students[i].name == name
              ==> RankIn(students, name) == RankOf(students[i])
    ensures RankIn(students, name) > 0 ==> exists i :: 0 <= i < |students| && students[i].name == name
    decreases |students|
  {
    if students != [] {
      RankInIs(students[1..], name);
      if students[0].name != name && RankIn(students, name) > 0 {
        var i :| 0 <= i < |students[1..]| && students[1..][i].name == name;
        assert students[i + 1].name == name;
      }
    }
  }

  /** An entry is there exactly while its student is flagged, with the worst rank of the stretch. */
  lemma {:induction false} EntriesAreStretches(saved: Entries, actions: seq<Action>, states: seq<Entries>,
                                               announced: seq<seq<string>>, n: nat, name: string)
    requires Happens(saved, actions, states, announced) && n <= |actions|
    ensures name in states[n] <==> StretchRank(saved, actions, n, name) > 0
    ensures name in states[n] ==> states[n][name].rank == StretchRank(saved, actions, n, name)
    decreases n
  {
    if n > 0 {
      EntriesAreStretches(saved, actions, states, announced, n - 1, name);
      var a := actions[n - 1];
      assert Does(a, states[n - 1], states[n], announced[n - 1]);
      if a.Poll? {
        RankInIs(a.students, name);
        if RankIn(a.students, name) > 0 {
          var i :| 0 <= i < |a.students| && a.students[i].name == name;
          assert a.students[i] in a.students;
        }
      }
    }
  }

  /** A student is announced exactly when they first need help in a stretch. */
  lemma AnnouncedOncePerStretch(saved: Entries, actions: seq<Action>, states: seq<Entries>,
                                announced: seq<seq<string>>, n: nat, name: string)
    requires Happens(saved, actions, states, announced) && n < |actions|
    ensures name in announced[n] <==> && actions[n].Poll? && RankIn(actions[n].students, name) == 2
                                      && StretchRank(saved, actions, n, name) < 2
  {
    EntriesAreStretches(saved, actions, states, announced, n, name);
    var a := actions[n];
    assert Does(a, states[n], states[n + 1], announced[n]);
    if a.Poll? {
      RankInIs(a.students, name);
      if name in announced[n] || RankIn(a.students, name) == 2 {
        var i :| 0 <= i < |a.students| && a.students[i].name == name;
        assert a.students[i] in a.students;
      }
    }
  }

  /** A stretch began at action `from`, or before the first. */
  ghost predicate BeganAt(saved: Entries, actions: seq<Action>, from: nat, n: nat, name: string)
    requires n <= |actions|
  {
    || (from == 0 && name in saved)
    || (from < n && actions[from].Poll? && StretchRank(saved, actions, from, name) == 0)
  }

  /** Some poll since `from`, or the saved list, gave the student this rank. */
  ghost predicate WasRanked(saved: Entries, actions: seq<Action>, from: nat, n: nat, name: string, rank: nat)
    requires n <= |actions|
  {
    || (from == 0 && name in saved && saved[name].rank == rank)
    || exists k :: from <= k < n && actions[k].Poll? && RankIn(actions[k].students, name) == rank
  }

  /** The stretch, spelled out: from its beginning on every poll flags the student, and its rank is the
      highest that was given. */
  lemma {:induction false} StretchIsUnbroken(saved: Entries, actions: seq<Action>, n: nat, name: string)
    returns (from: nat)
    requires n <= |actions| && StretchRank(saved, actions, n, name) > 0
    ensures BeganAt(saved, actions, from, n, name)
    ensures forall k :: from <= k < n && actions[k].Poll?
              ==> 0 < RankIn(actions[k].students, name) <= StretchRank(saved, actions, n, name)
    ensures WasRanked(saved, actions, from, n, name, StretchRank(saved, actions, n, name))
    decreases n
  {
    if n == 0 {
      from := 0;
    } else if StretchRank(saved, actions, n - 1, name) > 0 {
      from := StretchIsUnbroken(saved, actions, n - 1, name);
      if actions[n - 1].Poll? && RankIn(actions[n - 1].students, name) > StretchRank(saved, actions, n - 1, name) {
        assert RankIn(actions[n - 1].students, name) == StretchRank(saved, actions, n, name);
      } else {
        StillRanked(saved, actions, from, n - 1, name, StretchRank(saved, actions, n - 1, name));
      }
    } else {
      from := n - 1;
      assert RankIn(actions[n - 1].students, name) == StretchRank(saved, actions, n, name);
    }
  }

  lemma StillRanked(saved: Entries, actions: seq<Action>, from: nat, n: nat, name: string, rank: nat)
    requires n < |actions| && WasRanked(saved, actions, from, n, name, rank)
    ensures WasRanked(saved, actions, from, n + 1, name, rank)
  {
    if !(from == 0 && name in saved && saved[name].rank == rank) {
      var k :| from <= k < n && actions[k].Poll? && RankIn(actions[k].students, name) == rank;
      assert RankIn(actions[k].students, name) == rank;
    }
  }

  /** What one page leaves can be read back by the next, which goes on with the stretches that began
      lately enough and has forgotten the others. */
  lemma ReadBack(saved: Entries, actions: seq<Action>, states: seq<Entries>, announced: seq<seq<string>>,
                 now: int, maxAge: int, name: string, next: seq<Action>)
    requires Happens(saved, actions, states, announced)
    ensures var left := states[|actions|]; var kept := Pruned(left, now, maxAge);
            && Ranked(kept)
            && StretchRank(kept, next, 0, name)
               == if name in left && now - left[name].flaggedAt <= maxAge
                  then StretchRank(saved, actions, |actions|, name) else 0
  {
    forall n | n in states[|actions|] ensures states[|actions|][n].rank > 0 {
      EntriesAreStretches(saved, actions, states, announced, |actions|, n);
    }
    EntriesAreStretches(saved, actions, states, announced, |actions|, name);
  }

  // ---- Whom to go to ----

  /** Where a name comes in the alphabet of the reader. */
  type Collation = string -> int

  /** Strictly before: worse first, then longer at it, then by name. */
  predicate Before(c: Collation, a: Student, b: Student) {
    || RankOf(a) > RankOf(b)
    || (RankOf(a) == RankOf(b) && a.seconds > b.seconds)
    || (RankOf(a) == RankOf(b) && a.seconds == b.seconds && c(a.name) < c(b.name))
  }

  /** Puts a student in their place, before those that come no earlier. */
  function Placed(c: Collation, s: Student, ss: seq<Student>): seq<Student> {
    if ss == [] || !Before(c, ss[0], s) then [s] + ss else [ss[0]] + Placed(c, s, ss[1..])
  }

  function ByUrgency(c: Collation, ss: seq<Student>): seq<Student> {
    if ss == [] then [] else Placed(c, ss[0], ByUrgency(c, ss[1..]))
  }

  predicate IsSeen(entries: Entries, name: string) {
    name in entries && entries[name].seenAt.Some? && entries[name].seenAt.value >= entries[name].flaggedAt
  }

  predicate IsSnoozed(entries: Entries, name: string, now: int) {
    name in entries && entries[name].snoozedUntil.Some? && entries[name].snoozedUntil.value > now
  }

  predicate Asks(entries: Entries, now: int, s: Student) {
    RankOf(s) > 0 && !IsSeen(entries, s.name) && !IsSnoozed(entries, s.name, now)
  }

  function Asking(entries: Entries, students: seq<Student>, now: int): seq<Student> {
    if students == [] then []
    else (if Asks(entries, now, students[0]) then [students[0]] else []) + Asking(entries, students[1..], now)
  }

  function Unseen(c: Collation, entries: Entries, students: seq<Student>, now: int): seq<Student> {
    ByUrgency(c, Asking(entries, students, now))
  }

  /** All but those of one name. */
  function Except(ss: seq<Student>, name: string): seq<Student> {
    if ss == [] then [] else (if ss[0].name == name then [] else [ss[0]]) + Except(ss[1..], name)
  }

  ghost predicate InOrder(c: Collation, ss: seq<Student>) {
    forall i, j :: 0 <= i < j < |ss| ==> !Before(c, ss[j], ss[i])
  }

  lemma {:induction false} PlacedKeeps(c: Collation, s: Student, ss: seq<Student>)
    ensures multiset(Placed(c, s, ss)) == multiset(ss) + multiset{s}
    ensures forall t :: t in Placed(c, s, ss) <==> t == s || t in ss
    decreases |ss|
  {
    if ss != [] && Before(c, ss[0], s) {
      PlacedKeeps(c, s, ss[1..]);
    }
    assert ss != [] ==> ss == [ss[0]] + ss[1..];
  }

  lemma FirstBeforeRest(c: Collation, s: Student, rest: seq<Student>)
    requires InOrder(c, rest) && forall t :: t in rest ==> !Before(c, t, s)
    ensures InOrder(c, [s] + rest)
  {
  }

  lemma {:induction false} PlacedInOrder(c: Collation, s: Student, ss: seq<Student>)
    requires InOrder(c, ss)
    ensures InOrder(c, Placed(c, s, ss))
    decreases |ss|
  {
    if ss == [] {
    } else if Before(c, ss[0], s) {
      PlacedInOrder(c, s, ss[1..]);
      PlacedKeeps(c, s, ss[1..]);
      FirstBeforeRest(c, ss[0], Placed(c, s, ss[1..]));
    } else {
      forall t | t in ss ensures !Before(c, t, s) {
        var i :| 0 <= i < |ss| && ss[i] == t;
        assert i > 0 ==> !Before(c, ss[i], ss[0]);
      }
      FirstBeforeRest(c, s, ss);
    }
  }

  /** Sorting orders the same students. */
  lemma {:induction false} SortsThem(c: Collation, ss: seq<Student>)
    ensures InOrder(c, ByUrgency(c, ss)) && multiset(ByUrgency(c, ss)) == multiset(ss)
    decreases |ss|
  {
    if ss != [] {
      SortsThem(c, ss[1..]);
      PlacedInOrder(c, ss[0], ByUrgency(c, ss[1..]));
      PlacedKeeps(c, ss[0], ByUrgency(c, ss[1..]));
      assert ss == [ss[0]] + ss[1..];
    }
  }

  lemma WithoutCons(s: Student, rest: seq<Student>, name: string)
    ensures Except([s] + rest, name) == if s.name == name then Except(rest, name) else [s] + Except(rest, name)
  {
    assert ([s] + rest)[1..] == rest;
  }

  lemma PlacedCons(c: Collation, s: Student, t: Student, rest: seq<Student>)
    requires Before(c, t, s)
    ensures Placed(c, s, [t] + rest) == [t] + Placed(c, s, rest)
  {
    assert ([t] + rest)[1..] == rest;
  }

  lemma {:induction false} PlacedWithout(c: Collation, s: Student, ss: seq<Student>, name: string)
    requires InOrder(c, ss)
    ensures Except(Placed(c, s, ss), name)
         == if s.name == name then Except(ss, name) else Placed(c, s, Except(ss, name))
    decreases |ss|
  {
    if ss != [] && Before(c, ss[0], s) {
      var t, rest := ss[0], ss[1..];
      assert ss == [t] + rest;
      PlacedWithout(c, s, rest, name);
      WithoutCons(t, Placed(c, s, rest), name);
      WithoutCons(t, rest, name);
      PlacedCons(c, s, t, Except(rest, name));
    } else {
      WithoutCons(s, ss, name);
      FirstNotBefore(c, s, ss, name);
    }
  }

  lemma {:induction false} FirstNotBefore(c: Collation, s: Student, ss: seq<Student>, name: string)
    requires InOrder(c, ss) && (ss != [] ==> !Before(c, ss[0], s))
    ensures Except(ss, name) != [] ==> !Before(c, Except(ss, name)[0], s)
    decreases |ss|
  {
    if ss != [] && ss[0].name == name {
      if |ss| > 1 {
        assert !Before(c, ss[1], ss[0]);
      }
      FirstNotBefore(c, s, ss[1..], name);
    }
  }

  lemma SortCons(c: Collation, s: Student, rest: seq<Student>)
    ensures ByUrgency(c, [s] + rest) == Placed(c, s, ByUrgency(c, rest))
  {
    assert ([s] + rest)[1..] == rest;
  }

  lemma {:induction false} SortedWithout(c: Collation, ss: seq<Student>, name: string)
    ensures ByUrgency(c, Except(ss, name)) == Except(ByUrgency(c, ss), name)
    decreases |ss|
  {
    if ss != [] {
      var s, rest := ss[0], ss[1..];
      assert ss == [s] + rest;
      SortedWithout(c, rest, name);
      SortsThem(c, rest);
      WithoutCons(s, rest, name);
      SortCons(c, s, rest);
      SortCons(c, s, Except(rest, name));
      PlacedWithout(c, s, ByUrgency(c, rest), name);
    }
  }

  /** Every flagged student has an entry, made no later than now. */
  predicate UpToDate(entries: Entries, students: seq<Student>, now: int) {
    forall i :: 0 <= i < |students| && RankOf(students[i]) > 0 ==>
                  students[i].name in entries && entries[students[i].name].flaggedAt <= now
  }

  lemma SeenAsks(entries: Entries, s: Student, now: int, name: string, at: int)
    requires RankOf(s) > 0 ==> s.name in entries && entries[s.name].flaggedAt <= at
    ensures Asks(MarkSeen(entries, name, at), now, s) <==> Asks(entries, now, s) && s.name != name
  {
  }

  lemma {:induction false} SeenNoLongerAsks(entries: Entries, students: seq<Student>, now: int, name: string, at: int)
    requires UpToDate(entries, students, at)
    ensures Asking(MarkSeen(entries, name, at), students, now) == Except(Asking(entries, students, now), name)
    decreases |students|
  {
    if students != [] {
      var s := students[0];
      var rest := Asking(entries, students[1..], now);
      SeenNoLongerAsks(entries, students[1..], now, name, at);
      SeenAsks(entries, s, now, name, at);
      WithoutCons(s, rest, name);
      assert [] + rest == rest;
    }
  }

  lemma {:induction false} AskingAre(entries: Entries, students: seq<Student>, now: int)
    ensures forall s :: s in Asking(entries, students, now) <==> s in students && Asks(entries, now, s)
    ensures DistinctNames(students) ==> DistinctNames(Asking(entries, students, now))
    decreases |students|
  {
    if students != [] {
      AskingAre(entries, students[1..], now);
      assert students == [students[0]] + students[1..];
      var rest := Asking(entries, students[1..], now);
      forall j | DistinctNames(students) && 0 <= j < |rest| ensures rest[j].name != students[0].name {
        assert rest[j] in rest && rest[j] in students[1..];
        var i :| 0 <= i < |students[1..]| && students[1..][i] == rest[j];
        assert students[i + 1].name == rest[j].name;
      }
    }
  }

  /** A poll leaves every flagged student with an entry made no later than itself. */
  lemma PolledIsUpToDate(entries: Entries, students: seq<Student>, now: int, next: Entries, escalated: seq<string>,
                         at: int)
    requires IsUpdate(entries, students, now, next, escalated) && now <= at
    requires forall n :: n in entries ==> entries[n].flaggedAt <= now
    ensures UpToDate(next, students, at)
  {
    forall i | 0 <= i < |students| && RankOf(students[i]) > 0
      ensures students[i].name in next && next[students[i].name].flaggedAt <= at
    {
      assert students[i] in students;
    }
  }

  /** `ss` without everyone named in `visits`. */
  function Left(ss: seq<Student>, visits: seq<Student>): seq<Student> {
    if visits == [] then ss else Except(Left(ss, DropLast(visits)), Last(visits).name)
  }

  ghost predicate Named(visits: seq<Student>, name: string) {
    exists i :: 0 <= i < |visits| && visits[i].name == name
  }

  lemma NamedMore(visits: seq<Student>, name: string)
    requires visits != []
    ensures Named(visits, name) <==> Named(DropLast(visits), name) || Last(visits).name == name
  {
    if Named(DropLast(visits), name) {
      var i :| 0 <= i < |DropLast(visits)| && DropLast(visits)[i].name == name;
      assert visits[i].name == name;
    }
    if Named(visits, name) && Last(visits).name != name {
      var i :| 0 <= i < |visits| && visits[i].name == name;
      assert DropLast(visits)[i].name == name;
    }
  }

  lemma {:induction false} WithoutAre(ss: seq<Student>, name: string)
    ensures forall s :: s in Except(ss, name) <==> s in ss && s.name != name
    decreases |ss|
  {
    if ss != [] {
      WithoutAre(ss[1..], name);
      assert ss == [ss[0]] + ss[1..];
    }
  }

  lemma {:induction false} LeftAre(ss: seq<Student>, visits: seq<Student>)
    ensures forall s :: s in Left(ss, visits) <==> s in ss && !Named(visits, s.name)
    decreases |visits|
  {
    if visits != [] {
      LeftAre(ss, DropLast(visits));
      WithoutAre(Left(ss, DropLast(visits)), Last(visits).name);
      forall s: Student
        ensures Named(visits, s.name) <==> Named(DropLast(visits), s.name) || Last(visits).name == s.name
      {
        NamedMore(visits, s.name);
      }
    }
  }

  /** Going again and again to whoever is next at the time, `nows`, and marking them seen a little later,
      `times`. Between two visits as much time may pass as it likes, and snoozes may run out. */
  ghost predicate Walks(c: Collation, students: seq<Student>, nows: seq<int>, visits: seq<Student>, times: seq<int>,
                        states: seq<Entries>) {
    && |nows| == |visits| && |times| == |visits| && |states| == |visits| + 1
    && (forall i :: 0 <= i < |visits| ==> Visits(c, students, nows[i], visits[i], times[i], states[i], states[i + 1]))
    && (forall i :: 0 <= i < |visits| ==> UpToDate(states[0], students, times[i]))
  }

  ghost predicate Visits(c: Collation, students: seq<Student>, now: int, s: Student, at: int, entries: Entries,
                         next: Entries) {
    && Unseen(c, entries, students, now) != []
    && s == Unseen(c, entries, students, now)[0]
    && next == MarkSeen(entries, s.name, at)
  }

  lemma {:induction false} StaysUpToDate(c: Collation, students: seq<Student>, nows: seq<int>, visits: seq<Student>,
                                         times: seq<int>, states: seq<Entries>, n: nat, i: nat)
    requires Walks(c, students, nows, visits, times, states) && n <= |visits| && i < |times|
    ensures UpToDate(states[n], students, times[i])
    decreases n
  {
    if n > 0 {
      StaysUpToDate(c, students, nows, visits, times, states, n - 1, i);
      assert Visits(c, students, nows[n - 1], visits[n - 1], times[n - 1], states[n - 1], states[n]);
    }
  }

  /** Marking one seen takes that one out of those who ask, whatever time it is asked at. */
  lemma SeenLeavesRest(c: Collation, entries: Entries, students: seq<Student>, now: int, name: string, at: int)
    requires UpToDate(entries, students, at)
    ensures Unseen(c, MarkSeen(entries, name, at), students, now) == Except(Unseen(c, entries, students, now), name)
  {
    SeenNoLongerAsks(entries, students, now, name, at);
    SortedWithout(c, Asking(entries, students, now), name);
  }

  lemma AfterVisit(c: Collation, students: seq<Student>, nows: seq<int>, visits: seq<Student>, times: seq<int>,
                   states: seq<Entries>, i: nat, now: int)
    requires Walks(c, students, nows, visits, times, states) && i < |visits|
    ensures Unseen(c, states[i + 1], students, now) == Except(Unseen(c, states[i], students, now), visits[i].name)
  {
    StaysUpToDate(c, students, nows, visits, times, states, i, i);
    assert Visits(c, students, nows[i], visits[i], times[i], states[i], states[i + 1]);
    SeenLeavesRest(c, states[i], students, now, visits[i].name, times[i]);
  }

  /** At any time `now`, those who ask after `n` visits are those who asked before them, less the visited,
      in the same order. */
  lemma {:induction false} VisitedNoLongerAsk(c: Collation, students: seq<Student>, nows: seq<int>,
                                              visits: seq<Student>, times: seq<int>, states: seq<Entries>,
                                              n: nat, now: int)
    requires Walks(c, students, nows, visits, times, states) && n <= |visits|
    ensures Unseen(c, states[n], students, now) == Left(Unseen(c, states[0], students, now), visits[..n])
    decreases n
  {
    if n > 0 {
      VisitedNoLongerAsk(c, students, nows, visits, times, states, n - 1, now);
      AfterVisit(c, students, nows, visits, times, states, n - 1, now);
      LeftMore(Unseen(c, states[0], students, now), visits, n - 1);
    }
  }

  lemma LeftMore(ss: seq<Student>, visits: seq<Student>, n: nat)
    requires n < |visits|
    ensures Left(ss, visits[..n + 1]) == Except(Left(ss, visits[..n]), visits[n].name)
  {
    TakeMore(visits, n);
  }

  /** Each visit goes to the first of those who ask at its own time and have not been visited. */
  lemma VisitIsFirstLeft(c: Collation, students: seq<Student>, nows: seq<int>, visits: seq<Student>, times: seq<int>,
                         states: seq<Entries>, i: nat)
    requires Walks(c, students, nows, visits, times, states) && i < |visits|
    ensures var left := Left(Unseen(c, states[0], students, nows[i]), visits[..i]); left != [] && visits[i] == left[0]
    ensures visits[i] in Unseen(c, states[0], students, nows[i]) && !Named(visits[..i], visits[i].name)
  {
    assert Visits(c, students, nows[i], visits[i], times[i], states[i], states[i + 1]);
    VisitedNoLongerAsk(c, students, nows, visits, times, states, i, nows[i]);
    LeftAre(Unseen(c, states[0], students, nows[i]), visits[..i]);
  }

  /** Such a walk visits nobody twice, always goes to the most urgent of those who ask and have not been
      visited, and finds nobody next exactly when everyone who asks has been visited: by the clock of each
      moment, for a snooze that runs out on the way lets one more ask. */
  lemma WalksEveryoneOnce(c: Collation, students: seq<Student>, nows: seq<int>, visits: seq<Student>, times: seq<int>,
                          states: seq<Entries>, now: int)
    requires DistinctNames(students) && Walks(c, students, nows, visits, times, states)
    ensures DistinctNames(visits)
    ensures forall i :: 0 <= i < |visits| ==>
                var left := Left(Unseen(c, states[0], students, nows[i]), visits[..i]);
                left != [] && visits[i] == left[0]
    ensures Unseen(c, states[|visits|], students, now) == Left(Unseen(c, states[0], students, now), visits)
    ensures Unseen(c, states[|visits|], students, now) == []
            <==> forall s :: s in students && Asks(states[0], now, s) ==> s in visits
  {
    forall i | 0 <= i < |visits|
      ensures var left := Left(Unseen(c, states[0], students, nows[i]), visits[..i]); left != [] && visits[i] == left[0]
      ensures !Named(visits[..i], visits[i].name)
    {
      VisitIsFirstLeft(c, students, nows, visits, times, states, i);
    }
    forall i, j | 0 <= i < j < |visits| ensures visits[i].name != visits[j].name {
      assert visits[..j][i] == visits[i];
    }
    VisitedNoLongerAsk(c, students, nows, visits, times, states, |visits|, now);
    assert visits[..|visits|] == visits;
    LeftAre(Unseen(c, states[0], students, now), visits);
    UnseenAre(c, states[0], students, now);
    forall s | s in students ensures Named(visits, s.name) <==> s in visits {
      VisitsAreStudents(c, students, nows, visits, times, states, s);
    }
    NoneLeft(Unseen(c, states[|visits|], students, now), students, states[0], now, visits);
  }

  lemma NoneLeft(left: seq<Student>, students: seq<Student>, entries: Entries, now: int, visits: seq<Student>)
    requires forall s :: s in left <==> s in students && Asks(entries, now, s) && s !in visits
    ensures left == [] <==> forall s :: s in students && Asks(entries, now, s) ==> s in visits
  {
    if left != [] {
      assert left[0] in left;
    }
  }

  lemma UnseenAre(c: Collation, entries: Entries, students: seq<Student>, now: int)
    ensures forall s :: s in Unseen(c, entries, students, now) <==> s in students && Asks(entries, now, s)
  {
    AskingAre(entries, students, now);
    var asking := Asking(entries, students, now);
    SortsThem(c, asking);
    assert forall s :: s in ByUrgency(c, asking) <==> s in multiset(ByUrgency(c, asking));
    assert forall s :: s in asking <==> s in multiset(asking);
  }

  lemma VisitsAreStudents(c: Collation, students: seq<Student>, nows: seq<int>, visits: seq<Student>, times: seq<int>,
                          states: seq<Entries>, s: Student)
    requires DistinctNames(students) && Walks(c, students, nows, visits, times, states) && s in students
    ensures Named(visits, s.name) <==> s in visits
  {
    if Named(visits, s.name) {
      var i :| 0 <= i < |visits| && visits[i].name == s.name;
      VisitIsFirstLeft(c, students, nows, visits, times, states, i);
      UnseenAre(c, states[0], students, nows[i]);
      SameName(students, visits[i], s);
    }
  }

  lemma SameName(students: seq<Student>, s: Student, t: Student)
    requires DistinctNames(students) && s in students && t in students && s.name == t.name
    ensures s == t
  {
    var i :| 0 <= i < |students| && students[i] == s;
    var j :| 0 <= j < |students| && students[j] == t;
    assert i == j;
  }

  /** While the same students ask at every visit, the walk goes down their list. */
  lemma {:induction false} WalksDownTheList(c: Collation, students: seq<Student>, nows: seq<int>, visits: seq<Student>,
                                            times: seq<int>, states: seq<Entries>, list: seq<Student>, n: nat)
    requires DistinctNames(students) && Walks(c, students, nows, visits, times, states) && n <= |visits|
    requires forall i :: 0 <= i < |nows| ==> Unseen(c, states[0], students, nows[i]) == list
    ensures n <= |list| && visits[..n] == list[..n] && Left(list, visits[..n]) == list[n..]
    decreases n
  {
    if n > 0 {
      WalksDownTheList(c, students, nows, visits, times, states, list, n - 1);
      VisitIsFirstLeft(c, students, nows, visits, times, states, n - 1);
      UnseenAreDistinct(c, states[0], students, nows[0]);
      TakeMore(visits, n - 1);
      TakeMore(list, n - 1);
      assert visits[n - 1] == list[n - 1..][0];
      WithoutFirst(list[n - 1..]);
    }
  }

  lemma UnseenAreDistinct(c: Collation, entries: Entries, students: seq<Student>, now: int)
    requires DistinctNames(students)
    ensures DistinctNames(Unseen(c, entries, students, now))
  {
    AskingAre(entries, students, now);
    SortedDistinct(c, Asking(entries, students, now));
  }

  lemma {:induction false} PlacedDistinct(c: Collation, s: Student, ss: seq<Student>)
    requires DistinctNames([s] + ss)
    ensures DistinctNames(Placed(c, s, ss))
    ensures forall t :: t in Placed(c, s, ss) <==> t == s || t in ss
    decreases |ss|
  {
    if ss != [] {
      assert ([s] + ss)[1..] == ss && ss == [ss[0]] + ss[1..];
      if Before(c, ss[0], s) {
        var tail := [s] + ss[1..];
        forall i, j | 0 <= i < j < |tail| ensures tail[i].name != tail[j].name {
          assert tail[i] == ([s] + ss)[if i == 0 then 0 else i + 1] && tail[j] == ([s] + ss)[j + 1];
        }
        PlacedDistinct(c, s, ss[1..]);
        var rest := Placed(c, s, ss[1..]);
        forall j | 0 <= j < |rest| ensures rest[j].name != ss[0].name {
          assert rest[j] in rest;
          if rest[j] == s {
            assert ([s] + ss)[0].name != ([s] + ss)[1].name;
          } else {
            var i :| 0 <= i < |ss[1..]| && ss[1..][i] == rest[j];
            assert ([s] + ss)[1].name != ([s] + ss)[i + 2].name;
          }
        }
      }
    }
  }

  lemma {:induction false} SortedDistinct(c: Collation, ss: seq<Student>)
    requires DistinctNames(ss)
    ensures DistinctNames(ByUrgency(c, ss))
    ensures forall t :: t in ByUrgency(c, ss) <==> t in ss
    decreases |ss|
  {
    if ss != [] {
      SortedDistinct(c, ss[1..]);
      var rest := ByUrgency(c, ss[1..]);
      forall j | 0 <= j < |rest| ensures rest[j].name != ss[0].name {
        assert rest[j] in rest;
        var i :| 0 <= i < |ss[1..]| && ss[1..][i] == rest[j];
        assert ss[i + 1].name != ss[0].name;
      }
      PlacedDistinct(c, ss[0], rest);
      assert ss == [ss[0]] + ss[1..];
    }
  }

  lemma WithoutFirst(u: seq<Student>)
    requires u != [] && DistinctNames(u)
    ensures Except(u, u[0].name) == u[1..]
  {
    WithoutNone(u[1..], u[0].name);
  }

  lemma {:induction false} WithoutNone(u: seq<Student>, name: string)
    requires forall i :: 0 <= i < |u| ==> u[i].name != name
    ensures Except(u, name) == u
    decreases |u|
  {
    if u != [] {
      WithoutNone(u[1..], name);
    }
  }

  // ---- The ring ----

  function Flagged(students: seq<Student>): seq<Student> {
    if students == [] then []
    else (if RankOf(students[0]) > 0 then [students[0]] else []) + Flagged(students[1..])
  }

  function Ring(c: Collation, students: seq<Student>): seq<Student> { ByUrgency(c, Flagged(students)) }

  function Find(ring: seq<Student>, name: string): nat {
    if ring == [] || ring[0].name == name then 0 else 1 + Find(ring[1..], name)
  }

  /** One step round the ring, from a student or from nobody. */
  function Step(c: Collation, students: seq<Student>, name: string, direction: int): Option<Student>
    requires direction == 1 || direction == -1
  {
    var ring := Ring(c, students);
    var at := Find(ring, name);
    if ring == [] then None
    else if at >= |ring| then Some(if direction > 0 then ring[0] else Last(ring))
    else Some(ring[(at + direction + |ring|) % |ring|])
  }

  lemma {:induction false} FindsAt(ring: seq<Student>, i: nat)
    requires DistinctNames(ring) && i < |ring|
    ensures Find(ring, ring[i].name) == i
    decreases |ring|
  {
    if i > 0 {
      FindsAt(ring[1..], i - 1);
    }
  }

  /** The place next to one in the ring. */
  function Beside(at: nat, n: nat, direction: int): (next: nat)
    requires at < n && (direction == 1 || direction == -1)
    ensures next < n
  {
    if direction == 1 then (if at + 1 == n then 0 else at + 1) else if at == 0 then n - 1 else at - 1
  }

  lemma BesideIs(at: nat, n: nat, direction: int)
    requires at < n && (direction == 1 || direction == -1)
    ensures (at + direction + n) % n == Beside(at, n, direction)
  {
    var next := at + direction + n;
    if next >= 2 * n {
      assert next - 2 * n == 0 && next % n == 0;
    } else if next >= n {
      assert next % n == next - n;
    } else {
      assert next % n == next;
    }
  }

  lemma {:induction false} FlaggedDistinct(students: seq<Student>)
    requires DistinctNames(students)
    ensures DistinctNames(Flagged(students))
    ensures forall s :: s in Flagged(students) <==> s in students && RankOf(s) > 0
    decreases |students|
  {
    if students != [] {
      FlaggedDistinct(students[1..]);
      assert students == [students[0]] + students[1..];
      var rest := Flagged(students[1..]);
      forall j | 0 <= j < |rest| ensures rest[j].name != students[0].name {
        assert rest[j] in rest && rest[j] in students[1..];
        var i :| 0 <= i < |students[1..]| && students[1..][i] == rest[j];
        assert students[i + 1].name == rest[j].name;
      }
    }
  }

  lemma StepIs(c: Collation, students: seq<Student>, at: nat, direction: int)
    requires DistinctNames(Ring(c, students)) && at < |Ring(c, students)| && (direction == 1 || direction == -1)
    ensures var ring := Ring(c, students);
            Step(c, students, ring[at].name, direction) == Some(ring[Beside(at, |ring|, direction)])
  {
    var ring := Ring(c, students);
    FindsAt(ring, at);
    BesideIs(at, |ring|, direction);
  }

  /** From anyone flagged, a step either way and then one the other way comes back; so no two students
      step to the same one. */
  lemma StepsUndoEachOther(c: Collation, students: seq<Student>, s: Student, direction: int)
    requires DistinctNames(students) && s in students && RankOf(s) > 0
    requires direction == 1 || direction == -1
    ensures var there := Step(c, students, s.name, direction);
            && there.Some? && there.value in students && RankOf(there.value) > 0
            && Step(c, students, there.value.name, -direction) == Some(s)
  {
    var ring := Ring(c, students);
    var at := InRing(c, students, s);
    var next := Beside(at, |ring|, direction);
    StepIs(c, students, at, direction);
    StepIs(c, students, next, -direction);
    BesideBack(at, |ring|, direction);
    RingIsFlagged(c, students, next);
    assert Step(c, students, s.name, direction) == Some(ring[next]);
  }

  lemma BesideBack(at: nat, n: nat, direction: int)
    requires at < n && (direction == 1 || direction == -1)
    ensures Beside(Beside(at, n, direction), n, -direction) == at
  {
  }

  lemma InRing(c: Collation, students: seq<Student>, s: Student) returns (at: nat)
    requires DistinctNames(students) && s in students && RankOf(s) > 0
    ensures at < |Ring(c, students)| && Ring(c, students)[at] == s && DistinctNames(Ring(c, students))
  {
    FlaggedDistinct(students);
    SortedDistinct(c, Flagged(students));
    assert s in Ring(c, students);
    at :| at < |Ring(c, students)| && Ring(c, students)[at] == s;
  }

  lemma RingIsFlagged(c: Collation, students: seq<Student>, at: nat)
    requires DistinctNames(students) && at < |Ring(c, students)|
    ensures Ring(c, students)[at] in students && RankOf(Ring(c, students)[at]) > 0
  {
    FlaggedDistinct(students);
    SortedDistinct(c, Flagged(students));
    assert Ring(c, students)[at] in Ring(c, students);
  }
}
