/** The store of snapshots as an object and as a history of calls: what it answers is read off the
    calls alone, and sweeping shows in one case only. Times are milliseconds of one clock. */
module SnapshotStores {
  import opened EditScripts

  /** How long an entry counts. */
  const TTL := 180_000

  /** The least time from one yes to the next. */
  const ASK_INTERVAL := 750

  /** The size from which a map is swept. */
  const PRUNE_THRESHOLD := 256

  datatype Stored<+S> = Stored(snapshot: S, received: nat, rev: nat)

  datatype Latest<+S> = Latest(snapshot: S, age: nat, rev: nat)

  /** A store's contents. */
  datatype Inner<K(==), +S> = Inner(latest: map<K, Stored<S>>, asked: map<K, nat>, nextRev: nat)

  function Age(now: nat, at: nat): nat { if now < at then 0 else now - at }

  // ---- What each operation does to the contents ----

  function Fresh<K, S>(m: map<K, Stored<S>>, now: nat): map<K, Stored<S>> {
    map k | k in m && Age(now, m[k].received) < TTL :: m[k]
  }

  function FreshAsks<K>(m: map<K, nat>, now: nat): map<K, nat> {
    map k | k in m && Age(now, m[k]) < TTL :: m[k]
  }

  function Insert<K, S>(s: Inner<K, S>, slot: K, snapshot: S, now: nat, prune: bool): Inner<K, S> {
    var kept := if prune && |s.latest| > PRUNE_THRESHOLD then Fresh(s.latest, now) else s.latest;
    s.(latest := kept[slot := Stored(snapshot, now, s.nextRev + 1)], nextRev := s.nextRev + 1)
  }

  function Touch<K, S>(s: Inner<K, S>, slot: K, rev: nat, now: nat): Inner<K, S> {
    if slot in s.latest && s.latest[slot].rev == rev
    then s.(latest := s.latest[slot := s.latest[slot].(received := now)])
    else s
  }

  function Read<K, S>(s: Inner<K, S>, slot: K, now: nat): Option<Latest<S>> {
    if slot in s.latest && Age(now, s.latest[slot].received) < TTL
    then Some(Latest(s.latest[slot].snapshot, Age(now, s.latest[slot].received), s.latest[slot].rev))
    else None
  }

  predicate Due<K, S>(s: Inner<K, S>, slot: K, now: nat) {
    slot in s.asked ==> Age(now, s.asked[slot]) >= ASK_INTERVAL
  }

  function Ask<K, S>(s: Inner<K, S>, slot: K, now: nat, prune: bool): Inner<K, S> {
    var kept := if prune && |s.asked| > PRUNE_THRESHOLD then FreshAsks(s.asked, now) else s.asked;
    s.(asked := if Due(s.(asked := kept), slot, now) then kept[slot := now] else kept)
  }

  // ---- Histories of calls ----

  datatype Call<+K, +S> =
    | InsertCall(slot: K, snapshot: S)
    | TouchCall(slot: K, rev: nat)
    | ReadCall(slot: K)
    | AskCall(slot: K)

  datatype Answer<+S> = Inserted(rev: nat) | Touched | ReadAnswer(latest: Option<Latest<S>>) | Asked(due: bool)

  function After<K, S>(s: Inner<K, S>, call: Call<K, S>, now: nat, prune: bool): Inner<K, S> {
    match call
    case InsertCall(slot, snapshot) => Insert(s, slot, snapshot, now, prune)
    case TouchCall(slot, rev) => Touch(s, slot, rev, now)
    case ReadCall(_) => s
    case AskCall(slot) => Ask(s, slot, now, prune)
  }

  function AnswerTo<K, S>(s: Inner<K, S>, call: Call<K, S>, now: nat): Answer<S> {
    match call
    case InsertCall(_, _) => Inserted(s.nextRev + 1)
    case TouchCall(_, _) => Touched
    case ReadCall(slot) => ReadAnswer(Read(s, slot, now))
    case AskCall(slot) => Asked(Due(s, slot, now))
  }

  /** A call and when it was made. */
  datatype Timed<+K, +S> = Timed(call: Call<K, S>, at: nat)

  ghost predicate InTime<K, S>(calls: seq<Timed<K, S>>) {
    forall i, j :: 0 <= i < j < |calls| ==> calls[i].at <= calls[j].at
  }

  /** When the last call was made. */
  function EndOf<K, S>(calls: seq<Timed<K, S>>): nat { if calls == [] then 0 else Last(calls).at }

  /** The contents after some calls, of a store that is swept or of one that never is. */
  function Run<K, S>(calls: seq<Timed<K, S>>, prune: bool): Inner<K, S> {
    if calls == [] then Inner(map[], map[], 0)
    else After(Run(DropLast(calls), prune), Last(calls).call, Last(calls).at, prune)
  }

  function Answers<K(==), S>(calls: seq<Timed<K, S>>, prune: bool): (r: seq<Answer<S>>)
    ensures |r| == |calls|
  {
    if calls == [] then []
    else Answers(DropLast(calls), prune) + [AnswerTo(Run(DropLast(calls), prune), Last(calls).call, Last(calls).at)]
  }

  // ---- What the calls alone say ----

  function CountInserts<K, S>(calls: seq<Timed<K, S>>): nat {
    if calls == [] then 0 else CountInserts(DropLast(calls)) + if Last(calls).call.InsertCall? then 1 else 0
  }

  /** The latest insertion for `slot`, its number, and when it was inserted or last touched. */
  function LastKept<K(==), S>(calls: seq<Timed<K, S>>, slot: K): Option<Stored<S>> {
    if calls == [] then None
    else
      var last := Last(calls);
      var before := LastKept(DropLast(calls), slot);
      match last.call
      case InsertCall(k, snapshot) =>
        if k == slot then Some(Stored(snapshot, last.at, CountInserts(calls))) else before
      case TouchCall(k, rev) =>
        if k == slot && before.Some? && before.value.rev == rev
        then Some(before.value.(received := last.at)) else before
      case _ => before
  }

  function IfFresh<S>(kept: Option<Stored<S>>, now: nat): Option<Latest<S>> {
    if kept.Some? && Age(now, kept.value.received) < TTL
    then Some(Latest(kept.value.snapshot, Age(now, kept.value.received), kept.value.rev))
    else None
  }

  /** Whether asking is due, after a last yes. */
  predicate DueSince(yes: Option<nat>, now: nat) { yes.Some? ==> Age(now, yes.value) >= ASK_INTERVAL }

  /** The last time asking about `slot` was answered yes. */
  function LastYes<K(==), S>(calls: seq<Timed<K, S>>, slot: K): Option<nat> {
    if calls == [] then None
    else
      var before := LastYes(DropLast(calls), slot);
      if Last(calls).call == AskCall(slot) && DueSince(before, Last(calls).at) then Some(Last(calls).at) else before
  }

  /** The slots with an entry: an insertion into more than `PRUNE_THRESHOLD` of them puts out those
      whose last insertion or touch is too long ago. */
  ghost function Held<K(!new), S>(calls: seq<Timed<K, S>>): set<K> {
    if calls == [] then {}
    else
      var before, last := DropLast(calls), Last(calls);
      match last.call
      case InsertCall(slot, _) =>
        (if |Held(before)| <= PRUNE_THRESHOLD then Held(before)
         else set k | k in Held(before) && IfFresh(LastKept(before, k), last.at).Some?) + {slot}
      case _ => Held(before)
  }

  /** Call `m` is an insertion that puts out whatever was last kept by `since` and has gone stale. */
  ghost predicate SweepsOut<K(!new), S>(calls: seq<Timed<K, S>>, m: nat, since: nat)
    requires m < |calls|
  {
    calls[m].call.InsertCall? && |Held(calls[..m])| > PRUNE_THRESHOLD && Age(calls[m].at, since) >= TTL
  }

  ghost predicate SweptSince<K(!new), S>(calls: seq<Timed<K, S>>, since: nat) {
    exists m: nat :: m < |calls| && SweepsOut(calls, m, since)
  }

  /** A touch, meant for the latest insertion. */
  predicate TouchesLast<K(==), S>(calls: seq<Timed<K, S>>, call: Call<K, S>, slot: K) {
    LastKept(calls, slot).Some? && call == TouchCall(slot, LastKept(calls, slot).value.rev)
  }

  predicate InsertsFor<K(==), S>(call: Call<K, S>, slot: K) { call.InsertCall? && call.slot == slot }

  /** Call `n` touches the latest insertion for `slot`, which had gone stale and been swept out, and
      there is no later insertion. */
  ghost predicate MissedAt<K(!new), S>(calls: seq<Timed<K, S>>, slot: K, n: nat) {
    && n < |calls| && TouchesLast(calls[..n], calls[n].call, slot)
    && SweptSince(calls[..n], LastKept(calls[..n], slot).value.received)
    && (forall i :: n < i < |calls| ==> !InsertsFor(calls[i].call, slot))
  }

  /** The latest insertion for `slot` was touched too late. */
  ghost predicate MissedTouch<K(!new), S>(calls: seq<Timed<K, S>>, slot: K) {
    exists n: nat :: MissedAt(calls, slot, n)
  }

  // ---- The store itself ----

  /** Every method adds its call to `log`, which says all there is to say about the contents. */
  class SnapshotStore<K(==,!new), S> {
    var latest: map<K, Stored<S>>
    var asked: map<K, nat>
    var nextRev: nat
    ghost var log: seq<Timed<K, S>>

    function State(): Inner<K, S>
      reads this
    {
      Inner(latest, asked, nextRev)
    }

    ghost predicate Valid() reads this { InTime(log) && State() == Run(log, true) }

    constructor ()
      ensures Valid() && log == []
    {
      latest, asked, nextRev := map[], map[], 0;
      log := [];
    }

    method Put(slot: K, snapshot: S, now: nat) returns (rev: nat)
      modifies this`latest, this`nextRev
      ensures State() == Insert(old(State()), slot, snapshot, now, true) && rev == nextRev
    {
      if |latest| > PRUNE_THRESHOLD {
        latest := Fresh(latest, now);
      }
      nextRev := nextRev + 1;
      rev := nextRev;
      latest := latest[slot := Stored(snapshot, now, rev)];
    }

    method InsertSnapshot(slot: K, snapshot: S, now: nat) returns (rev: nat)
      requires Valid() && EndOf(log) <= now
      modifies this
      ensures Valid() && log == old(log) + [Timed(InsertCall(slot, snapshot), now)]
      ensures rev == CountInserts(log)
    {
      OneMoreCall(log, Timed(InsertCall(slot, snapshot), now));
      RevIsCount(log);
      rev := Put(slot, snapshot, now);
      log := log + [Timed(InsertCall(slot, snapshot), now)];
    }

    method TouchSnapshot(slot: K, rev: nat, now: nat)
      requires Valid() && EndOf(log) <= now
      modifies this
      ensures Valid() && log == old(log) + [Timed(TouchCall(slot, rev), now)]
    {
      if slot in latest && latest[slot].rev == rev {
        latest := latest[slot := latest[slot].(received := now)];
      }
      OneMoreCall(log, Timed(TouchCall(slot, rev), now));
      log := log + [Timed(TouchCall(slot, rev), now)];
    }

    method LatestSnapshot(slot: K, now: nat) returns (r: Option<Latest<S>>)
      requires Valid() && EndOf(log) <= now
      ensures r == if MissedTouch(log, slot) then None else IfFresh(LastKept(log, slot), now)
    {
      SlotReads(log, slot, now);
      if slot !in latest {
        return None;
      }
      var stored := latest[slot];
      var age := Age(now, stored.received);
      r := if age < TTL then Some(Latest(stored.snapshot, age, stored.rev)) else None;
    }

    method ClaimAsk(slot: K, now: nat) returns (due: bool)
      requires Valid() && EndOf(log) <= now
      modifies this
      ensures Valid() && log == old(log) + [Timed(AskCall(slot), now)]
      ensures due <==> DueSince(LastYes(old(log), slot), now)
    {
      AsksDue(log, slot, now);
      if |asked| > PRUNE_THRESHOLD {
        asked := FreshAsks(asked, now);
      }
      due := slot in asked ==> Age(now, asked[slot]) >= ASK_INTERVAL;
      if due {
        asked := asked[slot := now];
      }
      OneMoreCall(log, Timed(AskCall(slot), now));
      log := log + [Timed(AskCall(slot), now)];
    }
  }

  lemma OneMoreCall<K, S>(calls: seq<Timed<K, S>>, t: Timed<K, S>)
    requires InTime(calls) && EndOf(calls) <= t.at
    ensures InTime(calls + [t])
    ensures Run(calls + [t], true) == After(Run(calls, true), t.call, t.at, true)
    ensures CountInserts(calls + [t]) == CountInserts(calls) + if t.call.InsertCall? then 1 else 0
  {
    SnocEnds(calls, t);
  }

  lemma {:induction false} RevIsCount<K, S>(calls: seq<Timed<K, S>>)
    ensures Run(calls, true).nextRev == CountInserts(calls)
    decreases |calls|
  {
    if calls != [] {
      RevIsCount(DropLast(calls));
    }
  }

  lemma AnswerMore<K, S>(calls: seq<Timed<K, S>>, t: Timed<K, S>, prune: bool)
    ensures Answers(calls + [t], prune)[|calls|] == AnswerTo(Run(calls, prune), t.call, t.at)
  {
    SnocEnds(calls, t);
  }

  // ---- Swept or not ----

  lemma {:induction false} KeptIsLast<K, S>(calls: seq<Timed<K, S>>, slot: K)
    ensures Run(calls, false).nextRev == CountInserts(calls)
    ensures slot in Run(calls, false).latest <==> LastKept(calls, slot).Some?
    ensures LastKept(calls, slot).Some? ==> Run(calls, false).latest[slot] == LastKept(calls, slot).value
    decreases |calls|
  {
    if calls != [] {
      KeptIsLast(DropLast(calls), slot);
    }
  }

  lemma {:induction false} AskedIsLastYes<K, S>(calls: seq<Timed<K, S>>, slot: K)
    ensures slot in Run(calls, false).asked <==> LastYes(calls, slot).Some?
    ensures slot in Run(calls, false).asked ==> Run(calls, false).asked[slot] == LastYes(calls, slot).value
    decreases |calls|
  {
    if calls != [] {
      AskedIsLastYes(DropLast(calls), slot);
    }
  }

  /** The latest insertion for `slot` has been touched while the swept store had no entry for it. */
  predicate Lost<K(==), S>(calls: seq<Timed<K, S>>, slot: K) {
    calls != []
    && var before, last := DropLast(calls), Last(calls);
       match last.call
       case InsertCall(k, _) => k != slot && Lost(before, slot)
       case TouchCall(k, rev) =>
         Lost(before, slot) || (k == slot && LateTouch(Run(before, true), Run(before, false), last.call))
       case _ => Lost(before, slot)
  }

  /** A touch of a snapshot that is the latest, but has been swept out. */
  predicate LateTouch<K, S>(pruned: Inner<K, S>, full: Inner<K, S>, call: Call<K, S>) {
    call.TouchCall? && call.slot in full.latest && full.latest[call.slot].rev == call.rev && call.slot !in pruned.latest
  }

  /** For one student: what a swept store holds is what one never swept holds, and it holds all that
      is fresh, unless a touch was missed; then it holds nothing. */
  ghost predicate AgreeOn<K, S>(pruned: Inner<K, S>, full: Inner<K, S>, slot: K, now: nat, missed: bool) {
    && pruned.nextRev == full.nextRev
    && (slot in pruned.latest ==> slot in full.latest && pruned.latest[slot] == full.latest[slot])
    && (missed ==> slot !in pruned.latest && slot in full.latest)
    && (!missed && slot in full.latest && Age(now, full.latest[slot].received) < TTL ==> slot in pruned.latest)
  }

  lemma AgreeStep<K, S>(pruned: Inner<K, S>, full: Inner<K, S>, slot: K, missed: bool, call: Call<K, S>,
                        since: nat, now: nat)
    requires AgreeOn(pruned, full, slot, since, missed) && since <= now
    ensures AgreeOn(After(pruned, call, now, true), After(full, call, now, false), slot, now,
                    match call
                    case InsertCall(k, _) => k != slot && missed
                    case TouchCall(k, _) => missed || (k == slot && LateTouch(pruned, full, call))
                    case _ => missed)
  {
  }

  lemma {:induction false} SlotAgrees<K, S>(calls: seq<Timed<K, S>>, slot: K)
    requires InTime(calls)
    ensures AgreeOn(Run(calls, true), Run(calls, false), slot, EndOf(calls), Lost(calls, slot))
    decreases |calls|
  {
    if calls != [] {
      var before, last := DropLast(calls), Last(calls);
      SlotAgrees(before, slot);
      AgreeStep(Run(before, true), Run(before, false), slot, Lost(before, slot), last.call, EndOf(before),
                last.at);
    }
  }

  /** What a sweep keeps, as the calls have it. */
  lemma SweepKeepsFresh<K(!new), S>(calls: seq<Timed<K, S>>, m: map<K, Stored<S>>, held: set<K>, now: nat)
    requires InTime(calls) && EndOf(calls) <= now && m == Run(calls, true).latest && m.Keys == held
    ensures Fresh(m, now).Keys == set k | k in held && IfFresh(LastKept(calls, k), now).Some?
    ensures |m| == |held|
  {
    assert |m| == |m.Keys|;
    forall k | k in m
      ensures Age(now, m[k].received) < TTL <==> IfFresh(LastKept(calls, k), now).Some?
    {
      SlotAgrees(calls, k);
      KeptIsLast(calls, k);
    }
  }

  /** The entries of a swept store, as the calls have it. */
  lemma {:induction false} HeldAreLatest<K(!new), S>(calls: seq<Timed<K, S>>)
    requires InTime(calls)
    ensures Run(calls, true).latest.Keys == Held(calls)
    decreases |calls|
  {
    if calls != [] {
      var before, last := DropLast(calls), Last(calls);
      HeldAreLatest(before);
      SweepKeepsFresh(before, Run(before, true).latest, Held(before), last.at);
    }
  }

  lemma SweptMore<K(!new), S>(calls: seq<Timed<K, S>>, t: Timed<K, S>, since: nat)
    ensures SweptSince(calls + [t], since)
       <==> SweptSince(calls, since)
            || (t.call.InsertCall? && |Held(calls)| > PRUNE_THRESHOLD && Age(t.at, since) >= TTL)
  {
    var more := calls + [t];
    assert more[..|calls|] == calls;
    forall m: nat | m < |calls| ensures SweepsOut(more, m, since) <==> SweepsOut(calls, m, since) {
      assert more[..m] == calls[..m];
    }
    if SweptSince(calls, since) {
      var m: nat :| m < |calls| && SweepsOut(calls, m, since);
      assert SweepsOut(more, m, since);
    }
    assert SweepsOut(more, |calls|, since)
      <==> t.call.InsertCall? && |Held(calls)| > PRUNE_THRESHOLD && Age(t.at, since) >= TTL;
  }

  /** Until it is touched too late, the latest insertion has no entry exactly when it went stale and
      was swept out after that. */
  lemma {:induction false} GoneIffSwept<K(!new), S>(calls: seq<Timed<K, S>>, slot: K)
    requires InTime(calls) && !Lost(calls, slot) && LastKept(calls, slot).Some?
    ensures slot !in Run(calls, true).latest <==> SweptSince(calls, LastKept(calls, slot).value.received)
    decreases |calls|
  {
    var before, last := DropLast(calls), Last(calls);
    var since := LastKept(calls, slot).value.received;
    Rejoin(calls);
    SweptMore(before, last, since);
    SlotAgrees(before, slot);
    KeptIsLast(before, slot);
    HeldAreLatest(before);
    assert |Run(before, true).latest| == |Run(before, true).latest.Keys|;
    if InsertsFor(last.call, slot) || TouchesLast(before, last.call, slot) {
      NotSweptYet(before, since);
    } else {
      GoneIffSwept(before, slot);
    }
  }

  lemma NotSweptYet<K(!new), S>(calls: seq<Timed<K, S>>, since: nat)
    requires InTime(calls) && EndOf(calls) <= since
    ensures !SweptSince(calls, since)
  {
    forall m: nat | m < |calls| ensures !SweepsOut(calls, m, since) {
      assert calls[m].at <= since;
    }
  }

  lemma MissedMore<K(!new), S>(calls: seq<Timed<K, S>>, t: Timed<K, S>, slot: K)
    ensures MissedTouch(calls + [t], slot)
       <==> !InsertsFor(t.call, slot)
            && (MissedTouch(calls, slot)
                || (TouchesLast(calls, t.call, slot) && SweptSince(calls, LastKept(calls, slot).value.received)))
  {
    var more := calls + [t];
    assert more[..|calls|] == calls;
    forall n: nat | n < |calls|
      ensures MissedAt(more, slot, n) <==> MissedAt(calls, slot, n) && !InsertsFor(t.call, slot)
    {
      assert more[..n] == calls[..n];
      assert more[|calls|] == t;
    }
    if MissedTouch(calls, slot) && !InsertsFor(t.call, slot) {
      var n: nat :| MissedAt(calls, slot, n);
      assert MissedAt(more, slot, n);
    }
    assert MissedAt(more, slot, |calls|)
      <==> TouchesLast(calls, t.call, slot) && SweptSince(calls, LastKept(calls, slot).value.received);
  }

  /** The calls tell which touches the swept store lost. */
  lemma {:induction false} LostAreMissed<K(!new), S>(calls: seq<Timed<K, S>>, slot: K)
    requires InTime(calls)
    ensures Lost(calls, slot) <==> MissedTouch(calls, slot)
    decreases |calls|
  {
    if calls != [] {
      var before, last := DropLast(calls), Last(calls);
      Rejoin(calls);
      MissedMore(before, last, slot);
      LostAreMissed(before, slot);
      KeptIsLast(before, slot);
      if !Lost(before, slot) && LastKept(before, slot).Some? {
        GoneIffSwept(before, slot);
      }
    }
  }

  /** The same for the times of asking, which nothing can spoil. */
  ghost predicate AskedAlike<K, S>(pruned: Inner<K, S>, full: Inner<K, S>, slot: K, now: nat) {
    && (slot in pruned.asked ==> slot in full.asked && pruned.asked[slot] == full.asked[slot])
    && (slot in full.asked && Age(now, full.asked[slot]) < TTL ==> slot in pruned.asked)
  }

  lemma AskedStep<K, S>(pruned: Inner<K, S>, full: Inner<K, S>, slot: K, call: Call<K, S>, since: nat, now: nat)
    requires AskedAlike(pruned, full, slot, since) && since <= now
    ensures AskedAlike(After(pruned, call, now, true), After(full, call, now, false), slot, now)
  {
  }

  lemma {:induction false} AsksAgree<K, S>(calls: seq<Timed<K, S>>, slot: K)
    requires InTime(calls)
    ensures AskedAlike(Run(calls, true), Run(calls, false), slot, EndOf(calls))
    decreases |calls|
  {
    if calls != [] {
      var before, last := DropLast(calls), Last(calls);
      AsksAgree(before, slot);
      AskedStep(Run(before, true), Run(before, false), slot, last.call, EndOf(before), last.at);
    }
  }

  lemma SlotReads<K(!new), S>(calls: seq<Timed<K, S>>, slot: K, now: nat)
    requires InTime(calls) && EndOf(calls) <= now
    ensures Read(Run(calls, true), slot, now)
         == if MissedTouch(calls, slot) then None else IfFresh(LastKept(calls, slot), now)
    ensures Read(Run(calls, false), slot, now) == IfFresh(LastKept(calls, slot), now)
  {
    SlotAgrees(calls, slot);
    KeptIsLast(calls, slot);
    LostAreMissed(calls, slot);
  }

  lemma AsksDue<K, S>(calls: seq<Timed<K, S>>, slot: K, now: nat)
    requires InTime(calls) && EndOf(calls) <= now
    ensures Due(Run(calls, true), slot, now) <==> DueSince(LastYes(calls, slot), now)
    ensures Due(Run(calls, false), slot, now) <==> DueSince(LastYes(calls, slot), now)
  {
    AsksAgree(calls, slot);
    AskedIsLastYes(calls, slot);
  }

  lemma {:induction false} AnswerAt<K, S>(calls: seq<Timed<K, S>>, n: nat, prune: bool)
    requires n < |calls|
    ensures Answers(calls, prune)[n] == AnswerTo(Run(calls[..n], prune), calls[n].call, calls[n].at)
    decreases |calls|
  {
    if n < |calls| - 1 {
      AnswerAt(DropLast(calls), n, prune);
      assert DropLast(calls)[..n] == calls[..n];
    }
  }

  lemma InTimeBefore<K, S>(calls: seq<Timed<K, S>>, n: nat)
    requires InTime(calls) && n < |calls|
    ensures InTime(calls[..n]) && EndOf(calls[..n]) <= calls[n].at
  {
  }

  // ---- What the answers say ----

  /** Over any calls, a store that is swept answers as one that never is, but for exactly this: a
      read of a snapshot whose touch was missed, and which would be fresh if it had not been. */
  lemma PruningIsInvisible<K(!new), S>(calls: seq<Timed<K, S>>, n: nat)
    requires InTime(calls) && n < |calls|
    ensures Answers(calls, true)[n] == Answers(calls, false)[n]
       <==> !(&& calls[n].call.ReadCall?
              && MissedTouch(calls[..n], calls[n].call.slot)
              && IfFresh(LastKept(calls[..n], calls[n].call.slot), calls[n].at).Some?)
  {
    var slot, at := calls[n].call.slot, calls[n].at;
    AnswerAt(calls, n, true);
    AnswerAt(calls, n, false);
    InTimeBefore(calls, n);
    SlotReads(calls[..n], slot, at);
    AsksDue(calls[..n], slot, at);
    SlotAgrees(calls[..n], slot);
  }

  /** A touch is not missed while the snapshot is fresh. `ingest` has seen it fresh before, under a
      lock of its own: what is asked here is that it still is. */
  lemma FreshTouchIsNotMissed<K(!new), S>(calls: seq<Timed<K, S>>, slot: K, rev: nat, now: nat)
    requires InTime(calls) && EndOf(calls) <= now && !MissedTouch(calls, slot)
    requires LastKept(calls, slot).Some? && LastKept(calls, slot).value.rev == rev ==>
               Age(now, LastKept(calls, slot).value.received) < TTL
    ensures !MissedTouch(calls + [Timed(TouchCall(slot, rev), now)], slot)
  {
    MissedMore(calls, Timed(TouchCall(slot, rev), now), slot);
    if TouchesLast(calls, TouchCall(slot, rev), slot) {
      var since := LastKept(calls, slot).value.received;
      forall m: nat | m < |calls| ensures !SweepsOut(calls, m, since) {
        assert calls[m].at <= now;
      }
    }
  }

  /** A read answers with the last insertion for its slot, as long as it was inserted or touched
      within the time to live and no touch of it was missed, and with nothing otherwise. */
  lemma ReadsLastKept<K(!new), S>(calls: seq<Timed<K, S>>, slot: K, now: nat)
    requires InTime(calls) && EndOf(calls) <= now
    ensures Answers(calls + [Timed(ReadCall(slot), now)], true)[|calls|]
         == ReadAnswer(if MissedTouch(calls, slot) then None else IfFresh(LastKept(calls, slot), now))
  {
    AnswerMore(calls, Timed(ReadCall(slot), now), true);
    SlotReads(calls, slot, now);
  }

  /** An editor may be asked exactly when it was not asked within the interval. */
  lemma AskedOncePerInterval<K, S>(calls: seq<Timed<K, S>>, slot: K, now: nat)
    requires InTime(calls) && EndOf(calls) <= now
    ensures Answers(calls + [Timed(AskCall(slot), now)], true)[|calls|] == Asked(DueSince(LastYes(calls, slot), now))
  {
    AnswerMore(calls, Timed(AskCall(slot), now), true);
    AsksDue(calls, slot, now);
  }

  /** Two yeses are never closer than the interval. */
  lemma YesesApart<K, S>(calls: seq<Timed<K, S>>, slot: K, now: nat)
    requires InTime(calls) && EndOf(calls) <= now && LastYes(calls, slot).Some?
    requires Answers(calls + [Timed(AskCall(slot), now)], true)[|calls|] == Asked(true)
    ensures LastYes(calls, slot).value + ASK_INTERVAL <= now
  {
    AskedOncePerInterval(calls, slot, now);
  }

  /** Numbers given out only grow. */
  lemma RevsIncrease<K, S>(calls: seq<Timed<K, S>>, i: nat, j: nat)
    requires i < j < |calls|
    requires Answers(calls, true)[i].Inserted? && Answers(calls, true)[j].Inserted?
    ensures Answers(calls, true)[i].rev < Answers(calls, true)[j].rev
  {
    AnswerAt(calls, i, true);
    AnswerAt(calls, j, true);
    RevsGrow(calls, i + 1, j, true);
  }

  lemma {:induction false} RevsGrow<K, S>(calls: seq<Timed<K, S>>, i: nat, j: nat, prune: bool)
    requires i <= j <= |calls|
    ensures Run(calls[..i], prune).nextRev <= Run(calls[..j], prune).nextRev
    ensures 0 < i <= |calls| && calls[i - 1].call.InsertCall? ==>
              Run(calls[..i], prune).nextRev == Run(calls[..i - 1], prune).nextRev + 1
    decreases j - i
  {
    if i < j {
      RevsGrow(calls, i, j - 1, prune);
      assert DropLast(calls[..j]) == calls[..j - 1];
    }
    if i > 0 {
      assert DropLast(calls[..i]) == calls[..i - 1];
    }
  }
}
