/** A cache of reference solutions with one lock per file. The map from files to slots is swept when it
    has grown large, but a slot is an object of its own: a reader that holds one keeps it although the
    map has forgotten it. */
module SolutionsCaches {
  import opened EditScripts

  const FOUND_TTL := 300
  const MISSING_TTL := 60
  const FAILED_TTL := 20
  const SWEEP_AT := 512

  /** Repo, ref and path of a solution. */
  datatype Key = Key(repo: string, gitRef: Option<string>, path: string)

  datatype Outcome = Found(text: string) | Missing | Failed(error: string)

  datatype Entry = Entry(at: int, outcome: Outcome)

  function Ttl(outcome: Outcome): int {
    match outcome
    case Found(_) => FOUND_TTL
    case Missing => MISSING_TTL
    case Failed(_) => FAILED_TTL
  }

  predicate Fresh(e: Entry, now: int) { now - e.at < Ttl(e.outcome) }

  type SlotId = nat
  type RequestId = nat

  /** `holder` has the lock and `queue` waits for it, in order. */
  datatype Slot = Slot(key: Key, entry: Option<Entry>, holder: Option<RequestId>, queue: seq<RequestId>)

  // `Cloned` has the slot in hand and has not tried its lock; `Granted` was handed the lock by the
  // one before it in the queue, and has not run since.
  datatype Phase = Cloned | Queued | Granted | Fetching | Done

  datatype Request = Request(slot: SlotId, phase: Phase)

  datatype Event =
    | FetchBegan(key: Key, at: int)
    | FetchEnded(key: Key, at: int, outcome: Outcome)
    | GaveCached(key: Key, at: int, outcome: Outcome)

  /** `slots` are all there ever were; `index` those the map still has. */
  datatype System = System(slots: seq<Slot>, index: map<Key, SlotId>, requests: map<RequestId, Request>, now: int,
                           log: seq<Event>)

  function Start(now: int): System { System([], map[], map[], now, []) }

  datatype Action =
    | Tick(secs: nat)
    // Clones the slot out of the map, sweeping the map first if it is large.
    | Ask(r: RequestId, key: Key)
    // Takes the slot's lock, and then as `Resume`; or joins the queue.
    | Lock(r: RequestId)
    // Has the lock, and either answers at once or begins to fetch.
    | Resume(r: RequestId)
    | Finish(r: RequestId, outcome: Outcome)
    // The request is given up, in whatever phase.
    | Drop(r: RequestId)

  predicate Is(s: System, r: RequestId, phase: Phase) { r in s.requests && s.requests[r].phase == phase }

  predicate IsFetching(s: System, r: RequestId) { Is(s, r, Fetching) }

  predicate HasLock(s: System, r: RequestId) { Is(s, r, Granted) || Is(s, r, Fetching) }

  predicate Active(s: System, r: RequestId) { r in s.requests && !s.requests[r].phase.Done? }

  predicate Known(s: System, r: RequestId) { r in s.requests && s.requests[r].slot < |s.slots| }

  function SlotOf(s: System, r: RequestId): Slot
    requires Known(s, r)
  {
    s.slots[s.requests[r].slot]
  }

  function SetPhase(s: System, r: RequestId, phase: Phase): System
    requires r in s.requests
  {
    s.(requests := s.requests[r := s.requests[r].(phase := phase)])
  }

  function SetSlot(s: System, r: RequestId, slot: Slot): System
    requires Known(s, r)
  {
    s.(slots := s.slots[s.requests[r].slot := slot])
  }

  function Note(s: System, e: Event): System { s.(log := s.log + [e]) }

  /** What a sweep leaves in the map: slots that are locked, and those with a fresh entry. */
  predicate Stays(slot: Slot, now: int) { slot.holder.Some? || HasFresh(slot, now) }

  predicate HasFresh(slot: Slot, now: int) { slot.entry.Some? && Fresh(slot.entry.value, now) }

  function Swept(s: System): map<Key, SlotId> {
    if |s.index| < SWEEP_AT then s.index
    else map k | k in s.index && s.index[k] < |s.slots| && Stays(s.slots[s.index[k]], s.now) :: s.index[k]
  }

  /** One step. An action that is not possible changes nothing. */
  function Step(s: System, a: Action): System {
    match a
    case Tick(secs) => s.(now := s.now + secs)
    case Ask(r, key) => if r in s.requests then s else Asked(s, r, key)
    case Lock(r) =>
      if !Is(s, r, Cloned) || !Known(s, r) then s
      else if SlotOf(s, r).holder.None? then Resumed(Took(s, r), r)
      else Joined(s, r)
    case Resume(r) => if Is(s, r, Granted) && Known(s, r) then Resumed(s, r) else s
    case Finish(r, outcome) => if IsFetching(s, r) && Known(s, r) then Finished(s, r, outcome) else s
    case Drop(r) =>
      if !Known(s, r) then s
      else if HasLock(s, r) then LetGo(s, r)
      else if Is(s, r, Queued) then LeftQueue(s, r)
      else SetPhase(s, r, Done)
  }

  function Asked(s: System, r: RequestId, key: Key): System {
    var index := Swept(s);
    if key in index then s.(index := index, requests := s.requests[r := Request(index[key], Cloned)])
    else s.(slots := s.slots + [Slot(key, None, None, [])], index := index[key := |s.slots|],
            requests := s.requests[r := Request(|s.slots|, Cloned)])
  }

  function Took(s: System, r: RequestId): System
    requires Known(s, r)
  {
    SetPhase(SetSlot(s, r, SlotOf(s, r).(holder := Some(r))), r, Granted)
  }

  function Joined(s: System, r: RequestId): System
    requires Known(s, r)
  {
    var slot := SlotOf(s, r);
    SetPhase(SetSlot(s, r, slot.(queue := slot.queue + [r])), r, Queued)
  }

  function LeftQueue(s: System, r: RequestId): System
    requires Known(s, r)
  {
    var slot := SlotOf(s, r);
    SetPhase(SetSlot(s, r, slot.(queue := Without(slot.queue, r))), r, Done)
  }

  /** Done with the lock, which goes to the first in the queue before anyone else can try it. */
  function LetGo(s: System, r: RequestId): System
    requires Known(s, r)
  {
    var i, slot, s' := s.requests[r].slot, SlotOf(s, r), SetPhase(s, r, Done);
    if slot.queue == [] then s'.(slots := s'.slots[i := slot.(holder := None)])
    else
      var q := slot.queue[0];
      s'.(slots := s'.slots[i := slot.(holder := Some(q), queue := slot.queue[1..])],
          requests := s'.requests[q := Request(i, Granted)])
  }

  function Resumed(s: System, r: RequestId): System
    requires Known(s, r)
  {
    var slot := SlotOf(s, r);
    if HasFresh(slot, s.now) then Note(LetGo(s, r), GaveCached(slot.key, s.now, slot.entry.value.outcome))
    else Note(SetPhase(s, r, Fetching), FetchBegan(slot.key, s.now))
  }

  function Stored(s: System, r: RequestId, outcome: Outcome): System
    requires Known(s, r)
  {
    SetSlot(s, r, SlotOf(s, r).(entry := Some(Entry(s.now, outcome))))
  }

  function Finished(s: System, r: RequestId, outcome: Outcome): System
    requires Known(s, r)
  {
    Note(LetGo(Stored(s, r, outcome), r), FetchEnded(SlotOf(s, r).key, s.now, outcome))
  }

  function RunFrom(s: System, actions: seq<Action>): System {
    if actions == [] then s else Step(RunFrom(s, DropLast(actions)), Last(actions))
  }

  function Run(now: int, actions: seq<Action>): System { RunFrom(Start(now), actions) }

  // ---- What every run keeps ----

  /** Slots in the map are under their own keys, and slots and requests agree on who holds a lock and
      who waits for it. */
  ghost predicate Sound(s: System) {
    && (forall k :: k in s.index ==> Filed(s, k))
    && (forall r: RequestId :: r in s.requests ==> RequestOk(s, r))
    && (forall i: SlotId :: i < |s.slots| ==> SlotOk(s, i))
  }

  predicate Filed(s: System, k: Key)
    requires k in s.index
  {
    s.index[k] < |s.slots| && s.slots[s.index[k]].key == k
  }

  ghost predicate RequestOk(s: System, r: RequestId) {
    && Known(s, r)
    && (HasLock(s, r) ==> SlotOf(s, r).holder == Some(r))
    && (Is(s, r, Queued) ==> r in SlotOf(s, r).queue)
  }

  ghost predicate SlotOk(s: System, i: SlotId)
    requires i < |s.slots|
  {
    var slot := s.slots[i];
    && Timely(slot, s.now)
    && (slot.holder.Some? ==> HeldBy(s, i, slot.holder.value))
    && (slot.holder.None? ==> slot.queue == [])
    && (forall q :: q in slot.queue ==> QueuedAt(s, i, q))
    && Distinct(slot.queue)
  }

  predicate Timely(slot: Slot, now: int) { slot.entry.Some? ==> slot.entry.value.at <= now }

  predicate HeldBy(s: System, i: SlotId, r: RequestId) { HasLock(s, r) && s.requests[r].slot == i }

  predicate QueuedAt(s: System, i: SlotId, r: RequestId) { Is(s, r, Queued) && s.requests[r].slot == i }

  /** Every entry is what a fetch for its slot's key came back with, when it did. */
  ghost predicate EntriesFetched(s: System) {
    forall i: SlotId :: i < |s.slots| && s.slots[i].entry.Some?
        ==> Fetched(s.log, s.slots[i].key, s.slots[i].entry.value)
  }

  predicate Fetched(log: seq<Event>, key: Key, e: Entry) { FetchEnded(key, e.at, e.outcome) in log }

  /** An answer from the cache was fetched for that key, and is not yet too old to believe. */
  ghost predicate AnswersOk(log: seq<Event>) {
    forall i: nat :: i < |log| && log[i].GaveCached? ==> Believable(log, i)
  }

  ghost predicate Believable(log: seq<Event>, i: nat)
    requires i < |log| && log[i].GaveCached?
  {
    exists at :: Fetched(log[..i], log[i].key, Entry(at, log[i].outcome)) && log[i].at - at < Ttl(log[i].outcome)
  }

  lemma AnswersGrow(log: seq<Event>, e: Event)
    requires AnswersOk(log)
    requires e.GaveCached? ==> exists at :: Fetched(log, e.key, Entry(at, e.outcome)) && e.at - at < Ttl(e.outcome)
    ensures AnswersOk(log + [e])
  {
    var log' := log + [e];
    assert log'[..|log|] == log;
    forall i: nat | i < |log'| && log'[i].GaveCached? ensures Believable(log', i) {
      if i < |log| {
        assert Believable(log, i);
        assert log'[..i] == log[..i];
      }
    }
  }

  ghost predicate Inv(s: System) {
    Sound(s) && EntriesFetched(s) && AnswersOk(s.log)
  }

  // Each part of a step, on its own.

  lemma AskFiles(s: System, r: RequestId, key: Key)
    requires Sound(s) && r !in s.requests
    ensures forall k :: k in Asked(s, r, key).index ==> Filed(Asked(s, r, key), k)
  {
    var s' := Asked(s, r, key);
    forall k | k in s'.index ensures Filed(s', k) {
      assert k in s.index ==> Filed(s, k);
    }
  }

  lemma AskSound(s: System, r: RequestId, key: Key)
    requires Sound(s) && r !in s.requests
    ensures Sound(Asked(s, r, key))
  {
    AskFiles(s, r, key);
    AskedSoundly(s, Asked(s, r, key), r);
  }

  lemma AskedSoundly(s: System, s': System, r: RequestId)
    requires Sound(s) && r !in s.requests && forall k :: k in s'.index ==> Filed(s', k)
    requires s'.now == s.now && r in s'.requests && s'.requests[r].phase.Cloned? && Known(s', r)
    requires s'.requests == s.requests[r := s'.requests[r]]
    requires s'.slots == s.slots || (exists key :: s'.slots == s.slots + [Slot(key, None, None, [])])
    ensures Sound(s')
  {
    forall q: RequestId | q in s'.requests ensures RequestOk(s', q) {
      assert q != r ==> RequestOk(s, q);
    }
    forall i: SlotId | i < |s'.slots| ensures SlotOk(s', i) {
      assert i < |s.slots| ==> SlotOk(s, i);
    }
  }

  /** `s'` is as sound as `s` once each file, request and slot is shown to be. */
  lemma SoundFrom(s: System, s': System)
    requires Sound(s)
    requires forall k :: k in s'.index ==> (k in s.index && Filed(s, k) ==> Filed(s', k)) && k in s.index
    requires forall r: RequestId :: r in s'.requests ==> r in s.requests && (RequestOk(s, r) ==> RequestOk(s', r))
    requires |s'.slots| == |s.slots|
    requires forall i: SlotId :: i < |s'.slots| ==> SlotOk(s, i) ==> SlotOk(s', i)
    ensures Sound(s')
  {
  }

  lemma TookSound(s: System, r: RequestId)
    requires Sound(s) && Is(s, r, Cloned) && Known(s, r) && SlotOf(s, r).holder.None?
    ensures Sound(Took(s, r))
  {
    var s' := Took(s, r);
    SoundFrom(s, s');
  }

  lemma FetchSound(s: System, r: RequestId)
    requires Sound(s) && HasLock(s, r)
    ensures Sound(SetPhase(s, r, Fetching))
  {
    var s' := SetPhase(s, r, Fetching);
    SoundFrom(s, s');
  }

  lemma DistinctMore(queue: seq<RequestId>, r: RequestId)
    requires Distinct(queue) && r !in queue
    ensures Distinct(queue + [r])
  {
  }

  lemma DistinctRest(queue: seq<RequestId>)
    requires queue != [] && Distinct(queue)
    ensures Distinct(queue[1..]) && queue[0] in queue && forall q :: q in queue[1..] ==> q in queue && q != queue[0]
  {
  }

  lemma JoinSound(s: System, r: RequestId)
    requires Sound(s) && Is(s, r, Cloned) && Known(s, r) && SlotOf(s, r).holder.Some?
    ensures Sound(Joined(s, r))
  {
    var s', at := Joined(s, r), s.requests[r].slot;
    assert SlotOk(s, at);
    DistinctMore(SlotOf(s, r).queue, r);
    SoundFrom(s, s');
  }

  lemma LeaveSound(s: System, r: RequestId)
    requires Sound(s) && Is(s, r, Queued)
    ensures Known(s, r) && Sound(LeftQueue(s, r))
  {
    assert RequestOk(s, r);
    var s' := LeftQueue(s, r);
    WithoutIs(SlotOf(s, r).queue, r);
    SoundFrom(s, s');
  }

  lemma GiveUpSound(s: System, r: RequestId)
    requires Sound(s) && r in s.requests && !HasLock(s, r) && !Is(s, r, Queued)
    ensures Sound(SetPhase(s, r, Done))
  {
    var s' := SetPhase(s, r, Done);
    SoundFrom(s, s');
  }

  lemma LetGoSound(s: System, r: RequestId)
    requires Sound(s) && HasLock(s, r)
    ensures Known(s, r) && Sound(LetGo(s, r))
  {
    assert RequestOk(s, r);
    if SlotOf(s, r).queue == [] {
      SoundFrom(s, LetGo(s, r));
    } else {
      PassOnSound(s, r, s.requests[r].slot, SlotOf(s, r).queue);
    }
  }

  lemma PassOnSound(s: System, r: RequestId, at: SlotId, queue: seq<RequestId>)
    requires Sound(s) && HasLock(s, r) && Known(s, r) && at == s.requests[r].slot && queue == SlotOf(s, r).queue != []
    ensures Sound(LetGo(s, r))
  {
    assert RequestOk(s, r) && SlotOk(s, at);
    DistinctRest(queue);
    assert QueuedAt(s, at, queue[0]);
    SoundFrom(s, LetGo(s, r));
  }

  lemma StoreSound(s: System, r: RequestId, outcome: Outcome)
    requires Sound(s) && Known(s, r)
    ensures Sound(Stored(s, r, outcome))
  {
    var s' := Stored(s, r, outcome);
    SoundFrom(s, s');
  }

  lemma NoteSound(s: System, e: Event)
    requires Sound(s)
    ensures Sound(Note(s, e))
  {
    var s' := Note(s, e);
    SoundFrom(s, s');
  }

  lemma ResumeSound(s: System, r: RequestId)
    requires Sound(s) && HasLock(s, r)
    ensures Known(s, r) && Sound(Resumed(s, r))
  {
    assert RequestOk(s, r);
    LetGoSound(s, r);
    FetchSound(s, r);
    NoteSound(LetGo(s, r), Last(Resumed(s, r).log));
    NoteSound(SetPhase(s, r, Fetching), Last(Resumed(s, r).log));
  }

  lemma TickSound(s: System, secs: nat)
    requires Sound(s)
    ensures Sound(Step(s, Tick(secs)))
  {
    var s' := Step(s, Tick(secs));
    SoundFrom(s, s');
  }

  lemma StepSound(s: System, a: Action)
    requires Sound(s)
    ensures Sound(Step(s, a))
  {
    match a
    case Tick(secs) => TickSound(s, secs);
    case Ask(r, key) =>
      if r !in s.requests {
        AskSound(s, r, key);
      }
    case Lock(r) =>
      if Is(s, r, Cloned) && Known(s, r) {
        if SlotOf(s, r).holder.None? {
          TookSound(s, r);
          ResumeSound(Took(s, r), r);
        } else {
          JoinSound(s, r);
        }
      }
    case Resume(r) =>
      if Is(s, r, Granted) {
        ResumeSound(s, r);
      }
    case Finish(r, outcome) =>
      if IsFetching(s, r) && Known(s, r) {
        StoreSound(s, r, outcome);
        LetGoSound(Stored(s, r, outcome), r);
        NoteSound(LetGo(Stored(s, r, outcome), r), FetchEnded(SlotOf(s, r).key, s.now, outcome));
      }
    case Drop(r) =>
      if HasLock(s, r) {
        LetGoSound(s, r);
      } else if Is(s, r, Queued) {
        LeaveSound(s, r);
      } else if r in s.requests {
        GiveUpSound(s, r);
      }
  }

  /** No slot's key or entry, and nothing in the map, is touched, and nobody takes up work. */
  ghost predicate Quiet(s: System, s': System) {
    && s'.index == s.index && s'.now == s.now && |s'.slots| == |s.slots|
    && (forall i: SlotId ::
          i < |s.slots| ==> s'.slots[i].key == s.slots[i].key && s'.slots[i].entry == s.slots[i].entry)
    && (forall r: RequestId :: Active(s', r) ==> Active(s, r) && s'.requests[r].slot == s.requests[r].slot)
  }

  lemma LetGoQuiet(s: System, r: RequestId)
    requires Sound(s) && HasLock(s, r)
    ensures Known(s, r) && Quiet(s, LetGo(s, r))
  {
    assert RequestOk(s, r);
    var at, queue := s.requests[r].slot, SlotOf(s, r).queue;
    assert SlotOk(s, at);
    if queue != [] {
      assert queue[0] in queue && QueuedAt(s, at, queue[0]);
    }
  }

  lemma ResumeQuiet(s: System, r: RequestId)
    requires Sound(s) && HasLock(s, r)
    ensures Known(s, r) && Quiet(s, Resumed(s, r))
  {
    LetGoQuiet(s, r);
  }

  lemma LockQuiet(s: System, r: RequestId)
    requires Sound(s)
    ensures Quiet(s, Step(s, Lock(r)))
  {
    if Is(s, r, Cloned) && Known(s, r) && SlotOf(s, r).holder.None? {
      TookSound(s, r);
      ResumeQuiet(Took(s, r), r);
    }
  }

  lemma DropQuiet(s: System, r: RequestId)
    requires Sound(s)
    ensures Quiet(s, Step(s, Drop(r)))
  {
    if HasLock(s, r) {
      LetGoQuiet(s, r);
    }
  }

  lemma ResumeAnswers(s: System, r: RequestId)
    requires EntriesFetched(s) && AnswersOk(s.log) && Known(s, r)
    ensures AnswersOk(Resumed(s, r).log)
  {
    var slot := SlotOf(s, r);
    if HasFresh(slot, s.now) {
      assert Fetched(s.log, slot.key, Entry(slot.entry.value.at, slot.entry.value.outcome));
    }
    AnswersGrow(s.log, Last(Resumed(s, r).log));
  }

  lemma QuietFetched(s: System, s': System)
    requires EntriesFetched(s) && Quiet(s, s') && forall e :: e in s.log ==> e in s'.log
    ensures EntriesFetched(s')
  {
    forall i: SlotId | i < |s'.slots| && s'.slots[i].entry.Some?
      ensures Fetched(s'.log, s'.slots[i].key, s'.slots[i].entry.value)
    {
      assert Fetched(s.log, s.slots[i].key, s.slots[i].entry.value);
    }
  }

  lemma StoreFetched(s: System, r: RequestId, outcome: Outcome, key: Key)
    requires EntriesFetched(s) && Known(s, r) && key == SlotOf(s, r).key
    ensures EntriesFetched(Note(Stored(s, r, outcome), FetchEnded(key, s.now, outcome)))
  {
    var s' := Note(Stored(s, r, outcome), FetchEnded(key, s.now, outcome));
    forall i: SlotId | i < |s'.slots| && s'.slots[i].entry.Some?
      ensures Fetched(s'.log, s'.slots[i].key, s'.slots[i].entry.value)
    {
      if i != s.requests[r].slot {
        assert Fetched(s.log, s.slots[i].key, s.slots[i].entry.value);
      }
    }
  }

  lemma FinishKeeps(s: System, r: RequestId, outcome: Outcome)
    requires Inv(s) && IsFetching(s, r) && Known(s, r)
    ensures EntriesFetched(Finished(s, r, outcome)) && AnswersOk(Finished(s, r, outcome).log)
  {
    var e := FetchEnded(SlotOf(s, r).key, s.now, outcome);
    var stored := Stored(s, r, outcome);
    StoreSound(s, r, outcome);
    LetGoQuiet(stored, r);
    StoreFetched(s, r, outcome, e.key);
    QuietFetched(Note(stored, e), Finished(s, r, outcome));
    AnswersGrow(s.log, e);
  }

  lemma LockKeeps(s: System, r: RequestId)
    requires Inv(s)
    ensures EntriesFetched(Step(s, Lock(r))) && AnswersOk(Step(s, Lock(r)).log)
  {
    if Is(s, r, Cloned) && Known(s, r) {
      LockQuiet(s, r);
      if SlotOf(s, r).holder.None? {
        var took := Took(s, r);
        QuietFetched(s, took);
        ResumeAnswers(took, r);
      }
      QuietFetched(s, Step(s, Lock(r)));
    }
  }

  lemma StepKeeps(s: System, a: Action)
    requires Inv(s)
    ensures Inv(Step(s, a))
  {
    StepSound(s, a);
    match a
    case Lock(r) => LockKeeps(s, r);
    case Resume(r) =>
      if Is(s, r, Granted) && Known(s, r) {
        ResumeQuiet(s, r);
        QuietFetched(s, Step(s, a));
        ResumeAnswers(s, r);
      }
    case Finish(r, outcome) =>
      if IsFetching(s, r) && Known(s, r) {
        FinishKeeps(s, r, outcome);
      }
    case Drop(r) =>
      DropQuiet(s, r);
      QuietFetched(s, Step(s, a));
    case _ =>
  }

  lemma {:induction false} RunKeeps(now: int, actions: seq<Action>)
    ensures Inv(Run(now, actions))
    decreases |actions|
  {
    if actions != [] {
      RunKeeps(now, DropLast(actions));
      StepKeeps(Run(now, DropLast(actions)), Last(actions));
    }
  }

  /** Whatever the interleaving, swept or not: an answer out of the cache is the outcome of a fetch
      for exactly that key, no older than its kind is believed. */
  lemma AnswersAreBelievable(now: int, actions: seq<Action>, i: nat) returns (at: int)
    requires i < |Run(now, actions).log| && Run(now, actions).log[i].GaveCached?
    ensures var log := Run(now, actions).log;
            FetchEnded(log[i].key, at, log[i].outcome) in log[..i] && log[i].at - at < Ttl(log[i].outcome)
  {
    RunKeeps(now, actions);
    var log := Run(now, actions).log;
    assert Believable(log, i);
    at :| Fetched(log[..i], log[i].key, Entry(at, log[i].outcome)) && log[i].at - at < Ttl(log[i].outcome);
  }

  // ---- One fetch at a time ----

  /** Every reader at work has the slot the map has for its key. */
  ghost predicate NoOrphans(s: System) {
    forall r: RequestId :: Active(s, r) && Known(s, r) ==> InMap(s, r)
  }

  predicate InMap(s: System, r: RequestId)
    requires Known(s, r)
  {
    var k := SlotOf(s, r).key;
    k in s.index && s.index[k] == s.requests[r].slot
  }

  /** A sweep that takes a slot out of the map while a reader has it in hand and has yet to try its lock. */
  ghost predicate SweepsOneInUse(s: System, a: Action) {
    a.Ask? && a.r !in s.requests && |s.index| >= SWEEP_AT
    && exists r: RequestId :: Is(s, r, Cloned) && Known(s, r) && !Stays(SlotOf(s, r), s.now)
  }

  /** What was fetched for a key is still in its slot, or replaced by something later, or old. */
  ghost predicate Remembered(s: System) {
    forall i: nat :: i < |s.log| && s.log[i].FetchEnded? ==> RememberedOrOld(s, s.log[i])
  }

  predicate RememberedOrOld(s: System, e: Event)
    requires e.FetchEnded?
  {
    e.at <= s.now && (
    || e.at + FAILED_TTL <= s.now
    || (&& e.key in s.index && s.index[e.key] < |s.slots|
        && var slot := s.slots[s.index[e.key]];
           slot.entry.Some? && e.at <= slot.entry.value.at))
  }

  /** Fetches for a key begin at least `FAILED_TTL` after every earlier one ended. */
  ghost predicate SpacedOut(log: seq<Event>) {
    forall i: nat, j: nat :: i < j < |log| && log[i].FetchEnded? && log[j].FetchBegan? ==> Spaced(log[i], log[j])
  }

  predicate Spaced(e: Event, f: Event) { e.key == f.key ==> e.at + FAILED_TTL <= f.at }

  ghost predicate Orderly(s: System) {
    Sound(s) && NoOrphans(s) && Remembered(s) && SpacedOut(s.log)
  }

  lemma SpacingGrows(log: seq<Event>, e: Event)
    requires SpacedOut(log)
    requires e.FetchBegan? ==> forall i: nat :: i < |log| && log[i].FetchEnded? ==> Spaced(log[i], e)
    ensures SpacedOut(log + [e])
  {
  }

  lemma AskOrphansNone(s: System, a: Action)
    requires Sound(s) && NoOrphans(s) && a.Ask? && a.r !in s.requests && !SweepsOneInUse(s, a)
    ensures NoOrphans(Step(s, a))
  {
    var s' := Step(s, a);
    forall r: RequestId | Active(s', r) && Known(s', r) ensures InMap(s', r) {
      if r != a.r {
        assert RequestOk(s, r) && SlotOk(s, s.requests[r].slot);
        assert Active(s, r) && InMap(s, r);
        assert Stays(SlotOf(s, r), s.now) || |s.index| < SWEEP_AT;
      }
    }
  }

  lemma AskRemembers(s: System, r: RequestId, key: Key, e: Event)
    requires Sound(s) && r !in s.requests && e.FetchEnded? && RememberedOrOld(s, e)
    ensures RememberedOrOld(Asked(s, r, key), e)
  {
    assert e.key in s.index ==> Filed(s, e.key);
  }

  lemma AskOrderly(s: System, a: Action)
    requires Orderly(s) && a.Ask? && a.r !in s.requests && !SweepsOneInUse(s, a)
    ensures Orderly(Step(s, a))
  {
    AskSound(s, a.r, a.key);
    AskOrphansNone(s, a);
    forall i: nat | i < |s.log| && s.log[i].FetchEnded? ensures RememberedOrOld(Step(s, a), s.log[i]) {
      AskRemembers(s, a.r, a.key, s.log[i]);
    }
  }

  /** Steps that are quiet leave nobody without a slot in the map, and nothing forgotten. */
  lemma QuietOrderly(s: System, s': System)
    requires Sound(s) && NoOrphans(s) && Remembered(s) && Quiet(s, s') && s'.log == s.log
    ensures NoOrphans(s') && Remembered(s')
  {
    forall r: RequestId | Active(s', r) && Known(s', r) ensures InMap(s', r) {
      assert Active(s, r) && Known(s, r) && InMap(s, r);
    }
    forall i: nat | i < |s'.log| && s'.log[i].FetchEnded? ensures RememberedOrOld(s', s'.log[i]) {
      assert RememberedOrOld(s, s.log[i]);
    }
  }

  lemma NoteOrderly(s: System, e: Event)
    requires Sound(s) && NoOrphans(s) && Remembered(s) && SpacedOut(s.log)
    requires e.FetchEnded? ==> RememberedOrOld(s, e)
    requires e.FetchBegan? ==> forall i: nat :: i < |s.log| && s.log[i].FetchEnded? ==> Spaced(s.log[i], e)
    ensures Orderly(Note(s, e))
  {
    var s' := Note(s, e);
    NoteSound(s, e);
    SpacingGrows(s.log, e);
    forall r: RequestId | Active(s', r) && Known(s', r) ensures InMap(s', r) {
      assert Active(s, r) && Known(s, r) && InMap(s, r);
    }
    forall i: nat | i < |s'.log| && s'.log[i].FetchEnded? ensures RememberedOrOld(s', s'.log[i]) {
      if i < |s.log| {
        assert RememberedOrOld(s, s.log[i]);
      }
    }
  }

  lemma ResumeOrderly(s: System, r: RequestId)
    requires Orderly(s) && HasLock(s, r) && Known(s, r)
    ensures Orderly(Resumed(s, r))
  {
    var slot := SlotOf(s, r);
    if HasFresh(slot, s.now) {
      LetGoSound(s, r);
      LetGoQuiet(s, r);
      QuietOrderly(s, LetGo(s, r));
      NoteOrderly(LetGo(s, r), GaveCached(slot.key, s.now, slot.entry.value.outcome));
    } else {
      var s', e := SetPhase(s, r, Fetching), FetchBegan(slot.key, s.now);
      FetchSound(s, r);
      QuietOrderly(s, s');
      assert Active(s, r) && InMap(s, r);
      forall i: nat | i < |s.log| && s.log[i].FetchEnded? ensures Spaced(s.log[i], e) {
        assert RememberedOrOld(s, s.log[i]);
      }
      NoteOrderly(s', e);
    }
  }

  lemma LockOrderly(s: System, r: RequestId)
    requires Orderly(s) && Is(s, r, Cloned) && Known(s, r)
    ensures Orderly(Step(s, Lock(r)))
  {
    if SlotOf(s, r).holder.None? {
      TookSound(s, r);
      QuietOrderly(s, Took(s, r));
      ResumeOrderly(Took(s, r), r);
    } else {
      JoinSound(s, r);
      QuietOrderly(s, Joined(s, r));
    }
  }

  lemma FinishOrderly(s: System, r: RequestId, outcome: Outcome)
    requires Orderly(s) && IsFetching(s, r) && Known(s, r)
    ensures Orderly(Finished(s, r, outcome))
  {
    var stored := Stored(s, r, outcome);
    StoreSound(s, r, outcome);
    assert Active(s, r) && InMap(s, r);
    forall q: RequestId | Active(stored, q) && Known(stored, q) ensures InMap(stored, q) {
      assert Active(s, q) && Known(s, q) && InMap(s, q);
    }
    forall i: nat | i < |stored.log| && stored.log[i].FetchEnded? ensures RememberedOrOld(stored, stored.log[i]) {
      assert RememberedOrOld(s, s.log[i]);
    }
    LetGoSound(stored, r);
    LetGoQuiet(stored, r);
    QuietOrderly(stored, LetGo(stored, r));
    NoteOrderly(LetGo(stored, r), FetchEnded(SlotOf(s, r).key, s.now, outcome));
  }

  lemma StepOrderly(s: System, a: Action)
    requires Orderly(s) && !SweepsOneInUse(s, a)
    ensures Orderly(Step(s, a))
  {
    match a
    case Tick(secs) =>
      TickSound(s, secs);
      forall i: nat | i < |s.log| && s.log[i].FetchEnded? ensures RememberedOrOld(Step(s, a), s.log[i]) {
        assert RememberedOrOld(s, s.log[i]);
      }
    case Ask(r, _) =>
      if r !in s.requests {
        AskOrderly(s, a);
      }
    case Lock(r) =>
      if Is(s, r, Cloned) && Known(s, r) {
        LockOrderly(s, r);
      }
    case Resume(r) =>
      if Is(s, r, Granted) && Known(s, r) {
        ResumeOrderly(s, r);
      }
    case Finish(r, outcome) =>
      if IsFetching(s, r) && Known(s, r) {
        FinishOrderly(s, r, outcome);
      }
    case Drop(r) =>
      StepSound(s, a);
      DropQuiet(s, r);
      QuietOrderly(s, Step(s, a));
  }

  /** No sweep of a run took out a slot in use. */
  ghost predicate SweptNoneInUse(now: int, actions: seq<Action>) {
    forall i: nat :: i < |actions| ==> !SweepsOneInUse(Run(now, actions[..i]), actions[i])
  }

  lemma {:induction false} RunOrderly(now: int, actions: seq<Action>)
    requires SweptNoneInUse(now, actions)
    ensures Orderly(Run(now, actions))
    decreases |actions|
  {
    if actions != [] {
      var before := DropLast(actions);
      assert before == actions[..|actions| - 1];
      forall i: nat | i < |before| ensures !SweepsOneInUse(Run(now, before[..i]), before[i]) {
        assert before[..i] == actions[..i];
        assert !SweepsOneInUse(Run(now, actions[..i]), actions[i]);
      }
      RunOrderly(now, before);
      StepOrderly(Run(now, before), Last(actions));
    }
  }

  ghost predicate TwoFetches(s: System) {
    exists q: RequestId, r: RequestId :: q != r && IsFetching(s, q) && IsFetching(s, r) && Known(s, q) && Known(s, r)
                   && SlotOf(s, q).key == SlotOf(s, r).key
  }

  /** As long as no sweep takes out a slot in use: one fetch in flight per file, each beginning at
      least 20 seconds after the one before it ended. */
  lemma OneFetchAtATime(now: int, actions: seq<Action>)
    requires SweptNoneInUse(now, actions)
    ensures !TwoFetches(Run(now, actions)) && SpacedOut(Run(now, actions).log)
  {
    RunOrderly(now, actions);
    var s := Run(now, actions);
    forall q: RequestId, r: RequestId | IsFetching(s, q) && IsFetching(s, r) && Known(s, q) && Known(s, r)
                                        && SlotOf(s, q).key == SlotOf(s, r).key
      ensures q == r
    {
      assert RequestOk(s, q) && RequestOk(s, r);
      assert Active(s, q) && Active(s, r) && InMap(s, q) && InMap(s, r);
      assert SlotOf(s, q).holder == Some(q) && SlotOf(s, r).holder == Some(r);
    }
  }

  // ---- And only then ----

  /** A slot taken out of the map is under no key any more. */
  lemma SweptOut(s: System, a: Action, w: RequestId)
    requires Sound(s) && a.Ask? && a.r !in s.requests && |s.index| >= SWEEP_AT
    requires Is(s, w, Cloned) && Known(s, w) && !Stays(SlotOf(s, w), s.now)
    ensures var s' := Step(s, a);
            && Is(s', w, Cloned) && Known(s', w) && SlotOf(s', w) == SlotOf(s, w)
            && (forall k :: k in s'.index ==> s'.index[k] != s'.requests[w].slot)
  {
  }

  /** A reader whose slot is out of the map, and has nothing fresh, can fetch; and so can the next
      reader of the same file, or one already before it in the queue, once whatever the map's slot
      holds is no longer fresh. */
  lemma OrphanLetsTwoFetch(s: System, w: RequestId, r: RequestId) returns (more: seq<Action>)
    requires Sound(s) && Is(s, w, Cloned) && Known(s, w) && !Stays(SlotOf(s, w), s.now) && r !in s.requests
    requires forall k :: k in s.index ==> s.index[k] != s.requests[w].slot
    ensures TwoFetches(RunFrom(s, more))
  {
    var key := SlotOf(s, w).key;
    var lock, tick, ask := Lock(w), Tick(FOUND_TTL), Ask(r, key);
    var s1 := OrphanFetches(s, w, r);
    var s2 := Step(s1, tick);
    TickSound(s1, FOUND_TTL);
    var s3 := NextReader(s1, s2, w, r, key);
    var last := FetchesToo(s3, w, r, key);
    more := [lock, tick, ask, last];
    RunsFour(s, more);
  }

  lemma OrphanFetches(s: System, w: RequestId, r: RequestId) returns (s': System)
    requires Sound(s) && Is(s, w, Cloned) && Known(s, w) && !Stays(SlotOf(s, w), s.now) && r !in s.requests
    requires forall k :: k in s.index ==> s.index[k] != s.requests[w].slot
    ensures s' == Step(s, Lock(w)) && Sound(s') && r !in s'.requests
    ensures IsFetching(s', w) && Known(s', w) && SlotOf(s', w).key == SlotOf(s, w).key
    ensures forall k :: k in s'.index ==> s'.index[k] != s'.requests[w].slot
  {
    s' := Step(s, Lock(w));
    StepSound(s, Lock(w));
  }

  /** Later, when nothing stored so far is fresh, a reader of the file comes to another slot. */
  lemma NextReader(s1: System, s2: System, w: RequestId, r: RequestId, key: Key) returns (s3: System)
    requires Sound(s1) && Sound(s2) && s2 == Step(s1, Tick(FOUND_TTL)) && r !in s1.requests
    requires IsFetching(s1, w) && Known(s1, w) && SlotOf(s1, w).key == key
    requires forall k :: k in s1.index ==> s1.index[k] != s1.requests[w].slot
    ensures s3 == Step(s2, Ask(r, key)) && Sound(s3) && IsFetching(s3, w) && Known(s3, w) && SlotOf(s3, w).key == key
    ensures Is(s3, r, Cloned) && Known(s3, r) && SlotOf(s3, r).key == key && !HasFresh(SlotOf(s3, r), s3.now)
    ensures s3.requests[r].slot != s3.requests[w].slot
  {
    s3 := Asked(s2, r, key);
    AskSound(s2, r, key);
    AskedSlot(s2, r, key);
    StillStale(s1, s2, s3, r, key);
  }

  /** Whoever comes by the lock of a slot that holds nothing fresh fetches, or somebody is fetching
      there already. */
  lemma FetchesToo(s: System, w: RequestId, r: RequestId, key: Key) returns (last: Action)
    requires Sound(s) && IsFetching(s, w) && Known(s, w) && Is(s, r, Cloned) && Known(s, r)
    requires s.requests[r].slot != s.requests[w].slot && SlotOf(s, w).key == key == SlotOf(s, r).key
    requires !HasFresh(SlotOf(s, r), s.now)
    ensures TwoFetches(Step(s, last))
  {
    var slot := SlotOf(s, r);
    assert SlotOk(s, s.requests[r].slot);
    var p := if slot.holder.Some? then slot.holder.value else r;
    last := if Is(s, p, Granted) then Resume(p) else Lock(r);
    var s' := Step(s, last);
    assert IsFetching(s', p) && Known(s', p) && Known(s', w) && SlotOf(s', p).key == key == SlotOf(s', w).key;
    assert IsFetching(s', w) && p != w;
  }

  /** A new reader gets a slot under its key. */
  lemma AskedSlot(s: System, r: RequestId, key: Key)
    requires Sound(s) && r !in s.requests
    ensures var s' := Asked(s, r, key);
            && Known(s', r) && SlotOf(s', r).key == key && Is(s', r, Cloned)
            && (s'.requests[r].slot == |s.slots| || (key in s.index && s'.requests[r].slot == s.index[key]))
  {
    assert key in s.index ==> Filed(s, key);
  }

  /** After the longest time anything is believed, no entry made before is fresh. */
  lemma StillStale(s1: System, s2: System, s3: System, r: RequestId, key: Key)
    requires Sound(s1) && s2 == Step(s1, Tick(FOUND_TTL)) && r !in s2.requests && s3 == Asked(s2, r, key)
    requires Known(s3, r)
    ensures !HasFresh(SlotOf(s3, r), s3.now)
  {
    var i := s3.requests[r].slot;
    if i < |s1.slots| {
      assert SlotOk(s1, i);
    }
  }

  lemma RunsFour(s: System, more: seq<Action>)
    requires |more| == 4
    ensures RunFrom(s, more) == Step(Step(Step(Step(s, more[0]), more[1]), more[2]), more[3])
  {
    assert more == [more[0]] + [more[1]] + [more[2]] + [more[3]];
    RunsOn(s, [more[0]] + [more[1]] + [more[2]], [more[3]]);
    RunsOn(s, [more[0]] + [more[1]], [more[2]]);
    RunsOn(s, [more[0]], [more[1]]);
    RunsOne(s, more[0]);
    RunsOne(Step(s, more[0]), more[1]);
    RunsOne(Step(Step(s, more[0]), more[1]), more[2]);
    RunsOne(Step(Step(Step(s, more[0]), more[1]), more[2]), more[3]);
  }

  lemma RunsMore(s: System, actions: seq<Action>, a: Action)
    ensures RunFrom(s, actions + [a]) == Step(RunFrom(s, actions), a)
  {
    SnocEnds(actions, a);
  }

  lemma RunsOne(s: System, a: Action)
    ensures RunFrom(s, [a]) == Step(s, a)
  {
    assert DropLast([a]) == [];
  }

  lemma {:induction false} RunsOn(s: System, one: seq<Action>, two: seq<Action>)
    ensures RunFrom(s, one + two) == RunFrom(RunFrom(s, one), two)
    decreases |two|
  {
    if two == [] {
      assert one + two == one;
    } else {
      RunsOn(s, one, DropLast(two));
      assert DropLast(one + two) == one + DropLast(two);
    }
  }

  /** A sweep that takes out a slot in use is enough, whatever came before: there is a way on in
      which one file is fetched twice at once. */
  lemma SweepInUseLetsTwoFetch(now: int, actions: seq<Action>, a: Action, r: RequestId) returns (more: seq<Action>)
    requires SweepsOneInUse(Run(now, actions), a) && r !in Run(now, actions).requests && r != a.r
    ensures TwoFetches(Run(now, actions + [a] + more))
  {
    RunKeeps(now, actions);
    var s := Run(now, actions);
    more := SweptLetsTwoFetch(s, a, r);
    RunsMore(Start(now), actions, a);
    RunsOn(Start(now), actions + [a], more);
  }

  lemma SweptLetsTwoFetch(s: System, a: Action, r: RequestId) returns (more: seq<Action>)
    requires Sound(s) && SweepsOneInUse(s, a) && r !in s.requests && r != a.r
    ensures TwoFetches(RunFrom(Step(s, a), more))
  {
    var w: RequestId :| Is(s, w, Cloned) && Known(s, w) && !Stays(SlotOf(s, w), s.now);
    SweptOut(s, a, w);
    StepSound(s, a);
    more := OrphanLetsTwoFetch(Step(s, a), w, r);
  }

  /** `n` letters. */
  function Name(n: nat): (s: string)
    ensures |s| == n
  {
    if n == 0 then "" else Name(n - 1) + "a"
  }

  function File(n: nat): Key { Key("course", None, Name(n)) }

  /** One reader has its slot in hand; `n` more, each of a file of its own, come and are done. */
  function Readers(n: nat): seq<Action> {
    if n == 0 then [Ask(0, File(0))] else Readers(n - 1) + [Ask(n, File(n))] + [Lock(n)] + [Finish(n, Found(""))]
  }

  function ReadSlot(n: nat): Slot { Slot(File(n), if n == 0 then None else Some(Entry(0, Found(""))), None, []) }

  ghost predicate AllRead(s: System, n: nat) {
    && s.now == 0 && |s.index| == |s.slots| == n + 1
    && (forall k :: k in s.index ==> s.index[k] <= n && k == File(s.index[k]))
    && (forall r: RequestId :: r in s.requests <==> r <= n)
    && s.requests[0] == Request(0, Cloned)
    && (forall i: nat :: i <= n ==> s.slots[i] == ReadSlot(i))
  }

  lemma FilesDiffer(i: nat, j: nat)
    requires i != j
    ensures File(i) != File(j)
  {
    assert |Name(i)| == i && |Name(j)| == j;
  }

  lemma NewFile(s: System, n: nat)
    requires AllRead(s, n)
    ensures File(n + 1) !in s.index
  {
    if File(n + 1) in s.index {
      FilesDiffer(s.index[File(n + 1)], n + 1);
    }
  }

  /** A reader of a new file, from its coming to its end. */
  function ReadOnce(s: System, n: nat): System {
    Step(Step(Step(s, Ask(n, File(n))), Lock(n)), Finish(n, Found("")))
  }

  lemma OneMoreReads(s: System, n: nat, m: nat, key: Key, name: Outcome)
    requires AllRead(s, n) && m == n + 1 < SWEEP_AT && key == File(m) && name == Found("")
    ensures AllRead(ReadOnce(s, m), m)
  {
    NewFile(s, n);
    var s1 := s.(slots := s.slots + [Slot(key, None, None, [])], index := s.index[key := m],
                 requests := s.requests[m := Request(m, Cloned)]);
    assert Step(s, Ask(m, key)) == s1;
    LocksAndReads(s, s1, m, key);
    FinishesReading(s, Step(s1, Lock(m)), m, key, name);
    StaysAllRead(s, ReadOnce(s, m), n, m, key);
  }

  lemma LocksAndReads(s: System, s1: System, m: nat, key: Key)
    requires m == |s.slots|
    requires s1 == s.(slots := s.slots + [Slot(key, None, None, [])], index := s.index[key := m],
                      requests := s.requests[m := Request(m, Cloned)])
    ensures Step(s1, Lock(m))
            == s.(slots := s.slots + [Slot(key, None, Some(m), [])], index := s.index[key := m],
                  requests := s.requests[m := Request(m, Fetching)], log := s.log + [FetchBegan(key, s.now)])
  {
  }

  lemma FinishesReading(s: System, s2: System, m: nat, key: Key, outcome: Outcome)
    requires m == |s.slots|
    requires s2 == s.(slots := s.slots + [Slot(key, None, Some(m), [])], index := s.index[key := m],
                      requests := s.requests[m := Request(m, Fetching)], log := s.log + [FetchBegan(key, s.now)])
    ensures Step(s2, Finish(m, outcome))
            == s.(slots := s.slots + [Slot(key, Some(Entry(s.now, outcome)), None, [])], index := s.index[key := m],
                  requests := s.requests[m := Request(m, Done)],
                  log := s.log + [FetchBegan(key, s.now)] + [FetchEnded(key, s.now, outcome)])
  {
  }

  lemma StaysAllRead(s: System, s': System, n: nat, m: nat, key: Key)
    requires AllRead(s, n) && m == n + 1 && key == File(m) && key !in s.index
    requires s'.slots == s.slots + [ReadSlot(m)] && s'.index == s.index[key := m] && s'.now == s.now
    requires s'.requests == s.requests[m := Request(m, Done)]
    ensures AllRead(s', m)
  {
  }

  lemma RunsThreeMore(s: System, before: seq<Action>, one: Action, two: Action, three: Action)
    ensures RunFrom(s, before + [one] + [two] + [three]) == Step(Step(Step(RunFrom(s, before), one), two), three)
  {
    RunsMore(s, before, one);
    RunsMore(s, before + [one], two);
    RunsMore(s, before + [one] + [two], three);
  }

  lemma FirstReader()
    ensures AllRead(Run(0, Readers(0)), 0)
  {
    var key := File(0);
    RunsOne(Start(0), Ask(0, key));
    var s := System([Slot(key, None, None, [])], map[key := 0], map[0 := Request(0, Cloned)], 0, []);
    assert Step(Start(0), Ask(0, key)) == s;
  }

  lemma ReadersMore(start: System, n: nat)
    requires n > 0
    ensures RunFrom(start, Readers(n)) == ReadOnce(RunFrom(start, Readers(n - 1)), n)
  {
    RunsThreeMore(start, Readers(n - 1), Ask(n, File(n)), Lock(n), Finish(n, Found("")));
  }

  lemma {:induction false} ReadersAreDone(n: nat) returns (s: System)
    requires n < SWEEP_AT
    ensures s == Run(0, Readers(n)) && AllRead(s, n)
    decreases n
  {
    if n == 0 {
      FirstReader();
      s := Run(0, Readers(0));
    } else {
      var before := ReadersAreDone(n - 1);
      ReadersMore(Start(0), n);
      OneMoreReads(before, n - 1, n, File(n), Found(""));
      s := ReadOnce(before, n);
    }
  }

  /** It takes one reader that has its slot in hand while the class goes through 511 other files and
      on to one more: no more than one of them is being read at any moment. */
  lemma LargeClassesFetchTwice() returns (actions: seq<Action>)
    ensures Readers(SWEEP_AT - 1) + [Ask(SWEEP_AT, File(SWEEP_AT))] <= actions
    ensures TwoFetches(Run(0, actions))
  {
    var n := SWEEP_AT - 1;
    var s := ReadersAreDone(n);
    var a := Ask(SWEEP_AT, File(SWEEP_AT));
    assert Is(s, 0, Cloned) && Known(s, 0) && SlotOf(s, 0) == ReadSlot(0) && !Stays(ReadSlot(0), s.now);
    var more := SweepInUseLetsTwoFetch(0, Readers(n), a, SWEEP_AT + 1);
    actions := Readers(n) + [a] + more;
  }
}
