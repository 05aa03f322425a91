/** A cache of tokens with one lock per repository, which a request keeps until GitHub has answered it.
    The requests of any number of callers interleave. */
module TokenCaches {
  import opened EditScripts

  const EXPIRY_MARGIN_SECS := 60

  // ---- Repos ----

  datatype Key = Key(owner: string, repo: string)

  function LowerChar(c: char): char {
    if 'A' <= c <= 'Z' then (c as int + 32) as char else c
  }

  function Lower(s: string): string {
    seq(|s|, i requires 0 <= i < |s| => LowerChar(s[i]))
  }

  function KeyOf(owner: string, repo: string): Key { Key(Lower(owner), Lower(repo)) }

  // ---- The cache and those asking it ----

  datatype Minted = Minted(token: string, expiresAt: int)

  type RequestId = nat

  /** A slot: the token last minted for it, and the request minting the next one. */
  datatype Slot = Slot(held: Option<Minted>, holder: Option<RequestId>)

  datatype Phase = Queued | Minting | Done

  datatype Request = Request(key: Key, phase: Phase)

  /** What happened so far, for the claims to be about. */
  datatype Event =
    | MintBegan(key: Key, at: int)
    | MintSucceeded(key: Key, at: int, minted: Minted)
    | MintFailed(key: Key, at: int)
    | GaveCached(key: Key, at: int, token: string)

  datatype System = System(slots: map<Key, Slot>, requests: map<RequestId, Request>, now: int, log: seq<Event>)

  function Start(now: int): System { System(map[], map[], now, []) }

  datatype Action =
    | Tick(secs: nat)
    | Ask(r: RequestId, owner: string, repo: string)
    // Gets the slot's lock, and either answers at once or begins to mint.
    | Enter(r: RequestId)
    | Succeed(r: RequestId, minted: Minted)
    | Fail(r: RequestId)
    // The request is given up, in whatever phase.
    | Drop(r: RequestId)

  predicate Usable(minted: Minted, now: int) { minted.expiresAt - EXPIRY_MARGIN_SECS > now }

  predicate Enterable(s: System, r: RequestId) {
    && r in s.requests && s.requests[r].phase.Queued?
    && s.requests[r].key in s.slots && s.slots[s.requests[r].key].holder.None?
  }

  predicate IsMinting(s: System, r: RequestId) { r in s.requests && s.requests[r].phase.Minting? }

  function SetPhase(s: System, r: RequestId, phase: Phase): System
    requires r in s.requests
  {
    s.(requests := s.requests[r := s.requests[r].(phase := phase)])
  }

  function Note(s: System, e: Event): System { s.(log := s.log + [e]) }

  /** One step. An action that is not possible changes nothing. */
  function Step(s: System, a: Action): System {
    match a
    case Tick(secs) => s.(now := s.now + secs)
    case Ask(r, owner, repo) =>
      if r in s.requests then s
      else
        var key := KeyOf(owner, repo);
        s.(requests := s.requests[r := Request(key, Queued)],
           slots := if key in s.slots then s.slots else s.slots[key := Slot(None, None)])
    case Enter(r) =>
      if !Enterable(s, r) then s
      else
        var key := s.requests[r].key;
        var slot := s.slots[key];
        if slot.held.Some? && Usable(slot.held.value, s.now)
        then Note(SetPhase(s, r, Done), GaveCached(key, s.now, slot.held.value.token))
        else Note(SetPhase(s, r, Minting).(slots := s.slots[key := slot.(holder := Some(r))]), MintBegan(key, s.now))
    case Succeed(r, minted) =>
      if !IsMinting(s, r) then s
      else
        var key := s.requests[r].key;
        Note(SetPhase(s, r, Done).(slots := s.slots[key := Slot(Some(minted), None)]),
             MintSucceeded(key, s.now, minted))
    case Fail(r) =>
      if !IsMinting(s, r) then s
      else Note(Released(s, r), MintFailed(s.requests[r].key, s.now))
    case Drop(r) =>
      if r !in s.requests then s
      else if IsMinting(s, r) then Released(s, r)
      else SetPhase(s, r, Done)
  }

  /** The lock goes with the request that held it; what the slot holds stays. */
  function Released(s: System, r: RequestId): System
    requires IsMinting(s, r)
  {
    var key := s.requests[r].key;
    SetPhase(s, r, Done).(slots := if key in s.slots then s.slots[key := s.slots[key].(holder := None)] else s.slots)
  }

  function Run(now: int, actions: seq<Action>): System {
    if actions == [] then Start(now) else Step(Run(now, DropLast(actions)), Last(actions))
  }

  // ---- What holds throughout ----

  /** The last token minted for a repo, however many mints failed or were given up since. */
  function LastMinted(log: seq<Event>, key: Key): Option<Minted> {
    if log == [] then None
    else
      var e := Last(log);
      if e.MintSucceeded? && e.key == key then Some(e.minted) else LastMinted(DropLast(log), key)
  }

  /** What is cached is what was minted last, whether or not a slot has been made. */
  predicate HoldsLast(s: System, key: Key) {
    LastMinted(s.log, key) == if key in s.slots then s.slots[key].held else None
  }

  /** Locks and mints go together. */
  ghost predicate Locked(s: System) {
    && (forall r :: r in s.requests ==> s.requests[r].key in s.slots)
    && (forall r :: IsMinting(s, r) ==> s.slots[s.requests[r].key].holder == Some(r))
    && (forall k :: k in s.slots && s.slots[k].holder.Some? ==>
                      var r := s.slots[k].holder.value;
                      IsMinting(s, r) && s.requests[r].key == k)
  }

  /** A cached token was handed out while it was the last minted, with more than a minute left; a
      mint began only when there was no such token. */
  predicate EventOk(log: seq<Event>, i: nat)
    requires i < |log|
  {
    match log[i]
    case GaveCached(key, at, token) =>
      var last := LastMinted(log[..i], key);
      last.Some? && last.value.token == token && Usable(last.value, at)
    case MintBegan(key, at) =>
      var last := LastMinted(log[..i], key);
      last.Some? ==> !Usable(last.value, at)
    case _ => true
  }

  ghost predicate LogOk(log: seq<Event>) { forall i: nat :: i < |log| ==> EventOk(log, i) }

  ghost predicate Inv(s: System) {
    && Locked(s)
    && (forall k :: HoldsLast(s, k))
    && LogOk(s.log)
  }

  lemma LogGrows(log: seq<Event>, e: Event)
    requires LogOk(log) && EventOk(log + [e], |log|)
    ensures LogOk(log + [e])
  {
    forall i: nat | i < |log + [e]| ensures EventOk(log + [e], i) {
      if i < |log| {
        assert EventOk(log, i);
        assert (log + [e])[..i] == log[..i];
      }
    }
  }

  lemma NotedLast(log: seq<Event>, e: Event, key: Key)
    ensures LastMinted(log + [e], key)
         == if e.MintSucceeded? && e.key == key then Some(e.minted) else LastMinted(log, key)
    ensures (log + [e])[..|log|] == log
  {
    assert DropLast(log + [e]) == log;
  }

  lemma EnterLocks(s: System, r: RequestId)
    requires Locked(s) && Enterable(s, r)
    ensures Locked(Step(s, Enter(r)))
  {
  }

  /** Entering notes one event, of no mint, and leaves what every slot holds. */
  lemma EntersHolding(s: System, r: RequestId, k: Key)
    requires Enterable(s, r)
    ensures var s' := Step(s, Enter(r));
            && s'.log != [] && s'.log == s.log + [Last(s'.log)] && !Last(s'.log).MintSucceeded?
            && (k in s'.slots <==> k in s.slots) && (k in s.slots ==> s'.slots[k].held == s.slots[k].held)
  {
  }

  lemma EnterHolds(s: System, r: RequestId, k: Key)
    requires HoldsLast(s, k) && Enterable(s, r)
    ensures HoldsLast(Step(s, Enter(r)), k)
  {
    var s' := Step(s, Enter(r));
    EntersHolding(s, r, k);
    NotedLast(s.log, Last(s'.log), k);
  }

  lemma EnterLogs(s: System, r: RequestId)
    requires LogOk(s.log) && Enterable(s, r) && HoldsLast(s, s.requests[r].key)
    ensures LogOk(Step(s, Enter(r)).log)
  {
    var e := Last(Step(s, Enter(r)).log);
    NotedLast(s.log, e, s.requests[r].key);
    LogGrows(s.log, e);
  }

  lemma EnterKeeps(s: System, r: RequestId)
    requires Inv(s) && Enterable(s, r)
    ensures Inv(Step(s, Enter(r)))
  {
    assert HoldsLast(s, s.requests[r].key);
    EnterLocks(s, r);
    EnterLogs(s, r);
    forall k ensures HoldsLast(Step(s, Enter(r)), k) {
      assert HoldsLast(s, k);
      EnterHolds(s, r, k);
    }
  }

  lemma EndKeeps(s: System, a: Action)
    requires Inv(s) && (a.Succeed? || a.Fail? || a.Drop?) && IsMinting(s, a.r)
    ensures Inv(Step(s, a))
  {
    var s' := Step(s, a);
    if !a.Drop? {
      LogGrows(s.log, Last(s'.log));
    }
    forall k ensures HoldsLast(s', k) {
      assert HoldsLast(s, k);
      if !a.Drop? {
        NotedLast(s.log, Last(s'.log), k);
      }
    }
  }

  lemma AskKeeps(s: System, a: Action)
    requires Inv(s) && a.Ask?
    ensures Inv(Step(s, a))
  {
    forall k ensures HoldsLast(Step(s, a), k) {
      assert HoldsLast(s, k);
    }
  }

  lemma StepKeeps(s: System, a: Action)
    requires Inv(s)
    ensures Inv(Step(s, a))
  {
    match a
    case Tick(_) =>
      forall k ensures HoldsLast(Step(s, a), k) {
        assert HoldsLast(s, k);
      }
    case Ask(_, _, _) => AskKeeps(s, a);
    case Enter(r) =>
      if Enterable(s, r) {
        EnterKeeps(s, r);
      }
    case Succeed(r, _) =>
      if IsMinting(s, r) {
        EndKeeps(s, a);
      }
    case Fail(r) =>
      if IsMinting(s, r) {
        EndKeeps(s, a);
      }
    case Drop(r) =>
      if IsMinting(s, r) {
        EndKeeps(s, a);
      } else {
        forall k ensures HoldsLast(Step(s, a), k) {
          assert HoldsLast(s, k);
        }
      }
  }

  lemma {:induction false} RunKeeps(now: int, actions: seq<Action>)
    ensures Inv(Run(now, actions))
    decreases |actions|
  {
    if actions != [] {
      RunKeeps(now, DropLast(actions));
      StepKeeps(Run(now, DropLast(actions)), Last(actions));
    }
  }

  // ---- The claims ----

  /** However requests interleave, a repo has at most one mint in flight. */
  lemma OneMintAtATime(now: int, actions: seq<Action>, q: RequestId, r: RequestId)
    requires var s := Run(now, actions); IsMinting(s, q) && IsMinting(s, r) && s.requests[q].key == s.requests[r].key
    ensures q == r
  {
    RunKeeps(now, actions);
  }

  /** A token out of the cache is the last one minted for its repo, and had more than a minute left;
      and while there was such a token nothing was minted. */
  lemma CachedTokensAreGood(now: int, actions: seq<Action>, i: nat)
    requires i < |Run(now, actions).log|
    ensures var log := Run(now, actions).log;
            var last := LastMinted(log[..i], log[i].key);
            && (log[i].GaveCached? ==> && last.Some? && last.value.token == log[i].token
                                       && last.value.expiresAt > log[i].at + EXPIRY_MARGIN_SECS)
            && (log[i].MintBegan? ==> last.Some? ==> last.value.expiresAt <= log[i].at + EXPIRY_MARGIN_SECS)
  {
    RunKeeps(now, actions);
    assert EventOk(Run(now, actions).log, i);
  }

  /** A mint that was begun and then failed or was dropped leaves no trace: time passes, and the next
      request for that repository hears, or does, what it would have without that mint. */
  lemma FailureIsForgotten(now: int, actions: seq<Action>, r: RequestId, end: Action, q: RequestId, secs: nat)
    requires var s := Run(now, actions); Enterable(s, r) && IsMinting(Step(s, Enter(r)), r)
    requires end == Fail(r) || end == Drop(r)
    requires var s := Run(now, actions); Enterable(s, q) && q != r && s.requests[q].key == s.requests[r].key
    ensures var s := Run(now, actions);
            var without := Step(Step(s, Tick(secs)), Enter(q));
            var after := Step(Step(Step(Step(s, Enter(r)), Tick(secs)), end), Enter(q));
            && without.log != [] && after.log != [] && Last(after.log) == Last(without.log)
            && after.requests[q] == without.requests[q] && after.slots == without.slots
  {
    var s := Run(now, actions);
    var key := s.requests[r].key;
    var begun := Step(Step(s, Enter(r)), Tick(secs));
    assert begun.slots == s.slots[key := s.slots[key].(holder := Some(r))] && IsMinting(begun, r);
    var over := Step(begun, end);
    assert over.slots == s.slots && over.requests[q] == s.requests[q] && over.now == s.now + secs;
    EntersAlike(over, Step(s, Tick(secs)), q);
  }

  /** What entering does depends on the slots and the time alone. */
  lemma EntersAlike(s: System, t: System, q: RequestId)
    requires Enterable(s, q) && Enterable(t, q)
    requires s.slots == t.slots && s.now == t.now && s.requests[q] == t.requests[q]
    ensures var s', t' := Step(s, Enter(q)), Step(t, Enter(q));
            && s'.log != [] && t'.log != [] && Last(s'.log) == Last(t'.log)
            && s'.requests[q] == t'.requests[q] && s'.slots == t'.slots
  {
  }

  /** Nobody waits for another repo: a queued request can enter unless its own repo is being minted. */
  lemma OnlyItsOwnRepoHoldsARequestUp(now: int, actions: seq<Action>, r: RequestId)
    requires var s := Run(now, actions); r in s.requests && s.requests[r].phase.Queued?
    ensures var s := Run(now, actions);
            Step(s, Enter(r)).requests[r].phase.Queued?
            <==> exists q :: IsMinting(s, q) && s.requests[q].key == s.requests[r].key
  {
    RunKeeps(now, actions);
    var s := Run(now, actions);
    var slot := s.slots[s.requests[r].key];
    if slot.holder.Some? {
      assert IsMinting(s, slot.holder.value);
    }
  }

  /** Names that differ only in capitals are one repo, and no others are. */
  lemma SameRepoIffSameLetters(owner: string, repo: string, owner': string, repo': string)
    ensures KeyOf(owner, repo) == KeyOf(owner', repo') <==> SameLetters(owner, owner') && SameLetters(repo, repo')
  {
    SameLower(owner, owner');
    SameLower(repo, repo');
  }

  /** Letter for letter the same but for the case of A to Z. */
  predicate SameLetters(s: string, t: string) {
    |s| == |t| && forall i :: 0 <= i < |s| ==> s[i] == t[i] || IsCaseOf(s[i], t[i]) || IsCaseOf(t[i], s[i])
  }

  predicate IsCaseOf(upper: char, lower: char) {
    'A' <= upper <= 'Z' && 'a' <= lower <= 'z' && lower as int - upper as int == 'a' as int - 'A' as int
  }

  lemma SameLower(s: string, t: string)
    ensures Lower(s) == Lower(t) <==> SameLetters(s, t)
  {
    if Lower(s) == Lower(t) {
      assert |Lower(s)| == |s| && |Lower(t)| == |t|;
      forall i | 0 <= i < |s| ensures s[i] == t[i] || IsCaseOf(s[i], t[i]) || IsCaseOf(t[i], s[i]) {
        assert Lower(s)[i] == LowerChar(s[i]) && Lower(t)[i] == LowerChar(t[i]);
      }
    }
  }
}
