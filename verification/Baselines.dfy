/** A bounded map from files to committed texts that gives up whichever file was used longest ago.
    A lookup and the load it leads to are two steps, and other requests may run between them. */
module Baselines {
  import opened EditScripts

  const ABSENT_TTL_MS := 10000

  /** The text a commit has for a file, if it has the file at all. */
  type Committed = Option<string>

  datatype Entry = Entry(commit: string, committed: Committed, at: int)

  datatype Item = Item(file: string, entry: Entry)

  // ---- A map in the order things were put in ----

  function Files(items: seq<Item>): seq<string> {
    seq(|items|, i requires 0 <= i < |items| => items[i].file)
  }

  /** What the map holds for a file. */
  function Find(items: seq<Item>, file: string): Option<Entry> {
    if items == [] then None
    else if items[0].file == file then Some(items[0].entry)
    else Find(items[1..], file)
  }

  function Deleted(items: seq<Item>, file: string): seq<Item> {
    if items == [] then []
    else if items[0].file == file then Deleted(items[1..], file)
    else [items[0]] + Deleted(items[1..], file)
  }

  /** Deletes a file and puts it back at the end. */
  function Put(items: seq<Item>, item: Item): seq<Item> { Deleted(items, item.file) + [item] }

  /** A file used now is the most recent. */
  function Used(files: seq<string>, file: string): seq<string> { Without(files, file) + [file] }

  /** The last `n`. */
  function Newest<T>(s: seq<T>, n: nat): seq<T> { if |s| <= n then s else s[|s| - n..] }

  function Trimmed<T>(s: seq<T>, n: nat): seq<T> { if |s| > n then s[1..] else s }

  lemma {:induction false} DeletedFiles(items: seq<Item>, file: string)
    ensures Files(Deleted(items, file)) == Without(Files(items), file)
    ensures forall k :: 0 <= k < |Deleted(items, file)| ==> Deleted(items, file)[k] in items
    decreases |items|
  {
    if items != [] {
      DeletedFiles(items[1..], file);
      assert Files(items)[1..] == Files(items[1..]);
      if items[0].file != file {
        assert Files([items[0]] + Deleted(items[1..], file)) == [items[0].file] + Files(Deleted(items[1..], file));
      }
    }
  }

  lemma {:induction false} FoundIsIn(items: seq<Item>, file: string)
    ensures Find(items, file).Some? ==> Item(file, Find(items, file).value) in items
    ensures Find(items, file).Some? <==> file in Files(items)
    decreases |items|
  {
    if items != [] {
      FoundIsIn(items[1..], file);
      assert Files(items) == [items[0].file] + Files(items[1..]);
    }
  }

  lemma {:induction false} WithoutSplits(one: seq<string>, two: seq<string>, file: string)
    ensures Without(one + two, file) == Without(one, file) + Without(two, file)
    decreases |one|
  {
    if one == [] {
      assert one + two == two;
    } else {
      WithoutSplits(one[1..], two, file);
      assert (one + two)[1..] == one[1..] + two;
    }
  }

  lemma UsedStaysDistinct(files: seq<string>, file: string)
    requires Distinct(files)
    ensures Distinct(Used(files, file))
  {
    WithoutIs(files, file);
  }

  lemma EndOfJoin<T>(one: seq<T>, two: seq<T>, n: nat)
    requires |two| == n
    ensures Newest(one + two, n) == two
  {
  }

  lemma UsedIn(files: seq<string>, file: string)
    requires Distinct(files) && file in files
    ensures |Used(files, file)| == |files|
  {
    WithoutIs(files, file);
  }

  lemma UsedJoin(gone: seq<string>, kept: seq<string>, file: string)
    requires Distinct(gone + kept)
    ensures file in kept ==> Used(gone + kept, file) == gone + Used(kept, file)
    ensures file !in kept ==> Used(gone + kept, file) == Without(gone, file) + (kept + [file])
    ensures file !in kept ==> Used(kept, file) == kept + [file]
  {
    WithoutSplits(gone, kept, file);
    if file in kept {
      var j :| 0 <= j < |kept| && kept[j] == file;
      assert (gone + kept)[|gone| + j] == file;
      forall i | 0 <= i < |gone| ensures gone[i] != file {
        assert (gone + kept)[i] == gone[i];
      }
      WithoutIs(gone, file);
    } else {
      WithoutIs(kept, file);
    }
  }

  /** Keeping only the newest is the same before a file is used as after. */
  lemma NewestUsed(files: seq<string>, file: string, n: nat)
    requires Distinct(files)
    ensures Newest(Used(files, file), n) == Trimmed(Used(Newest(files, n), file), n)
  {
    if |files| <= n {
      WithoutIs(files, file);
    } else {
      var gone, kept := files[..|files| - n], files[|files| - n..];
      assert files == gone + kept;
      UsedJoin(gone, kept, file);
      if file in kept {
        UsedIn(kept, file);
        EndOfJoin(gone, Used(kept, file), n);
      } else {
        var after := kept + [file];
        assert Without(gone, file) + after == (Without(gone, file) + [after[0]]) + after[1..];
        EndOfJoin(Without(gone, file) + [after[0]], after[1..], n);
      }
    }
  }

  // ---- The cache ----

  predicate Believed(e: Entry, now: int) { e.committed.Some? || now - e.at < ABSENT_TTL_MS }

  /** What `get` answers without loading. */
  function Answer(items: seq<Item>, file: string, commit: string, now: int): Option<Committed> {
    var hit := Find(items, file);
    if hit.Some? && hit.value.commit == commit && Believed(hit.value, now) then Some(hit.value.committed) else None
  }

  function AfterHit(items: seq<Item>, file: string): seq<Item> {
    var hit := Find(items, file);
    if hit.Some? then Put(items, Item(file, hit.value)) else items
  }

  function AfterLoad(items: seq<Item>, limit: nat, file: string, entry: Entry): seq<Item> {
    Trimmed(Put(items, Item(file, entry)), limit)
  }

  class BaselineCache {
    var entries: seq<Item>
    const limit: nat

    ghost predicate Valid() reads this { Distinct(Files(entries)) && |entries| <= limit }

    constructor (limit: nat)
      ensures Valid() && entries == [] && this.limit == limit
    {
      entries := [];
      this.limit := limit;
    }

    /** The part of `get` before anything is loaded. */
    method Look(file: string, commit: string, now: int) returns (answer: Option<Committed>)
      requires Valid()
      modifies this
      ensures Valid()
      ensures answer == Answer(old(entries), file, commit, now)
      ensures entries == if answer.Some? then AfterHit(old(entries), file) else old(entries)
    {
      var hit := Find(entries, file);
      if hit.Some? && hit.value.commit == commit && Believed(hit.value, now) {
        FoundIsIn(entries, file);
        PutKeepsDistinct(entries, Item(file, hit.value));
        entries := Deleted(entries, file);
        entries := entries + [Item(file, hit.value)];
        return Some(hit.value.committed);
      }
      return None;
    }

    /** The part after a load, which did not throw. */
    method Keep(file: string, commit: string, committed: Committed, now: int)
      requires Valid()
      modifies this
      ensures Valid()
      ensures entries == AfterLoad(old(entries), limit, file, Entry(commit, committed, now))
    {
      var entry := Entry(commit, committed, now);
      PutKeepsDistinct(entries, Item(file, entry));
      entries := Deleted(entries, file);
      entries := entries + [Item(file, entry)];
      ghost var put := entries;
      if |entries| > limit {
        entries := entries[1..];
        assert Files(entries) == Files(put)[1..];
      }
    }
  }

  lemma PutFiles(items: seq<Item>, item: Item)
    ensures Files(Put(items, item)) == Used(Files(items), item.file)
  {
    DeletedFiles(items, item.file);
    assert Files(Put(items, item)) == Files(Deleted(items, item.file)) + [item.file];
  }

  lemma PutKeepsDistinct(items: seq<Item>, item: Item)
    requires Distinct(Files(items))
    ensures Distinct(Files(Put(items, item)))
    ensures |Put(items, item)| == |items| + if item.file in Files(items) then 0 else 1
  {
    PutFiles(items, item);
    UsedStaysDistinct(Files(items), item.file);
    WithoutIs(Files(items), item.file);
    assert |Put(items, item)| == |Files(Put(items, item))|;
  }

  // ---- Requests, interleaved ----

  type RequestId = nat

  datatype Event =
    | Loaded(file: string, commit: string, committed: Committed, at: int)
    | Hit(file: string, commit: string, committed: Committed, at: int)
    | Uncached(file: string, committed: Committed)

  datatype Request = Request(file: string, commit: Option<string>, waiting: bool)

  datatype System = System(items: seq<Item>, requests: map<RequestId, Request>, now: int, log: seq<Event>)

  datatype Action =
    | Tick(ms: nat)
    | Get(r: RequestId, file: string, commit: Option<string>)
    | LoadDone(r: RequestId, committed: Committed)
    | LoadThrows(r: RequestId)

  function Start(now: int): System { System([], map[], now, []) }

  function Note(s: System, e: Event): System { s.(log := s.log + [e]) }

  /** One step. An action that is not possible changes nothing. */
  function Step(limit: nat, s: System, a: Action): System {
    match a
    case Tick(ms) => s.(now := s.now + ms)
    case Get(r, file, commit) =>
      if r in s.requests then s
      else if commit.Some? && Answer(s.items, file, commit.value, s.now).Some? then
        var answer := Answer(s.items, file, commit.value, s.now).value;
        Note(s.(items := AfterHit(s.items, file), requests := s.requests[r := Request(file, commit, false)]),
             Hit(file, commit.value, answer, s.now))
      else s.(requests := s.requests[r := Request(file, commit, true)])
    case LoadDone(r, committed) =>
      if r !in s.requests || !s.requests[r].waiting then s
      else
        var q := s.requests[r];
        var s' := s.(requests := s.requests[r := q.(waiting := false)]);
        if q.commit.None? then Note(s', Uncached(q.file, committed))
        else Note(s'.(items := AfterLoad(s.items, limit, q.file, Entry(q.commit.value, committed, s.now))),
                  Loaded(q.file, q.commit.value, committed, s.now))
    case LoadThrows(r) =>
      if r !in s.requests then s else s.(requests := s.requests[r := s.requests[r].(waiting := false)])
  }

  function Run(limit: nat, now: int, actions: seq<Action>): System {
    if actions == [] then Start(now) else Step(limit, Run(limit, now, DropLast(actions)), Last(actions))
  }

  /** What the last load of a file said, however long ago. */
  function LastLoaded(log: seq<Event>, file: string): Option<Entry> {
    if log == [] then None
    else
      var e := Last(log);
      if e.Loaded? && e.file == file then Some(Entry(e.commit, e.committed, e.at)) else LastLoaded(DropLast(log), file)
  }

  /** Every file ever loaded, the one used least recently first. */
  function Recency(log: seq<Event>): seq<string> {
    if log == [] then []
    else
      var e := Last(log);
      if e.Uncached? then Recency(DropLast(log)) else Used(Recency(DropLast(log)), e.file)
  }

  /** The cache is the newest of what an unlimited one would hold: the files used most recently,
      each as last loaded. */
  ghost predicate Inv(limit: nat, s: System) {
    && Distinct(Recency(s.log))
    && Files(s.items) == Newest(Recency(s.log), limit)
    && (forall i :: 0 <= i < |s.items| ==> LastLoaded(s.log, s.items[i].file) == Some(s.items[i].entry))
  }

  lemma Noted(log: seq<Event>, e: Event)
    ensures Recency(log + [e]) == if e.Uncached? then Recency(log) else Used(Recency(log), e.file)
    ensures forall f :: LastLoaded(log + [e], f)
                        == if e.Loaded? && e.file == f then Some(Entry(e.commit, e.committed, e.at))
                           else LastLoaded(log, f)
  {
    assert DropLast(log + [e]) == log;
  }

  lemma ItemsOfPut(items: seq<Item>, item: Item, i: nat)
    requires i < |Put(items, item)|
    ensures Put(items, item)[i] == item || (Put(items, item)[i] in items && Put(items, item)[i].file != item.file)
  {
    DeletedFiles(items, item.file);
    if i < |Deleted(items, item.file)| {
      WithoutIs(Files(items), item.file);
      assert Files(Deleted(items, item.file))[i] in Without(Files(items), item.file);
    }
  }

  lemma HitKeeps(limit: nat, s: System, file: string, commit: string)
    requires Inv(limit, s) && Answer(s.items, file, commit, s.now).Some?
    ensures var answer := Answer(s.items, file, commit, s.now).value;
            Inv(limit, Note(s.(items := AfterHit(s.items, file)), Hit(file, commit, answer, s.now)))
  {
    var e := Hit(file, commit, Answer(s.items, file, commit, s.now).value, s.now);
    var item := Item(file, Find(s.items, file).value);
    FoundIsIn(s.items, file);
    Noted(s.log, e);
    PutFiles(s.items, item);
    NewestUsed(Recency(s.log), file, limit);
    UsedStaysDistinct(Recency(s.log), file);
    WithoutIs(Files(s.items), file);
    assert Distinct(Files(s.items));
    forall i | 0 <= i < |Put(s.items, item)|
      ensures LastLoaded(s.log + [e], Put(s.items, item)[i].file) == Some(Put(s.items, item)[i].entry)
    {
      ItemsOfPut(s.items, item, i);
    }
  }

  lemma LoadKeeps(limit: nat, s: System, file: string, entry: Entry)
    requires Inv(limit, s)
    ensures Inv(limit, Note(s.(items := AfterLoad(s.items, limit, file, entry)),
                            Loaded(file, entry.commit, entry.committed, entry.at)))
  {
    var e := Loaded(file, entry.commit, entry.committed, entry.at);
    var put := Put(s.items, Item(file, entry));
    Noted(s.log, e);
    UsedStaysDistinct(Recency(s.log), file);
    NewestUsed(Recency(s.log), file, limit);
    PutFiles(s.items, Item(file, entry));
    FilesTrimmed(put, limit);
    forall i | 0 <= i < |Trimmed(put, limit)|
      ensures LastLoaded(s.log + [e], Trimmed(put, limit)[i].file) == Some(Trimmed(put, limit)[i].entry)
    {
      LoadedItem(limit, s, file, entry, e, put, if |put| > limit then i + 1 else i);
    }
  }

  lemma FilesTrimmed(items: seq<Item>, n: nat)
    ensures Files(Trimmed(items, n)) == Trimmed(Files(items), n)
  {
  }

  lemma LoadedItem(limit: nat, s: System, file: string, entry: Entry, e: Event, put: seq<Item>, i: nat)
    requires Inv(limit, s) && e == Loaded(file, entry.commit, entry.committed, entry.at)
    requires put == Put(s.items, Item(file, entry)) && i < |put|
    ensures LastLoaded(s.log + [e], put[i].file) == Some(put[i].entry)
  {
    Noted(s.log, e);
    ItemsOfPut(s.items, Item(file, entry), i);
  }

  lemma StepKeeps(limit: nat, s: System, a: Action)
    requires Inv(limit, s)
    ensures Inv(limit, Step(limit, s, a))
  {
    match a
    case Get(r, file, commit) =>
      if r !in s.requests && commit.Some? && Answer(s.items, file, commit.value, s.now).Some? {
        HitKeeps(limit, s, file, commit.value);
      }
    case LoadDone(r, committed) =>
      if r in s.requests && s.requests[r].waiting {
        var q := s.requests[r];
        if q.commit.Some? {
          LoadKeeps(limit, s, q.file, Entry(q.commit.value, committed, s.now));
        } else {
          Noted(s.log, Uncached(q.file, committed));
        }
      }
    case _ =>
  }

  lemma {:induction false} RunKeeps(limit: nat, now: int, actions: seq<Action>)
    ensures Inv(limit, Run(limit, now, actions))
    decreases |actions|
  {
    if actions != [] {
      RunKeeps(limit, now, DropLast(actions));
      StepKeeps(limit, Run(limit, now, DropLast(actions)), Last(actions));
    }
  }

  // ---- The claims ----

  /** However requests interleave, the cache holds no more files than its limit, and those are the
      ones used most recently: what is put out is always what was used least recently. */
  lemma KeepsTheMostRecent(limit: nat, now: int, actions: seq<Action>)
    ensures var s := Run(limit, now, actions);
            |s.items| <= limit && Files(s.items) == Newest(Recency(s.log), limit)
  {
    RunKeeps(limit, now, actions);
    var s := Run(limit, now, actions);
    assert |s.items| == |Files(s.items)|;
  }

  /** Exactly when a request is answered without a load: its file is among those used most recently,
      the last load of it was for the same commit, and that is still believed. The answer is what
      that load said. */
  lemma HitsExactlyWhatIsKnown(limit: nat, now: int, actions: seq<Action>, file: string, commit: string)
    ensures var s := Run(limit, now, actions);
            var last := LastLoaded(s.log, file);
            Answer(s.items, file, commit, s.now)
            == if file in Newest(Recency(s.log), limit) && last.Some? && last.value.commit == commit
                  && Believed(last.value, s.now)
               then Some(last.value.committed) else None
  {
    RunKeeps(limit, now, actions);
    FoundIsIn(Run(limit, now, actions).items, file);
  }

  /** Every hit of a run says what a load for that same file and commit said; "no such file" was
      heard less than ten seconds before. */
  ghost predicate HitOk(log: seq<Event>, i: nat)
    requires i < |log|
  {
    log[i].Hit? ==>
      exists at :: Loaded(log[i].file, log[i].commit, log[i].committed, at) in log[..i]
                   && (log[i].committed.None? ==> log[i].at - at < ABSENT_TTL_MS)
  }

  lemma {:induction false} LastLoadedIsIn(log: seq<Event>, file: string)
    requires LastLoaded(log, file).Some?
    ensures var e := LastLoaded(log, file).value; Loaded(file, e.commit, e.committed, e.at) in log
    decreases |log|
  {
    if !(Last(log).Loaded? && Last(log).file == file) {
      LastLoadedIsIn(DropLast(log), file);
    }
  }

  lemma HitIsOk(limit: nat, s: System, file: string, commit: string)
    requires Inv(limit, s) && Answer(s.items, file, commit, s.now).Some?
    ensures HitOk(s.log + [Hit(file, commit, Answer(s.items, file, commit, s.now).value, s.now)], |s.log|)
  {
    var answer := Answer(s.items, file, commit, s.now).value;
    var log' := s.log + [Hit(file, commit, answer, s.now)];
    FoundIsIn(s.items, file);
    var entry := Find(s.items, file).value;
    LastLoadedIsIn(s.log, file);
    assert log'[..|s.log|] == s.log;
    assert Loaded(file, commit, answer, entry.at) in log'[..|s.log|];
  }

  lemma {:induction false} HitsWereLoaded(limit: nat, now: int, actions: seq<Action>, i: nat)
    requires i < |Run(limit, now, actions).log|
    ensures HitOk(Run(limit, now, actions).log, i)
    decreases |actions|
  {
    if actions != [] {
      var s := Run(limit, now, DropLast(actions));
      var a := Last(actions);
      var log' := Run(limit, now, actions).log;
      if i < |s.log| {
        HitsWereLoaded(limit, now, DropLast(actions), i);
        assert log'[..i] == s.log[..i];
      } else if a.Get? {
        RunKeeps(limit, now, DropLast(actions));
        HitIsOk(limit, s, a.file, a.commit.value);
      }
    }
  }

  /** Every load in a log said what `load` says. */
  ghost predicate LoadsAgree(log: seq<Event>, load: (string, string) -> Committed) {
    forall i :: 0 <= i < |log| && log[i].Loaded? ==> log[i].committed == load(log[i].file, log[i].commit)
  }

  /** With a loader that always says the same of a file at a commit, the cache cannot be told from
      loading every time. */
  lemma LikeAlwaysLoading(limit: nat, now: int, actions: seq<Action>, load: (string, string) -> Committed, i: nat)
    requires LoadsAgree(Run(limit, now, actions).log, load)
    requires i < |Run(limit, now, actions).log| && Run(limit, now, actions).log[i].Hit?
    ensures var e := Run(limit, now, actions).log[i]; e.committed == load(e.file, e.commit)
  {
    var log := Run(limit, now, actions).log;
    HitsWereLoaded(limit, now, actions, i);
    assert HitOk(log, i);
    var at :| Loaded(log[i].file, log[i].commit, log[i].committed, at) in log[..i];
    var j :| 0 <= j < i && log[..i][j] == Loaded(log[i].file, log[i].commit, log[i].committed, at);
    assert log[j].Loaded?;
  }
}
