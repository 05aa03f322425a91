/** What it takes for a caret-only report to mislead: two buffers of one editor with the same path,
    as the cells of a notebook are. Once there are, it is a matter of what happens next. */
module SharedPaths {
  import opened EditScripts
  import opened SnapshotKeys
  import opened SnapshotModel
  import opened SnapshotProtocol
  import Stores = SnapshotStores

  /** Some caret-only report made the server store a text its sender's buffer never had. */
  ghost predicate Misleads(w: World, s: System) {
    exists rev :: rev in s.history && s.history[rev].claimed.Some?
        && !TextIs(s, rev, Clamped(w, s.history[rev].claimed.value))
  }

  // ---- Going on from a state ----

  predicate OpensNothing(more: seq<Action>) {
    forall k :: 0 <= k < |more| ==> !more[k].OpenEditor? && !more[k].OpenDoc?
  }

  function RunFrom(w: World, s: System, more: seq<Action>): System {
    if more == [] then s else Step(w, RunFrom(w, s, DropLast(more)), Last(more))
  }

  /** Actions that open nothing lead from one state to another. */
  predicate Leads(w: World, s: System, more: seq<Action>, s': System) {
    OpensNothing(more) && RunFrom(w, s, more) == s'
  }

  lemma LeadsNowhere(w: World, s: System)
    ensures Leads(w, s, [], s)
  {
  }

  lemma LeadsOne(w: World, s: System, a: Action)
    requires !a.OpenEditor? && !a.OpenDoc?
    ensures Leads(w, s, [a], Step(w, s, a))
  {
    assert DropLast([a]) == [];
  }

  lemma {:induction false} LeadsOn(w: World, s: System, one: seq<Action>, mid: System, two: seq<Action>, end: System)
    requires Leads(w, s, one, mid) && Leads(w, mid, two, end)
    ensures Leads(w, s, one + two, end)
    decreases |two|
  {
    if two == [] {
      NilAdds(one);
    } else {
      LeadsOn(w, s, one, mid, DropLast(two), RunFrom(w, mid, DropLast(two)));
      JoinEnds(one, two);
    }
  }

  /** One more action. */
  lemma Then(w: World, s: System, more: seq<Action>, mid: System, a: Action) returns (all: seq<Action>)
    requires Leads(w, s, more, mid) && !a.OpenEditor? && !a.OpenDoc?
    ensures Leads(w, s, all, Step(w, mid, a))
  {
    LeadsOne(w, mid, a);
    LeadsOn(w, s, more, mid, [a], Step(w, mid, a));
    all := more + [a];
  }

  lemma {:induction false} RunsOn(w: World, actions: seq<Action>, more: seq<Action>)
    ensures Run(w, actions + more) == RunFrom(w, Run(w, actions), more)
    decreases |more|
  {
    if more == [] {
      NilAdds(actions);
    } else {
      RunsOn(w, actions, DropLast(more));
      JoinEnds(actions, more);
    }
  }

  // ---- Coming to rest ----

  /** How far an editor is from having nothing under way. */
  function Busy(phase: Phase): nat {
    match phase
    case Idle => 0
    case PlainPosted(_) => 1
    case FilePosted(_, _, _) => 1
    case BuildStarted => 2
    case BuildTargeted(_, _) => 2
    case BuildKeyed(_, _, _) => 2
    case BuildRead(_, _, _, _) => 2
    case CursorStarted(_, _) => 3
    case CursorPosted(_, _) => 3
    case CursorKeyed(_, _, _) => 4
  }

  function WindDown(e: EditorId, phase: Phase): Action {
    match phase
    case BuildStarted => PostPlain(e, false)
    case BuildTargeted(_, _) => PostPlain(e, false)
    case BuildKeyed(_, _, _) => PostPlain(e, false)
    case BuildRead(_, _, _, _) => PostPlain(e, false)
    case CursorKeyed(_, _, _) => CompareKey(e, Cursor(1, 1))
    case _ => PostFails(e)
  }

  /** An editor goes on with the same buffers, and is nearer to rest. */
  predicate Nearer(s: System, s': System, e: EditorId)
    requires e in s.editors
  {
    && e in s'.editors && s'.editors[e].docs == s.editors[e].docs
    && Busy(s'.editors[e].phase) < Busy(s.editors[e].phase)
  }

  lemma BuildWindsDown(w: World, s: System, e: EditorId)
    requires e in s.editors && Busy(s.editors[e].phase) == 2
    ensures Nearer(s, Step(w, s, PostPlain(e, false)), e)
  {
  }

  lemma PostWindsDown(w: World, s: System, e: EditorId)
    requires e in s.editors && (Busy(s.editors[e].phase) == 1 || Busy(s.editors[e].phase) == 3)
    ensures Nearer(s, Step(w, s, PostFails(e)), e)
  {
  }

  lemma KeyWindsDown(w: World, s: System, e: EditorId)
    requires e in s.editors && Busy(s.editors[e].phase) == 4
    ensures Nearer(s, Step(w, s, CompareKey(e, Cursor(1, 1))), e)
  {
  }

  lemma WindsDown(w: World, s: System, e: EditorId)
    requires e in s.editors && !s.editors[e].phase.Idle?
    ensures Nearer(s, Step(w, s, WindDown(e, s.editors[e].phase)), e)
  {
    var busy := Busy(s.editors[e].phase);
    if busy == 2 {
      BuildWindsDown(w, s, e);
    } else if busy == 4 {
      KeyWindsDown(w, s, e);
    } else {
      PostWindsDown(w, s, e);
    }
  }

  /** Whatever an editor is in the middle of, it can come to nothing. */
  lemma {:induction false} ComesToRest(w: World, s: System, e: EditorId) returns (more: seq<Action>, end: System)
    requires e in s.editors
    ensures Leads(w, s, more, end)
    ensures e in end.editors && end.editors[e].phase.Idle? && end.editors[e].docs == s.editors[e].docs
    decreases Busy(s.editors[e].phase)
  {
    if s.editors[e].phase.Idle? {
      LeadsNowhere(w, s);
      return [], s;
    }
    var a := WindDown(e, s.editors[e].phase);
    var mid := Step(w, s, a);
    WindsDown(w, s, e);
    LeadsOne(w, s, a);
    var rest;
    rest, end := ComesToRest(w, mid, e);
    LeadsOn(w, s, [a], mid, rest, end);
    more := [a] + rest;
  }

  // ---- Two buffers that look alike ----

  /** An editor at rest, sharing, with two buffers that differ in their text alone. */
  predicate Twins(ed: Editor, one: DocId, two: DocId, docOne: Doc, textTwo: string) {
    && ed.phase.Idle? && ed.sharing && one != two
    && one in ed.docs && ed.docs[one] == docOne
    && two in ed.docs && ed.docs[two] == docOne.(text := textTwo)
  }

  lemma EditIs(w: World, s: System, e: EditorId, d: DocId, doc: Doc)
    requires e in s.editors && d in s.editors[e].docs
    requires doc.path == s.editors[e].docs[d].path && doc.version > s.editors[e].docs[d].version
    ensures Step(w, s, EditDoc(e, d, doc)) == Put(s, e, s.editors[e].(docs := s.editors[e].docs[d := doc]))
  {
  }

  /** Edits can make two buffers of one path look alike, whatever they held. */
  lemma BecomeTwins(w: World, s: System, e: EditorId, one: DocId, two: DocId, textOne: string, textTwo: string)
    returns (more: seq<Action>, end: System, doc: Doc)
    requires e in s.editors && s.editors[e].phase.Idle? && one != two
    requires one in s.editors[e].docs && two in s.editors[e].docs
    requires s.editors[e].docs[one].path == s.editors[e].docs[two].path
    ensures Leads(w, s, more, end) && doc.text == textOne
    ensures e in end.editors && Twins(end.editors[e], one, two, doc, textTwo)
  {
    var docs := s.editors[e].docs;
    doc := Doc(docs[one].path, Max(docs[one].version, docs[two].version) + 1, textOne, false, "", "");
    LeadsNowhere(w, s);
    EditIs(w, s, e, one, doc);
    more := Then(w, s, [], s, EditDoc(e, one, doc));
    var s1 := Step(w, s, EditDoc(e, one, doc));
    EditIs(w, s1, e, two, doc.(text := textTwo));
    more := Then(w, s, more, s1, EditDoc(e, two, doc.(text := textTwo)));
    var s2 := Step(w, s1, EditDoc(e, two, doc.(text := textTwo)));
    more := Then(w, s, more, s2, Reload(e, true));
    end := Step(w, s2, Reload(e, true));
  }

  // ---- The first is sent, and the second taken for it ----

  predicate MayMove(w: World, e: EditorId, ed: Editor, a: Action, phase: Phase) {
    || (a == SkipCursor(e) && ed.phase.Idle? && phase == BuildStarted)
    || (a.Target? && a.e == e && ed.phase.BuildStarted? && ed.sharing && a.d in ed.docs
        && phase == BuildTargeted(a.d, ed.student))
    || (a == TakeKey(e) && ed.phase.BuildTargeted? && ed.phase.doc in ed.docs
        && phase == BuildKeyed(ed.phase.doc, ed.phase.student, PartsOf(ed.docs[ed.phase.doc])))
    || (a == ReadBuffer(e) && ed.phase.BuildKeyed? && ed.phase.doc in ed.docs
        && phase == BuildRead(ed.phase.doc, ed.phase.student, ed.phase.parts, w.cut(ed.docs[ed.phase.doc].text)))
    || (a.TryCursor? && a.e == e && ed.phase.Idle? && ed.lastFile.Some? && ed.sharing && a.d in ed.docs
        && phase == CursorStarted(ed.lastFile.value, a.d))
    || (a == TakeKey(e) && ed.phase.CursorStarted? && ed.phase.doc in ed.docs
        && phase == CursorKeyed(ed.phase.last, PartsOf(ed.docs[ed.phase.doc]), ed.docs[ed.phase.doc].text))
  }

  lemma MoveIs(w: World, s: System, e: EditorId, ed: Editor, a: Action, phase: Phase)
    requires e in s.editors && s.editors[e] == ed && MayMove(w, e, ed, a, phase)
    ensures Step(w, s, a) == Put(s, e, ed.(phase := phase))
  {
    match a
    case SkipCursor(_) =>
    case Target(_, _) =>
    case TakeKey(_) =>
    case ReadBuffer(_) =>
    case TryCursor(_, _) =>
  }

  /** An editor's step that only moves it to another phase. */
  lemma Moves(w: World, s: System, more: seq<Action>, e: EditorId, ed: Editor, phase: Phase, a: Action, next: Phase)
    returns (all: seq<Action>)
    requires e in s.editors && Leads(w, s, more, Put(s, e, ed.(phase := phase)))
    requires MayMove(w, e, ed.(phase := phase), a, next)
    ensures Leads(w, s, all, Put(s, e, ed.(phase := next)))
  {
    var mid := Put(s, e, ed.(phase := phase));
    MoveIs(w, mid, e, ed.(phase := phase), a, next);
    assert s.editors[e := ed.(phase := phase)][e := ed.(phase := next)] == s.editors[e := ed.(phase := next)];
    all := Then(w, s, more, mid, a);
  }

  /** A buffer is read, to be sent whole. */
  lemma ReadsBuffer(w: World, s: System, e: EditorId, ed: Editor, d: DocId) returns (more: seq<Action>)
    requires e in s.editors && s.editors[e] == ed && ed.phase.Idle? && ed.sharing && d in ed.docs
    ensures Leads(w, s, more,
                  Put(s, e, ed.(phase := BuildRead(d, ed.student, PartsOf(ed.docs[d]), w.cut(ed.docs[d].text)))))
  {
    var parts := PartsOf(ed.docs[d]);
    LeadsNowhere(w, s);
    assert s.editors[e := ed.(phase := Idle)] == s.editors;
    more := Moves(w, s, [], e, ed, Idle, SkipCursor(e), BuildStarted);
    more := Moves(w, s, more, e, ed, BuildStarted, Target(e, d), BuildTargeted(d, ed.student));
    more := Moves(w, s, more, e, ed, BuildTargeted(d, ed.student), TakeKey(e), BuildKeyed(d, ed.student, parts));
    more := Moves(w, s, more, e, ed, BuildKeyed(d, ed.student, parts), ReadBuffer(e),
                  BuildRead(d, ed.student, parts, w.cut(ed.docs[d].text)));
  }

  function PlainReport(path: string, content: string): FileReport {
    FileReport(path, path, "", None, None, false, content, false, UnavailableReported)
  }

  /** The server's latest for a student is a text, without a caret. */
  predicate Holds(w: World, s: System, slot: Slot, rev: nat, text: string) {
    && slot in s.store.latest && s.store.latest[slot].rev == rev && s.store.latest[slot].received == s.now
    && IsText(w, s.store.latest[slot].snapshot, text)
  }

  predicate IsText(w: World, snapshot: Snapshot, text: string) {
    snapshot.FileSnapshot? && snapshot.file.text.content == Clamped(w, text) && snapshot.file.cursor == None
  }

  lemma PostIs(w: World, s: System, e: EditorId, ed: Editor, d: DocId, parts: Parts, content: string, r: RequestId)
    requires e in s.editors && s.editors[e] == ed && ed.phase == BuildRead(d, ed.student, parts, content)
    requires r == s.nextRequest
    ensures var s' := Step(w, s, PostFile(e, PlainReport("", "")));
            && r in s'.requests
            && s'.requests[r]
               == Request(ed.student, WholeFile(PlainReport("", "").(path := parts.path, content := content)),
                          None, Sent)
            && e in s'.editors && s'.editors[e] == ed.(lastFile := None, phase := FilePosted(d, parts, r))
            && s'.now == s.now && s'.store == s.store
  {
  }

  lemma WholeFileTaken(w: World, s: System, r: RequestId, slot: Slot, file: FileReport, text: string)
    requires r in s.requests && s.requests[r] == Request(slot, WholeFile(file), None, Sent)
    requires file.content == w.cut(text) && file.cursor == None
    ensures var s' := Step(w, Step(w, s, Ingest(r)), Insert(r));
            && r in s'.requests && s'.requests[r].stage == Accepted(s.store.nextRev + 1)
            && s'.editors == s.editors && s'.now == s.now && s'.store.nextRev == s.store.nextRev + 1
            && Holds(w, s', slot, s.store.nextRev + 1, text)
  {
    var mid := Step(w, s, Ingest(r));
    assert mid.requests[r].stage.Building? && mid.store == s.store && mid.editors == s.editors && mid.now == s.now;
    assert Step(w, mid, Insert(r)) == StepInsert(w, mid, r);
  }

  lemma PostsBuffer(w: World, s: System, e: EditorId, ed: Editor, d: DocId)
      returns (more: seq<Action>, end: System, r: RequestId)
    requires e in s.editors && s.editors[e] == ed && ed.phase.Idle? && ed.sharing && d in ed.docs
    ensures Leads(w, s, more, end)
    ensures e in end.editors && end.editors[e] == ed.(lastFile := None, phase := FilePosted(d, PartsOf(ed.docs[d]), r))
    ensures r in end.requests
    ensures end.requests[r]
         == Request(ed.student, WholeFile(PlainReport(ed.docs[d].path, w.cut(ed.docs[d].text)).(relativePath := "")),
                    None, Sent)
  {
    var parts, content := PartsOf(ed.docs[d]), w.cut(ed.docs[d].text);
    var reading := ed.(phase := BuildRead(d, ed.student, parts, content));
    more := ReadsBuffer(w, s, e, ed, d);
    r := s.nextRequest;
    PostIs(w, Put(s, e, reading), e, reading, d, parts, content, r);
    end := Step(w, Put(s, e, reading), PostFile(e, PlainReport("", "")));
    more := Then(w, s, more, Put(s, e, reading), PostFile(e, PlainReport("", "")));
  }

  lemma HearIs(w: World, s: System, e: EditorId, ed: Editor, d: DocId, parts: Parts, r: RequestId, rev: nat)
    requires e in s.editors && s.editors[e] == ed && ed.phase == FilePosted(d, parts, r)
    requires r in s.requests && s.requests[r].stage == Accepted(rev)
    ensures Step(w, s, Hear(e)) == Put(s, e, ed.(lastFile := Some(LastFile(parts, rev, d)), phase := Idle))
  {
  }

  /** A buffer is sent whole, and its editor hears that the server took it. */
  lemma SendsBuffer(w: World, s: System, e: EditorId, ed: Editor, d: DocId)
      returns (more: seq<Action>, end: System, rev: nat)
    requires e in s.editors && s.editors[e] == ed && ed.phase.Idle? && ed.sharing && d in ed.docs
    ensures Leads(w, s, more, end)
    ensures e in end.editors && end.editors[e] == ed.(lastFile := Some(LastFile(PartsOf(ed.docs[d]), rev, d)))
    ensures Holds(w, end, ed.student, rev, ed.docs[d].text)
  {
    var s1, r;
    more, s1, r := PostsBuffer(w, s, e, ed, d);
    WholeFileTaken(w, s1, r, ed.student, s1.requests[r].report.file, ed.docs[d].text);
    var s2 := Step(w, s1, Ingest(r));
    var s3 := Step(w, s2, Insert(r));
    rev := s1.store.nextRev + 1;
    HearIs(w, s3, e, s1.editors[e], d, PartsOf(ed.docs[d]), r, rev);
    end := Step(w, s3, Hear(e));
    more := Then(w, s, more, s1, Ingest(r));
    more := Then(w, s, more, s2, Insert(r));
    more := Then(w, s, more, s3, Hear(e));
  }

  lemma CompareIs(w: World, s: System, e: EditorId, ed: Editor, last: LastFile, seen: string, r: RequestId)
    requires e in s.editors && s.editors[e] == ed && ed.phase == CursorKeyed(last, last.parts, seen)
               && r == s.nextRequest
    ensures var s' := Step(w, s, CompareKey(e, Cursor(1, 1)));
            && r in s'.requests
            && s'.requests[r] == Request(ed.student, CursorReport(last.rev, Cursor(1, 1)), Some(seen), Sent)
            && s'.now == s.now && s'.store == s.store
  {
  }

  lemma CaretTaken(w: World, s: System, r: RequestId, slot: Slot, rev: nat, text: string, seen: string)
    requires r in s.requests && s.requests[r] == Request(slot, CursorReport(rev, Cursor(1, 1)), Some(seen), Sent)
    requires Holds(w, s, slot, rev, text) && Clamped(w, text) != Clamped(w, seen)
    ensures Misleads(w, Step(w, Step(w, s, Ingest(r)), Insert(r)))
  {
    var snapshot := s.store.latest[slot].snapshot;
    assert Stores.Read(s.store, slot, s.now) == Some(Stores.Latest(snapshot, 0, rev));
    var mid := Step(w, s, Ingest(r));
    assert mid == SetStage(s, r, Building(Some(snapshot)));
    var end, next := Step(w, mid, Insert(r)), s.store.nextRev + 1;
    assert end == StepInsert(w, mid, r);
    assert end.history[next] == Record(slot, FileSnapshot(snapshot.file.(cursor := Some(Cursor(1, 1)))), Some(seen));
    assert !TextIs(end, next, Clamped(w, seen));
  }

  /** The second of two twins passes for the first, and only its caret goes to the server. */
  lemma SecondTakenForFirst(w: World, s: System, e: EditorId, one: DocId, two: DocId, doc: Doc, textTwo: string)
    returns (more: seq<Action>, end: System)
    requires e in s.editors && Twins(s.editors[e], one, two, doc, textTwo)
               && Clamped(w, doc.text) != Clamped(w, textTwo)
    ensures Leads(w, s, more, end) && Misleads(w, end)
  {
    var s1, rev;
    more, s1, rev := SendsBuffer(w, s, e, s.editors[e], one);
    var ed, last := s1.editors[e], LastFile(PartsOf(doc), rev, one);
    LeadsNowhere(w, s1);
    assert s1.editors[e := ed.(phase := Idle)] == s1.editors;
    var on := Moves(w, s1, [], e, ed, Idle, TryCursor(e, two), CursorStarted(last, two));
    on := Moves(w, s1, on, e, ed, CursorStarted(last, two), TakeKey(e), CursorKeyed(last, last.parts, textTwo));
    var s2 := Put(s1, e, ed.(phase := CursorKeyed(last, last.parts, textTwo)));
    var r := s2.nextRequest;
    CompareIs(w, s2, e, s2.editors[e], last, textTwo, r);
    on := Then(w, s1, on, s2, CompareKey(e, Cursor(1, 1)));
    var s3 := Step(w, s2, CompareKey(e, Cursor(1, 1)));
    CaretTaken(w, s3, r, ed.student, rev, doc.text, textTwo);
    on := Then(w, s1, on, s3, Ingest(r));
    on := Then(w, s1, on, Step(w, s3, Ingest(r)), Insert(r));
    end := Step(w, Step(w, s3, Ingest(r)), Insert(r));
    LeadsOn(w, s, more, s1, on, end);
    more := more + on;
  }

  // ---- Exactly when ----

  /** After any steps that leave an editor with two buffers of one path, more steps, none of which
      opens anything, have the server store one buffer's text as the other's. */
  lemma SharedPathsMislead(w: World, actions: seq<Action>, e: EditorId, one: DocId, two: DocId, textOne: string,
                           textTwo: string)
    returns (more: seq<Action>)
    requires e in Run(w, actions).editors && one != two && Clamped(w, textOne) != Clamped(w, textTwo)
    requires var docs := Run(w, actions).editors[e].docs;
             one in docs && two in docs && docs[one].path == docs[two].path
    ensures OpensNothing(more) && Misleads(w, Run(w, actions + more))
  {
    var s := Run(w, actions);
    var rest, s1 := ComesToRest(w, s, e);
    var edits, s2, doc := BecomeTwins(w, s1, e, one, two, textOne, textTwo);
    var sends, end := SecondTakenForFirst(w, s2, e, one, two, doc, textTwo);
    LeadsOn(w, s, rest, s1, edits, s2);
    LeadsOn(w, s, rest + edits, s2, sends, end);
    more := rest + edits + sends;
    RunsOn(w, actions, more);
  }

  lemma {:induction false} RunStaysApart(w: World, s: System, more: seq<Action>)
    requires AllApart(s) && OpensNothing(more)
    ensures AllApart(RunFrom(w, s, more))
    decreases |more|
  {
    if more != [] {
      RunStaysApart(w, s, DropLast(more));
      StaysApart(w, RunFrom(w, s, DropLast(more)), Last(more));
    }
  }

  ghost predicate CanMislead(w: World, actions: seq<Action>) {
    exists more :: OpensNothing(more) && Misleads(w, Run(w, actions + more))
  }

  /** After any steps: without opening anything more, a caret-only report can come to mislead exactly
      when some editor has two buffers with one path. */
  lemma OnlySharedPathsMislead(w: World, actions: seq<Action>, textOne: string, textTwo: string)
    requires Clamped(w, textOne) != Clamped(w, textTwo)
    ensures CanMislead(w, actions) <==> !AllApart(Run(w, actions))
  {
    var s := Run(w, actions);
    if AllApart(s) {
      forall more | OpensNothing(more)
        ensures !Misleads(w, Run(w, actions + more))
      {
        RunsOn(w, actions, more);
        RunStaysApart(w, s, more);
        CursorReportsTellTheTruth(w, actions + more);
      }
    } else {
      var e :| e in s.editors && !PathsApart(s.editors[e]);
      var one, two :| one in s.editors[e].docs && two in s.editors[e].docs && one != two
                      && s.editors[e].docs[one].path == s.editors[e].docs[two].path;
      var more := SharedPathsMislead(w, actions, e, one, two, textOne, textTwo);
    }
  }
}
