/** Editors and server, step by step: whole-file reports, caret-only reports built on them, and
    everything that can happen in between. The claim is that a caret-only report never puts words
    in a student's mouth: what the server stores or confirms for one is the sender's own buffer. */
module SnapshotProtocol {
  import opened EditScripts
  import opened SnapshotKeys
  import opened SnapshotModel
  import Stores = SnapshotStores

  type EditorId = nat
  type DocId = nat
  type RequestId = nat
  type Slot = nat

  /** A buffer open in an editor. Closing and reopening a file, or another cell of a notebook, is
      another buffer, which may have the same path. */
  datatype Doc = Doc(path: string, version: nat, text: string, dirty: bool, language: Field, commit: Field)

  function PartsOf(d: Doc): Parts { Parts(d.path, d.version, d.dirty, d.language, d.commit) }

  /** What an editor builds on: the key and number of a snapshot it heard was taken. `doc` is the buffer
      that was read for it, which only the proof looks at. */
  datatype LastFile = LastFile(parts: Parts, rev: nat, doc: DocId)

  /** Where an editor is in sending a snapshot; at most one is under way. `seen` is the text of the
      buffer when the key was taken, which the editor does not look at. */
  datatype Phase =
    | Idle
    | CursorStarted(last: LastFile, doc: DocId)
    | CursorKeyed(last: LastFile, parts: Parts, seen: string)
    | CursorPosted(last: LastFile, request: RequestId)
    | BuildStarted
    | BuildTargeted(doc: DocId, student: Slot)
    | BuildKeyed(doc: DocId, student: Slot, parts: Parts)
    | BuildRead(doc: DocId, student: Slot, parts: Parts, content: string)
    | FilePosted(doc: DocId, parts: Parts, request: RequestId)
    | PlainPosted(request: RequestId)

  datatype Editor = Editor(student: Slot, sharing: bool, docs: map<DocId, Doc>, lastFile: Option<LastFile>,
                           phase: Phase)

  /** How far the server is with a request. */
  datatype Stage =
    | Sent
    | Building(previous: Option<Snapshot>)
    | Touching
    | Accepted(rev: nat)
    | Refused

  /** A request in flight. `claimed` is, for a caret-only report, the sender's buffer when it took
      its key; the server never sees it. */
  datatype Request = Request(slot: Slot, report: ReportState, claimed: Option<string>, stage: Stage)

  /** What was once inserted under a number. */
  datatype Record = Record(slot: Slot, snapshot: Snapshot, claimed: Option<string>)

  datatype System = System(store: Stores.Inner<Slot, Snapshot>, now: nat, history: map<nat, Record>,
                           editors: map<EditorId, Editor>, requests: map<RequestId, Request>, nextRequest: nat)

  /** The parts the protocol does not depend on: how snapshots are built, and where the editor cuts
      a text that is too long to send. */
  datatype World = World(tools: Tools, cut: string -> string)

  /** A buffer's text as the server ends up with it: cut by the editor, clamped by the server. */
  function Clamped(w: World, text: string): string { Clamp(w.cut(text)) }

  function Start(): System { System(Stores.Inner(map[], map[], 0), 0, map[], map[], map[], 0) }

  // ---- What can happen ----

  datatype Action =
    // The world around.
    | Tick(ms: nat)
    | OpenEditor(e: EditorId, student: Slot)
    | OpenDoc(e: EditorId, d: DocId, doc: Doc)
    | EditDoc(e: EditorId, d: DocId, doc: Doc)
    // `Reload` changes the settings at once and `Rename`, when it comes, the student's name.
    | Reload(e: EditorId, sharing: bool)
    | Rename(e: EditorId, student: Slot)
    // An editor's own steps.
    | TryCursor(e: EditorId, d: DocId)
    | SkipCursor(e: EditorId)
    | TakeKey(e: EditorId)
    | CompareKey(e: EditorId, cursor: Cursor)
    | PostFails(e: EditorId)
    | Target(e: EditorId, d: DocId)
    | PostPlain(e: EditorId, declined: bool)
    | ReadBuffer(e: EditorId)
    | PostFile(e: EditorId, file: FileReport)
    | Hear(e: EditorId)
    // The server's.
    | Ingest(r: RequestId)
    | Confirm(r: RequestId)
    | Insert(r: RequestId)

  function Put(s: System, e: EditorId, editor: Editor): System { s.(editors := s.editors[e := editor]) }

  function SetStage(s: System, r: RequestId, stage: Stage): System
    requires r in s.requests
  {
    s.(requests := s.requests[r := s.requests[r].(stage := stage)])
  }

  /** Sends a report, and leaves the editor waiting in `phase`. */
  function Post(s: System, e: EditorId, ed: Editor, slot: Slot, report: ReportState, claimed: Option<string>,
                phase: Phase)
    : System
  {
    Put(s.(requests := s.requests[s.nextRequest := Request(slot, report, claimed, Sent)],
           nextRequest := s.nextRequest + 1),
        e, ed.(phase := phase))
  }

  /** One step. An action that is not possible changes nothing. */
  function Step(w: World, s: System, a: Action): System {
    match a
    case Tick(ms) => s.(now := s.now + ms)
    case OpenEditor(e, student) =>
      if e in s.editors then s else Put(s, e, Editor(student, true, map[], None, Idle))
    case Ingest(r) => if r in s.requests then StepIngest(s, r) else s
    case Confirm(r) => if r in s.requests then StepConfirm(s, r) else s
    case Insert(r) => if r in s.requests then StepInsert(w, s, r) else s
    case _ => if a.e in s.editors then StepEditor(w, s, a) else s
  }

  predicate IsEditorAction(a: Action) { !a.Tick? && !a.Ingest? && !a.Confirm? && !a.Insert? && !a.OpenEditor? }

  function StepEditor(w: World, s: System, a: Action): System
    requires IsEditorAction(a)
    requires a.e in s.editors
  {
    var ed := s.editors[a.e];
    match a
    case OpenDoc(e, d, doc) => if d in ed.docs then s else Put(s, e, ed.(docs := ed.docs[d := doc]))
    // An edit, an undo among them, gives the buffer a higher version; saving, a new language or a
    // new commit leave the version and the text as they are.
    case EditDoc(e, d, doc) =>
      if d in ed.docs && doc.path == ed.docs[d].path
         && (doc.version > ed.docs[d].version || (doc.version == ed.docs[d].version && doc.text == ed.docs[d].text))
      then Put(s, e, ed.(docs := ed.docs[d := doc])) else s
    case Reload(e, sharing) => Put(s, e, ed.(sharing := sharing, lastFile := None))
    case Rename(e, student) => Put(s, e, ed.(student := student))
    case TryCursor(e, d) =>
      if ed.phase.Idle? && ed.lastFile.Some? && ed.sharing && d in ed.docs
      then Put(s, e, ed.(phase := CursorStarted(ed.lastFile.value, d))) else s
    case SkipCursor(e) => if ed.phase.Idle? then Put(s, e, ed.(phase := BuildStarted)) else s
    case TakeKey(e) =>
      (match ed.phase
       case CursorStarted(last, d) =>
         if d in ed.docs then Put(s, e, ed.(phase := CursorKeyed(last, PartsOf(ed.docs[d]), ed.docs[d].text))) else s
       case BuildTargeted(d, student) =>
         if d in ed.docs then Put(s, e, ed.(phase := BuildKeyed(d, student, PartsOf(ed.docs[d])))) else s
       case _ => s)
    case CompareKey(e, cursor) =>
      (match ed.phase
       case CursorKeyed(last, parts, seen) =>
         if KeyString(parts) != KeyString(last.parts) then Put(s, e, ed.(phase := BuildStarted))
         else Post(s, e, ed, ed.student, CursorReport(last.rev, cursor), Some(seen), CursorPosted(last, s.nextRequest))
       case _ => s)
    // However the post fails, the server may still be at work on the request.
    case PostFails(e) =>
      (match ed.phase
       case CursorStarted(_, _) => Put(s, e, ed.(lastFile := None, phase := BuildStarted))
       case CursorPosted(_, _) => Put(s, e, ed.(lastFile := None, phase := BuildStarted))
       case FilePosted(_, _, _) => Put(s, e, ed.(phase := Idle))
       case PlainPosted(_) => Put(s, e, ed.(phase := Idle))
       case _ => s)
    case Target(e, d) =>
      if ed.phase.BuildStarted? && ed.sharing && d in ed.docs
      then Put(s, e, ed.(phase := BuildTargeted(d, ed.student))) else s
    // From any phase before a post: no document can be read, or none is shared.
    case PostPlain(e, declined) =>
      if ed.phase.BuildStarted? || ed.phase.BuildTargeted? || ed.phase.BuildKeyed? || ed.phase.BuildRead?
      then Post(s, e, ed.(lastFile := None), ed.student, if declined then DeclinedReport else EmptyReport, None,
                PlainPosted(s.nextRequest))
      else s
    case ReadBuffer(e) =>
      (match ed.phase
       case BuildKeyed(d, student, parts) =>
         if d in ed.docs then Put(s, e, ed.(phase := BuildRead(d, student, parts, w.cut(ed.docs[d].text)))) else s
       case _ => s)
    case PostFile(e, file) =>
      (match ed.phase
       case BuildRead(d, student, parts, content) =>
         Post(s, e, ed.(lastFile := None), student, WholeFile(file.(path := parts.path, content := content)), None,
              FilePosted(d, parts, s.nextRequest))
       case _ => s)
    case Hear(e) => StepHear(s, e)
  }

  /** The editor hears back. */
  function StepHear(s: System, e: EditorId): System
    requires e in s.editors
  {
    var ed := s.editors[e];
    match ed.phase
    case CursorPosted(last, r) =>
      if r !in s.requests then s
      else
        (match s.requests[r].stage
         case Accepted(rev) =>
           Put(s, e, ed.(lastFile := if ed.lastFile.Some? then Some(last.(rev := rev)) else None, phase := Idle))
         case Refused => Put(s, e, ed.(lastFile := None, phase := BuildStarted))
         case _ => s)
    case FilePosted(d, parts, r) =>
      if r in s.requests && s.requests[r].stage.Accepted?
      then Put(s, e, ed.(lastFile := Some(LastFile(parts, s.requests[r].stage.rev, d)), phase := Idle)) else s
    case PlainPosted(r) =>
      if r in s.requests && s.requests[r].stage.Accepted? then Put(s, e, ed.(phase := Idle)) else s
    case _ => s
  }

  /** The server reads the latest snapshot and decides what to do with the report. */
  function StepIngest(s: System, r: RequestId): System
    requires r in s.requests
  {
    var q := s.requests[r];
    if !q.stage.Sent? then s
    else
      var latest := Stores.Read(s.store, q.slot, s.now);
      var previous := if latest.Some? then Some(latest.value.snapshot) else None;
      match q.report
      case CursorReport(basis, cursor) =>
        if !(latest.Some? && latest.value.rev == basis && latest.value.snapshot.FileSnapshot?)
        then SetStage(s, r, Refused)
        else if latest.value.snapshot.file.cursor == Some(cursor) then SetStage(s, r, Touching)
        else SetStage(s, r, Building(previous))
      case _ => SetStage(s, r, Building(previous))
  }

  /** A report with no change: the stored snapshot gets a new time, if its number is still the one
      read before. */
  function StepConfirm(s: System, r: RequestId): System
    requires r in s.requests
  {
    var q := s.requests[r];
    if q.stage.Touching? && q.report.CursorReport?
    then SetStage(s.(store := Stores.Touch(s.store, q.slot, q.report.basis, s.now)), r, Accepted(q.report.basis))
    else s
  }

  /** The system once what request `q` led to is recorded, the request aside. */
  function Recording(s: System, q: Request, snapshot: Snapshot): System {
    s.(store := Stores.Insert(s.store, q.slot, snapshot, s.now, true),
       history := s.history[s.store.nextRev + 1 := Record(q.slot, snapshot, q.claimed)])
  }

  /** The server stores what it built, whatever became the latest in the meantime. */
  function StepInsert(w: World, s: System, r: RequestId): System
    requires r in s.requests
  {
    var q := s.requests[r];
    if !q.stage.Building? then s
    else
      var snapshot := SnapshotFrom(w.tools, q.report, q.stage.previous);
      SetStage(Recording(s, q, snapshot), r, Accepted(s.store.nextRev + 1))
  }

  function Run(w: World, actions: seq<Action>): System {
    if actions == [] then Start() else Step(w, Run(w, DropLast(actions)), Last(actions))
  }

  // ---- What every step keeps ----

  /** What was stored under `rev` is a file with the text `t`. */
  predicate TextIs(s: System, rev: nat, t: string) {
    rev in s.history && s.history[rev].snapshot.FileSnapshot? && s.history[rev].snapshot.file.text.content == t
  }

  /** No two buffers an editor ever had open have the same path. */
  predicate PathsApart(ed: Editor) {
    forall d, d' :: d in ed.docs && d' in ed.docs && ed.docs[d].path == ed.docs[d'].path ==> d == d'
  }

  predicate AllApart(s: System) {
    forall e :: e in s.editors ==> PathsApart(s.editors[e])
  }

  /** A key was taken from buffer `d` at some version it has had. */
  predicate KeyOf(ed: Editor, d: DocId, parts: Parts) {
    d in ed.docs && ed.docs[d].path == parts.path && parts.version <= ed.docs[d].version
  }

  /** While the buffer still has the key's version, the server's copy is the buffer. The copy may
      be newer than the key, which can only make the key useless. */
  predicate LastOk(w: World, s: System, ed: Editor, last: LastFile) {
    && KeyOf(ed, last.doc, last.parts)
    && last.rev in s.history && s.history[last.rev].snapshot.FileSnapshot?
    && (ed.docs[last.doc].version == last.parts.version ==> TextIs(s, last.rev, Clamped(w, ed.docs[last.doc].text)))
  }

  predicate Claims(s: System, r: RequestId, basis: nat) {
    r in s.requests && s.requests[r].report.CursorReport? && s.requests[r].report.basis == basis
  }

  predicate Sends(s: System, r: RequestId, ed: Editor, d: DocId, parts: Parts, w: World) {
    && r in s.requests && s.requests[r].report.WholeFile?
    && KeyOf(ed, d, parts)
    && (ed.docs[d].version == parts.version ==> s.requests[r].report.file.content == w.cut(ed.docs[d].text))
  }

  predicate PhaseOk(w: World, s: System, ed: Editor) {
    match ed.phase
    case CursorStarted(last, _) => LastOk(w, s, ed, last)
    case CursorKeyed(last, parts, seen) =>
      LastOk(w, s, ed, last) && (parts == last.parts ==> TextIs(s, last.rev, Clamped(w, seen)))
    case CursorPosted(last, r) => LastOk(w, s, ed, last) && Claims(s, r, last.rev)
    case BuildKeyed(d, _, parts) => KeyOf(ed, d, parts)
    case BuildRead(d, _, parts, content) =>
      KeyOf(ed, d, parts) && (ed.docs[d].version == parts.version ==> content == w.cut(ed.docs[d].text))
    case FilePosted(d, parts, r) => Sends(s, r, ed, d, parts, w)
    case _ => true
  }

  predicate EditorOk(w: World, s: System, ed: Editor) {
    && (ed.lastFile.Some? ==> LastOk(w, s, ed, ed.lastFile.value))
    && PhaseOk(w, s, ed)
  }

  predicate RequestOk(w: World, s: System, q: Request) {
    match q.report
    case CursorReport(basis, _) =>
      && q.claimed.Some?
      && TextIs(s, basis, Clamped(w, q.claimed.value))
      && (q.stage.Building? ==>
            && q.stage.previous.Some? && q.stage.previous.value.FileSnapshot?
            && q.stage.previous.value.file.text.content == Clamped(w, q.claimed.value))
      && (q.stage.Accepted? ==> TextIs(s, q.stage.rev, Clamped(w, q.claimed.value)))
    case WholeFile(f) =>
      q.claimed == None && (q.stage.Accepted? ==> TextIs(s, q.stage.rev, Clamp(f.content)))
    case _ => q.claimed == None
  }

  predicate RecordOk(w: World, rec: Record) {
    rec.claimed.Some? ==>
      rec.snapshot.FileSnapshot? && rec.snapshot.file.text.content == Clamped(w, rec.claimed.value)
  }

  predicate StoreOk(s: System) {
    && (forall slot :: slot in s.store.latest ==>
          var stored := s.store.latest[slot];
          stored.rev in s.history && s.history[stored.rev].slot == slot
              && s.history[stored.rev].snapshot == stored.snapshot)
    && (forall rev :: rev in s.history ==> rev <= s.store.nextRev)
  }

  ghost predicate Inv(w: World, s: System) {
    && StoreOk(s)
    && (forall rev :: rev in s.history ==> RecordOk(w, s.history[rev]))
    && (forall r :: r in s.requests ==> r < s.nextRequest && RequestOk(w, s, s.requests[r]))
    && (forall e :: e in s.editors ==> EditorOk(w, s, s.editors[e]))
  }

  /** What only ever grows: records are never rewritten, nor what a request says. */
  ghost predicate Grows(s: System, s': System) {
    && (forall rev :: rev in s.history ==> rev in s'.history && s'.history[rev] == s.history[rev])
    && (forall r :: r in s.requests ==> r in s'.requests && s'.requests[r].report == s.requests[r].report
                                        && s'.requests[r].claimed == s.requests[r].claimed)
  }

  lemma EditorStays(w: World, s: System, s': System, ed: Editor)
    requires Grows(s, s') && EditorOk(w, s, ed)
    ensures EditorOk(w, s', ed)
  {
  }

  lemma RequestStays(w: World, s: System, s': System, q: Request)
    requires Grows(s, s') && RequestOk(w, s, q)
    ensures RequestOk(w, s', q)
  {
  }

  /** An editor's step that sends nothing. */
  lemma PutKeeps(w: World, s: System, e: EditorId, ed: Editor)
    requires Inv(w, s) && EditorOk(w, s, ed)
    ensures Inv(w, Put(s, e, ed))
  {
    var s' := Put(s, e, ed);
    forall e' | e' in s'.editors
      ensures EditorOk(w, s', s'.editors[e'])
    {
      EditorStays(w, s, s', s'.editors[e']);
    }
    forall r | r in s'.requests
      ensures RequestOk(w, s', s'.requests[r])
    {
      RequestStays(w, s, s', s.requests[r]);
    }
  }

  /** The system once a request is sent, the editor aside. */
  function Sending(s: System, slot: Slot, report: ReportState, claimed: Option<string>): System {
    s.(requests := s.requests[s.nextRequest := Request(slot, report, claimed, Sent)], nextRequest := s.nextRequest + 1)
  }

  lemma SendingKeeps(w: World, s: System, slot: Slot, report: ReportState, claimed: Option<string>)
    requires Inv(w, s) && RequestOk(w, s, Request(slot, report, claimed, Sent))
    ensures Inv(w, Sending(s, slot, report, claimed))
    ensures Grows(s, Sending(s, slot, report, claimed))
  {
    var s' := Sending(s, slot, report, claimed);
    forall e | e in s'.editors
      ensures EditorOk(w, s', s'.editors[e])
    {
      EditorStays(w, s, s', s.editors[e]);
    }
    forall r | r in s'.requests
      ensures RequestOk(w, s', s'.requests[r])
    {
      RequestStays(w, s, s', s'.requests[r]);
    }
  }

  /** A request moving to another stage. */
  lemma StageKeeps(w: World, s: System, r: RequestId, stage: Stage)
    requires Inv(w, s) && r in s.requests
    requires RequestOk(w, s, s.requests[r].(stage := stage))
    ensures Inv(w, SetStage(s, r, stage))
  {
    var s' := SetStage(s, r, stage);
    forall e | e in s'.editors
      ensures EditorOk(w, s', s'.editors[e])
    {
      EditorStays(w, s, s', s.editors[e]);
    }
    forall r' | r' in s'.requests
      ensures RequestOk(w, s', s'.requests[r'])
    {
      RequestStays(w, s, s', s'.requests[r']);
    }
  }

  /** The store and the records changing, with nothing lost. */
  lemma StoreKeeps(w: World, s: System, store: Stores.Inner<Slot, Snapshot>, history: map<nat, Record>)
    requires Inv(w, s)
    requires forall rev :: rev in s.history ==> rev in history && history[rev] == s.history[rev]
    requires forall rev :: rev in history ==> RecordOk(w, history[rev])
    requires StoreOk(s.(store := store, history := history))
    ensures Inv(w, s.(store := store, history := history))
  {
    var s' := s.(store := store, history := history);
    forall e | e in s'.editors
      ensures EditorOk(w, s', s'.editors[e])
    {
      EditorStays(w, s, s', s.editors[e]);
    }
    forall r | r in s'.requests
      ensures RequestOk(w, s', s'.requests[r])
    {
      RequestStays(w, s, s', s.requests[r]);
    }
  }

  // ---- Editors' steps, one by one ----

  /** A new version of a buffer only makes keys older. */
  lemma EditKeepsLast(w: World, s: System, ed: Editor, d: DocId, doc: Doc, last: LastFile)
    requires LastOk(w, s, ed, last) && d in ed.docs && doc.path == ed.docs[d].path
    requires doc.version > ed.docs[d].version || (doc.version == ed.docs[d].version && doc.text == ed.docs[d].text)
    ensures LastOk(w, s, ed.(docs := ed.docs[d := doc]), last)
  {
  }

  lemma EditKeepsEditor(w: World, s: System, ed: Editor, d: DocId, doc: Doc)
    requires EditorOk(w, s, ed) && d in ed.docs && doc.path == ed.docs[d].path
    requires doc.version > ed.docs[d].version || (doc.version == ed.docs[d].version && doc.text == ed.docs[d].text)
    ensures EditorOk(w, s, ed.(docs := ed.docs[d := doc]))
  {
    if ed.lastFile.Some? {
      EditKeepsLast(w, s, ed, d, doc, ed.lastFile.value);
    }
    if ed.phase.CursorStarted? || ed.phase.CursorKeyed? || ed.phase.CursorPosted? {
      EditKeepsLast(w, s, ed, d, doc, ed.phase.last);
    }
  }

  lemma OpenKeepsEditor(w: World, s: System, ed: Editor, d: DocId, doc: Doc)
    requires EditorOk(w, s, ed) && d !in ed.docs
    ensures EditorOk(w, s, ed.(docs := ed.docs[d := doc]))
  {
  }

  /** Taking a key that turns out equal to the last one means the server's copy is this buffer. */
  lemma KeyFindsBuffer(w: World, s: System, ed: Editor, last: LastFile, d: DocId)
    requires LastOk(w, s, ed, last) && PathsApart(ed) && d in ed.docs
    requires PartsOf(ed.docs[d]) == last.parts
    ensures TextIs(s, last.rev, Clamped(w, ed.docs[d].text))
  {
    assert d == last.doc;
  }

  lemma NewPhase(w: World, s: System, ed: Editor, phase: Phase)
    requires EditorOk(w, s, ed) && PhaseOk(w, s, ed.(phase := phase))
    ensures EditorOk(w, s, ed.(phase := phase))
  {
  }

  /** Forgetting the last file never hurts. */
  lemma ForgetsLast(w: World, s: System, ed: Editor, phase: Phase)
    requires PhaseOk(w, s, ed.(lastFile := None, phase := phase))
    ensures EditorOk(w, s, ed.(lastFile := None, phase := phase))
  {
  }

  lemma DocStep(w: World, s: System, a: Action)
    requires Inv(w, s) && (a.OpenDoc? || a.EditDoc? || a.Reload? || a.Rename?) && a.e in s.editors
    ensures Inv(w, StepEditor(w, s, a))
  {
    var ed, s' := s.editors[a.e], StepEditor(w, s, a);
    assert EditorOk(w, s, ed);
    if s' != s {
      if a.EditDoc? {
        EditKeepsEditor(w, s, ed, a.d, a.doc);
      } else if a.OpenDoc? {
        OpenKeepsEditor(w, s, ed, a.d, a.doc);
      }
      PutKeeps(w, s, a.e, s'.editors[a.e]);
    }
  }

  lemma CursorStep(w: World, s: System, a: Action)
    requires Inv(w, s) && (a.TryCursor? || a.SkipCursor? || a.Target?) && a.e in s.editors
    ensures Inv(w, StepEditor(w, s, a))
  {
    var ed, s' := s.editors[a.e], StepEditor(w, s, a);
    assert EditorOk(w, s, ed);
    if s' != s {
      NewPhase(w, s, ed, s'.editors[a.e].phase);
      PutKeeps(w, s, a.e, s'.editors[a.e]);
    }
  }

  lemma FailStep(w: World, s: System, e: EditorId)
    requires Inv(w, s) && e in s.editors
    ensures Inv(w, StepEditor(w, s, PostFails(e)))
  {
    var ed, s' := s.editors[e], StepEditor(w, s, PostFails(e));
    assert EditorOk(w, s, ed);
    if s' != s {
      if ed.phase.CursorStarted? || ed.phase.CursorPosted? {
        ForgetsLast(w, s, ed, BuildStarted);
      } else {
        NewPhase(w, s, ed, Idle);
      }
      PutKeeps(w, s, e, s'.editors[e]);
    }
  }

  lemma KeyStep(w: World, s: System, e: EditorId)
    requires Inv(w, s) && e in s.editors && PathsApart(s.editors[e])
    ensures Inv(w, StepEditor(w, s, TakeKey(e)))
  {
    var ed, s' := s.editors[e], StepEditor(w, s, TakeKey(e));
    assert EditorOk(w, s, ed);
    if s' != s {
      if ed.phase.CursorStarted? && PartsOf(ed.docs[ed.phase.doc]) == ed.phase.last.parts {
        KeyFindsBuffer(w, s, ed, ed.phase.last, ed.phase.doc);
      }
      NewPhase(w, s, ed, s'.editors[e].phase);
      PutKeeps(w, s, e, s'.editors[e]);
    }
  }

  lemma ReadStep(w: World, s: System, e: EditorId)
    requires Inv(w, s) && e in s.editors
    ensures Inv(w, StepEditor(w, s, ReadBuffer(e)))
  {
    var ed, s' := s.editors[e], StepEditor(w, s, ReadBuffer(e));
    assert EditorOk(w, s, ed);
    if s' != s {
      NewPhase(w, s, ed, s'.editors[e].phase);
      PutKeeps(w, s, e, s'.editors[e]);
    }
  }

  /** Comparing keys: equal ones let the caret alone be sent, claiming the buffer as it was seen. */
  lemma CompareStep(w: World, s: System, e: EditorId, cursor: Cursor)
    requires Inv(w, s) && e in s.editors
    ensures Inv(w, StepEditor(w, s, CompareKey(e, cursor)))
  {
    var ed := s.editors[e];
    assert EditorOk(w, s, ed);
    if ed.phase.CursorKeyed? {
      var last, parts, seen := ed.phase.last, ed.phase.parts, ed.phase.seen;
      if KeyString(parts) != KeyString(last.parts) {
        NewPhase(w, s, ed, BuildStarted);
        PutKeeps(w, s, e, ed.(phase := BuildStarted));
      } else {
        KeysTellPartsApart(parts, last.parts);
        var mid := Sending(s, ed.student, CursorReport(last.rev, cursor), Some(seen));
        SendingKeeps(w, s, ed.student, CursorReport(last.rev, cursor), Some(seen));
        EditorStays(w, s, mid, ed);
        NewPhase(w, mid, ed, CursorPosted(last, s.nextRequest));
        PutKeeps(w, mid, e, ed.(phase := CursorPosted(last, s.nextRequest)));
      }
    }
  }

  lemma PlainStep(w: World, s: System, e: EditorId, declined: bool)
    requires Inv(w, s) && e in s.editors
    ensures Inv(w, StepEditor(w, s, PostPlain(e, declined)))
  {
    var ed, s' := s.editors[e], StepEditor(w, s, PostPlain(e, declined));
    if s' != s {
      var report := if declined then DeclinedReport else EmptyReport;
      var mid := Sending(s, ed.student, report, None);
      SendingKeeps(w, s, ed.student, report, None);
      ForgetsLast(w, mid, ed, PlainPosted(s.nextRequest));
      PutKeeps(w, mid, e, ed.(lastFile := None, phase := PlainPosted(s.nextRequest)));
    }
  }

  lemma FileStep(w: World, s: System, e: EditorId, file: FileReport)
    requires Inv(w, s) && e in s.editors
    ensures Inv(w, StepEditor(w, s, PostFile(e, file)))
  {
    var ed := s.editors[e];
    assert EditorOk(w, s, ed);
    if ed.phase.BuildRead? {
      var d, parts, content := ed.phase.doc, ed.phase.parts, ed.phase.content;
      var report := WholeFile(file.(path := parts.path, content := content));
      var mid := Sending(s, ed.phase.student, report, None);
      SendingKeeps(w, s, ed.phase.student, report, None);
      ForgetsLast(w, mid, ed, FilePosted(d, parts, s.nextRequest));
      PutKeeps(w, mid, e, ed.(lastFile := None, phase := FilePosted(d, parts, s.nextRequest)));
    }
  }

  /** A caret-only report was taken: the new number stands for the same text as the old. */
  lemma HearCursor(w: World, s: System, ed: Editor)
    requires EditorOk(w, s, ed) && ed.phase.CursorPosted? && ed.phase.request in s.requests
    requires RequestOk(w, s, s.requests[ed.phase.request]) && s.requests[ed.phase.request].stage.Accepted?
    ensures EditorOk(w, s, ed.(lastFile := if ed.lastFile.Some?
              then Some(ed.phase.last.(rev := s.requests[ed.phase.request].stage.rev)) else None, phase := Idle))
  {
  }

  lemma HearFile(w: World, s: System, ed: Editor)
    requires EditorOk(w, s, ed) && ed.phase.FilePosted? && ed.phase.request in s.requests
    requires RequestOk(w, s, s.requests[ed.phase.request]) && s.requests[ed.phase.request].stage.Accepted?
    ensures EditorOk(w, s,
                     ed.(lastFile := Some(LastFile(ed.phase.parts, s.requests[ed.phase.request].stage.rev,
                                                   ed.phase.doc)),
                               phase := Idle))
  {
  }

  lemma HearStep(w: World, s: System, e: EditorId)
    requires Inv(w, s) && e in s.editors
    ensures Inv(w, StepHear(s, e))
  {
    var ed, s' := s.editors[e], StepHear(s, e);
    assert EditorOk(w, s, ed);
    if s' != s {
      var q := s.requests[ed.phase.request];
      assert RequestOk(w, s, q);
      if ed.phase.CursorPosted? && q.stage.Accepted? {
        HearCursor(w, s, ed);
      } else if ed.phase.CursorPosted? {
        ForgetsLast(w, s, ed, BuildStarted);
      } else if ed.phase.FilePosted? {
        HearFile(w, s, ed);
      } else {
        NewPhase(w, s, ed, Idle);
      }
      PutKeeps(w, s, e, s'.editors[e]);
    }
  }

  // ---- The server's steps ----

  /** Whatever is read from the store was once recorded, for that very student. */
  lemma ReadIsRecorded(w: World, s: System, slot: Slot)
    requires Inv(w, s)
    ensures var latest := Stores.Read(s.store, slot, s.now);
            latest.Some? ==>
              && latest.value.rev in s.history
              && s.history[latest.value.rev].snapshot == latest.value.snapshot
              && s.history[latest.value.rev].slot == slot
  {
    var latest := Stores.Read(s.store, slot, s.now);
    if latest.Some? {
      assert RecordOk(w, s.history[latest.value.rev]);
    }
  }

  lemma IngestStep(w: World, s: System, r: RequestId)
    requires Inv(w, s) && r in s.requests
    ensures Inv(w, StepIngest(s, r))
  {
    var q, s' := s.requests[r], StepIngest(s, r);
    assert RequestOk(w, s, q);
    ReadIsRecorded(w, s, q.slot);
    if s' != s {
      StageKeeps(w, s, r, s'.requests[r].stage);
    }
  }

  lemma TouchKeepsStore(s: System, slot: Slot, rev: nat)
    requires StoreOk(s)
    ensures StoreOk(s.(store := Stores.Touch(s.store, slot, rev, s.now)))
  {
  }

  lemma ConfirmStep(w: World, s: System, r: RequestId)
    requires Inv(w, s) && r in s.requests
    ensures Inv(w, StepConfirm(s, r))
  {
    var q := s.requests[r];
    assert RequestOk(w, s, q);
    if q.stage.Touching? && q.report.CursorReport? {
      var store := Stores.Touch(s.store, q.slot, q.report.basis, s.now);
      TouchKeepsStore(s, q.slot, q.report.basis);
      StoreKeeps(w, s, store, s.history);
      StageKeeps(w, s.(store := store), r, Accepted(q.report.basis));
    }
  }

  lemma InsertKeepsStore(s: System, slot: Slot, snapshot: Snapshot, claimed: Option<string>)
    requires StoreOk(s)
    ensures s.store.nextRev + 1 !in s.history
    ensures StoreOk(s.(store := Stores.Insert(s.store, slot, snapshot, s.now, true),
                       history := s.history[s.store.nextRev + 1 := Record(slot, snapshot, claimed)]))
  {
  }

  /** What is built for a request says what the request claims. */
  lemma BuiltAsClaimed(w: World, s: System, q: Request)
    requires RequestOk(w, s, q) && q.stage.Building?
    ensures var snapshot := SnapshotFrom(w.tools, q.report, q.stage.previous);
            && RecordOk(w, Record(q.slot, snapshot, q.claimed))
            && (q.report.WholeFile? ==>
                  snapshot.FileSnapshot? && snapshot.file.text.content == Clamp(q.report.file.content))
  {
  }

  lemma RecordingKeeps(w: World, s: System, q: Request) returns (mid: System)
    requires Inv(w, s) && RequestOk(w, s, q) && q.stage.Building?
    ensures mid == Recording(s, q, SnapshotFrom(w.tools, q.report, q.stage.previous))
    ensures Inv(w, mid) && RequestOk(w, mid, q.(stage := Accepted(s.store.nextRev + 1)))
    ensures mid.requests == s.requests
  {
    var snapshot := SnapshotFrom(w.tools, q.report, q.stage.previous);
    BuiltAsClaimed(w, s, q);
    mid := RecordKeeps(w, s, q, snapshot);
    RecordedAsClaimed(w, s, mid, q, snapshot);
  }

  lemma RecordKeeps(w: World, s: System, q: Request, snapshot: Snapshot) returns (mid: System)
    requires Inv(w, s) && RecordOk(w, Record(q.slot, snapshot, q.claimed))
    ensures mid == Recording(s, q, snapshot) && Inv(w, mid) && mid.requests == s.requests && Grows(s, mid)
  {
    mid := Recording(s, q, snapshot);
    InsertKeepsStore(s, q.slot, snapshot, q.claimed);
    StoreKeeps(w, s, mid.store, mid.history);
  }

  lemma RecordedAsClaimed(w: World, s: System, mid: System, q: Request, snapshot: Snapshot)
    requires RequestOk(w, s, q) && q.stage.Building? && mid == Recording(s, q, snapshot) && Grows(s, mid)
    requires RecordOk(w, Record(q.slot, snapshot, q.claimed))
    requires q.report.WholeFile? ==>
               snapshot.FileSnapshot? && snapshot.file.text.content == Clamp(q.report.file.content)
    ensures RequestOk(w, mid, q.(stage := Accepted(s.store.nextRev + 1)))
  {
    RequestStays(w, s, mid, q);
    InsertedAsClaimed(w, mid, q, s.store.nextRev + 1);
  }

  lemma InsertIs(w: World, s: System, r: RequestId, mid: System)
    requires r in s.requests && s.requests[r].stage.Building?
    requires mid
          == Recording(s, s.requests[r], SnapshotFrom(w.tools, s.requests[r].report, s.requests[r].stage.previous))
    ensures r in mid.requests && StepInsert(w, s, r) == SetStage(mid, r, Accepted(s.store.nextRev + 1))
  {
  }

  lemma InsertStep(w: World, s: System, r: RequestId)
    requires Inv(w, s) && r in s.requests
    ensures Inv(w, StepInsert(w, s, r))
  {
    var q := s.requests[r];
    assert RequestOk(w, s, q);
    if q.stage.Building? {
      var mid := RecordingKeeps(w, s, q);
      InsertIs(w, s, r, mid);
      StageKeeps(w, mid, r, Accepted(s.store.nextRev + 1));
    }
  }

  lemma InsertedAsClaimed(w: World, s: System, q: Request, rev: nat)
    requires RequestOk(w, s, q) && q.stage.Building?
    requires rev in s.history && RecordOk(w, s.history[rev]) && s.history[rev].claimed == q.claimed
    requires q.report.WholeFile? ==>
               s.history[rev].snapshot.FileSnapshot?
               && s.history[rev].snapshot.file.text.content == Clamp(q.report.file.content)
    ensures RequestOk(w, s, q.(stage := Accepted(rev)))
  {
  }

  // ---- Every run ----

  lemma ServerStepKeeps(w: World, s: System, a: Action)
    requires Inv(w, s)
    requires a.Ingest? || a.Confirm? || a.Insert?
    ensures Inv(w, Step(w, s, a))
  {
    if a.r in s.requests {
      match a
      case Ingest(r) => IngestStep(w, s, r);
      case Confirm(r) => ConfirmStep(w, s, r);
      case Insert(r) => InsertStep(w, s, r);
    }
  }

  lemma EditorStepKeeps(w: World, s: System, a: Action)
    requires Inv(w, s) && AllApart(s)
    requires IsEditorAction(a)
    requires a.e in s.editors
    ensures Inv(w, StepEditor(w, s, a))
  {
    match a
    case OpenDoc(_, _, _) => DocStep(w, s, a);
    case EditDoc(_, _, _) => DocStep(w, s, a);
    case Reload(_, _) => DocStep(w, s, a);
    case Rename(_, _) => DocStep(w, s, a);
    case TryCursor(_, _) => CursorStep(w, s, a);
    case SkipCursor(_) => CursorStep(w, s, a);
    case Target(_, _) => CursorStep(w, s, a);
    case TakeKey(e) => KeyStep(w, s, e);
    case CompareKey(e, cursor) => CompareStep(w, s, e, cursor);
    case PostFails(e) => FailStep(w, s, e);
    case PostPlain(e, declined) => PlainStep(w, s, e, declined);
    case ReadBuffer(e) => ReadStep(w, s, e);
    case PostFile(e, file) => FileStep(w, s, e, file);
    case Hear(e) => HearStep(w, s, e);
  }

  lemma TickKeeps(w: World, s: System, ms: nat)
    requires Inv(w, s)
    ensures Inv(w, s.(now := s.now + ms))
  {
    var s' := s.(now := s.now + ms);
    forall e | e in s'.editors
      ensures EditorOk(w, s', s'.editors[e])
    {
      EditorStays(w, s, s', s.editors[e]);
    }
    forall r | r in s'.requests
      ensures RequestOk(w, s', s'.requests[r])
    {
      RequestStays(w, s, s', s.requests[r]);
    }
  }

  lemma StepKeeps(w: World, s: System, a: Action)
    requires Inv(w, s) && AllApart(s)
    ensures Inv(w, Step(w, s, a))
  {
    match a
    case Tick(ms) => TickKeeps(w, s, ms);
    case OpenEditor(e, student) =>
      if e !in s.editors {
        ForgetsLast(w, s, Editor(student, true, map[], None, Idle), Idle);
        PutKeeps(w, s, e, Editor(student, true, map[], None, Idle));
      }
    case Ingest(_) => ServerStepKeeps(w, s, a);
    case Confirm(_) => ServerStepKeeps(w, s, a);
    case Insert(_) => ServerStepKeeps(w, s, a);
    case _ =>
      if a.e in s.editors {
        EditorStepKeeps(w, s, a);
      }
  }

  /** Buffers are never forgotten, so paths that are apart in the end always were. */
  lemma ApartBefore(w: World, s: System, a: Action)
    requires AllApart(Step(w, s, a))
    ensures AllApart(s)
  {
    var s' := Step(w, s, a);
    forall e | e in s.editors
      ensures PathsApart(s.editors[e])
    {
      DocsRemain(w, s, a, e);
      assert PathsApart(s'.editors[e]);
      forall d, d' | d in s.editors[e].docs && d' in s.editors[e].docs
          && s.editors[e].docs[d].path == s.editors[e].docs[d'].path
        ensures d == d'
      {
        assert s'.editors[e].docs[d].path == s'.editors[e].docs[d'].path;
      }
    }
  }

  /** Buffers stay, under their paths. */
  predicate DocsStay(ed: Editor, ed': Editor) {
    forall d :: d in ed.docs ==> d in ed'.docs && ed'.docs[d].path == ed.docs[d].path
  }

  /** Only the editor of an action is touched, and its buffers stay. */
  predicate OnlyEditor(s: System, s': System, e: EditorId)
    requires e in s.editors
  {
    && s'.editors.Keys == s.editors.Keys && DocsStay(s.editors[e], s'.editors[e])
    && forall f :: f in s.editors && f != e ==> s'.editors[f] == s.editors[f]
  }

  predicate NoneOpened(s: System, s': System, e: EditorId)
    requires e in s.editors && e in s'.editors
  {
    s'.editors[e].docs.Keys == s.editors[e].docs.Keys
  }

  lemma DocsStayOnHear(s: System, e: EditorId)
    requires e in s.editors
    ensures OnlyEditor(s, StepHear(s, e), e) && NoneOpened(s, StepHear(s, e), e)
  {
    var s' := StepHear(s, e);
    assert s'.editors == s.editors || s'.editors == s.editors[e := s'.editors[e]];
    assert s'.editors[e].docs == s.editors[e].docs;
  }

  predicate IsDocAction(a: Action) { a.OpenDoc? || a.EditDoc? || a.Reload? || a.Rename? }

  lemma DocsStayOnDocAction(w: World, s: System, a: Action)
    requires IsDocAction(a) && a.e in s.editors
    ensures OnlyEditor(s, StepEditor(w, s, a), a.e)
    ensures !a.OpenDoc? ==> NoneOpened(s, StepEditor(w, s, a), a.e)
  {
    var s' := StepEditor(w, s, a);
    assert s'.editors == s.editors || s'.editors == s.editors[a.e := s'.editors[a.e]];
  }

  lemma DocsStayOnCursorMove(w: World, s: System, a: Action)
    requires (a.TryCursor? || a.SkipCursor? || a.TakeKey? || a.CompareKey? || a.PostFails?) && a.e in s.editors
    ensures OnlyEditor(s, StepEditor(w, s, a), a.e) && NoneOpened(s, StepEditor(w, s, a), a.e)
  {
    var s' := StepEditor(w, s, a);
    assert s'.editors == s.editors || s'.editors == s.editors[a.e := s'.editors[a.e]];
    assert s'.editors[a.e].docs == s.editors[a.e].docs;
  }

  lemma DocsStayOnBuildMove(w: World, s: System, a: Action)
    requires (a.Target? || a.PostPlain? || a.ReadBuffer? || a.PostFile?) && a.e in s.editors
    ensures OnlyEditor(s, StepEditor(w, s, a), a.e) && NoneOpened(s, StepEditor(w, s, a), a.e)
  {
    var s' := StepEditor(w, s, a);
    assert s'.editors == s.editors || s'.editors == s.editors[a.e := s'.editors[a.e]];
    assert s'.editors[a.e].docs == s.editors[a.e].docs;
  }

  lemma DocsStayOnEditorStep(w: World, s: System, a: Action)
    requires IsEditorAction(a) && a.e in s.editors
    ensures OnlyEditor(s, StepEditor(w, s, a), a.e)
    ensures !a.OpenDoc? ==> NoneOpened(s, StepEditor(w, s, a), a.e)
  {
    if a.Hear? {
      DocsStayOnHear(s, a.e);
    } else if IsDocAction(a) {
      DocsStayOnDocAction(w, s, a);
    } else if a.Target? || a.PostPlain? || a.ReadBuffer? || a.PostFile? {
      DocsStayOnBuildMove(w, s, a);
    } else {
      DocsStayOnCursorMove(w, s, a);
    }
  }

  lemma ServerTouchesNoEditor(w: World, s: System, a: Action)
    requires a.Ingest? || a.Confirm? || a.Insert? || a.Tick?
    ensures Step(w, s, a).editors == s.editors
  {
  }

  lemma DocsRemain(w: World, s: System, a: Action, e: EditorId)
    requires e in s.editors
    ensures e in Step(w, s, a).editors
    ensures DocsStay(s.editors[e], Step(w, s, a).editors[e])
  {
    if IsEditorAction(a) {
      if a.e in s.editors {
        DocsStayOnEditorStep(w, s, a);
      }
    } else if !a.OpenEditor? {
      ServerTouchesNoEditor(w, s, a);
    }
  }

  /** Where nothing is opened, paths that are apart stay apart. */
  lemma StaysApart(w: World, s: System, a: Action)
    requires AllApart(s) && !a.OpenEditor? && !a.OpenDoc?
    ensures AllApart(Step(w, s, a))
  {
    var s' := Step(w, s, a);
    if IsEditorAction(a) {
      if a.e in s.editors {
        DocsStayOnEditorStep(w, s, a);
        var ed, ed' := s.editors[a.e], s'.editors[a.e];
        assert PathsApart(ed);
        forall d, d' | d in ed'.docs && d' in ed'.docs && ed'.docs[d].path == ed'.docs[d'].path
          ensures d == d'
        {
          assert d in ed.docs && d' in ed.docs && ed.docs[d].path == ed.docs[d'].path;
        }
      }
    } else {
      ServerTouchesNoEditor(w, s, a);
    }
  }

  lemma {:induction false} RunKeeps(w: World, actions: seq<Action>)
    requires AllApart(Run(w, actions))
    ensures Inv(w, Run(w, actions))
    decreases |actions|
  {
    if actions != [] {
      ApartBefore(w, Run(w, DropLast(actions)), Last(actions));
      RunKeeps(w, DropLast(actions));
      StepKeeps(w, Run(w, DropLast(actions)), Last(actions));
    }
  }

  /** In every interleaving of any number of editors' reports, as long as no editor had two
      buffers with one path: whatever a caret-only report made the server store, or confirm, has
      exactly the text the sender's buffer had, clamped, when it took the key it compared. */
  lemma CursorReportsTellTheTruth(w: World, actions: seq<Action>)
    requires AllApart(Run(w, actions))
    ensures var s := Run(w, actions);
            && (forall rev :: rev in s.history && s.history[rev].claimed.Some? ==>
                  TextIs(s, rev, Clamped(w, s.history[rev].claimed.value)))
            && (forall r :: r in s.requests && s.requests[r].stage.Accepted? && s.requests[r].claimed.Some? ==>
                  TextIs(s, s.requests[r].stage.rev, Clamped(w, s.requests[r].claimed.value)))
  {
    RunKeeps(w, actions);
    var s := Run(w, actions);
    forall rev | rev in s.history && s.history[rev].claimed.Some?
      ensures TextIs(s, rev, Clamped(w, s.history[rev].claimed.value))
    {
      assert RecordOk(w, s.history[rev]);
    }
    forall r | r in s.requests && s.requests[r].stage.Accepted? && s.requests[r].claimed.Some?
      ensures TextIs(s, s.requests[r].stage.rev, Clamped(w, s.requests[r].claimed.value))
    {
      assert RequestOk(w, s, s.requests[r]);
    }
  }

  // ---- Colours, whatever is open ----

  predicate SlotColoured(w: World, s: System, slot: Slot)
    requires slot in s.store.latest
  {
    Coherent(w.tools, s.store.latest[slot].snapshot)
  }

  predicate RecordColoured(w: World, rec: Record) { Coherent(w.tools, rec.snapshot) }

  predicate PreviousColoured(w: World, q: Request) {
    q.stage.Building? && q.stage.previous.Some? ==> Coherent(w.tools, q.stage.previous.value)
  }

  /** Whatever is stored, was stored or is about to be built on has the colours of its own text. */
  ghost predicate Coloured(w: World, s: System) {
    && (forall slot :: slot in s.store.latest ==> SlotColoured(w, s, slot))
    && (forall rev :: rev in s.history ==> RecordColoured(w, s.history[rev]))
    && (forall r :: r in s.requests ==> PreviousColoured(w, s.requests[r]))
  }

  /** Editors send requests, and touch nothing that is stored. */
  lemma EditorsColourNothing(w: World, s: System, a: Action)
    requires Coloured(w, s) && IsEditorAction(a) && a.e in s.editors
    ensures Coloured(w, StepEditor(w, s, a))
  {
    var s' := StepEditor(w, s, a);
    assert s'.store == s.store && s'.history == s.history;
    assert forall r :: r in s'.requests ==>
                         (r in s.requests && s'.requests[r] == s.requests[r]) || s'.requests[r].stage.Sent?;
    ColouredStill(w, s, s');
  }

  lemma ColouredStill(w: World, s: System, s': System)
    requires Coloured(w, s) && s'.store.latest == s.store.latest && s'.history == s.history
    requires forall r :: r in s'.requests ==>
               (r in s.requests && s'.requests[r] == s.requests[r]) || PreviousColoured(w, s'.requests[r])
    ensures Coloured(w, s')
  {
    forall slot | slot in s'.store.latest ensures SlotColoured(w, s', slot) {
      assert SlotColoured(w, s, slot);
    }
  }

  lemma IngestColoured(w: World, s: System, r: RequestId)
    requires Coloured(w, s) && r in s.requests
    ensures Coloured(w, StepIngest(s, r))
  {
    var s', slot := StepIngest(s, r), s.requests[r].slot;
    if Stores.Read(s.store, slot, s.now).Some? {
      assert SlotColoured(w, s, slot);
    }
    ColouredStill(w, s, s');
  }

  lemma ConfirmColoured(w: World, s: System, r: RequestId)
    requires Coloured(w, s) && r in s.requests
    ensures Coloured(w, StepConfirm(s, r))
  {
    var s' := StepConfirm(s, r);
    forall slot | slot in s'.store.latest ensures SlotColoured(w, s', slot) {
      assert SlotColoured(w, s, slot);
    }
  }

  lemma InsertColoured(w: World, s: System, r: RequestId)
    requires Coloured(w, s) && r in s.requests
    ensures Coloured(w, StepInsert(w, s, r))
  {
    var q, s' := s.requests[r], StepInsert(w, s, r);
    if q.stage.Building? {
      assert PreviousColoured(w, q);
      ReuseChangesNothing(w.tools, q.report, q.stage.previous);
      forall slot | slot in s'.store.latest ensures SlotColoured(w, s', slot) {
        assert slot != q.slot ==> SlotColoured(w, s, slot);
      }
    }
  }

  lemma StepColoured(w: World, s: System, a: Action)
    requires Coloured(w, s)
    ensures Coloured(w, Step(w, s, a))
  {
    match a
    case Ingest(r) => if r in s.requests { IngestColoured(w, s, r); }
    case Confirm(r) => if r in s.requests { ConfirmColoured(w, s, r); }
    case Insert(r) => if r in s.requests { InsertColoured(w, s, r); }
    case Tick(_) => ColouredStill(w, s, Step(w, s, a));
    case OpenEditor(_, _) => ColouredStill(w, s, Step(w, s, a));
    case _ => if a.e in s.editors { EditorsColourNothing(w, s, a); }
  }

  lemma {:induction false} RunColoured(w: World, actions: seq<Action>)
    ensures Coloured(w, Run(w, actions))
    decreases |actions|
  {
    if actions != [] {
      RunColoured(w, DropLast(actions));
      StepColoured(w, Run(w, DropLast(actions)), Last(actions));
    }
  }

  /** In every run, paths shared or not: every snapshot ever stored has the colours of its own text. */
  lemma StoredColoursAreFresh(w: World, actions: seq<Action>, rev: nat)
    requires rev in Run(w, actions).history
    ensures Coherent(w.tools, Run(w, actions).history[rev].snapshot)
  {
    RunColoured(w, actions);
    assert RecordColoured(w, Run(w, actions).history[rev]);
  }

  /** In every run: storing what a report other than a caret's led to stores the snapshot that building
      from nothing gives, whichever snapshot its colours were taken from. */
  lemma ReportsAreStoredAsBuiltAfresh(w: World, actions: seq<Action>, r: RequestId)
    requires r in Run(w, actions).requests && Run(w, actions).requests[r].stage.Building?
    requires !Run(w, actions).requests[r].report.CursorReport?
    ensures var q, s' := Run(w, actions).requests[r], Run(w, actions + [Insert(r)]);
            && q.slot in s'.store.latest
            && s'.store.latest[q.slot].snapshot == SnapshotFrom(w.tools, q.report, None)
  {
    RunColoured(w, actions);
    SnocEnds(actions, Insert(r));
    var q := Run(w, actions).requests[r];
    assert PreviousColoured(w, q);
    ReuseChangesNothing(w.tools, q.report, q.stage.previous);
  }
}
