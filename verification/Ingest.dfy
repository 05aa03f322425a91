/** The server's end of a terminal recording: a stream of inputs, a buffer of rows not yet written and
    the two tables it fills. Any write may fail, and the rows of a failed one may be there or not. */
module Ingest {
  import opened EditScripts

  const BATCH_SIZE := 128

  type Id = string

  datatype Chunk = Chunk(offsetMs: int, stdin: bool, data: string)

  datatype Event = Started(id: Id) | Output(chunk: Chunk) | Ended(exitCode: int) | Other

  /** How an INSERT of several rows can go: the rows may be in the table although an error came back. */
  datatype Write = Written | Refused | WrittenButFailed

  /** How each write goes that handling an input may need. */
  datatype Io = Io(flush: Write, startOk: bool, errorsOk: bool, endOk: bool)

  /** What the loop hears next: something of the stream, an error of it, or the flush timer. */
  datatype What = Item(event: Event) | Broken | Timer

  datatype Input = Input(what: What, io: Io)

  datatype Row = Row(session: Id, number: nat, chunk: Chunk, text: string)

  datatype Session = Session(errors: nat, ended: bool, exitCode: Option<int>)

  /** What text is made of output, and which of it looks like an error. */
  datatype Reader = Reader(plain: string -> string, looksLikeError: string -> bool)

  // ---- One row at a time ----

  function IsStart(i: Input): bool { i.what.Item? && i.what.event.Started? }

  function IsChunk(i: Input): bool { i.what.Item? && i.what.event.Output? }

  function IsEnd(i: Input): bool { i.what.Item? && i.what.event.Ended? }

  /** The session of the last start. */
  function Current(h: seq<Input>): Option<Id> {
    if h == [] then None
    else if IsStart(Last(h)) then Some(Last(h).what.event.id)
    else Current(DropLast(h))
  }

  /** The table, were every chunk of a session inserted as it comes. */
  function Accepted(rd: Reader, h: seq<Input>): seq<Row> {
    if h == [] then []
    else
      var before := Accepted(rd, DropLast(h));
      var session := Current(DropLast(h));
      if IsChunk(Last(h)) && session.Some?
      then before + [NewRow(rd, session.value, |before|, Last(h).what.event.chunk)]
      else before
  }

  function NewRow(rd: Reader, session: Id, number: nat, chunk: Chunk): Row {
    Row(session, number, chunk, rd.plain(chunk.data))
  }

  predicate LooksBad(rd: Reader, chunk: Chunk) { !chunk.stdin && rd.looksLikeError(rd.plain(chunk.data)) }

  function Errors(rd: Reader, rows: seq<Row>): nat {
    if rows == [] then 0 else Errors(rd, DropLast(rows)) + if LooksBad(rd, Last(rows).chunk) then 1 else 0
  }

  // ---- What a session's own row should say ----

  function StartedIn(h: seq<Input>): set<Id> {
    if h == [] then {} else StartedIn(DropLast(h)) + if IsStart(Last(h)) then {Last(h).what.event.id} else {}
  }

  /** No session is started twice. */
  predicate DistinctStarts(h: seq<Input>) {
    h != [] ==> DistinctStarts(DropLast(h)) && (IsStart(Last(h)) ==> Last(h).what.event.id !in StartedIn(DropLast(h)))
  }

  /** An end was heard in some session. */
  predicate EverEnded(h: seq<Input>) {
    h != [] && (EverEnded(DropLast(h)) || (IsEnd(Last(h)) && Current(DropLast(h)).Some?))
  }

  /** The exit code last recorded for a session. */
  function ExitOf(h: seq<Input>, id: Id): Option<int> {
    if h == [] then None
    else if IsEnd(Last(h)) && Last(h).io.endOk && Current(DropLast(h)) == Some(id)
    then Some(Last(h).what.event.exitCode)
    else ExitOf(DropLast(h), id)
  }

  /** The error count is written when the timer goes off or an end is heard, in a session. */
  predicate Saves(h: seq<Input>) {
    h != [] && (Last(h).what.Timer? || IsEnd(Last(h))) && Last(h).io.errorsOk && Current(DropLast(h)).Some?
  }

  /** All errors so far, of whatever session. */
  function AllErrors(rd: Reader, h: seq<Input>): nat { Errors(rd, Accepted(rd, h)) }

  /** The count last written, for whatever session. */
  function Persisted(rd: Reader, h: seq<Input>): nat {
    if h == [] then 0 else if Saves(h) then AllErrors(rd, DropLast(h)) else Persisted(rd, DropLast(h))
  }

  /** The count in a session's row: what was last written while it was the current one. */
  function Column(rd: Reader, h: seq<Input>, id: Id): nat {
    if h == [] then 0
    else
      var before := DropLast(h);
      if Saves(h) && Current(before) == Some(id) && AllErrors(rd, before) != Persisted(rd, before)
      then AllErrors(rd, before)
      else Column(rd, before, id)
  }

  /** The errors a session really had. */
  function OwnErrors(rd: Reader, rows: seq<Row>, id: Id): nat {
    if rows == [] then 0
    else OwnErrors(rd, DropLast(rows), id) + if Last(rows).session == id && LooksBad(rd, Last(rows).chunk) then 1 else 0
  }

  // ---- In batches ----

  function Flat(inserts: seq<seq<Row>>): seq<Row> {
    if inserts == [] then [] else Flat(DropLast(inserts)) + Last(inserts)
  }

  lemma FlatGrows(inserts: seq<seq<Row>>, batch: seq<Row>)
    ensures Flat(inserts + [batch]) == Flat(inserts) + batch
  {
    assert DropLast(inserts + [batch]) == inserts;
  }

  /** One call of the service: its variables, and the tables as it writes them. */
  class Stream {
    const rd: Reader
    var inserts: seq<seq<Row>>
    var sessions: map<Id, Session>
    var sessionId: Option<Id>
    var buffer: seq<Row>
    var next: nat
    var errorCount: nat
    var persistedErrors: nat
    var ended: bool
    ghost var heard: seq<Input>

    ghost function Table(): seq<Row> reads `inserts { Flat(inserts) }

    /** No INSERT is empty, nor over the limit. */
    ghost predicate Batched() reads `inserts { forall i :: 0 <= i < |inserts| ==> 0 < |inserts[i]| <= BATCH_SIZE }

    /** What holds whenever the loop waits for the next input. */
    ghost predicate Valid() reads this { Consistent() && |buffer| < BATCH_SIZE }

    /** What is in the table and what is buffered are all the rows there should be. */
    ghost predicate Consistent() reads this {
      && Table() + buffer == Accepted(rd, heard)
      && Batched()
      && next == |Accepted(rd, heard)|
      && errorCount == Errors(rd, Accepted(rd, heard))
      && sessionId == Current(heard)
      && ended == EverEnded(heard)
      && Recorded()
    }

    /** The rows of the sessions. */
    ghost predicate Recorded()
      reads `heard, `sessions, `persistedErrors
    {
      RecordedAs(rd, heard, sessions, persistedErrors)
    }

    constructor (rd: Reader)
      ensures Valid() && heard == [] && inserts == [] && sessions == map[] && this.rd == rd
    {
      this.rd := rd;
      inserts, sessions, sessionId, buffer := [], map[], None, [];
      next, errorCount, persistedErrors, ended := 0, 0, 0, false;
      heard := [];
    }

    /** Writes what is buffered as one INSERT. */
    method Flush(write: Write) returns (ok: bool)
      requires Batched() && |buffer| <= BATCH_SIZE
      modifies this`inserts, this`buffer
      ensures Batched() && buffer == []
      ensures ok <==> old(buffer) == [] || write == Written
      ensures Table() == old(Table()) + if write == Refused then [] else old(buffer)
    {
      if buffer == [] {
        return true;
      }
      var batch := buffer;
      buffer := [];
      if write != Refused {
        FlatGrows(inserts, batch);
        inserts := inserts + [batch];
      }
      return write == Written;
    }

    /** Writes the error count, when it changed since it was last written. */
    method PersistErrors(ok: bool)
      requires sessionId.Some? && sessionId.value in sessions
      modifies this`sessions, this`persistedErrors
      ensures sessions == WithErrors(old(sessions), sessionId.value, errorCount, old(persistedErrors), ok)
      ensures persistedErrors == if ok then errorCount else old(persistedErrors)
    {
      if errorCount == persistedErrors {
        return;
      }
      if ok {
        sessions := sessions[sessionId.value := sessions[sessionId.value].(errors := errorCount)];
        persistedErrors := errorCount;
      }
    }

    method Finalize(exitCode: Option<int>, ok: bool)
      requires sessionId.Some? && sessionId.value in sessions
      modifies this`sessions
      ensures sessions == if ok then WithEnd(old(sessions), sessionId.value, exitCode) else old(sessions)
    {
      if ok {
        sessions := sessions[sessionId.value := sessions[sessionId.value].(ended := true, exitCode := exitCode)];
      }
    }

    method HandleStart(id: Id, input: Input) returns (ok: bool)
      requires Valid() && input.what == Item(Started(id))
      modifies this
      ensures ok ==> Valid() && heard == old(heard) + [input]
      ensures !ok ==> !input.io.startOk || id in old(sessions)
      ensures Batched() && Table() == old(Table())
    {
      Extended(rd, heard, input);
      if !input.io.startOk || id in sessions {
        return false;
      }
      StartRecorded(rd, heard, sessions, persistedErrors, input, id);
      sessions := sessions[id := Session(0, false, None)];
      sessionId := Some(id);
      heard := heard + [input];
      return true;
    }

    method Buffer(chunk: Chunk, input: Input)
      requires Valid() && input.what == Item(Output(chunk)) && sessionId.Some?
      modifies this`errorCount, this`buffer, this`next, this`heard
      ensures Consistent() && |buffer| <= BATCH_SIZE && heard == old(heard) + [input]
    {
      Extended(rd, heard, input);
      NothingRecorded(rd, heard, sessions, persistedErrors, input);
      if LooksBad(rd, chunk) {
        errorCount := errorCount + 1;
      }
      Regroup(Table(), buffer, [NewRow(rd, sessionId.value, next, chunk)]);
      buffer := buffer + [NewRow(rd, sessionId.value, next, chunk)];
      next := next + 1;
      heard := heard + [input];
    }

    method HandleChunk(chunk: Chunk, input: Input) returns (ok: bool)
      requires Valid() && input.what == Item(Output(chunk))
      modifies this
      ensures ok ==> Valid() && heard == old(heard) + [input]
      ensures Batched() && old(Table()) <= Table() <= Accepted(rd, old(heard) + [input])
      ensures !ok ==> input.io.flush != Written
    {
      if sessionId.None? {
        Extended(rd, heard, input);
        NothingRecorded(rd, heard, sessions, persistedErrors, input);
        heard := heard + [input];
        return true;
      }
      Buffer(chunk, input);
      if |buffer| >= BATCH_SIZE {
        ok := Flush(input.io.flush);
      } else {
        ok := true;
      }
    }

    /** Closes the session, after a flush. */
    method Close(exitCode: int, input: Input)
      requires Valid() && input.what == Item(Ended(exitCode)) && sessionId.Some?
      modifies this`sessions, this`persistedErrors, this`ended, this`heard
      ensures Valid() && heard == old(heard) + [input]
    {
      Extended(rd, heard, input);
      EndRecorded(rd, heard, sessions, persistedErrors, input, sessionId.value);
      PersistErrors(input.io.errorsOk);
      Finalize(Some(exitCode), input.io.endOk);
      ended := true;
      heard := heard + [input];
    }

    method HandleEnd(exitCode: int, input: Input) returns (ok: bool)
      requires Valid() && input.what == Item(Ended(exitCode))
      modifies this
      ensures ok ==> Valid() && heard == old(heard) + [input]
      ensures Batched() && old(Table()) <= Table() <= Accepted(rd, old(heard) + [input])
      ensures !ok ==> input.io.flush != Written
    {
      Extended(rd, heard, input);
      if sessionId.None? {
        NothingRecorded(rd, heard, sessions, persistedErrors, input);
        heard := heard + [input];
        return true;
      }
      ok := Flush(input.io.flush);
      if ok {
        Close(exitCode, input);
      }
    }

    method HandleTimer(input: Input) returns (ok: bool)
      requires Valid() && input.what.Timer?
      modifies this
      ensures ok ==> Valid() && heard == old(heard) + [input] && buffer == []
      ensures Batched() && old(Table()) <= Table() <= Accepted(rd, old(heard) + [input])
      ensures !ok ==> input.io.flush != Written
    {
      Extended(rd, heard, input);
      ok := Flush(input.io.flush);
      if !ok {
        return;
      }
      if sessionId.Some? {
        TimerRecorded(rd, heard, sessions, persistedErrors, input, sessionId.value);
        PersistErrors(input.io.errorsOk);
      } else {
        NothingRecorded(rd, heard, sessions, persistedErrors, input);
      }
      heard := heard + [input];
    }

    /** One turn of the loop. When it fails the call is over, and nothing more is written. */
    method Handle(input: Input) returns (ok: bool)
      requires Valid()
      modifies this
      ensures ok ==> Valid() && heard == old(heard) + [input]
      ensures Batched() && old(Table()) <= Table() <= Accepted(rd, old(heard) + [input])
      ensures !ok ==> || input.what.Broken?
                      || input.io.flush != Written
                      || (IsStart(input) && (!input.io.startOk || input.what.event.id in old(sessions)))
    {
      Extended(rd, heard, input);
      match input.what
      case Broken => ok := false;
      case Timer => ok := HandleTimer(input);
      case Item(Started(id)) => ok := HandleStart(id, input);
      case Item(Output(chunk)) => ok := HandleChunk(chunk, input);
      case Item(Ended(exitCode)) => ok := HandleEnd(exitCode, input);
      case Item(Other) =>
        NothingRecorded(rd, heard, sessions, persistedErrors, input);
        heard := heard + [input];
        ok := true;
    }

    /** Brings the last session up to date when the stream has ended. */
    method Settle(io: Io)
      requires Recorded() && sessionId == Current(heard) && ended == EverEnded(heard)
      requires errorCount == AllErrors(rd, heard)
      modifies this`sessions, this`persistedErrors
      ensures sessions.Keys == StartedIn(heard)
      ensures forall id :: id in sessions ==> SessionAtEnd(rd, heard, io, id, sessions[id])
    {
      if sessionId.Some? {
        LastRecorded(rd, heard, sessions, persistedErrors, io, sessionId.value);
        PersistErrors(io.errorsOk);
        if !ended {
          Finalize(None, io.endOk);
        }
      } else {
        NoneRecorded(rd, heard, sessions, persistedErrors, io);
      }
    }

    /** The end of the stream. */
    method Finish(io: Io) returns (ok: bool, chunks: nat)
      requires Valid()
      modifies this
      ensures heard == old(heard) && sessionId == old(sessionId)
      ensures Batched() && old(Table()) <= Table() <= Accepted(rd, heard)
      ensures ok ==> Table() == Accepted(rd, heard) && chunks == |Accepted(rd, heard)|
      ensures ok ==> sessions.Keys == StartedIn(heard)
      ensures ok ==> forall id :: id in sessions ==> SessionAtEnd(rd, heard, io, id, sessions[id])
      ensures !ok ==> io.flush != Written
    {
      ok := Flush(io.flush);
      if !ok {
        return false, 0;
      }
      Settle(io);
      return true, next;
    }
  }

  // ---- The rows of the sessions ----

  function WithErrors(sessions: map<Id, Session>, id: Id, errors: nat, persisted: nat, ok: bool): map<Id, Session>
    requires id in sessions
  {
    if ok && errors != persisted then sessions[id := sessions[id].(errors := errors)] else sessions
  }

  function WithEnd(sessions: map<Id, Session>, id: Id, exitCode: Option<int>): map<Id, Session>
    requires id in sessions
  {
    sessions[id := sessions[id].(ended := true, exitCode := exitCode)]
  }

  /** Every session has a row, which says whether an end of it was recorded, and holds its column. */
  ghost predicate RecordedAs(rd: Reader, h: seq<Input>, sessions: map<Id, Session>, persisted: nat) {
    && sessions.Keys == StartedIn(h) && DistinctStarts(h)
    && (Current(h).Some? ==> Current(h).value in sessions)
    && persisted == Persisted(rd, h)
    && forall id :: id in sessions ==> RowOf(rd, h, id, sessions[id])
  }

  predicate RowOf(rd: Reader, h: seq<Input>, id: Id, row: Session) {
    row == Session(Column(rd, h, id), ExitOf(h, id).Some?, ExitOf(h, id))
  }

  /** When the stream has ended well, too, the last session has been brought up to date, and closed
      unless an end was heard, of whatever session. */
  predicate SessionAtEnd(rd: Reader, h: seq<Input>, io: Io, id: Id, row: Session) {
    var closing := Current(h) == Some(id) && !EverEnded(h) && io.endOk;
    && row.ended == (closing || ExitOf(h, id).Some?)
    && row.exitCode == (if closing then None else ExitOf(h, id))
    && row.errors == FinalColumn(rd, h, io, id)
  }

  function FinalColumn(rd: Reader, h: seq<Input>, io: Io, id: Id): nat {
    if Current(h) == Some(id) && io.errorsOk && AllErrors(rd, h) != Persisted(rd, h) then AllErrors(rd, h)
    else Column(rd, h, id)
  }

  lemma {:induction false} NeverStarted(rd: Reader, h: seq<Input>, id: Id)
    requires id !in StartedIn(h)
    ensures Current(h) != Some(id) && ExitOf(h, id).None? && Column(rd, h, id) == 0
    decreases |h|
  {
    if h != [] {
      NeverStarted(rd, DropLast(h), id);
    }
  }

  lemma {:induction false} NoEndNoExit(h: seq<Input>, id: Id)
    requires !EverEnded(h)
    ensures ExitOf(h, id).None?
    decreases |h|
  {
    if h != [] {
      NoEndNoExit(DropLast(h), id);
    }
  }

  lemma StartRecorded(rd: Reader, h: seq<Input>, sessions: map<Id, Session>, persisted: nat, i: Input, id: Id)
    requires RecordedAs(rd, h, sessions, persisted) && i.what == Item(Started(id)) && id !in sessions
    ensures RecordedAs(rd, h + [i], sessions[id := Session(0, false, None)], persisted)
  {
    SnocEnds(h, i);
    NeverStarted(rd, h, id);
    forall k | k in sessions ensures RowOf(rd, h + [i], k, sessions[k]) {
      assert RowOf(rd, h, k, sessions[k]);
    }
  }

  lemma NothingRecorded(rd: Reader, h: seq<Input>, sessions: map<Id, Session>, persisted: nat, i: Input)
    requires RecordedAs(rd, h, sessions, persisted) && !IsStart(i)
    requires i.what.Timer? || IsEnd(i) ==> Current(h).None?
    ensures RecordedAs(rd, h + [i], sessions, persisted)
  {
    SnocEnds(h, i);
    forall k | k in sessions ensures RowOf(rd, h + [i], k, sessions[k]) {
      assert RowOf(rd, h, k, sessions[k]);
    }
  }

  lemma TimerRecorded(rd: Reader, h: seq<Input>, sessions: map<Id, Session>, persisted: nat, i: Input, id: Id)
    requires RecordedAs(rd, h, sessions, persisted) && i.what.Timer? && Current(h) == Some(id)
    ensures RecordedAs(rd, h + [i], WithErrors(sessions, id, AllErrors(rd, h), persisted, i.io.errorsOk),
                       if i.io.errorsOk then AllErrors(rd, h) else persisted)
  {
    SnocEnds(h, i);
    var after := WithErrors(sessions, id, AllErrors(rd, h), persisted, i.io.errorsOk);
    forall k | k in sessions ensures RowOf(rd, h + [i], k, after[k]) {
      assert RowOf(rd, h, k, sessions[k]);
    }
  }

  lemma EndRecorded(rd: Reader, h: seq<Input>, sessions: map<Id, Session>, persisted: nat, i: Input, id: Id)
    requires RecordedAs(rd, h, sessions, persisted) && IsEnd(i) && Current(h) == Some(id)
    ensures var saved := WithErrors(sessions, id, AllErrors(rd, h), persisted, i.io.errorsOk);
            RecordedAs(rd, h + [i], if i.io.endOk then WithEnd(saved, id, Some(i.what.event.exitCode)) else saved,
                       if i.io.errorsOk then AllErrors(rd, h) else persisted)
  {
    SnocEnds(h, i);
    var saved := WithErrors(sessions, id, AllErrors(rd, h), persisted, i.io.errorsOk);
    var after := if i.io.endOk then WithEnd(saved, id, Some(i.what.event.exitCode)) else saved;
    forall k | k in sessions ensures RowOf(rd, h + [i], k, after[k]) {
      assert RowOf(rd, h, k, sessions[k]);
    }
  }

  lemma LastRecorded(rd: Reader, h: seq<Input>, sessions: map<Id, Session>, persisted: nat, io: Io, id: Id)
    requires RecordedAs(rd, h, sessions, persisted) && Current(h) == Some(id)
    ensures var saved := WithErrors(sessions, id, AllErrors(rd, h), persisted, io.errorsOk);
            var after := if !EverEnded(h) && io.endOk then WithEnd(saved, id, None) else saved;
            after.Keys == StartedIn(h) && forall k :: k in after ==> SessionAtEnd(rd, h, io, k, after[k])
  {
    var saved := WithErrors(sessions, id, AllErrors(rd, h), persisted, io.errorsOk);
    var after := if !EverEnded(h) && io.endOk then WithEnd(saved, id, None) else saved;
    forall k | k in after ensures SessionAtEnd(rd, h, io, k, after[k]) {
      assert RowOf(rd, h, k, sessions[k]);
      if !EverEnded(h) {
        NoEndNoExit(h, k);
      }
    }
  }

  lemma NoneRecorded(rd: Reader, h: seq<Input>, sessions: map<Id, Session>, persisted: nat, io: Io)
    requires RecordedAs(rd, h, sessions, persisted) && Current(h).None?
    ensures forall k :: k in sessions ==> SessionAtEnd(rd, h, io, k, sessions[k])
  {
    forall k | k in sessions ensures SessionAtEnd(rd, h, io, k, sessions[k]) {
      assert RowOf(rd, h, k, sessions[k]);
    }
  }

  /** How one more input adds to what was heard. */
  lemma Extended(rd: Reader, h: seq<Input>, i: Input)
    ensures var h' := h + [i];
            && Current(h') == (if IsStart(i) then Some(i.what.event.id) else Current(h))
            && EverEnded(h') == (EverEnded(h) || (IsEnd(i) && Current(h).Some?))
            && (!(IsChunk(i) && Current(h).Some?) ==> Accepted(rd, h') == Accepted(rd, h))
            && (IsChunk(i) && Current(h).Some? ==>
                  var row := NewRow(rd, Current(h).value, |Accepted(rd, h)|, i.what.event.chunk);
                  && Accepted(rd, h') == Accepted(rd, h) + [row]
                  && Errors(rd, Accepted(rd, h'))
                     == Errors(rd, Accepted(rd, h)) + if LooksBad(rd, row.chunk) then 1 else 0)
  {
    SnocEnds(h, i);
    if IsChunk(i) && Current(h).Some? {
      SnocEnds(Accepted(rd, h), NewRow(rd, Current(h).value, |Accepted(rd, h)|, i.what.event.chunk));
    }
  }

  /** Nothing fails at an input. */
  predicate Fine(i: Input) { !i.what.Broken? && i.io.flush == Written && (IsStart(i) ==> i.io.startOk) }

  /** A whole call. It either ends well, with every chunk of a session in the table and every session
      in its row, or stops at some input, with the chunks up to some point. Without a failure, and
      with no session started twice, it ends well. */
  method StreamSession(rd: Reader, inputs: seq<Input>, last: Io) returns (s: Stream, ok: bool, chunks: nat, taken: nat)
    ensures taken <= |inputs|
    ensures s.Table() <= Accepted(rd, inputs[..taken])
    ensures ok ==> taken == |inputs| && s.Table() == Accepted(rd, inputs) && chunks == |Accepted(rd, inputs)|
    ensures ok ==> s.sessions.Keys == StartedIn(inputs)
    ensures ok ==> forall id :: id in s.sessions ==> SessionAtEnd(rd, inputs, last, id, s.sessions[id])
    ensures s.Batched()
    ensures DistinctStarts(inputs) && (forall i :: 0 <= i < |inputs| ==> Fine(inputs[i])) && last.flush == Written ==>
              ok
  {
    s := new Stream(rd);
    for i := 0 to |inputs|
      invariant s.Valid() && s.heard == inputs[..i] && s.rd == rd && fresh(s)
    {
      TakeMore(inputs, i);
      var went := s.Handle(inputs[i]);
      if !went {
        StartsBefore(inputs, i);
        return s, false, 0, i + 1;
      }
    }
    assert inputs[..|inputs|] == inputs;
    ok, chunks := s.Finish(last);
    taken := |inputs|;
  }

  lemma {:induction false} StartsBefore(h: seq<Input>, n: nat)
    requires n < |h|
    ensures DistinctStarts(h) && IsStart(h[n]) ==> h[n].what.event.id !in StartedIn(h[..n])
    decreases |h|
  {
    if n < |h| - 1 {
      StartsBefore(DropLast(h), n);
      assert DropLast(h)[..n] == h[..n];
    }
  }

  // ---- What ends up in the table ----

  /** Rows are numbered 0, 1, 2 and so on. */
  lemma {:induction false} RowsAreNumbered(rd: Reader, h: seq<Input>, i: nat)
    requires i < |Accepted(rd, h)|
    ensures Accepted(rd, h)[i].number == i
    decreases |h|
  {
    if i < |Accepted(rd, DropLast(h))| {
      RowsAreNumbered(rd, DropLast(h), i);
    }
  }

  function ChunksOf(h: seq<Input>): seq<Chunk> {
    if h == [] then [] else ChunksOf(DropLast(h)) + if IsChunk(Last(h)) then [Last(h).what.event.chunk] else []
  }

  /** What is heard after the first start. */
  function InSession(h: seq<Input>): seq<Input> {
    if h == [] then [] else if IsStart(h[0]) then h[1..] else InSession(h[1..])
  }

  function Contents(rows: seq<Row>): seq<Chunk> {
    seq(|rows|, i requires 0 <= i < |rows| => rows[i].chunk)
  }

  lemma {:induction false} InSessionGrows(h: seq<Input>, i: Input)
    ensures InSession(h + [i]) == if Current(h).Some? then InSession(h) + [i] else []
    ensures Current(h).None? ==> InSession(h) == []
    decreases |h|
  {
    if h == [] {
      assert (h + [i])[1..] == [];
    } else {
      assert (h + [i])[1..] == h[1..] + [i];
      InSessionGrows(h[1..], i);
      CurrentOfRest(h);
    }
  }

  lemma {:induction false} CurrentOfRest(h: seq<Input>)
    requires h != []
    ensures Current(h).Some? <==> IsStart(h[0]) || Current(h[1..]).Some?
    decreases |h|
  {
    if |h| > 1 {
      CurrentOfRest(DropLast(h));
      assert DropLast(h)[1..] == DropLast(h[1..]);
    }
  }

  /** The rows are exactly the chunks that came after the first start, each once, in order. */
  lemma {:induction false} RowsAreTheChunks(rd: Reader, h: seq<Input>)
    ensures Contents(Accepted(rd, h)) == ChunksOf(InSession(h))
    decreases |h|
  {
    if h != [] {
      var before := DropLast(h);
      RowsAreTheChunks(rd, before);
      assert h == before + [Last(h)];
      InSessionGrows(before, Last(h));
      Extended(rd, before, Last(h));
      if Current(before).Some? {
        assert DropLast(InSession(before) + [Last(h)]) == InSession(before);
      }
    }
  }

  /** Whatever is heard later, rows written stay as they are. */
  lemma {:induction false} RowsStay(rd: Reader, h: seq<Input>, n: nat)
    requires n <= |h|
    ensures Accepted(rd, h[..n]) <= Accepted(rd, h)
    decreases |h|
  {
    if n < |h| {
      RowsStay(rd, DropLast(h), n);
      assert DropLast(h)[..n] == h[..n];
    } else {
      assert h[..n] == h;
    }
  }

  /** However a call goes, its rows are the first of the chunks after the first start. */
  lemma TableIsAPrefix(rd: Reader, inputs: seq<Input>, taken: nat, table: seq<Row>)
    requires taken <= |inputs| && table <= Accepted(rd, inputs[..taken])
    ensures Contents(table) <= ChunksOf(InSession(inputs))
    ensures forall i :: 0 <= i < |table| ==> table[i].number == i
  {
    RowsStay(rd, inputs, taken);
    RowsAreTheChunks(rd, inputs);
    var all := Accepted(rd, inputs);
    assert table <= all;
    assert Contents(table) == Contents(all)[..|table|];
    forall i: nat | i < |table| ensures table[i].number == i {
      RowsAreNumbered(rd, inputs, i);
    }
  }

  // ---- Whose errors a session's row counts ----

  /** The errors there were, of earlier sessions, when a session started. */
  function Carried(rd: Reader, h: seq<Input>, id: Id): nat {
    if h == [] then 0
    else if IsStart(Last(h)) && Last(h).what.event.id == id then AllErrors(rd, DropLast(h))
    else Carried(rd, DropLast(h), id)
  }

  /** How many of those had been written. */
  function CarriedSaved(rd: Reader, h: seq<Input>, id: Id): nat {
    if h == [] then 0
    else if IsStart(Last(h)) && Last(h).what.event.id == id then Persisted(rd, DropLast(h))
    else CarriedSaved(rd, DropLast(h), id)
  }

  /** How many errors of its own a session had when the count was last written for it. */
  function OwnSaved(rd: Reader, h: seq<Input>, id: Id): Option<nat> {
    if h == [] then None
    else
      var before := DropLast(h);
      if Saves(h) && Current(before) == Some(id) then Some(OwnErrors(rd, Accepted(rd, before), id))
      else OwnSaved(rd, before, id)
  }

  /** There was something to write for a session, and it was written. */
  predicate WroteFor(rd: Reader, h: seq<Input>, id: Id) { Wrote(TallyOf(rd, h, id)) }

  lemma {:induction false} PersistedWithin(rd: Reader, h: seq<Input>)
    ensures Persisted(rd, h) <= AllErrors(rd, h)
    decreases |h|
  {
    if h != [] {
      PersistedWithin(rd, DropLast(h));
      Rejoin(h);
      Extended(rd, DropLast(h), Last(h));
    }
  }

  /** What is never started has nothing. */
  lemma {:induction false} NothingOwn(rd: Reader, h: seq<Input>, id: Id)
    requires id !in StartedIn(h)
    ensures OwnErrors(rd, Accepted(rd, h), id) == 0 && OwnSaved(rd, h, id).None?
    decreases |h|
  {
    if h != [] {
      NothingOwn(rd, DropLast(h), id);
      NeverStarted(rd, DropLast(h), id);
      OwnMore(rd, DropLast(h), Last(h), id);
      Rejoin(h);
    }
  }

  lemma OwnMore(rd: Reader, h: seq<Input>, i: Input, id: Id)
    ensures var counts := IsChunk(i) && Current(h) == Some(id) && LooksBad(rd, i.what.event.chunk);
            OwnErrors(rd, Accepted(rd, h + [i]), id) == OwnErrors(rd, Accepted(rd, h), id) + if counts then 1 else 0
  {
    Extended(rd, h, i);
    if IsChunk(i) && Current(h).Some? {
      SnocEnds(Accepted(rd, h), NewRow(rd, Current(h).value, |Accepted(rd, h)|, i.what.event.chunk));
    }
  }

  /** The counts of a session: its own errors, those carried in, how many of each had been written,
      its column; and, while it is the current one, all errors and those written. */
  datatype Tally = Tally(own: nat, carried: nat, carriedSaved: nat, saved: Option<nat>, column: nat,
                         current: bool, all: nat, persisted: nat)

  function TallyOf(rd: Reader, h: seq<Input>, id: Id): Tally {
    Tally(OwnErrors(rd, Accepted(rd, h), id), Carried(rd, h, id), CarriedSaved(rd, h, id), OwnSaved(rd, h, id),
          Column(rd, h, id), Current(h) == Some(id), AllErrors(rd, h), Persisted(rd, h))
  }

  predicate Wrote(t: Tally) { t.saved.Some? && t.carried + t.saved.value != t.carriedSaved }

  predicate Balanced(t: Tally) {
    && t.carriedSaved <= t.carried
    && (t.saved.Some? ==> t.saved.value <= t.own)
    && t.column == (if Wrote(t) then t.carried + t.saved.value else 0)
    && (t.current ==>
          && t.all == t.carried + t.own
          && t.persisted == if t.saved.Some? then t.carried + t.saved.value else t.carriedSaved)
  }

  /** One more error of the current session. */
  function Counted(t: Tally): Tally { t.(own := t.own + 1, all := t.all + 1) }

  /** The count written for the current session. */
  function SavedTally(t: Tally): Tally {
    t.(saved := Some(t.own), column := if t.all != t.persisted then t.all else t.column, persisted := t.all)
  }

  lemma StaysBalanced(t: Tally)
    requires Balanced(t) && t.current
    ensures Balanced(Counted(t)) && Balanced(SavedTally(t))
  {
  }

  lemma TallyStart(rd: Reader, h: seq<Input>, i: Input, id: Id)
    requires i.what == Item(Started(id)) && id !in StartedIn(h)
    ensures Balanced(TallyOf(rd, h + [i], id))
  {
    SnocEnds(h, i);
    NothingOwn(rd, h, id);
    NeverStarted(rd, h, id);
    PersistedWithin(rd, h);
    Extended(rd, h, i);
  }

  lemma AllMore(rd: Reader, h: seq<Input>, i: Input)
    ensures var counts := IsChunk(i) && Current(h).Some? && LooksBad(rd, i.what.event.chunk);
            AllErrors(rd, h + [i]) == AllErrors(rd, h) + if counts then 1 else 0
    ensures Current(h + [i]) == if IsStart(i) then Some(i.what.event.id) else Current(h)
  {
    Extended(rd, h, i);
  }

  predicate SavesAt(h: seq<Input>, i: Input) {
    (i.what.Timer? || IsEnd(i)) && i.io.errorsOk && Current(h).Some?
  }

  lemma WrittenMore(rd: Reader, h: seq<Input>, i: Input, id: Id)
    ensures var saves, own := SavesAt(h, i), SavesAt(h, i) && Current(h) == Some(id);
            && Persisted(rd, h + [i]) == (if saves then AllErrors(rd, h) else Persisted(rd, h))
            && OwnSaved(rd, h + [i], id)
                == (if own then Some(OwnErrors(rd, Accepted(rd, h), id)) else OwnSaved(rd, h, id))
            && Column(rd, h + [i], id)
               == (if own && AllErrors(rd, h) != Persisted(rd, h) then AllErrors(rd, h) else Column(rd, h, id))
  {
    SnocEnds(h, i);
  }

  /** While another session is the current one, or none, nothing changes that is its own. */
  lemma TallyElsewhere(rd: Reader, h: seq<Input>, i: Input, id: Id)
    requires !(IsStart(i) && i.what.event.id == id) && Current(h) != Some(id)
    ensures var t, t' := TallyOf(rd, h, id), TallyOf(rd, h + [i], id);
            t' == t.(current := false, all := t'.all, persisted := t'.persisted)
  {
    AllMore(rd, h, i);
    OwnMore(rd, h, i, id);
    WrittenMore(rd, h, i, id);
    CarriedStays(rd, h, i, id);
  }

  lemma TallyCurrent(rd: Reader, h: seq<Input>, i: Input, id: Id, t: Tally, t': Tally)
    requires !(IsStart(i) && i.what.event.id == id) && Current(h) == Some(id)
    requires t == TallyOf(rd, h, id) && t' == TallyOf(rd, h + [i], id)
    ensures IsChunk(i) && LooksBad(rd, i.what.event.chunk) ==> t' == Counted(t)
    ensures !(IsChunk(i) && LooksBad(rd, i.what.event.chunk)) ==>
              t' == (if SavesAt(h, i) then SavedTally(t) else t).(current := !IsStart(i))
  {
    TallyCounts(rd, h, i, id, t, t');
    TallyWritten(rd, h, i, id, t, t');
  }

  lemma TallyCounts(rd: Reader, h: seq<Input>, i: Input, id: Id, t: Tally, t': Tally)
    requires !(IsStart(i) && i.what.event.id == id) && Current(h) == Some(id)
    requires t == TallyOf(rd, h, id) && t' == TallyOf(rd, h + [i], id)
    ensures var more := if IsChunk(i) && LooksBad(rd, i.what.event.chunk) then 1 else 0;
            t'.own == t.own + more && t'.all == t.all + more && t.current && t'.current == !IsStart(i)
  {
    AllMore(rd, h, i);
    OwnMore(rd, h, i, id);
  }

  lemma TallyWritten(rd: Reader, h: seq<Input>, i: Input, id: Id, t: Tally, t': Tally)
    requires !(IsStart(i) && i.what.event.id == id) && Current(h) == Some(id)
    requires t == TallyOf(rd, h, id) && t' == TallyOf(rd, h + [i], id)
    ensures t'.carried == t.carried && t'.carriedSaved == t.carriedSaved
    ensures var saved := if SavesAt(h, i) then SavedTally(t) else t;
            t'.saved == saved.saved && t'.column == saved.column && t'.persisted == saved.persisted
  {
    WrittenMore(rd, h, i, id);
    CarriedStays(rd, h, i, id);
  }

  lemma TallyStep(rd: Reader, h: seq<Input>, i: Input, id: Id)
    requires Balanced(TallyOf(rd, h, id)) && !(IsStart(i) && i.what.event.id == id)
    ensures Balanced(TallyOf(rd, h + [i], id))
  {
    if Current(h) == Some(id) {
      TallyCurrent(rd, h, i, id, TallyOf(rd, h, id), TallyOf(rd, h + [i], id));
      StaysBalanced(TallyOf(rd, h, id));
    } else {
      TallyElsewhere(rd, h, i, id);
    }
  }

  lemma CarriedStays(rd: Reader, h: seq<Input>, i: Input, id: Id)
    requires !(IsStart(i) && i.what.event.id == id)
    ensures Carried(rd, h + [i], id) == Carried(rd, h, id) && CarriedSaved(rd, h + [i], id) == CarriedSaved(rd, h, id)
  {
    SnocEnds(h, i);
  }

  lemma {:induction false} Tallies(rd: Reader, h: seq<Input>, id: Id)
    requires DistinctStarts(h) && id in StartedIn(h)
    ensures Balanced(TallyOf(rd, h, id))
    decreases |h|
  {
    Rejoin(h);
    if IsStart(Last(h)) && Last(h).what.event.id == id {
      TallyStart(rd, DropLast(h), Last(h), id);
    } else {
      Tallies(rd, DropLast(h), id);
      TallyStep(rd, DropLast(h), Last(h), id);
    }
  }

  /** As many errors were carried in as came after the last write; without a write, there were none. */
  predicate CountsAll(rd: Reader, h: seq<Input>, id: Id, own: nat) {
    if WroteFor(rd, h, id) then Carried(rd, h, id) == own - OwnSaved(rd, h, id).value else own == 0
  }

  /** A session's row counts its own errors exactly when as many errors were carried in from before
      as it had after the count was last written for it; or, if nothing was, when it had none. */
  lemma CountsOwnErrorsIff(rd: Reader, h: seq<Input>, id: Id)
    requires DistinctStarts(h) && id in StartedIn(h)
    ensures var own := OwnErrors(rd, Accepted(rd, h), id);
            Column(rd, h, id) == own <==> CountsAll(rd, h, id, own)
  {
    Tallies(rd, h, id);
  }

  /** When the stream has ended well and the count was written, the last session's row counts its own
      errors exactly when none were carried in, or it had none and what was carried in had been written. */
  lemma LastCountsOwnErrorsIff(rd: Reader, h: seq<Input>, io: Io, id: Id)
    requires DistinctStarts(h) && Current(h) == Some(id) && io.errorsOk
    ensures var own, carried := OwnErrors(rd, Accepted(rd, h), id), Carried(rd, h, id);
            FinalColumn(rd, h, io, id) == own <==> carried == 0 || (own == 0 && CarriedSaved(rd, h, id) == carried)
  {
    CurrentIsStarted(h);
    Tallies(rd, h, id);
  }

  lemma {:induction false} CurrentIsStarted(h: seq<Input>)
    requires Current(h).Some?
    ensures Current(h).value in StartedIn(h)
    decreases |h|
  {
    if !IsStart(Last(h)) {
      CurrentIsStarted(DropLast(h));
    }
  }

  // ---- Streams with one session, and with two ----

  function Starts(h: seq<Input>): nat {
    if h == [] then 0 else Starts(DropLast(h)) + if IsStart(Last(h)) then 1 else 0
  }

  lemma {:induction false} OneStart(rd: Reader, h: seq<Input>, id: Id)
    requires Starts(h) <= 1 && forall i :: 0 <= i < |h| && IsEnd(h[i]) ==> h[i].io.endOk
    ensures Starts(h) == 0 ==> Current(h).None? && StartedIn(h) == {} && !EverEnded(h) && Accepted(rd, h) == []
    ensures id in StartedIn(h) ==> Current(h) == Some(id) && Carried(rd, h, id) == 0
    ensures id in StartedIn(h) && EverEnded(h) ==> ExitOf(h, id).Some?
    decreases |h|
  {
    if h != [] {
      OneStart(rd, DropLast(h), id);
    }
  }

  /** With one session to a stream, as recorders have it, and every write of its row going well, it is
      closed, and counts its own errors. */
  method StreamOneSession(rd: Reader, inputs: seq<Input>, last: Io) returns (s: Stream, ok: bool)
    requires DistinctStarts(inputs) && Starts(inputs) <= 1 && last.endOk && last.errorsOk
    requires forall i :: 0 <= i < |inputs| && IsEnd(inputs[i]) ==> inputs[i].io.endOk
    ensures ok ==> forall id :: id in s.sessions ==>
                     s.sessions[id].ended && s.sessions[id].errors == OwnErrors(rd, s.Table(), id)
  {
    var chunks, taken;
    s, ok, chunks, taken := StreamSession(rd, inputs, last);
    if ok {
      forall id | id in s.sessions
        ensures s.sessions[id].ended && s.sessions[id].errors == OwnErrors(rd, s.Table(), id)
      {
        OneStart(rd, inputs, id);
        LastCountsOwnErrorsIff(rd, inputs, last, id);
        assert SessionAtEnd(rd, inputs, last, id, s.sessions[id]);
      }
    }
  }

  const ALL_WELL := Io(Written, true, true, true)

  function Three(a: What, b: What, c: What): seq<Input> {
    [] + [Input(a, ALL_WELL)] + [Input(b, ALL_WELL)] + [Input(c, ALL_WELL)]
  }

  /** Two sessions on one stream, the first of them ended, and no write fails. The second has no end
      afterwards: `Finish` asks whether the stream saw an end, not whether this session did. */
  method RestartedSessionsStayOpen(rd: Reader, a: Id, b: Id, exitCode: int) returns (s: Stream, ok: bool)
    requires a != b
    ensures ok && s.sessions.Keys == {a, b}
    ensures s.sessions[a].ended && !s.sessions[b].ended
  {
    var inputs := Three(Item(Started(a)), Item(Ended(exitCode)), Item(Started(b)));
    var chunks, taken;
    StartEndStart(rd, a, b, exitCode);
    s, ok, chunks, taken := StreamSession(rd, inputs, ALL_WELL);
    assert SessionAtEnd(rd, inputs, ALL_WELL, a, s.sessions[a]) && SessionAtEnd(rd, inputs, ALL_WELL, b, s.sessions[b]);
  }

  lemma StartEndStart(rd: Reader, a: Id, b: Id, exitCode: int)
    requires a != b
    ensures var h := Three(Item(Started(a)), Item(Ended(exitCode)), Item(Started(b)));
            && StartedIn(h) == {a, b} && DistinctStarts(h) && Current(h) == Some(b) && EverEnded(h)
            && ExitOf(h, a).Some? && ExitOf(h, b).None?
  {
    var one, two := Input(Item(Started(a)), ALL_WELL), Input(Item(Ended(exitCode)), ALL_WELL);
    var three := Input(Item(Started(b)), ALL_WELL);
    var h1, h2 := [] + [one], [] + [one] + [two];
    SnocEnds([], one);
    SnocEnds(h1, two);
    SnocEnds(h2, three);
    assert StartedIn(h1) == {a} && DistinctStarts(h1) && ExitOf(h1, b).None?;
    assert StartedIn(h2) == {a} && DistinctStarts(h2) && Current(h2) == Some(a) && ExitOf(h2, b).None?;
  }

  /** An error of one session that was not yet written when the next one started is counted for the
      next one, though nothing failed. */
  method RestartedSessionsMiscount(rd: Reader, a: Id, b: Id, bad: Chunk) returns (s: Stream, ok: bool)
    requires a != b && LooksBad(rd, bad)
    ensures ok && s.sessions.Keys == {a, b}
    ensures OwnErrors(rd, s.Table(), a) == 1 && s.sessions[a].errors == 0
    ensures OwnErrors(rd, s.Table(), b) == 0 && s.sessions[b].errors == 1
  {
    var inputs := Three(Item(Started(a)), Item(Output(bad)), Item(Started(b)));
    var chunks, taken;
    StartErrorStart(rd, a, b, bad);
    s, ok, chunks, taken := StreamSession(rd, inputs, ALL_WELL);
    assert SessionAtEnd(rd, inputs, ALL_WELL, a, s.sessions[a]) && SessionAtEnd(rd, inputs, ALL_WELL, b, s.sessions[b]);
  }

  lemma NothingWritten(rd: Reader, h: seq<Input>, i: Input, id: Id)
    requires IsStart(i) || IsChunk(i)
    ensures Persisted(rd, h + [i]) == Persisted(rd, h) && Column(rd, h + [i], id) == Column(rd, h, id)
  {
    SnocEnds(h, i);
  }

  lemma StartErrorStart(rd: Reader, a: Id, b: Id, bad: Chunk)
    requires a != b && LooksBad(rd, bad)
    ensures var h := Three(Item(Started(a)), Item(Output(bad)), Item(Started(b)));
            && StartedIn(h) == {a, b} && DistinctStarts(h) && Current(h) == Some(b)
            && OwnErrors(rd, Accepted(rd, h), a) == 1 && OwnErrors(rd, Accepted(rd, h), b) == 0
            && AllErrors(rd, h) == 1 && Persisted(rd, h) == 0 && Column(rd, h, a) == 0
  {
    var one, two := Input(Item(Started(a)), ALL_WELL), Input(Item(Output(bad)), ALL_WELL);
    var three := Input(Item(Started(b)), ALL_WELL);
    var h1, h2 := [] + [one], [] + [one] + [two];
    NextStart(rd, [], one, a, b);
    NextError(rd, h1, two, a, b);
    NextStart(rd, h2, three, a, b);
  }

  /** A session starts: no count changes. */
  lemma NextStart(rd: Reader, h: seq<Input>, i: Input, a: Id, b: Id)
    requires IsStart(i) && i.what.event.id !in StartedIn(h) && DistinctStarts(h)
    ensures var h' := h + [i];
            && StartedIn(h') == StartedIn(h) + {i.what.event.id} && DistinctStarts(h')
            && Current(h') == Some(i.what.event.id)
            && OwnErrors(rd, Accepted(rd, h'), a) == OwnErrors(rd, Accepted(rd, h), a)
            && OwnErrors(rd, Accepted(rd, h'), b) == OwnErrors(rd, Accepted(rd, h), b)
            && AllErrors(rd, h') == AllErrors(rd, h) && Persisted(rd, h') == Persisted(rd, h)
            && Column(rd, h', a) == Column(rd, h, a)
  {
    SnocEnds(h, i);
    Extended(rd, h, i);
    NothingWritten(rd, h, i, a);
  }

  /** The first session has an error, which is counted but not written. */
  lemma NextError(rd: Reader, h: seq<Input>, i: Input, a: Id, b: Id)
    requires a != b && IsChunk(i) && LooksBad(rd, i.what.event.chunk) && Current(h) == Some(a) && DistinctStarts(h)
    ensures var h' := h + [i];
            && StartedIn(h') == StartedIn(h) && DistinctStarts(h') && Current(h') == Current(h)
            && OwnErrors(rd, Accepted(rd, h'), a) == OwnErrors(rd, Accepted(rd, h), a) + 1
            && OwnErrors(rd, Accepted(rd, h'), b) == OwnErrors(rd, Accepted(rd, h), b)
            && AllErrors(rd, h') == AllErrors(rd, h) + 1 && Persisted(rd, h') == Persisted(rd, h)
            && Column(rd, h', a) == Column(rd, h, a)
  {
    StartsNothing(h, i);
    AllMore(rd, h, i);
    OwnMore(rd, h, i, a);
    OwnMore(rd, h, i, b);
    NothingWritten(rd, h, i, a);
  }

  lemma StartsNothing(h: seq<Input>, i: Input)
    requires !IsStart(i)
    ensures StartedIn(h + [i]) == StartedIn(h) && Current(h + [i]) == Current(h)
    ensures DistinctStarts(h + [i]) <==> DistinctStarts(h)
  {
    SnocEnds(h, i);
  }
}
