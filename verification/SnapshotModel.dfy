/** How a snapshot is built from a report. Colours may be taken over from the snapshot before it, and
    the result is the one that colouring afresh gives. */
module SnapshotModel {
  import opened EditScripts
  import opened Utf8
  import opened ColouredLines
  import opened DiffRows
  import SinceDiffs

  /** The size of the longest `Content`, in bytes of UTF-8. */
  const MAX_CONTENT_BYTES := 256 * 1024

  datatype Cursor = Cursor(line: nat, column: nat)

  /** A text or, when `truncated`, only its beginning. */
  datatype Content = Content(content: string, truncated: bool)

  datatype Baseline = Head(diff: RowDiff) | Untracked | Unavailable

  datatype File = File(path: string, relativePath: string, language: string, exercise: Option<string>,
                       cursor: Option<Cursor>, dirty: bool, text: Content,
                       highlight: Option<seq<Line>>, baseline: Baseline)

  datatype Snapshot = Declined | Empty | FileSnapshot(file: File)

  datatype ReportBaseline = HeadReported(hunks: seq<Report>) | UntrackedReported | UnavailableReported

  datatype FileReport = FileReport(path: string, relativePath: string, language: string, exercise: Option<string>,
                                   cursor: Option<Cursor>, dirty: bool, content: string, truncated: bool,
                                   baseline: ReportBaseline)

  datatype ReportState =
    | DeclinedReport
    | EmptyReport
    | CursorReport(basis: nat, cursor: Cursor)
    | WholeFile(file: FileReport)

  /** The libraries a snapshot is built with: any way of picking a grammar, and any way of turning
      a diff into rows. */
  datatype Tools = Tools(detect: (string, string) -> Option<Grammar>, diff: (seq<Report>, Option<Colour>) -> RowDiff)

  // ---- Clamping ----

  /** The longest beginning of `s`, at most `n` characters, that fits the size cap. */
  function ClampTo(s: string, n: nat): (r: string)
    requires n <= |s|
    ensures r <= s && Bytes(r) <= MAX_CONTENT_BYTES
    ensures |r| < n ==> Off(s, |r| + 1) > MAX_CONTENT_BYTES
  {
    if Off(s, n) <= MAX_CONTENT_BYTES then
      OffShifts(s, 0, s[..n], n);
      s[..n]
    else ClampTo(s, n - 1)
  }

  function Clamp(s: string): string { ClampTo(s, |s|) }

  /** A text that fits is kept whole. */
  lemma ClampKeeps(s: string)
    ensures Clamp(s) == s <==> Bytes(s) <= MAX_CONTENT_BYTES
  {
    assert s[..|s|] == s;
  }

  /** Nothing longer fits. */
  lemma {:induction false} ClampLongest(s: string, k: nat)
    requires k <= |s| && Off(s, k) <= MAX_CONTENT_BYTES
    ensures k <= |Clamp(s)|
  {
    if |Clamp(s)| < k {
      OffOrder(s, |Clamp(s)| + 1, k);
    }
  }

  /** The last place at or before the cap where a character starts. */
  method BoundaryWithin(content: string) returns (k: nat)
    ensures k <= |content| && Off(content, k) <= MAX_CONTENT_BYTES
    ensures forall j :: 0 <= j <= |content| && Off(content, k) < Off(content, j) ==> Off(content, j) > MAX_CONTENT_BYTES
  {
    var end: nat := MAX_CONTENT_BYTES;
    var at: Option<nat> := StartsAt(content, end);
    while at == None
      invariant end <= MAX_CONTENT_BYTES
      invariant at.Some? ==> at.value <= |content| && Off(content, at.value) == end
      invariant at == None ==> forall j :: 0 <= j <= |content| ==> Off(content, j) != end
      invariant forall j :: 0 <= j <= |content| && end < Off(content, j) ==> Off(content, j) > MAX_CONTENT_BYTES
      decreases end
    {
      assert Off(content, 0) == 0;
      end := end - 1;
      at := StartsAt(content, end);
    }
    k := at.value;
  }

  /** Cutting there is clamping. */
  lemma BoundaryIsClamp(content: string, k: nat)
    requires k <= |content| && Off(content, k) <= MAX_CONTENT_BYTES
    requires forall j :: 0 <= j <= |content| && Off(content, k) < Off(content, j)
               ==> Off(content, j) > MAX_CONTENT_BYTES
    ensures content[..k] == Clamp(content)
  {
    var c := Clamp(content);
    ClampLongest(content, k);
    OffOfBeginning(content, c);
    if k < |c| {
      OffOrder(content, k, |c|);
    }
  }

  lemma OffOfBeginning(s: string, p: string)
    requires p <= s
    ensures Off(s, |p|) == Bytes(p)
  {
    OffShifts(s, 0, p, |p|);
  }

  /** Clamps a report's text, cutting on a character boundary. */
  method NewContent(content: string, cutByEditor: bool) returns (t: Content)
    ensures t.content == Clamp(content)
    ensures t.truncated <==> cutByEditor || Bytes(content) > MAX_CONTENT_BYTES
  {
    var tooLong := Bytes(content) > MAX_CONTENT_BYTES;
    var kept := content;
    ClampKeeps(content);
    if tooLong {
      var end := BoundaryWithin(content);
      BoundaryIsClamp(content, end);
      kept := content[..end];
    }
    t := Content(kept, cutByEditor || tooLong);
  }

  /** The character that starts at byte `b`, if one does. */
  method StartsAt(s: string, b: nat) returns (k: Option<nat>)
    ensures k.Some? ==> k.value <= |s| && Off(s, k.value) == b
    ensures k == None ==> forall j :: 0 <= j <= |s| ==> Off(s, j) != b
  {
    var n := 0;
    while n <= |s|
      invariant n <= |s| + 1
      invariant forall j :: 0 <= j < n ==> Off(s, j) != b
    {
      if Off(s, n) == b {
        return Some(n);
      }
      n := n + 1;
    }
    return None;
  }

  // ---- Building a snapshot ----

  function ContentOf(content: string, cutByEditor: bool): Content {
    Content(Clamp(content), cutByEditor || Bytes(content) > MAX_CONTENT_BYTES)
  }

  /** Whether `f` agrees with the three arguments in all that decides how a text is coloured. */
  predicate ColoursLike(f: File, text: Content, language: string, relativePath: string) {
    f.text.content == text.content && f.language == language && f.relativePath == relativePath
  }

  /** The colours of a text, worked out from nothing. */
  function FreshColours(tools: Tools, content: string, language: string, relativePath: string): Option<seq<Line>> {
    match tools.detect(language, relativePath)
    case None => None
    case Some(grammar) => grammar(SinceDiffs.Split(content))
  }

  function FileFrom(tools: Tools, f: FileReport, previous: Option<File>): File {
    var text := ContentOf(f.content, f.truncated);
    var grammar := tools.detect(f.language, f.relativePath);
    var highlight :=
      if previous.Some? && ColoursLike(previous.value, text, f.language, f.relativePath)
      then previous.value.highlight
      else FreshColours(tools, text.content, f.language, f.relativePath);
    var colour := if grammar.Some? && highlight.Some? then Some(Colour(highlight.value, grammar.value)) else None;
    var baseline := match f.baseline
      case HeadReported(hunks) => Head(tools.diff(hunks, colour))
      case UntrackedReported => Untracked
      case UnavailableReported => Unavailable;
    File(f.path, f.relativePath, f.language, f.exercise, f.cursor, f.dirty, text, highlight, baseline)
  }

  function SnapshotFrom(tools: Tools, state: ReportState, previous: Option<Snapshot>): Snapshot {
    match state
    case DeclinedReport => Declined
    case EmptyReport => Empty
    case CursorReport(_, cursor) =>
      if previous.Some? && previous.value.FileSnapshot?
      then FileSnapshot(previous.value.file.(cursor := Some(cursor)))
      else Empty
    case WholeFile(f) =>
      FileSnapshot(FileFrom(tools, f,
        if previous.Some? && previous.value.FileSnapshot? then Some(previous.value.file) else None))
  }

  /** A snapshot's colours are those of its own text, language and path. */
  predicate Coherent(tools: Tools, s: Snapshot) {
    s.FileSnapshot? ==>
      s.file.highlight == FreshColours(tools, s.file.text.content, s.file.language, s.file.relativePath)
  }

  /** Building on top of a coherent snapshot gives a coherent one, and, for everything but a
      caret move, the very one building from nothing gives. */
  lemma ReuseChangesNothing(tools: Tools, state: ReportState, previous: Option<Snapshot>)
    requires previous.Some? ==> Coherent(tools, previous.value)
    ensures Coherent(tools, SnapshotFrom(tools, state, previous))
    ensures !state.CursorReport? ==> SnapshotFrom(tools, state, previous) == SnapshotFrom(tools, state, None)
  {
  }

  /** The snapshots a chain of reports builds, each on top of the last. */
  function Chain(tools: Tools, reports: seq<ReportState>): Option<Snapshot> {
    if reports == [] then None
    else Some(SnapshotFrom(tools, Last(reports), Chain(tools, DropLast(reports))))
  }

  /** The last whole report of a chain, moved to where its last caret report left the caret. */
  function Unchained(tools: Tools, reports: seq<ReportState>): Option<Snapshot> {
    if reports == [] then None
    else
      match Last(reports)
      case CursorReport(_, cursor) =>
        (match Unchained(tools, DropLast(reports))
         case Some(FileSnapshot(f)) => Some(FileSnapshot(f.(cursor := Some(cursor))))
         case _ => Some(Empty))
      case _ => Some(SnapshotFrom(tools, Last(reports), None))
  }

  /** For every chain of reports, reusing colours along the way shows what building each whole
      report from nothing would show. */
  lemma {:induction false} ChainsReuseNothing(tools: Tools, reports: seq<ReportState>)
    ensures Chain(tools, reports) == Unchained(tools, reports)
    ensures Chain(tools, reports).Some? ==> Coherent(tools, Chain(tools, reports).value)
    decreases |reports|
  {
    if reports != [] {
      ChainsReuseNothing(tools, DropLast(reports));
      ReuseChangesNothing(tools, Last(reports), Chain(tools, DropLast(reports)));
    }
  }
}
