/** From the hunks of a report to the rows on screen: numbers, colours and marked words. Whatever the
    colours are, the text shown is the text reported. */
module DiffRows {
  import opened EditScripts
  import opened Utf8
  import opened Intraline
  import opened ColouredLines

  /** What `KeepHunks` may keep, over all hunks together. */
  const MAX_ROWS := 2000

  const UINT32 := 0x1_0000_0000

  type uint32 = n: nat | n < UINT32 witness 0

  /** Line numbers are 32-bit: counting past the last one starts again at zero. */
  function ToUint32(x: nat): uint32 {
    if x < UINT32 then x else ToUint32(x - UINT32)
  }

  lemma {:induction false} ToUint32IsRemainder(x: nat)
    ensures ToUint32(x) == x % UINT32
  {
    if x >= UINT32 {
      ToUint32IsRemainder(x - UINT32);
    }
  }

  /** Counting one on, in 32 bits. */
  function Next32(x: uint32): uint32 { if x + 1 == UINT32 then 0 else x + 1 }

  lemma {:induction false} CountsWrap(n: nat)
    ensures Next32(ToUint32(n)) == ToUint32(n + 1)
  {
    if n >= UINT32 {
      CountsWrap(n - UINT32);
    }
  }

  datatype DiffLine = ContextLine(text: string) | AddedLine(text: string) | RemovedLine(text: string)

  /** A reported hunk: the lines it begins at on either side, and its lines. */
  datatype Report = Report(oldStart: uint32, newStart: uint32, lines: seq<DiffLine>)

  datatype Row =
    | ContextRow(oldNo: uint32, newNo: uint32, spans: Line)
    | AddedRow(newNo: uint32, spans: Line)
    | RemovedRow(oldNo: uint32, spans: Line)

  /** Colours a list of lines, or fails. */
  type Grammar = seq<string> -> Option<seq<Line>>

  /** The coloured lines of the new text, and the grammar to colour the old one with. */
  datatype Colour = Colour(buffer: seq<Line>, grammar: Grammar)

  datatype RowHunk = RowHunk(oldStart: uint32, oldLines: uint32, newStart: uint32, newLines: uint32, rows: seq<Row>)

  // ---- Which lines are edits of which ----

  /** Line `c` is what line `g` became: they stand at the same place in a longest run of removed
      lines and in the run of added lines right after it. */
  ghost predicate Paired(lines: seq<DiffLine>, g: int, c: int) {
    exists s, m :: PairedIn(lines, g, c, s, m)
  }

  ghost predicate PairedIn(lines: seq<DiffLine>, g: int, c: int, s: int, m: int) {
    && 0 <= s <= g < m <= c < |lines|
    && (forall x :: s <= x < m ==> lines[x].RemovedLine?)
    && (s > 0 ==> !lines[s - 1].RemovedLine?)
    && (forall x :: m <= x <= c ==> lines[x].AddedLine?)
    && c - m == g - s
  }

  /** A block of the walk over the lines: `removed` removed lines and then `added` added ones,
      neither run continuing on either side. */
  ghost predicate Block(lines: seq<DiffLine>, at: nat, removed: nat, added: nat) {
    && at + removed + added <= |lines|
    && Fresh(lines, at)
    && (forall x :: at <= x < at + removed ==> lines[x].RemovedLine?)
    && (forall x :: at + removed <= x < at + removed + added ==> lines[x].AddedLine?)
    && (at + removed < |lines| ==> !lines[at + removed].RemovedLine?)
    && (at + removed + added < |lines| ==> !lines[at + removed + added].AddedLine?)
  }

  /** No run continues over the start of line `at`. */
  ghost predicate Fresh(lines: seq<DiffLine>, at: nat) {
    0 < at < |lines| ==>
      && (lines[at].RemovedLine? ==> !lines[at - 1].RemovedLine?)
      && (lines[at].AddedLine? ==> lines[at - 1].ContextLine?)
  }

  /** Within a block the `k`-th removed line goes with the `k`-th added one, and with no other. */
  lemma BlockPairs(lines: seq<DiffLine>, at: nat, removed: nat, added: nat, g: int, c: int)
    requires Block(lines, at, removed, added)
    requires at <= g < at + removed + added || at <= c < at + removed + added
    ensures Paired(lines, g, c) <==> at <= g < at + removed && c == g + removed && c < at + removed + added
  {
    if at <= g < at + removed && c == g + removed && c < at + removed + added {
      assert PairedIn(lines, g, c, at, at + removed);
    }
    if Paired(lines, g, c) {
      var s, m :| PairedIn(lines, g, c, s, m);
      assert lines[g].RemovedLine? && lines[c].AddedLine?;
      PairInBlock(lines, at, removed, added, g, c, s, m);
    }
  }

  /** Over the whole hunk, no line is in two pairs: a removed line has one partner, and an added one. */
  lemma PairsAreApart(lines: seq<DiffLine>, g: int, c: int, g': int, c': int)
    requires Paired(lines, g, c) && Paired(lines, g', c')
    ensures g == g' <==> c == c'
    ensures g != c'
  {
    var s, m :| PairedIn(lines, g, c, s, m);
    var s', m' :| PairedIn(lines, g', c', s', m');
    assert lines[g].RemovedLine? && lines[c'].AddedLine?;
    if g == g' || c == c' {
      SameEnd(lines, g, c, s, m, g', c', s', m');
      SameStart(lines, m, s, s');
    }
  }

  /** Two pairs with a line in common have one end of removed lines. */
  lemma SameEnd(lines: seq<DiffLine>, g: int, c: int, s: int, m: int, g': int, c': int, s': int, m': int)
    requires PairedIn(lines, g, c, s, m) && PairedIn(lines, g', c', s', m') && (g == g' || c == c')
    ensures m == m'
  {
    assert lines[m - 1].RemovedLine? && lines[m' - 1].RemovedLine? && lines[m].AddedLine? && lines[m'].AddedLine?;
  }

  /** A run of removed lines that begins where none comes before it begins at one place. */
  lemma SameStart(lines: seq<DiffLine>, m: int, s: int, s': int)
    requires 0 <= s < m <= |lines| && 0 <= s' < m
    requires (forall x :: s <= x < m ==> lines[x].RemovedLine?) && (s > 0 ==> !lines[s - 1].RemovedLine?)
    requires (forall x :: s' <= x < m ==> lines[x].RemovedLine?) && (s' > 0 ==> !lines[s' - 1].RemovedLine?)
    ensures s == s'
  {
  }

  lemma PairInBlock(lines: seq<DiffLine>, at: nat, removed: nat, added: nat, g: int, c: int, s: int, m: int)
    requires Block(lines, at, removed, added)
    requires at <= g < at + removed + added || at <= c < at + removed + added
    requires PairedIn(lines, g, c, s, m)
    ensures s == at && m == at + removed && c < at + removed + added
  {
    assert lines[m - 1].RemovedLine? && lines[m].AddedLine? && lines[g].RemovedLine? && lines[c].AddedLine?;
    if at <= g < at + removed + added {
      assert g < at + removed;
    }
  }

  // ---- Marking the words ----

  /** The two rows differ in nothing but how their text is split and flagged. */
  predicate SameRow(a: Row, b: Row) {
    match (a, b)
    case (ContextRow(o, n, _), ContextRow(o', n', _)) => o == o' && n == n'
    case (AddedRow(n, _), AddedRow(n', _)) => n == n'
    case (RemovedRow(o, _), RemovedRow(o', _)) => o == o'
    case _ => false
  }

  /** `after` is `before` with the stretches `at` flagged, and nothing else. */
  ghost predicate FlaggedRow(before: Row, after: Row, at: seq<Stretch>) {
    SameRow(before, after) && Drawn(after.spans) == Flagged(Drawn(before.spans), at)
  }

  /** Which pairs of rows marking may leave, by the two lines and the rows as they were. */
  type Rule = (string, string, Row, Row) -> iset<(Row, Row)>

  /** The rows of such a pair, once its changed words are flagged; or as they were, when the lines
      have no changes worth marking. */
  ghost predicate PairMarked(oldLine: string, newLine: string, alnum: char -> bool, differ: Differ,
                             gone: Row, came: Row, gone': Row, came': Row)
  {
    exists r, oldAt, newAt ::
      && AreChanges(oldLine, newLine, alnum, differ, r, oldAt, newAt)
      && if r == None then gone' == gone && came' == came
         else FlaggedRow(gone, gone', oldAt) && FlaggedRow(came, came', newAt)
  }

  /** The rule of marking changed words. */
  ghost function WordRule(alnum: char -> bool, differ: Differ): Rule {
    (oldLine, newLine, gone, came) =>
      iset pair: (Row, Row) | PairMarked(oldLine, newLine, alnum, differ, gone, came, pair.0, pair.1)
  }

  /** The rule allows whatever marking changed words leads to. Proofs about which rows are marked
      need no more of it than this. */
  ghost predicate Allows(rule: Rule, alnum: char -> bool, differ: Differ) {
    forall oldLine, newLine, gone, came, gone', came'
      {:trigger PairMarked(oldLine, newLine, alnum, differ, gone, came, gone', came')} ::
      PairMarked(oldLine, newLine, alnum, differ, gone, came, gone', came') ==>
        (gone', came') in rule(oldLine, newLine, gone, came)
  }

  /** Rows `g` and `c` were marked as a pair. */
  ghost predicate PairDone(lines: seq<DiffLine>, rule: Rule,
                           before: seq<Row>, after: seq<Row>, g: nat, c: nat)
    requires |before| == |after| == |lines| && g < |lines| && c < |lines|
  {
    (after[g], after[c]) in rule(lines[g].text, lines[c].text, before[g], before[c])
  }

  ghost predicate Unpaired(lines: seq<DiffLine>, i: int) {
    forall c :: !Paired(lines, i, c) && !Paired(lines, c, i)
  }

  /** What marking did to row `i`: with its partner, if it has one, or nothing. */
  ghost predicate RowDone(lines: seq<DiffLine>, rule: Rule,
                          before: seq<Row>, after: seq<Row>, i: nat)
    requires |before| == |after| == |lines| && i < |lines|
  {
    && (forall c :: 0 <= c < |lines| && Paired(lines, i, c) ==> PairDone(lines, rule, before, after, i, c))
    && (Unpaired(lines, i) ==> after[i] == before[i])
  }

  method MarkRow(row: Row, ranges: seq<Range>, ghost at: seq<Stretch>) returns (marked: Row)
    requires Lies(Text(row.spans), ranges, at) && Ordered(at)
    ensures FlaggedRow(row, marked, at)
    ensures Text(marked.spans) == Text(row.spans)
  {
    var spans := MarkLine(row.spans, ranges, at);
    match row
    case ContextRow(o, n, _) => marked := ContextRow(o, n, spans);
    case AddedRow(n, _) => marked := AddedRow(n, spans);
    case RemovedRow(o, _) => marked := RemovedRow(o, spans);
  }

  lemma MarkedAsFound(oldLine: string, newLine: string, alnum: char -> bool, differ: Differ,
                      gone: Row, came: Row, gone': Row, came': Row, r: Option<Changes>,
                      oldAt: seq<Stretch>, newAt: seq<Stretch>)
    requires AreChanges(oldLine, newLine, alnum, differ, r, oldAt, newAt)
    requires if r == None then gone' == gone && came' == came
             else FlaggedRow(gone, gone', oldAt) && FlaggedRow(came, came', newAt)
    ensures PairMarked(oldLine, newLine, alnum, differ, gone, came, gone', came')
  {
  }

  method MarkTwo(oldLine: string, newLine: string, alnum: char -> bool, differ: Differ, gone: Row, came: Row)
      returns (a: Row, b: Row)
    requires Honest(differ)
    requires Text(gone.spans) == oldLine && Text(came.spans) == newLine
    ensures PairMarked(oldLine, newLine, alnum, differ, gone, came, a, b)
    ensures Text(a.spans) == oldLine && Text(b.spans) == newLine
    ensures SameRow(gone, a) && SameRow(came, b)
  {
    ghost var oldAt, newAt;
    var changes;
    a, b := gone, came;
    changes, oldAt, newAt := FindChanges(oldLine, newLine, alnum, differ);
    if changes.Some? {
      ChangesLeaveSharedText(oldLine, newLine, alnum, differ, changes, oldAt, newAt);
      a := MarkRow(gone, changes.value.oldMarks, oldAt);
      b := MarkRow(came, changes.value.newMarks, newAt);
    }
    MarkedAsFound(oldLine, newLine, alnum, differ, gone, came, a, b, changes, oldAt, newAt);
  }

  /** Marks one pair in place. */
  method MarkPair(oldLine: string, newLine: string, alnum: char -> bool, differ: Differ, ghost rule: Rule,
                  rows: array<Row>, gone: nat, came: nat)
    requires Honest(differ) && Allows(rule, alnum, differ)
    requires gone < came < rows.Length
    requires Text(rows[gone].spans) == oldLine && Text(rows[came].spans) == newLine
    modifies rows
    ensures (rows[gone], rows[came]) in rule(oldLine, newLine, old(rows[gone]), old(rows[came]))
    ensures Text(rows[gone].spans) == oldLine && Text(rows[came].spans) == newLine
    ensures SameRow(old(rows[gone]), rows[gone]) && SameRow(old(rows[came]), rows[came])
    ensures forall i :: 0 <= i < rows.Length && i != gone && i != came ==> rows[i] == old(rows[i])
  {
    var a, b := MarkTwo(oldLine, newLine, alnum, differ, rows[gone], rows[came]);
    rows[gone] := a;
    rows[came] := b;
  }

  /** The lines from `from` on that are removed, up to the first that is not. */
  method RunOfRemoved(lines: seq<DiffLine>, from: nat) returns (n: nat)
    requires from <= |lines|
    ensures from + n <= |lines|
    ensures forall x :: from <= x < from + n ==> lines[x].RemovedLine?
    ensures from + n < |lines| ==> !lines[from + n].RemovedLine?
  {
    n := 0;
    while from + n < |lines| && lines[from + n].RemovedLine?
      invariant from + n <= |lines|
      invariant forall x :: from <= x < from + n ==> lines[x].RemovedLine?
    {
      n := n + 1;
    }
  }

  method RunOfAdded(lines: seq<DiffLine>, from: nat) returns (n: nat)
    requires from <= |lines|
    ensures from + n <= |lines|
    ensures forall x :: from <= x < from + n ==> lines[x].AddedLine?
    ensures from + n < |lines| ==> !lines[from + n].AddedLine?
  {
    n := 0;
    while from + n < |lines| && lines[from + n].AddedLine?
      invariant from + n <= |lines|
      invariant forall x :: from <= x < from + n ==> lines[x].AddedLine?
    {
      n := n + 1;
    }
  }

  /** The rows carry the lines' texts, and signs and numbers of the rows `base`. */
  ghost predicate Carry(lines: seq<DiffLine>, base: seq<Row>, rows: seq<Row>) {
    && |rows| == |base| == |lines|
    && forall i :: 0 <= i < |lines| ==> Text(rows[i].spans) == lines[i].text && SameRow(base[i], rows[i])
  }

  /** Row `g` of a block was marked with the row `removed` further on. */
  ghost predicate PartnerDone(lines: seq<DiffLine>, rule: Rule, removed: nat,
                              before: seq<Row>, after: seq<Row>, g: nat)
    requires |before| == |after| == |lines| && g < |lines|
  {
    g + removed < |lines| && PairDone(lines, rule, before, after, g, g + removed)
  }

  /** The rows of a block once its first `k` pairs are marked. */
  ghost predicate BlockDone(lines: seq<DiffLine>, rule: Rule, at: nat, removed: nat, k: nat,
                            before: seq<Row>, after: seq<Row>)
    requires |before| == |after| == |lines|
    requires at + removed + k <= |lines| && k <= removed
  {
    && (forall g :: at <= g < at + k ==> PartnerDone(lines, rule, removed, before, after, g))
    && (forall i ::
          0 <= i < |lines| && !(at <= i < at + k) && !(at + removed <= i < at + removed + k) ==> after[i] == before[i])
  }

  /** The next pair, rows `g` and `g + removed`. */
  lemma BlockStep(lines: seq<DiffLine>, rule: Rule, at: nat, removed: nat, k: nat, g: nat,
                  before: seq<Row>, mid: seq<Row>, after: seq<Row>)
    requires |before| == |mid| == |after| == |lines|
    requires g == at + k && g + removed < |lines| && k < removed
    requires BlockDone(lines, rule, at, removed, k, before, mid)
    requires PairDone(lines, rule, mid, after, g, g + removed)
    requires forall i :: 0 <= i < |lines| && i != g && i != g + removed ==> after[i] == mid[i]
    ensures BlockDone(lines, rule, at, removed, k + 1, before, after)
  {
    assert mid[g] == before[g] && mid[g + removed] == before[g + removed];
    SamePair(lines, rule, mid, after, before, after, g, g + removed);
    assert PartnerDone(lines, rule, removed, before, after, g);
    forall x | at <= x < g
      ensures PartnerDone(lines, rule, removed, before, after, x)
    {
      var y := x + removed;
      assert after[x] == mid[x];
      assert after[y] == mid[y];
      assert PartnerDone(lines, rule, removed, before, mid, x);
      assert PairDone(lines, rule, before, mid, x, y);
      SamePair(lines, rule, before, mid, before, after, x, x + removed);
    }
  }

  lemma SamePair(lines: seq<DiffLine>, rule: Rule,
                 a: seq<Row>, b: seq<Row>, a': seq<Row>, b': seq<Row>, g: nat, c: nat)
    requires |a| == |b| == |a'| == |b'| == |lines| && g < |lines| && c < |lines|
    requires a[g] == a'[g] && a[c] == a'[c] && b[g] == b'[g] && b[c] == b'[c]
    requires PairDone(lines, rule, a, b, g, c)
    ensures PairDone(lines, rule, a', b', g, c)
  {
  }

  /** Marks the rows of lines `gone` and `came`. */
  method MarkPairOf(lines: seq<DiffLine>, alnum: char -> bool, differ: Differ, ghost rule: Rule, ghost base: seq<Row>,
                    rows: array<Row>, gone: nat, came: nat)
    requires Honest(differ) && Allows(rule, alnum, differ)
    requires Carry(lines, base, rows[..]) && gone < came < |lines|
    modifies rows
    ensures Carry(lines, base, rows[..])
    ensures PairDone(lines, rule, old(rows[..]), rows[..], gone, came)
    ensures forall i :: 0 <= i < |lines| && i != gone && i != came ==> rows[..][i] == old(rows[..])[i]
  {
    ghost var before := rows[..];
    assert Text(before[gone].spans) == lines[gone].text && Text(before[came].spans) == lines[came].text;
    MarkPair(lines[gone].text, lines[came].text, alnum, differ, rule, rows, gone, came);
    CarryKept(lines, base, before, rows[..], gone, came);
  }

  /** Marks the pairs of one block. */
  method MarkBlock(lines: seq<DiffLine>, alnum: char -> bool, differ: Differ, ghost rule: Rule, ghost base: seq<Row>,
                   rows: array<Row>, at: nat, removed: nat, added: nat)
    requires Honest(differ) && Allows(rule, alnum, differ)
    requires Block(lines, at, removed, added)
    requires Carry(lines, base, rows[..])
    modifies rows
    ensures Carry(lines, base, rows[..])
    ensures BlockDone(lines, rule, at, removed, Min(removed, added), old(rows[..]), rows[..])
  {
    ghost var before := rows[..];
    for k := 0 to Min(removed, added)
      invariant Carry(lines, base, rows[..])
      invariant BlockDone(lines, rule, at, removed, k, before, rows[..])
    {
      ghost var mid := rows[..];
      var gone := at + k;
      MarkPairOf(lines, alnum, differ, rule, base, rows, gone, gone + removed);
      BlockStep(lines, rule, at, removed, k, gone, before, mid, rows[..]);
    }
  }

  lemma CarryKept(lines: seq<DiffLine>, base: seq<Row>, mid: seq<Row>, after: seq<Row>, g: nat, c: nat)
    requires Carry(lines, base, mid) && |after| == |mid|
    requires forall i :: 0 <= i < |mid| && i != g && i != c ==> after[i] == mid[i]
    requires g < |mid| && Text(after[g].spans) == lines[g].text && SameRow(mid[g], after[g])
    requires c < |mid| && Text(after[c].spans) == lines[c].text && SameRow(mid[c], after[c])
    ensures Carry(lines, base, after)
  {
  }

  /** A finished block leaves every row of it done. */
  lemma BlockRowsDone(lines: seq<DiffLine>, rule: Rule, at: nat, removed: nat, added: nat,
                      before: seq<Row>, after: seq<Row>, i: nat)
    requires |before| == |after| == |lines|
    requires Block(lines, at, removed, added)
    requires BlockDone(lines, rule, at, removed, Min(removed, added), before, after)
    requires at <= i < at + removed + added
    ensures RowDone(lines, rule, before, after, i)
  {
    forall c | 0 <= c < |lines| && Paired(lines, i, c)
      ensures PairDone(lines, rule, before, after, i, c)
    {
      BlockPairs(lines, at, removed, added, i, c);
      assert PartnerDone(lines, rule, removed, before, after, i);
    }
    if i < at + Min(removed, added) {
      BlockPairs(lines, at, removed, added, i, i + removed);
    } else if at + removed <= i < at + removed + Min(removed, added) {
      BlockPairs(lines, at, removed, added, i - removed, i);
    }
  }

  /** No pair stands astride a fresh line. */
  lemma FreshSplitsPairs(lines: seq<DiffLine>, at: nat, g: int, c: int)
    requires Fresh(lines, at) && Paired(lines, g, c)
    ensures g < at <==> c < at
  {
    var s, m :| PairedIn(lines, g, c, s, m);
    if g < at <= c {
      InsidePair(lines, at, g, c, s, m);
    }
  }

  lemma InsidePair(lines: seq<DiffLine>, x: nat, g: int, c: int, s: int, m: int)
    requires PairedIn(lines, g, c, s, m) && g < x <= c
    ensures !Fresh(lines, x)
  {
    assert if x < m then lines[x].RemovedLine? && lines[x - 1].RemovedLine?
           else if x == m then lines[x].AddedLine? && lines[x - 1].RemovedLine?
           else lines[x].AddedLine? && lines[x - 1].AddedLine?;
  }

  /** What is done stays done while only later rows change. */
  lemma DoneStays(lines: seq<DiffLine>, rule: Rule, at: nat,
                  before: seq<Row>, mid: seq<Row>, after: seq<Row>, i: nat)
    requires |before| == |mid| == |after| == |lines| && i < at <= |lines|
    requires Fresh(lines, at) && after[..at] == mid[..at]
    requires RowDone(lines, rule, before, mid, i)
    ensures RowDone(lines, rule, before, after, i)
  {
    assert after[i] == after[..at][i] == mid[i];
    forall c | 0 <= c < |lines| && Paired(lines, i, c)
      ensures PairDone(lines, rule, before, after, i, c)
    {
      FreshSplitsPairs(lines, at, i, c);
      assert after[c] == after[..at][c] == mid[c];
      assert PairDone(lines, rule, before, mid, i, c);
    }
  }

  /** What was not touched before counts as it was at the start. */
  lemma DoneSince(lines: seq<DiffLine>, rule: Rule, at: nat,
                  before: seq<Row>, mid: seq<Row>, after: seq<Row>, i: nat)
    requires |before| == |mid| == |after| == |lines| && at <= i < |lines|
    requires Fresh(lines, at) && mid[at..] == before[at..]
    requires RowDone(lines, rule, mid, after, i)
    ensures RowDone(lines, rule, before, after, i)
  {
    assert mid[i] == mid[at..][i - at] == before[i];
    forall c | 0 <= c < |lines| && Paired(lines, i, c)
      ensures PairDone(lines, rule, before, after, i, c)
    {
      FreshSplitsPairs(lines, at, i, c);
      assert mid[c] == mid[at..][c - at] == before[c];
      assert PairDone(lines, rule, mid, after, i, c);
    }
  }

  /** A context line belongs to no pair. */
  lemma ContextDone(lines: seq<DiffLine>, rule: Rule,
                    before: seq<Row>, after: seq<Row>, i: nat)
    requires |before| == |after| == |lines|
    requires i < |lines| && lines[i].ContextLine? && after[i] == before[i]
    ensures RowDone(lines, rule, before, after, i)
  {
    forall c | 0 <= c < |lines|
      ensures !Paired(lines, i, c)
    {
    }
  }

  /** The first `at` rows are done, and the rest untouched. */
  ghost predicate DoneUpTo(lines: seq<DiffLine>, rule: Rule, at: nat,
                           before: seq<Row>, after: seq<Row>)
  {
    && at <= |lines| == |before| && Fresh(lines, at)
    && Carry(lines, before, after)
    && (forall i :: 0 <= i < at ==> RowDone(lines, rule, before, after, i))
    && after[at..] == before[at..]
  }

  /** One block further. */
  lemma BlockFurther(lines: seq<DiffLine>, rule: Rule, at: nat, removed: nat, added: nat,
                     before: seq<Row>, mid: seq<Row>, after: seq<Row>)
    requires at < |lines| && DoneUpTo(lines, rule, at, before, mid)
    requires Block(lines, at, removed, added) && Carry(lines, before, after)
    requires BlockDone(lines, rule, at, removed, Min(removed, added), mid, after)
    ensures DoneUpTo(lines, rule, at + (if removed + added > 1 then removed + added else 1), before, after)
  {
    var next := at + (if removed + added > 1 then removed + added else 1);
    forall i | 0 <= i < next
      ensures RowDone(lines, rule, before, after, i)
    {
      if i < at {
        DoneStays(lines, rule, at, before, mid, after, i);
      } else {
        if removed + added == 0 {
          ContextDone(lines, rule, mid, after, i);
        } else {
          BlockRowsDone(lines, rule, at, removed, added, mid, after, i);
        }
        DoneSince(lines, rule, at, before, mid, after, i);
      }
    }
    RestUntouched(before, mid, after, at, next);
    FreshAfter(lines, at, removed, added, next);
  }

  lemma RestUntouched(before: seq<Row>, mid: seq<Row>, after: seq<Row>, at: nat, next: nat)
    requires |before| == |mid| == |after| && at <= next <= |before| && mid[at..] == before[at..]
    requires forall i :: next <= i < |after| ==> after[i] == mid[i]
    ensures after[next..] == before[next..]
  {
    forall i | next <= i < |before|
      ensures after[i] == before[i]
    {
      assert mid[at..][i - at] == before[at..][i - at];
    }
  }

  lemma FreshAfter(lines: seq<DiffLine>, at: nat, removed: nat, added: nat, next: nat)
    requires at < |lines| && Block(lines, at, removed, added)
    requires next == at + if removed + added > 1 then removed + added else 1
    ensures next <= |lines| && Fresh(lines, next)
  {
  }

  method BlockAt(lines: seq<DiffLine>, at: nat) returns (removed: nat, added: nat)
    requires at < |lines| && Fresh(lines, at)
    ensures Block(lines, at, removed, added)
  {
    removed := RunOfRemoved(lines, at);
    added := RunOfAdded(lines, at + removed);
  }

  /** Marks the block that starts at row `at`, and says where the next one may. */
  method MarkNext(lines: seq<DiffLine>, alnum: char -> bool, differ: Differ, ghost rule: Rule, ghost before: seq<Row>,
                  rows: array<Row>, at: nat) returns (next: nat)
    requires Honest(differ) && Allows(rule, alnum, differ)
    requires at < |lines| && DoneUpTo(lines, rule, at, before, rows[..])
    modifies rows
    ensures at < next <= |lines| && DoneUpTo(lines, rule, next, before, rows[..])
  {
    ghost var mid := rows[..];
    var removed, added := BlockAt(lines, at);
    MarkBlock(lines, alnum, differ, rule, before, rows, at, removed, added);
    BlockFurther(lines, rule, at, removed, added, before, mid, rows[..]);
    next := at + if removed + added > 1 then removed + added else 1;
  }

  /** Goes through the blocks of a hunk; afterwards `rule` allows every pair of rows, and a row with no
      partner is as it was. */
  method MarkWords(lines: seq<DiffLine>, alnum: char -> bool, differ: Differ, ghost rule: Rule, rows: array<Row>)
    requires Honest(differ) && Allows(rule, alnum, differ)
    requires Carry(lines, rows[..], rows[..])
    modifies rows
    ensures Carry(lines, old(rows[..]), rows[..])
    ensures forall i :: 0 <= i < |lines| ==> RowDone(lines, rule, old(rows[..]), rows[..], i)
  {
    ghost var before := rows[..];
    var at := 0;
    while at < |lines|
      invariant at <= |lines| && DoneUpTo(lines, rule, at, before, rows[..])
    {
      at := MarkNext(lines, alnum, differ, rule, before, rows, at);
    }
  }

  // ---- A hunk's rows, before any word is marked ----

  function OldCount(lines: seq<DiffLine>, n: nat): nat
    requires n <= |lines|
  {
    if n == 0 then 0 else OldCount(lines, n - 1) + if lines[n - 1].AddedLine? then 0 else 1
  }

  function NewCount(lines: seq<DiffLine>, n: nat): nat
    requires n <= |lines|
  {
    if n == 0 then 0 else NewCount(lines, n - 1) + if lines[n - 1].RemovedLine? then 0 else 1
  }

  /** The lines of the hunk that are in the committed file. */
  function OldTexts(lines: seq<DiffLine>): seq<string> {
    if lines == [] then []
    else (if lines[0].AddedLine? then [] else [lines[0].text]) + OldTexts(lines[1..])
  }

  predicate HasRemoved(lines: seq<DiffLine>) {
    exists i :: 0 <= i < |lines| && lines[i].RemovedLine?
  }

  /** Line `number` of `buffer`, where the first is 1 and there is no line 0. */
  function LineAt(buffer: seq<Line>, number: uint32): Option<Line> {
    if number == 0 || number > |buffer| then None else Some(buffer[number - 1])
  }

  /** The coloured line offered, as long as it reads `text`. */
  function SpansFor(candidate: Option<Line>, text: string): Line {
    if candidate.Some? && Text(candidate.value) == text then candidate.value else PlainLine(text)
  }

  lemma SpansForText(candidate: Option<Line>, text: string)
    ensures Text(SpansFor(candidate, text)) == text
  {
    PlainLineText(text);
  }

  method ChooseSpans(candidate: Option<Line>, text: string) returns (spans: Line)
    ensures spans == SpansFor(candidate, text)
    ensures Text(spans) == text
  {
    SpansForText(candidate, text);
    if candidate.Some? {
      var same := Rebuilds(candidate.value, text);
      if same {
        return candidate.value;
      }
    }
    return PlainLine(text);
  }

  /** The old lines of a hunk coloured together, when any was removed. */
  function OldSideOf(report: Report, colour: Option<Colour>): Option<seq<Line>> {
    if colour.Some? && HasRemoved(report.lines) then colour.value.grammar(OldTexts(report.lines)) else None
  }

  /** The `k`-th line of a fragment, if there is a fragment and it goes that far. */
  function Nth(lines: Option<seq<Line>>, k: nat): Option<Line> {
    if lines.Some? && k < |lines.value| then Some(lines.value[k]) else None
  }

  function BufferLine(colour: Option<Colour>, number: uint32): Option<Line> {
    if colour.Some? then LineAt(colour.value.buffer, number) else None
  }

  /** The number line `i` has, or would have, on the old side. */
  function OldNumber(report: Report, i: nat): uint32
    requires i <= |report.lines|
  {
    if i == 0 then report.oldStart
    else if report.lines[i - 1].AddedLine? then OldNumber(report, i - 1)
    else Next32(OldNumber(report, i - 1))
  }

  function NewNumber(report: Report, i: nat): uint32
    requires i <= |report.lines|
  {
    if i == 0 then report.newStart
    else if report.lines[i - 1].RemovedLine? then NewNumber(report, i - 1)
    else Next32(NewNumber(report, i - 1))
  }

  lemma {:induction false} NumbersWrap(report: Report, i: nat)
    requires i <= |report.lines|
    ensures OldNumber(report, i) == ToUint32(report.oldStart + OldCount(report.lines, i))
    ensures NewNumber(report, i) == ToUint32(report.newStart + NewCount(report.lines, i))
    decreases i
  {
    if i > 0 {
      NumbersWrap(report, i - 1);
      CountsWrap(report.oldStart + OldCount(report.lines, i - 1));
      CountsWrap(report.newStart + NewCount(report.lines, i - 1));
    }
  }

  /** Numbers count the lines before them on their side, from the hunk's start, in 32 bits. */
  lemma NumbersCountLines(report: Report, i: nat)
    requires i <= |report.lines|
    ensures OldNumber(report, i) == (report.oldStart + OldCount(report.lines, i)) % UINT32
    ensures NewNumber(report, i) == (report.newStart + NewCount(report.lines, i)) % UINT32
  {
    NumbersWrap(report, i);
    ToUint32IsRemainder(report.oldStart + OldCount(report.lines, i));
    ToUint32IsRemainder(report.newStart + NewCount(report.lines, i));
  }

  /** The row of line `i`, said outright: its numbers count the lines before it on each side, and
      its colours come from the buffer, or for a removed line from the old side. */
  function BaseRow(report: Report, colour: Option<Colour>, i: nat): Row
    requires i < |report.lines|
  {
    RowOf(report.lines[i], OldNumber(report, i), NewNumber(report, i), BufferLine(colour, NewNumber(report, i)),
          Nth(OldSideOf(report, colour), OldCount(report.lines, i)))
  }

  /** A line's row, given its numbers and what colours it may have from the buffer and the old side. */
  function RowOf(line: DiffLine, oldNo: uint32, newNo: uint32, buffer: Option<Line>, oldLine: Option<Line>): Row {
    match line
    case ContextLine(text) => ContextRow(oldNo, newNo, SpansFor(buffer, text))
    case AddedLine(text) => AddedRow(newNo, SpansFor(buffer, text))
    case RemovedLine(text) => RemovedRow(oldNo, SpansFor(oldLine, text))
  }

  function BaseRows(report: Report, colour: Option<Colour>): (rows: seq<Row>)
    ensures |rows| == |report.lines|
  {
    seq(|report.lines|, i requires 0 <= i < |report.lines| => BaseRow(report, colour, i))
  }

  lemma BaseCarries(report: Report, colour: Option<Colour>)
    ensures Carry(report.lines, BaseRows(report, colour), BaseRows(report, colour))
  {
    forall i | 0 <= i < |report.lines|
      ensures Text(BaseRow(report, colour, i).spans) == report.lines[i].text
    {
      SpansForText(BufferLine(colour, NewNumber(report, i)), report.lines[i].text);
      SpansForText(Nth(OldSideOf(report, colour), OldCount(report.lines, i)), report.lines[i].text);
    }
  }

  predicate SameSign(line: DiffLine, row: Row) {
    match line
    case ContextLine(_) => row.ContextRow?
    case AddedLine(_) => row.AddedRow?
    case RemovedLine(_) => row.RemovedRow?
  }

  /** Where the counting stands before line `i`: `taken` lines of the old side are used up. */
  ghost predicate Counted(report: Report, oldSide: Option<seq<Line>>, i: nat, taken: nat, oldNo: uint32,
                          newNo: uint32) {
    && i <= |report.lines|
    && taken == Level(oldSide, OldCount(report.lines, i))
    && oldNo == OldNumber(report, i)
    && newNo == NewNumber(report, i)
  }

  /** The next line of the old side, if any is left. */
  function Take(oldSide: Option<seq<Line>>, taken: nat): nat {
    if oldSide.Some? && taken < |oldSide.value| then taken + 1 else taken
  }

  lemma CountNext(report: Report, oldSide: Option<seq<Line>>, i: nat, taken: nat, oldNo: uint32, newNo: uint32)
    requires i < |report.lines| && Counted(report, oldSide, i, taken, oldNo, newNo)
    ensures var line := report.lines[i];
            Counted(report, oldSide, i + 1, if line.AddedLine? then taken else Take(oldSide, taken),
                    if line.AddedLine? then oldNo else Next32(oldNo),
                    if line.RemovedLine? then newNo else Next32(newNo))
    ensures Nth(oldSide, taken) == Nth(oldSide, OldCount(report.lines, i))
  {
    TakesLevel(oldSide, OldCount(report.lines, i), taken);
  }

  function Level(oldSide: Option<seq<Line>>, o: nat): nat {
    if oldSide.Some? then Min(o, |oldSide.value|) else 0
  }

  lemma TakesLevel(oldSide: Option<seq<Line>>, o: nat, taken: nat)
    requires taken == Level(oldSide, o)
    ensures Take(oldSide, taken) == Level(oldSide, o + 1) && Nth(oldSide, taken) == Nth(oldSide, o)
  {
  }

  /** One row for each line of the report, by four running counters. */
  method BuildRows(report: Report, colour: Option<Colour>) returns (rows: seq<Row>)
    ensures rows == BaseRows(report, colour)
  {
    var oldSide := OldSideOf(report, colour);
    var taken: nat := 0;
    var oldNo, newNo := report.oldStart, report.newStart;
    rows := [];
    for i := 0 to |report.lines|
      invariant Counted(report, oldSide, i, taken, oldNo, newNo)
      invariant rows == BaseRows(report, colour)[..i]
    {
      CountNext(report, oldSide, i, taken, oldNo, newNo);
      var row;
      match report.lines[i] {
        case ContextLine(text) =>
          taken := Take(oldSide, taken);
          var spans := ChooseSpans(BufferLine(colour, newNo), text);
          row := ContextRow(oldNo, newNo, spans);
          oldNo, newNo := Next32(oldNo), Next32(newNo);
        case AddedLine(text) =>
          var spans := ChooseSpans(BufferLine(colour, newNo), text);
          row := AddedRow(newNo, spans);
          newNo := Next32(newNo);
        case RemovedLine(text) =>
          var spans := ChooseSpans(Nth(oldSide, taken), text);
          taken := Take(oldSide, taken);
          row := RemovedRow(oldNo, spans);
          oldNo := Next32(oldNo);
      }
      assert row == BaseRow(report, colour, i);
      rows := rows + [row];
    }
  }

  // ---- The hunk ----

  /** Everything said about a hunk built from a report. */
  ghost predicate Shows(h: RowHunk, report: Report, colour: Option<Colour>, alnum: char -> bool, differ: Differ) {
    && Reports(h, report, colour)
    && forall i :: 0 <= i < |report.lines| ==>
         RowDone(report.lines, WordRule(alnum, differ), BaseRows(report, colour), h.rows, i)
  }

  /** What is said about it apart from marked words. */
  ghost predicate Reports(h: RowHunk, report: Report, colour: Option<Colour>) {
    && h.oldStart == report.oldStart && h.newStart == report.newStart
    && h.oldLines == ToUint32(OldCount(report.lines, |report.lines|))
    && h.newLines == ToUint32(NewCount(report.lines, |report.lines|))
    && Carry(report.lines, BaseRows(report, colour), h.rows)
  }

  lemma WordRuleAllows(alnum: char -> bool, differ: Differ)
    ensures Allows(WordRule(alnum, differ), alnum, differ)
  {
    forall oldLine, newLine, gone, came, gone', came'
      {:trigger PairMarked(oldLine, newLine, alnum, differ, gone, came, gone', came')}
      | PairMarked(oldLine, newLine, alnum, differ, gone, came, gone', came')
      ensures (gone', came') in WordRule(alnum, differ)(oldLine, newLine, gone, came)
    {
      WordRuleHas(alnum, differ, oldLine, newLine, gone, came, (gone', came'));
    }
  }

  lemma WordRuleHas(alnum: char -> bool, differ: Differ, oldLine: string, newLine: string, gone: Row, came: Row,
                    pair: (Row, Row))
    ensures pair in WordRule(alnum, differ)(oldLine, newLine, gone, came)
       <==> PairMarked(oldLine, newLine, alnum, differ, gone, came, pair.0, pair.1)
  {
  }

  lemma BaseSigns(report: Report, colour: Option<Colour>)
    ensures forall i :: 0 <= i < |report.lines| ==> SameSign(report.lines[i], BaseRows(report, colour)[i])
  {
    forall i | 0 <= i < |report.lines| ensures SameSign(report.lines[i], BaseRows(report, colour)[i]) {
      BaseSays(report, colour, i, BaseRow(report, colour, i));
    }
  }

  method BuildHunk(report: Report, colour: Option<Colour>, alnum: char -> bool, differ: Differ) returns (h: RowHunk)
    requires Honest(differ)
    ensures Shows(h, report, colour, alnum, differ)
  {
    var base := BuildRows(report, colour);
    BaseCarries(report, colour);
    WordRuleAllows(alnum, differ);
    var rows := new Row[|base|](i requires 0 <= i < |base| => base[i]);
    assert rows[..] == base;
    MarkWords(report.lines, alnum, differ, WordRule(alnum, differ), rows);
    BaseSigns(report, colour);
    var oldLines, newLines := CountSides(report.lines, base, rows[..]);
    h := RowHunk(report.oldStart, oldLines, report.newStart, newLines, rows[..]);
  }

  /** The rows that stand on either side. */
  method CountSides(ghost lines: seq<DiffLine>, ghost base: seq<Row>, rows: seq<Row>)
      returns (oldLines: uint32, newLines: uint32)
    requires Carry(lines, base, rows)
    requires forall i :: 0 <= i < |lines| ==> SameSign(lines[i], base[i])
    ensures oldLines == ToUint32(OldCount(lines, |lines|)) && newLines == ToUint32(NewCount(lines, |lines|))
  {
    var o, n := 0, 0;
    for i := 0 to |rows|
      invariant o == OldCount(lines, i) && n == NewCount(lines, i)
    {
      assert SameSign(lines[i], base[i]) && SameRow(base[i], rows[i]);
      if !rows[i].AddedRow? {
        o := o + 1;
      }
      if !rows[i].RemovedRow? {
        n := n + 1;
      }
    }
    return ToUint32(o), ToUint32(n);
  }

  /** The characters of a line that are neither flagged nor whitespace. */
  function Unflagged(g: seq<Glyph>): string {
    if g == [] then ""
    else Unflagged(DropLast(g)) + (if Last(g).changed || IsSpace(Last(g).c) then "" else [Last(g).c])
  }

  lemma {:induction false} UnflaggedSurvives(line: Line, at: seq<Stretch>, n: nat)
    requires n <= |Text(line)| == |Drawn(line)|
    ensures Unflagged(Flagged(Drawn(line), at)[..n]) == Survivors(Text(line), at, n)
    decreases n
  {
    if n > 0 {
      UnflaggedSurvives(line, at, n - 1);
      DrawnText(line);
      var g := Flagged(Drawn(line), at);
      assert DropLast(g[..n]) == g[..n - 1];
    }
  }

  /** What a teacher reads off a hunk, whatever coloured it: every row has its line's sign and
      exactly its line's text, and the numbers on each side count up from the hunk's start. */
  lemma RowsShowReport(h: RowHunk, report: Report, colour: Option<Colour>, i: nat)
    requires Reports(h, report, colour) && i < |report.lines|
    ensures |h.rows| == |report.lines|
    ensures SameSign(report.lines[i], h.rows[i])
    ensures Text(h.rows[i].spans) == report.lines[i].text
    ensures !h.rows[i].AddedRow? ==> h.rows[i].oldNo == OldNumber(report, i)
    ensures !h.rows[i].RemovedRow? ==> h.rows[i].newNo == NewNumber(report, i)
  {
    CarriedRow(report, colour, h.rows, i);
  }

  lemma CarriedRow(report: Report, colour: Option<Colour>, rows: seq<Row>, i: nat)
    requires Carry(report.lines, BaseRows(report, colour), rows) && i < |report.lines|
    ensures |rows| == |report.lines| && SameSign(report.lines[i], rows[i])
    ensures Text(rows[i].spans) == report.lines[i].text
    ensures !rows[i].AddedRow? ==> rows[i].oldNo == OldNumber(report, i)
    ensures !rows[i].RemovedRow? ==> rows[i].newNo == NewNumber(report, i)
  {
    var base := BaseRows(report, colour);
    assert base[i] == BaseRow(report, colour, i) && SameRow(base[i], rows[i]);
    BaseSays(report, colour, i, base[i]);
    RowSays(report.lines[i], base[i], rows[i]);
  }

  lemma BaseSays(report: Report, colour: Option<Colour>, i: nat, row: Row)
    requires i < |report.lines| && row == BaseRow(report, colour, i)
    ensures SameSign(report.lines[i], row)
    ensures !row.AddedRow? ==> row.oldNo == OldNumber(report, i)
    ensures !row.RemovedRow? ==> row.newNo == NewNumber(report, i)
  {
    RowOfSays(report.lines[i], OldNumber(report, i), NewNumber(report, i), BufferLine(colour, NewNumber(report, i)),
              Nth(OldSideOf(report, colour), OldCount(report.lines, i)), row);
  }

  lemma RowOfSays(line: DiffLine, oldNo: uint32, newNo: uint32, buffer: Option<Line>, oldLine: Option<Line>, row: Row)
    requires row == RowOf(line, oldNo, newNo, buffer, oldLine)
    ensures SameSign(line, row)
    ensures !row.AddedRow? ==> row.oldNo == oldNo
    ensures !row.RemovedRow? ==> row.newNo == newNo
  {
  }

  lemma RowSays(line: DiffLine, base: Row, row: Row)
    requires SameSign(line, base) && SameRow(base, row)
    ensures SameSign(line, row)
    ensures !row.AddedRow? ==> row.oldNo == base.oldNo
    ensures !row.RemovedRow? ==> row.newNo == base.newNo
  {
  }

  /** What the marks of a removed line and the line it became say: either the two rows are as
      coloured, or hiding the marked parts and all spacing leaves the same text on both, and some. */
  lemma PairsReadAlike(h: RowHunk, report: Report, colour: Option<Colour>, alnum: char -> bool, differ: Differ,
                       g: nat, c: nat)
    requires Shows(h, report, colour, alnum, differ)
    requires g < |report.lines| && c < |report.lines| && Paired(report.lines, g, c)
    ensures var base := BaseRows(report, colour);
            || (h.rows[g] == base[g] && h.rows[c] == base[c])
            || Unflagged(Drawn(h.rows[g].spans)) == Unflagged(Drawn(h.rows[c].spans)) != ""
  {
    BaseCarries(report, colour);
    MarkedReadAlike(report.lines, alnum, differ, BaseRows(report, colour), h.rows, g, c);
  }

  lemma MarkedReadAlike(lines: seq<DiffLine>, alnum: char -> bool, differ: Differ, base: seq<Row>, rows: seq<Row>,
                        g: nat, c: nat)
    requires |base| == |rows| == |lines| && g < |lines| && c < |lines| && Paired(lines, g, c)
    requires Carry(lines, base, base) && RowDone(lines, WordRule(alnum, differ), base, rows, g)
    ensures || (rows[g] == base[g] && rows[c] == base[c])
            || Unflagged(Drawn(rows[g].spans)) == Unflagged(Drawn(rows[c].spans)) != ""
  {
    PairIsMarked(lines, alnum, differ, base, rows, g, c);
    PairReads(lines[g].text, lines[c].text, alnum, differ, base[g], base[c], rows[g], rows[c]);
  }

  lemma PairIsMarked(lines: seq<DiffLine>, alnum: char -> bool, differ: Differ, before: seq<Row>, after: seq<Row>,
                     g: nat, c: nat)
    requires |before| == |after| == |lines| && g < |lines| && c < |lines| && Paired(lines, g, c)
    requires RowDone(lines, WordRule(alnum, differ), before, after, g)
    ensures PairMarked(lines[g].text, lines[c].text, alnum, differ, before[g], before[c], after[g], after[c])
  {
    assert PairDone(lines, WordRule(alnum, differ), before, after, g, c);
  }

  lemma PairReads(oldLine: string, newLine: string, alnum: char -> bool, differ: Differ,
                  gone: Row, came: Row, gone': Row, came': Row)
    requires PairMarked(oldLine, newLine, alnum, differ, gone, came, gone', came')
    requires Text(gone.spans) == oldLine && Text(came.spans) == newLine
    ensures || (gone' == gone && came' == came)
            || Unflagged(Drawn(gone'.spans)) == Unflagged(Drawn(came'.spans)) != ""
  {
    var r, oldAt, newAt :| AreChanges(oldLine, newLine, alnum, differ, r, oldAt, newAt)
      && if r == None then gone' == gone && came' == came
         else FlaggedRow(gone, gone', oldAt) && FlaggedRow(came, came', newAt);
    if r.Some? {
      ChangesLeaveSharedText(oldLine, newLine, alnum, differ, r, oldAt, newAt);
      FlaggedRowReads(gone, gone', oldLine, oldAt);
      FlaggedRowReads(came, came', newLine, newAt);
    }
  }

  lemma FlaggedRowReads(row: Row, row': Row, line: string, at: seq<Stretch>)
    requires FlaggedRow(row, row', at) && Text(row.spans) == line
    ensures Unflagged(Drawn(row'.spans)) == Survivors(line, at, |line|)
  {
    FlaggedReads(row.spans, row'.spans, at);
  }

  lemma FlaggedReads(line: Line, out: Line, at: seq<Stretch>)
    requires Drawn(out) == Flagged(Drawn(line), at)
    ensures Unflagged(Drawn(out)) == Survivors(Text(line), at, |Text(line)|)
  {
    DrawnText(line);
    UnflaggedSurvives(line, at, |Text(line)|);
    assert Drawn(out)[..|Text(line)|] == Drawn(out);
  }

  // ---- The diff ----

  datatype RowDiff = RowDiff(added: uint32, removed: uint32, hunks: seq<RowHunk>, truncated: bool)

  function LinesIn(reports: seq<Report>, n: nat): nat
    requires n <= |reports|
  {
    if n == 0 then 0 else LinesIn(reports, n - 1) + |reports[n - 1].lines|
  }

  function AllLines(reports: seq<Report>): seq<DiffLine> {
    if reports == [] then [] else reports[0].lines + AllLines(reports[1..])
  }

  function CountAdded(lines: seq<DiffLine>): nat {
    if lines == [] then 0 else CountAdded(DropLast(lines)) + if Last(lines).AddedLine? then 1 else 0
  }

  function CountRemoved(lines: seq<DiffLine>): nat {
    if lines == [] then 0 else CountRemoved(DropLast(lines)) + if Last(lines).RemovedLine? then 1 else 0
  }

  /** Everything said about a diff built from `reports`: its counts are of all of them, and its hunks
      are as many of the first ones as have at most `MAX_ROWS` lines between them. */
  ghost predicate ShowsDiff(d: RowDiff, reports: seq<Report>, colour: Option<Colour>, alnum: char -> bool,
                            differ: Differ) {
    && d.added == ToUint32(CountAdded(AllLines(reports)))
    && d.removed == ToUint32(CountRemoved(AllLines(reports)))
    && |d.hunks| <= |reports|
    && LinesIn(reports, |d.hunks|) <= MAX_ROWS
    && (d.truncated <==> |d.hunks| < |reports|)
    && (d.truncated ==> LinesIn(reports, |d.hunks| + 1) > MAX_ROWS)
    && EachShows(d.hunks, reports, Showing(colour, alnum, differ))
  }

  /** `Shows` as a relation, for everything but the hunk and its report. */
  ghost function Showing(colour: Option<Colour>, alnum: char -> bool, differ: Differ): (RowHunk, Report) -> bool {
    (h, report) => Shows(h, report, colour, alnum, differ)
  }

  /** `shows` is true at least of what a hunk is built to show. */
  ghost predicate Admits(shows: (RowHunk, Report) -> bool, colour: Option<Colour>, alnum: char -> bool,
                         differ: Differ) {
    forall h, report :: Shows(h, report, colour, alnum, differ) ==> shows(h, report)
  }

  method BuildShown(report: Report, colour: Option<Colour>, alnum: char -> bool, differ: Differ,
                    ghost shows: (RowHunk, Report) -> bool) returns (h: RowHunk)
    requires Honest(differ) && Admits(shows, colour, alnum, differ)
    ensures shows(h, report)
  {
    h := BuildHunk(report, colour, alnum, differ);
  }

  /** Each hunk shows its report, of which there are at least as many. */
  ghost predicate EachShows(hunks: seq<RowHunk>, reports: seq<Report>, shows: (RowHunk, Report) -> bool) {
    |hunks| <= |reports| && forall k :: 0 <= k < |hunks| ==> shows(hunks[k], reports[k])
  }

  method CountLines(reports: seq<Report>) returns (added: uint32, removed: uint32)
    ensures added == ToUint32(CountAdded(AllLines(reports)))
    ensures removed == ToUint32(CountRemoved(AllLines(reports)))
  {
    var lines := AllLines(reports);
    added, removed := 0, 0;
    for i := 0 to |lines|
      invariant added == ToUint32(CountAdded(lines[..i]))
      invariant removed == ToUint32(CountRemoved(lines[..i]))
    {
      TakeMore(lines, i);
      CountsWrap(CountAdded(lines[..i]));
      CountsWrap(CountRemoved(lines[..i]));
      match lines[i] {
        case AddedLine(_) => added := Next32(added);
        case RemovedLine(_) => removed := Next32(removed);
        case ContextLine(_) =>
      }
    }
    assert lines[..|lines|] == lines;
  }

  /** `kept` are the hunks of the first reports, as many as the budget allows of the first `n`. */
  ghost predicate KeptOf(kept: seq<RowHunk>, reports: seq<Report>, n: nat, truncated: bool, budget: int) {
    && |kept| <= n <= |reports| && (truncated <==> |kept| < n)
    && 0 <= budget == MAX_ROWS - LinesIn(reports, |kept|)
    && (truncated ==> LinesIn(reports, |kept| + 1) > MAX_ROWS)
  }

  lemma KeepsNext(kept: seq<RowHunk>, h: RowHunk, reports: seq<Report>, n: nat, truncated: bool, budget: int)
    requires KeptOf(kept, reports, n, truncated, budget) && n < |reports|
    requires !truncated && |reports[n].lines| <= budget
    ensures KeptOf(kept + [h], reports, n + 1, false, budget - |reports[n].lines|)
  {
  }

  /** The hunks that fit the row budget. */
  method KeepHunks(reports: seq<Report>, colour: Option<Colour>, alnum: char -> bool, differ: Differ,
                   ghost shows: (RowHunk, Report) -> bool) returns (kept: seq<RowHunk>, truncated: bool)
    requires Honest(differ) && Admits(shows, colour, alnum, differ)
    ensures EachShows(kept, reports, shows)
    ensures LinesIn(reports, |kept|) <= MAX_ROWS
    ensures truncated <==> |kept| < |reports|
    ensures truncated ==> LinesIn(reports, |kept| + 1) > MAX_ROWS
  {
    var budget := MAX_ROWS;
    truncated := false;
    kept := [];
    for n := 0 to |reports|
      invariant KeptOf(kept, reports, n, truncated, budget)
      invariant EachShows(kept, reports, shows)
    {
      if truncated || |reports[n].lines| > budget {
        truncated := true;
      } else {
        var h := BuildShown(reports[n], colour, alnum, differ, shows);
        KeepsNext(kept, h, reports, n, truncated, budget);
        budget := budget - |reports[n].lines|;
        kept := kept + [h];
      }
    }
  }

  method BuildDiff(reports: seq<Report>, colour: Option<Colour>, alnum: char -> bool, differ: Differ)
      returns (d: RowDiff)
    requires Honest(differ)
    ensures ShowsDiff(d, reports, colour, alnum, differ)
  {
    var added, removed := CountLines(reports);
    var kept, truncated := KeepHunks(reports, colour, alnum, differ, Showing(colour, alnum, differ));
    d := RowDiff(added, removed, kept, truncated);
  }
}
