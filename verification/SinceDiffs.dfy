/** The dashboard's diff of two texts, and why it can be trusted: its hunks patch the old text's
    lines into the new text's and, read backwards, the new ones into the old. */
module SinceDiffs {
  import opened EditScripts
  import opened LineDiffs
  import opened Hunks

  // ---- Applying hunks ----

  /** The lines from `pos` on with the hunks applied, or none where a hunk does not fit: it must
      start at or after `pos` and find its old rows there, word for word. */
  function PatchFrom<T(==)>(lines: seq<T>, pos: nat, hunks: seq<Hunk<T>>): Option<seq<T>>
    requires pos <= |lines|
    decreases |hunks|
  {
    if hunks == [] then Some(lines[pos..])
    else
      var h := hunks[0];
      if h.oldStart < 1 || h.oldStart - 1 < pos || h.oldStart - 1 + h.oldLines > |lines|
      then None
      else
        var at := h.oldStart - 1;
        var after := at + h.oldLines;
        if lines[at..after] != Olds(h.rows) then None
        else
          match PatchFrom(lines, after, hunks[1..])
          case None => None
          case Some(rest) => Some(lines[pos..at] + News(h.rows) + rest)
  }

  function Patch<T(==)>(lines: seq<T>, hunks: seq<Hunk<T>>): Option<seq<T>> {
    PatchFrom(lines, 0, hunks)
  }

  /** The hunk that undoes this one. */
  function Undo<T>(h: Hunk<T>): Hunk<T> {
    Hunk(h.newStart, h.newLines, h.oldStart, h.oldLines, Flipped(h.rows))
  }

  function UndoAll<T>(hunks: seq<Hunk<T>>): (r: seq<Hunk<T>>) {
    if hunks == [] then [] else [Undo(hunks[0])] + UndoAll(hunks[1..])
  }

  function Flip<T>(op: Op<T>): Op<T> {
    match op
    case Keep(o, n, text) => Keep(n, o, text)
    case Remove(o, text) => Add(o, text)
    case Add(n, text) => Remove(n, text)
  }

  function Flipped<T>(ops: seq<Op<T>>): (r: seq<Op<T>>)
    ensures |r| == |ops| && forall k :: 0 <= k < |ops| ==> r[k] == Flip(ops[k])
  {
    seq(|ops|, k requires 0 <= k < |ops| => Flip(ops[k]))
  }

  // ---- Slices of a script ----

  /** Where the rows of a slice lie among the old lines. */
  lemma OldsOfSlice<T>(ops: seq<Op<T>>, i: nat, j: nat)
    requires i <= j <= |ops|
    ensures |Olds(ops[..i])| + |Olds(ops[i..j])| == |Olds(ops[..j])| <= |Olds(ops)|
    ensures Olds(ops[i..j]) == Olds(ops)[|Olds(ops[..i])|..|Olds(ops[..j])|]
  {
    assert ops == ops[..j] + ops[j..] && ops[..j] == ops[..i] + ops[i..j];
    Concatenated(ops[..j], ops[j..]);
    Concatenated(ops[..i], ops[i..j]);
  }

  lemma {:induction false} UnchangedSlice<T>(ops: seq<Op<T>>, i: nat, j: nat)
    requires i <= j <= |ops|
    requires forall k :: i <= k < j ==> !Changed(ops, k)
    ensures Olds(ops[i..j]) == News(ops[i..j])
    decreases j - i
  {
    if i < j {
      UnchangedSlice(ops, i, j - 1);
      assert !Changed(ops, j - 1);
      assert ops[i..j] == ops[i..j - 1] + [ops[j - 1]];
      Appended(ops[i..j - 1], ops[j - 1]);
    }
  }

  /** The first numbered row of a slice says where the slice lies. */
  lemma {:induction false} StartOfSlice<T>(ops: seq<Op<T>>, i: nat, j: nat)
    requires Numbered(ops)
    requires i <= j <= |ops|
    ensures OldStart(ops[i..j]) == if Olds(ops[i..j]) == [] then 0 else |Olds(ops[..i])| + 1
    decreases j - i
  {
    var rows := ops[i..j];
    if rows != [] {
      assert RowNumbered(ops, i);
      assert rows == [ops[i]] + ops[i + 1..j];
      Concatenated([ops[i]], ops[i + 1..j]);
      Appended([], ops[i]);
      assert [] + [ops[i]] == [ops[i]];
      if ops[i].Add? {
        StartOfSlice(ops, i + 1, j);
        assert rows[1..] == ops[i + 1..j];
        assert ops[..i + 1] == ops[..i] + [ops[i]];
        Appended(ops[..i], ops[i]);
      }
    }
  }

  lemma {:induction false} HasOld<T>(ops: seq<Op<T>>, k: nat)
    requires k < |ops| && !ops[k].Add?
    ensures Olds(ops) != []
    decreases |ops|
  {
    if k < |ops| - 1 {
      HasOld(DropLast(ops), k);
    }
  }

  /** A cut that stops short of an end of the script stops at an unchanged row. */
  lemma CutEdges<T>(ops: seq<Op<T>>, cuts: seq<Cut>, k: nat)
    requires CutsOf(ops, cuts) && k < |cuts|
    ensures cuts[k].from > 0 ==> !Changed(ops, cuts[k].from)
    ensures cuts[k].to < |ops| - 1 ==> !Changed(ops, cuts[k].to)
  {
    var before, after := cuts[k].from - 1, cuts[k].to + 1;
    assert !Inside(cuts, before) && !Inside(cuts, after);
    assert Changed(ops, cuts[k].from) ==> Near(ops, before);
    assert Changed(ops, cuts[k].to) ==> Near(ops, after);
  }

  /** Every hunk shows an old row, as long as there is one to show: a hunk that is all additions
      would have to reach both ends of the script. */
  lemma CutHasOld<T>(ops: seq<Op<T>>, cuts: seq<Cut>, k: nat)
    requires CutsOf(ops, cuts) && k < |cuts|
    requires Olds(ops) != []
    ensures Olds(RowsOf(ops, cuts[k])) != []
  {
    var from, to := cuts[k].from, cuts[k].to;
    CutEdges(ops, cuts, k);
    if from > 0 {
      HasOld(RowsOf(ops, cuts[k]), 0);
    } else if to < |ops| - 1 {
      HasOld(RowsOf(ops, cuts[k]), to);
    } else {
      assert RowsOf(ops, cuts[k]) == ops;
    }
  }

  // ---- Patching ----

  /** The cuts from row `p` on hold every change from there on, and show an old row each. */
  ghost predicate Rest<T>(ops: seq<Op<T>>, cuts: seq<Cut>, p: nat) {
    && p <= |ops|
    && Apart(cuts, |ops|)
    && (forall k :: 0 <= k < |cuts| ==> p <= cuts[k].from && Olds(RowsOf(ops, cuts[k])) != [])
    && (forall c :: p <= c && Changed(ops, c) ==> Inside(cuts, c))
  }

  lemma RestAfterFirst<T>(ops: seq<Op<T>>, cuts: seq<Cut>, p: nat)
    requires cuts != [] && Rest(ops, cuts, p)
    ensures Rest(ops, cuts[1..], cuts[0].to + 1)
    ensures forall c :: p <= c < cuts[0].from ==> !Changed(ops, c)
  {
    forall c | cuts[0].to + 1 <= c && Changed(ops, c)
      ensures Inside(cuts[1..], c)
    {
      var k :| 0 <= k < |cuts| && cuts[k].from <= c <= cuts[k].to;
      assert cuts[1..][k - 1] == cuts[k];
    }
    forall c | p <= c < cuts[0].from
      ensures !Changed(ops, c)
    {
      assert !Inside(cuts, c);
    }
  }

  /** One hunk, and the unchanged lines before it, on top of hunks that patch the rest. */
  lemma PatchesOne<T>(ops: seq<Op<T>>, p: nat, cut: Cut, a: seq<T>, later: seq<Hunk<T>>)
    requires Numbered(ops) && Olds(ops) == a
    requires p <= cut.from <= cut.to < |ops|
    requires Olds(RowsOf(ops, cut)) != []
    requires forall c :: p <= c < cut.from ==> !Changed(ops, c)
    requires |Olds(ops[..cut.to + 1])| <= |a|
    requires PatchFrom(a, |Olds(ops[..cut.to + 1])|, later) == Some(News(ops[cut.to + 1..]))
    ensures |Olds(ops[..p])| <= |a|
    ensures PatchFrom(a, |Olds(ops[..p])|, [HunkOf(RowsOf(ops, cut))] + later) == Some(News(ops[p..]))
  {
    var from, next, rows := cut.from, cut.to + 1, RowsOf(ops, cut);
    var at, fromAt, nextAt := |Olds(ops[..p])|, |Olds(ops[..from])|, |Olds(ops[..next])|;
    UnchangedLines(ops, a, p, from, at, fromAt);
    HunkSits(ops, a, from, next, rows, fromAt, nextAt);
    SpellsInThree(ops, p, from, next);
    PatchesFirst(a, at, HunkOf(rows), later, News(ops[next..]));
  }

  /** Where unchanged rows lie among the old lines, which they spell on either side. */
  lemma UnchangedLines<T>(ops: seq<Op<T>>, a: seq<T>, p: nat, from: nat, at: nat, fromAt: nat)
    requires Olds(ops) == a && p <= from <= |ops| && forall c :: p <= c < from ==> !Changed(ops, c)
    requires at == |Olds(ops[..p])| && fromAt == |Olds(ops[..from])|
    ensures at <= fromAt <= |a| && a[at..fromAt] == News(ops[p..from])
  {
    OldsOfSlice(ops, p, from);
    UnchangedSlice(ops, p, from);
  }

  /** Where a hunk's rows lie among the old lines is where it says. */
  lemma HunkSits<T>(ops: seq<Op<T>>, a: seq<T>, from: nat, next: nat, rows: seq<Op<T>>, fromAt: nat, nextAt: nat)
    requires Numbered(ops) && Olds(ops) == a && from <= next <= |ops| && rows == ops[from..next] && Olds(rows) != []
    requires fromAt == |Olds(ops[..from])| && nextAt == |Olds(ops[..next])|
    ensures HunkOf(rows).oldStart == fromAt + 1 && fromAt + HunkOf(rows).oldLines == nextAt <= |a|
    ensures a[fromAt..nextAt] == Olds(rows)
  {
    OldsOfSlice(ops, from, next);
    StartOfSlice(ops, from, next);
  }

  /** What the first hunk of a patch does, when it fits. */
  lemma PatchesFirst<T>(lines: seq<T>, pos: nat, h: Hunk<T>, later: seq<Hunk<T>>, rest: seq<T>)
    requires 1 <= h.oldStart && pos <= h.oldStart - 1 && h.oldStart - 1 + h.oldLines <= |lines|
    requires lines[h.oldStart - 1..h.oldStart - 1 + h.oldLines] == Olds(h.rows)
    requires PatchFrom(lines, h.oldStart - 1 + h.oldLines, later) == Some(rest)
    ensures PatchFrom(lines, pos, [h] + later) == Some(lines[pos..h.oldStart - 1] + News(h.rows) + rest)
  {
    ConsEnds(h, later);
  }

  lemma SpellsInThree<T>(ops: seq<Op<T>>, p: nat, from: nat, next: nat)
    requires p <= from <= next <= |ops|
    ensures News(ops[p..]) == News(ops[p..from]) + News(ops[from..next]) + News(ops[next..])
  {
    assert ops[p..] == ops[p..from] + (ops[from..next] + ops[next..]);
    Concatenated(ops[p..from], ops[from..next] + ops[next..]);
    Concatenated(ops[from..next], ops[next..]);
  }

  /** Rows after the last change are lines as they were. */
  lemma PatchesNothing<T>(ops: seq<Op<T>>, p: nat)
    requires p <= |ops| && forall c :: p <= c < |ops| ==> !Changed(ops, c)
    ensures |Olds(ops[..p])| <= |Olds(ops)| && Olds(ops)[|Olds(ops[..p])|..] == News(ops[p..])
  {
    OldsOfSlice(ops, p, |ops|);
    assert ops[..|ops|] == ops && ops[p..|ops|] == ops[p..];
    UnchangedSlice(ops, p, |ops|);
  }

  /** The hunks of all cuts from row `p` on patch what is left of the old lines. */
  lemma {:induction false} PatchesRest<T>(ops: seq<Op<T>>, cuts: seq<Cut>, p: nat, a: seq<T>)
    requires Numbered(ops) && Olds(ops) == a
    requires Rest(ops, cuts, p)
    ensures |Olds(ops[..p])| <= |a|
    ensures PatchFrom(a, |Olds(ops[..p])|, HunksAt(ops, cuts)) == Some(News(ops[p..]))
    decreases |cuts|
  {
    if cuts == [] {
      PatchesNothing(ops, p);
    } else {
      var cut, cuts' := cuts[0], cuts[1..];
      RestAfterFirst(ops, cuts, p);
      PatchesRest(ops, cuts', cut.to + 1, a);
      PatchesMore(ops, cuts, p, a, cut, HunksAt(ops, cuts'));
    }
  }

  /** The first hunk on top of the later ones. */
  lemma PatchesMore<T>(ops: seq<Op<T>>, cuts: seq<Cut>, p: nat, a: seq<T>, cut: Cut, later: seq<Hunk<T>>)
    requires Numbered(ops) && Olds(ops) == a
    requires Rest(ops, cuts, p) && cuts != [] && cut == cuts[0] && later == HunksAt(ops, cuts[1..])
    requires |Olds(ops[..cut.to + 1])| <= |a|
    requires PatchFrom(a, |Olds(ops[..cut.to + 1])|, later) == Some(News(ops[cut.to + 1..]))
    ensures |Olds(ops[..p])| <= |a|
    ensures PatchFrom(a, |Olds(ops[..p])|, HunksAt(ops, cuts)) == Some(News(ops[p..]))
  {
    RestAfterFirst(ops, cuts, p);
    PatchesOne(ops, p, cut, a, later);
    HunksFirst(ops, cuts, later);
  }

  lemma HunksFirst<T>(ops: seq<Op<T>>, cuts: seq<Cut>, later: seq<Hunk<T>>)
    requires cuts != [] && forall k :: 0 <= k < |cuts| ==> cuts[k].from <= cuts[k].to < |ops|
    requires later == HunksAt(ops, cuts[1..])
    ensures HunksAt(ops, cuts) == [HunkOf(RowsOf(ops, cuts[0]))] + later
  {
  }

  /** Patching the old lines with a script's hunks gives the new lines. */
  lemma PatchForward<T>(ops: seq<Op<T>>, a: seq<T>, b: seq<T>, cuts: seq<Cut>)
    requires Turns(ops, a, b) && a != []
    requires CutsOf(ops, cuts)
    ensures Patch(a, HunksAt(ops, cuts)) == Some(b)
  {
    forall k | 0 <= k < |cuts|
      ensures Olds(RowsOf(ops, cuts[k])) != []
    {
      CutHasOld(ops, cuts, k);
    }
    forall c | 0 <= c && Changed(ops, c)
      ensures Inside(cuts, c)
    {
      assert Near(ops, c);
    }
    PatchesRest(ops, cuts, 0, a);
    assert ops[0..] == ops && ops[..0] == [];
  }

  // ---- Reading a script backwards ----

  lemma {:induction false} FlippedSpells<T>(ops: seq<Op<T>>)
    ensures Olds(Flipped(ops)) == News(ops) && News(Flipped(ops)) == Olds(ops)
    decreases |ops|
  {
    if ops != [] {
      FlippedSpells(DropLast(ops));
      assert DropLast(Flipped(ops)) == Flipped(DropLast(ops));
    }
  }

  lemma FlippedTurns<T>(ops: seq<Op<T>>, a: seq<T>, b: seq<T>)
    requires Turns(ops, a, b)
    ensures Turns(Flipped(ops), b, a)
  {
    FlippedSpells(ops);
    var back := Flipped(ops);
    forall k | 0 <= k < |back|
      ensures RowNumbered(back, k)
    {
      assert RowNumbered(ops, k);
      assert back[..k] == Flipped(ops[..k]);
      FlippedSpells(ops[..k]);
    }
  }

  lemma FlippedCuts<T>(ops: seq<Op<T>>, cuts: seq<Cut>)
    requires CutsOf(ops, cuts)
    ensures CutsOf(Flipped(ops), cuts)
  {
    var back := Flipped(ops);
    assert forall c :: Changed(back, c) <==> Changed(ops, c);
    forall x | 0 <= x < |back|
      ensures Near(back, x) <==> Near(ops, x)
    {
      if Near(ops, x) {
        var c :| Changed(ops, c) && c - CONTEXT <= x <= c + CONTEXT;
        assert Changed(back, c);
      }
    }
  }

  lemma {:induction false} FlippedStarts<T>(rows: seq<Op<T>>)
    ensures OldStart(Flipped(rows)) == NewStart(rows)
    ensures NewStart(Flipped(rows)) == OldStart(rows)
    decreases |rows|
  {
    if rows != [] {
      FlippedStarts(rows[1..]);
      assert Flipped(rows)[1..] == Flipped(rows[1..]);
    }
  }

  lemma {:induction false} FlippedHunks<T>(ops: seq<Op<T>>, cuts: seq<Cut>)
    requires forall k :: 0 <= k < |cuts| ==> cuts[k].from <= cuts[k].to < |ops|
    ensures HunksAt(Flipped(ops), cuts) == UndoAll(HunksAt(ops, cuts))
    decreases |cuts|
  {
    if cuts != [] {
      var rows := RowsOf(ops, cuts[0]);
      assert RowsOf(Flipped(ops), cuts[0]) == Flipped(rows);
      FlippedStarts(rows);
      FlippedSpells(rows);
      FlippedHunks(ops, cuts[1..]);
    }
  }

  /** The round trip: a script's hunks turn the old lines into the new ones, and undone, the new
      lines into the old ones. */
  lemma PatchRoundTrip<T>(ops: seq<Op<T>>, a: seq<T>, b: seq<T>, hunks: seq<Hunk<T>>)
    requires Turns(ops, a, b) && a != [] && b != []
    requires HunksOf(ops, hunks)
    ensures Patch(a, hunks) == Some(b)
    ensures Patch(b, UndoAll(hunks)) == Some(a)
  {
    var cuts :| CutsOf(ops, cuts) && hunks == HunksAt(ops, cuts);
    PatchForward(ops, a, b, cuts);
    FlippedTurns(ops, a, b);
    FlippedCuts(ops, cuts);
    PatchForward(Flipped(ops), b, a, cuts);
    FlippedHunks(ops, cuts);
  }

  // ---- Texts ----

  type Text = string

  /** A text cut at its newlines; always at least one line. */
  function Split(text: Text): (lines: seq<Text>)
    ensures lines != []
  {
    if text == "" then [""]
    else
      var rest := Split(text[1..]);
      if text[0] == '\n' then [""] + rest else [[text[0]] + rest[0]] + rest[1..]
  }

  function Join(lines: seq<Text>): Text
    requires lines != []
  {
    if |lines| == 1 then lines[0] else lines[0] + "\n" + Join(lines[1..])
  }

  /** Splitting loses nothing, not even a final newline. */
  lemma {:induction false} JoinSplit(text: Text)
    ensures Join(Split(text)) == text
  {
    if text != "" {
      JoinSplit(text[1..]);
      var rest := Split(text[1..]);
      if text[0] == '\n' {
        assert ([""] + rest)[1..] == rest;
      } else {
        var lines := [[text[0]] + rest[0]] + rest[1..];
        assert lines[1..] == rest[1..];
      }
    }
  }

  datatype Comparison =
    | Same
    | Uncomparable
    | Differs(added: nat, removed: nat, hunks: seq<Hunk<Text>>)

  /** `ops` is the script a comparison shows. */
  ghost predicate Shows(d: Comparison, ops: seq<Op<Text>>, a: seq<Text>, b: seq<Text>)
    requires d.Differs?
  {
    && Turns(ops, a, b)
    && IsLongestCommon(Kept(ops), a, b)
    && RemovalsFirst(ops)
    && HunksOf(ops, d.hunks)
    && d.added + |Kept(ops)| == |b|
    && d.removed + |Kept(ops)| == |a|
  }

  /** Compares two texts line by line. */
  method Diff(oldText: Text, newText: Text) returns (d: Comparison)
    ensures d.Same? <==> oldText == newText
    ensures d.Uncomparable? <==> oldText != newText && TooBig(Split(oldText), Split(newText))
    ensures d.Differs? ==> exists ops :: Shows(d, ops, Split(oldText), Split(newText))
    ensures d.Differs? ==> Patch(Split(oldText), d.hunks) == Some(Split(newText))
    ensures d.Differs? ==> Patch(Split(newText), UndoAll(d.hunks)) == Some(Split(oldText))
  {
    if oldText == newText {
      return Same;
    }
    var a, b := Split(oldText), Split(newText);
    JoinSplit(oldText);
    JoinSplit(newText);
    var script := Script(a, b);
    if script == None {
      return Uncomparable;
    }
    var ops := script.value;
    var added, removed, changed := FindChanges(ops);
    ghost var c := SomethingChanged(ops);
    if changed == [] {
      // Never taken: splitting keeps a trailing newline, so texts that differ have lines that do.
      return Same;
    }
    var hunks := CutHunks(ops, changed);
    PatchRoundTrip(ops, a, b, hunks);
    d := Differs(added, removed, hunks);
    KeptOnce(ops);
    assert Shows(d, ops, a, b);
  }

  /** Lists that differ need a changed row. */
  lemma {:induction false} SomethingChanged<T>(ops: seq<Op<T>>) returns (c: nat)
    requires Olds(ops) != News(ops)
    ensures Changed(ops, c)
    decreases |ops|
  {
    c := |ops| - 1;
    if Last(ops).Keep? {
      c := SomethingChanged(DropLast(ops));
    }
  }

  lemma {:induction false} KeptOnce<T>(ops: seq<Op<T>>)
    ensures |Kept(ops)| <= |Olds(ops)| && |Kept(ops)| <= |News(ops)|
    decreases |ops|
  {
    if ops != [] {
      KeptOnce(DropLast(ops));
    }
  }
}
