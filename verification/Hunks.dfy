/** Cutting an edit script into hunks: the rows within `CONTEXT` of a change, one hunk for each
    stretch of them. */
module Hunks {
  import opened EditScripts
  import opened LineDiffs

  /** How far from a change a row may be and still be in a hunk. */
  const CONTEXT := 3

  datatype Hunk<+T> = Hunk(oldStart: nat, oldLines: nat, newStart: nat, newLines: nat, rows: seq<Op<T>>)

  // ---- Building a hunk from its rows ----

  /** The number of the first row on the old side, or 0 when there is none. */
  function OldStart<T>(rows: seq<Op<T>>): nat {
    if rows == [] then 0 else if rows[0].Add? then OldStart(rows[1..]) else rows[0].oldNo
  }

  function NewStart<T>(rows: seq<Op<T>>): nat {
    if rows == [] then 0 else if rows[0].Remove? then NewStart(rows[1..]) else rows[0].newNo
  }

  function HunkOf<T>(rows: seq<Op<T>>): Hunk<T> {
    Hunk(OldStart(rows), |Olds(rows)|, NewStart(rows), |News(rows)|, rows)
  }

  // ---- Which rows the hunks hold ----

  predicate Changed<T>(ops: seq<Op<T>>, i: int) {
    0 <= i < |ops| && !ops[i].Keep?
  }

  /** Row `x` is a change or within `CONTEXT` rows of one. */
  ghost predicate Near<T>(ops: seq<Op<T>>, x: int) {
    exists c :: Changed(ops, c) && c - CONTEXT <= x <= c + CONTEXT
  }

  /** The rows from `from` up to and including `to`. */
  datatype Cut = Cut(from: nat, to: nat)

  ghost predicate Inside(cuts: seq<Cut>, x: int) {
    exists k :: 0 <= k < |cuts| && cuts[k].from <= x <= cuts[k].to
  }

  /** Cuts left to right, with at least one row left out between any two. */
  ghost predicate Apart(cuts: seq<Cut>, rows: nat) {
    && (forall k :: 0 <= k < |cuts| ==> cuts[k].from <= cuts[k].to < rows)
    && (forall j, k :: 0 <= j < k < |cuts| ==> cuts[j].to + 1 < cuts[k].from)
  }

  /** The cuts hold exactly the rows near a change. */
  ghost predicate CutsOf<T>(ops: seq<Op<T>>, cuts: seq<Cut>) {
    Apart(cuts, |ops|) && forall x :: 0 <= x < |ops| ==> (Inside(cuts, x) <==> Near(ops, x))
  }

  function RowsOf<T>(ops: seq<Op<T>>, cut: Cut): seq<Op<T>>
    requires cut.from <= cut.to < |ops|
  {
    ops[cut.from..cut.to + 1]
  }

  function HunksAt<T>(ops: seq<Op<T>>, cuts: seq<Cut>): seq<Hunk<T>>
    requires forall k :: 0 <= k < |cuts| ==> cuts[k].from <= cuts[k].to < |ops|
  {
    if cuts == [] then [] else [HunkOf(RowsOf(ops, cuts[0]))] + HunksAt(ops, cuts[1..])
  }

  lemma {:induction false} HunksAtAppended<T>(ops: seq<Op<T>>, cuts: seq<Cut>, cut: Cut)
    requires forall k :: 0 <= k < |cuts| ==> cuts[k].from <= cuts[k].to < |ops|
    requires cut.from <= cut.to < |ops|
    ensures HunksAt(ops, cuts + [cut]) == HunksAt(ops, cuts) + [HunkOf(RowsOf(ops, cut))]
    decreases |cuts|
  {
    if cuts != [] {
      HunksAtAppended(ops, cuts[1..], cut);
      assert (cuts + [cut])[1..] == cuts[1..] + [cut];
    }
  }

  /** `hunks` are the script's rows near a change, each once and in order. */
  ghost predicate HunksOf<T>(ops: seq<Op<T>>, hunks: seq<Hunk<T>>) {
    exists cuts :: CutsOf(ops, cuts) && hunks == HunksAt(ops, cuts)
  }

  // ---- Finding the changes ----

  /** `changed` lists the changed rows among the first `n`, in order. */
  ghost predicate ListsChanges<T>(changed: seq<nat>, ops: seq<Op<T>>, n: nat) {
    && (forall k :: 0 <= k < |changed| ==> changed[k] < n && Changed(ops, changed[k]))
    && (forall j, k :: 0 <= j < k < |changed| ==> changed[j] < changed[k])
    && (forall i :: 0 <= i < n && Changed(ops, i) ==> i in changed)
  }

  method FindChanges<T>(ops: seq<Op<T>>) returns (added: nat, removed: nat, changed: seq<nat>)
    ensures ListsChanges(changed, ops, |ops|)
    ensures added == |News(ops)| - |Kept(ops)| && removed == |Olds(ops)| - |Kept(ops)|
  {
    added, removed, changed := 0, 0, [];
    for i := 0 to |ops|
      invariant ListsChanges(changed, ops, i) && CountsRows(added, removed, ops[..i])
    {
      Appended(ops[..i], ops[i]);
      TakeMore(ops, i);
      ListsNext(changed, ops, i);
      if ops[i].Add? {
        added := added + 1;
      }
      if ops[i].Remove? {
        removed := removed + 1;
      }
      if !ops[i].Keep? {
        changed := changed + [i];
      }
    }
    assert ops[..|ops|] == ops;
  }

  ghost predicate CountsRows<T>(added: nat, removed: nat, ops: seq<Op<T>>) {
    added == |News(ops)| - |Kept(ops)| && removed == |Olds(ops)| - |Kept(ops)|
  }

  lemma ListsNext<T>(changed: seq<nat>, ops: seq<Op<T>>, i: nat)
    requires i < |ops| && ListsChanges(changed, ops, i)
    ensures ListsChanges(if ops[i].Keep? then changed else changed + [i], ops, i + 1)
  {
    if !ops[i].Keep? {
      ListsOneMore(changed, ops, i, changed + [i]);
    }
  }

  lemma ListsOneMore<T>(changed: seq<nat>, ops: seq<Op<T>>, i: nat, more: seq<nat>)
    requires ListsChanges(changed, ops, i) && Changed(ops, i) && more == changed + [i]
    ensures ListsChanges(more, ops, i + 1)
  {
    forall x | 0 <= x < i + 1 && Changed(ops, x) ensures x in more {
      if x < i {
        assert x in changed;
      } else {
        assert more[|changed|] == i;
      }
    }
  }

  // ---- Cutting around them ----

  function Low(i: nat): nat { if i < CONTEXT then 0 else i - CONTEXT }

  function High(i: nat, rows: nat): nat
    requires i < rows
  {
    if i + CONTEXT < rows then i + CONTEXT else rows - 1
  }

  ghost predicate NearSome(changed: seq<nat>, x: int) {
    exists m :: 0 <= m < |changed| && changed[m] - CONTEXT <= x <= changed[m] + CONTEXT
  }

  /** The cuts hold exactly the rows near the changes seen so far, the last of which ends them. */
  ghost predicate CutSoFar(cuts: seq<Cut>, changed: seq<nat>, rows: nat) {
    && Apart(cuts, rows)
    && (forall x :: 0 <= x < rows ==> (Inside(cuts, x) <==> NearSome(changed, x)))
    && (changed == [] <==> cuts == [])
    && (changed != [] ==>
          && Last(changed) < rows
          && Last(cuts).from <= Low(Last(changed))
          && Last(cuts).to == High(Last(changed), rows))
  }

  /** Another change either widens the last cut or starts a new one. */
  function Widened(cuts: seq<Cut>, i: nat, rows: nat): seq<Cut>
    requires i < rows
  {
    if cuts != [] && Low(i) <= Last(cuts).to + 1
    then DropLast(cuts) + [Cut(Last(cuts).from, High(i, rows))]
    else cuts + [Cut(Low(i), High(i, rows))]
  }

  lemma WidenedHolds(cuts: seq<Cut>, changed: seq<nat>, i: nat, rows: nat, x: nat)
    requires CutSoFar(cuts, changed, rows)
    requires i < rows && x < rows
    requires changed != [] ==> Last(changed) < i
    ensures Inside(Widened(cuts, i, rows), x) <==> Inside(cuts, x) || i - CONTEXT <= x <= i + CONTEXT
  {
    var more := Widened(cuts, i, rows);
    if Inside(more, x) {
      WidenedNoFurther(cuts, changed, i, rows, x, more);
    }
    if i - CONTEXT <= x <= i + CONTEXT {
      assert more[|more| - 1].from <= x <= more[|more| - 1].to;
    }
    if Inside(cuts, x) {
      var k :| 0 <= k < |cuts| && cuts[k].from <= x <= cuts[k].to;
      assert more[k].from <= x <= more[k].to;
    }
  }

  lemma WidenedNoFurther(cuts: seq<Cut>, changed: seq<nat>, i: nat, rows: nat, x: nat, more: seq<Cut>)
    requires CutSoFar(cuts, changed, rows) && i < rows && x < rows && (changed != [] ==> Last(changed) < i)
    requires more == Widened(cuts, i, rows) && Inside(more, x)
    ensures Inside(cuts, x) || i - CONTEXT <= x <= i + CONTEXT
  {
    if !(i - CONTEXT <= x <= i + CONTEXT) {
      var k :| 0 <= k < |more| && more[k].from <= x <= more[k].to;
      assert k < |cuts| && cuts[k].from <= x <= cuts[k].to;
    }
  }

  lemma WidenedCuts(cuts: seq<Cut>, changed: seq<nat>, i: nat, rows: nat)
    requires CutSoFar(cuts, changed, rows)
    requires i < rows
    requires changed != [] ==> Last(changed) < i
    ensures CutSoFar(Widened(cuts, i, rows), changed + [i], rows)
  {
    forall x | 0 <= x < rows
      ensures Inside(Widened(cuts, i, rows), x) <==> NearSome(changed + [i], x)
    {
      WidenedHolds(cuts, changed, i, rows, x);
      NearOneMore(changed, i, x);
    }
    WidenedApart(cuts, i, rows);
  }

  lemma NearOneMore(changed: seq<nat>, i: nat, x: nat)
    ensures NearSome(changed + [i], x) <==> NearSome(changed, x) || i - CONTEXT <= x <= i + CONTEXT
  {
    var more := changed + [i];
    if NearSome(changed, x) {
      var m :| 0 <= m < |changed| && changed[m] - CONTEXT <= x <= changed[m] + CONTEXT;
      assert more[m] == changed[m];
    }
    if NearSome(more, x) && !(i - CONTEXT <= x <= i + CONTEXT) {
      var m :| 0 <= m < |more| && more[m] - CONTEXT <= x <= more[m] + CONTEXT;
      assert changed[m] == more[m];
    }
    assert more[|changed|] == i;
  }

  lemma WidenedApart(cuts: seq<Cut>, i: nat, rows: nat)
    requires Apart(cuts, rows) && i < rows
    requires cuts != [] ==> Last(cuts).from <= Low(i) && Last(cuts).to <= High(i, rows)
    ensures Apart(Widened(cuts, i, rows), rows)
  {
  }

  lemma CutsAreNear<T>(ops: seq<Op<T>>, changed: seq<nat>, cuts: seq<Cut>)
    requires ListsChanges(changed, ops, |ops|)
    requires CutSoFar(cuts, changed, |ops|)
    ensures CutsOf(ops, cuts)
  {
    forall x | 0 <= x < |ops|
      ensures NearSome(changed, x) <==> Near(ops, x)
    {
      if NearSome(changed, x) {
        var m :| 0 <= m < |changed| && changed[m] - CONTEXT <= x <= changed[m] + CONTEXT;
        assert Changed(ops, changed[m]);
      }
      if Near(ops, x) {
        var c :| Changed(ops, c) && c - CONTEXT <= x <= c + CONTEXT;
        assert c in changed;
      }
    }
  }

  /** The hunks once the cut still open, if any, is closed. */
  function Closed<T>(ops: seq<Op<T>>, hunks: seq<Hunk<T>>, open: Option<Cut>): seq<Hunk<T>>
    requires open.Some? ==> open.value.from <= open.value.to < |ops|
  {
    if open.Some? then hunks + [HunkOf(RowsOf(ops, open.value))] else hunks
  }

  /** The hunks are those of every cut but the one still open. */
  ghost predicate Cutting<T>(ops: seq<Op<T>>, cuts: seq<Cut>, hunks: seq<Hunk<T>>, open: Option<Cut>) {
    && Apart(cuts, |ops|)
    && (open == None <==> cuts == [])
    && (open.Some? ==> open.value == Last(cuts))
    && hunks == HunksAt(ops, if cuts == [] then [] else DropLast(cuts))
  }

  lemma ClosingCuts<T>(ops: seq<Op<T>>, cuts: seq<Cut>, hunks: seq<Hunk<T>>, open: Option<Cut>)
    requires Cutting(ops, cuts, hunks, open)
    ensures Closed(ops, hunks, open) == HunksAt(ops, cuts)
  {
    if cuts != [] {
      Rejoin(cuts);
      HunksAtAppended(ops, DropLast(cuts), Last(cuts));
    }
  }

  lemma WideningCuts<T>(ops: seq<Op<T>>, cuts: seq<Cut>, hunks: seq<Hunk<T>>, open: Option<Cut>, i: nat)
    requires Cutting(ops, cuts, hunks, open)
    requires i < |ops| && Apart(Widened(cuts, i, |ops|), |ops|)
    ensures open.Some? && Low(i) <= open.value.to + 1 ==>
              Cutting(ops, Widened(cuts, i, |ops|), hunks, Some(Cut(open.value.from, High(i, |ops|))))
    ensures !(open.Some? && Low(i) <= open.value.to + 1) ==>
              Cutting(ops, Widened(cuts, i, |ops|), Closed(ops, hunks, open), Some(Cut(Low(i), High(i, |ops|))))
  {
    ClosingCuts(ops, cuts, hunks, open);
    var more := Widened(cuts, i, |ops|);
    assert DropLast(more) == if open.Some? && Low(i) <= open.value.to + 1 then DropLast(cuts) else cuts;
  }

  /** Everything known once the first `n` changes are dealt with. */
  ghost predicate CutUpTo<T>(ops: seq<Op<T>>, changed: seq<nat>, n: nat, cuts: seq<Cut>,
                             hunks: seq<Hunk<T>>, open: Option<Cut>)
  {
    && n <= |changed|
    && CutSoFar(cuts, changed[..n], |ops|)
    && Cutting(ops, cuts, hunks, open)
  }

  lemma NextChange<T>(ops: seq<Op<T>>, changed: seq<nat>, n: nat, cuts: seq<Cut>, hunks: seq<Hunk<T>>,
                      open: Option<Cut>)
    requires ListsChanges(changed, ops, |ops|)
    requires n < |changed| && CutUpTo(ops, changed, n, cuts, hunks, open)
    ensures var more := Widened(cuts, changed[n], |ops|);
            var hi := High(changed[n], |ops|);
            && (open.Some? ==> open.value.from <= open.value.to < |ops|)
            && if open.Some? && Low(changed[n]) <= open.value.to + 1
               then CutUpTo(ops, changed, n + 1, more, hunks, Some(Cut(open.value.from, hi)))
               else CutUpTo(ops, changed, n + 1, more, Closed(ops, hunks, open), Some(Cut(Low(changed[n]), hi)))
  {
    assert changed[..n + 1] == changed[..n] + [changed[n]];
    WidenedCuts(cuts, changed[..n], changed[n], |ops|);
    WideningCuts(ops, cuts, hunks, open, changed[n]);
  }

  lemma AllChanges<T>(ops: seq<Op<T>>, changed: seq<nat>, cuts: seq<Cut>, hunks: seq<Hunk<T>>, open: Option<Cut>)
    requires ListsChanges(changed, ops, |ops|)
    requires CutUpTo(ops, changed, |changed|, cuts, hunks, open)
    ensures open.Some? ==> open.value.from <= open.value.to < |ops|
    ensures HunksOf(ops, Closed(ops, hunks, open))
  {
    assert changed[..|changed|] == changed;
    ClosingCuts(ops, cuts, hunks, open);
    CutsAreNear(ops, changed, cuts);
  }

  /** The rows cut around the changes. `open` is the cut still being widened. */
  method CutHunks<T>(ops: seq<Op<T>>, changed: seq<nat>) returns (hunks: seq<Hunk<T>>)
    requires ListsChanges(changed, ops, |ops|)
    ensures HunksOf(ops, hunks)
  {
    hunks := [];
    var open: Option<Cut> := None;
    ghost var cuts: seq<Cut> := [];
    for n := 0 to |changed|
      invariant CutUpTo(ops, changed, n, cuts, hunks, open)
    {
      NextChange(ops, changed, n, cuts, hunks, open);
      cuts := Widened(cuts, changed[n], |ops|);
      var lo, hi := Low(changed[n]), High(changed[n], |ops|);
      if open.Some? && lo <= open.value.to + 1 {
        open := Some(Cut(open.value.from, hi));
        continue;
      }
      hunks := Closed(ops, hunks, open);
      open := Some(Cut(lo, hi));
    }
    AllChanges(ops, changed, cuts, hunks, open);
    hunks := Closed(ops, hunks, open);
  }
}
