/** The promise asked of a word differ can be kept: any edit script between two lists of words,
    the dashboard's own included, reads as one. */
module WordDiffers {
  import opened EditScripts
  import opened LineDiffs
  import opened Intraline

  /** A script's rows as one-word operations. `i` and `j` count the words gone through. */
  function AsWordOps(ops: seq<Op<string>>): (r: seq<WordOp>)
    ensures |r| == |ops|
  {
    if ops == [] then []
    else
      var less := DropLast(ops);
      var i, j := |Olds(less)|, |News(less)|;
      AsWordOps(less) + [match Last(ops)
                         case Keep(_, _, _) => WordOp(Equal, Stretch(i, i + 1), Stretch(j, j + 1))
                         case Remove(_, _) => WordOp(Delete, Stretch(i, i + 1), Stretch(j, j))
                         case Add(_, _) => WordOp(Insert, Stretch(i, i), Stretch(j, j + 1))]
  }

  /** Every edit script from `a` to `b` is what a word differ promises. */
  lemma {:induction false} ScriptsAreHonest(ops: seq<Op<string>>)
    ensures WordScript(AsWordOps(ops), Olds(ops), News(ops))
    decreases |ops|
  {
    if ops != [] {
      var less := DropLast(ops);
      ScriptsAreHonest(less);
      Longer(AsWordOps(less), Olds(less), News(less), Olds(ops), News(ops), Last(AsWordOps(ops)));
    }
  }

  /** One more operation, through the words that follow. */
  lemma Longer(ops: seq<WordOp>, a: seq<string>, b: seq<string>, a': seq<string>, b': seq<string>, op: WordOp)
    requires WordScript(ops, a, b)
    requires a <= a' && b <= b'
    requires op.oldAt == Stretch(|a|, |a'|) && op.newAt == Stretch(|b|, |b'|)
    requires op.tag.Equal? ==> a'[|a|..] == b'[|b|..]
    ensures WordScript(ops + [op], a', b')
  {
    SidesLonger(ops, op);
    var p := OldSide(ops) + [Edit(!op.tag.Equal?, op.oldAt)];
    var q := NewSide(ops) + [Edit(!op.tag.Equal?, op.newAt)];
    TilesLonger(OldSide(ops), |a|, Edit(!op.tag.Equal?, op.oldAt), |a'|);
    TilesLonger(NewSide(ops), |b|, Edit(!op.tag.Equal?, op.newAt), |b'|);
    forall k | 0 <= k < |ops + [op]| && (ops + [op])[k].tag.Equal?
      ensures a'[p[k].run.from..p[k].run.to] == b'[q[k].run.from..q[k].run.to]
    {
      EqualRun(ops, a, b, a', b', op, k, p[k].run, q[k].run);
    }
  }

  /** What an equal operation covers on the two sides is one text. */
  lemma EqualRun(ops: seq<WordOp>, a: seq<string>, b: seq<string>, a': seq<string>, b': seq<string>,
                 op: WordOp, k: nat, p: Stretch, q: Stretch)
    requires WordScript(ops, a, b) && a <= a' && b <= b'
    requires op.oldAt == Stretch(|a|, |a'|) && op.newAt == Stretch(|b|, |b'|)
    requires op.tag.Equal? ==> a'[|a|..] == b'[|b|..]
    requires k <= |ops| && (if k < |ops| then ops[k] else op).tag.Equal?
    requires p == (if k < |ops| then OldSide(ops)[k].run else op.oldAt)
    requires q == (if k < |ops| then NewSide(ops)[k].run else op.newAt)
    ensures p.from <= p.to <= |a'| && q.from <= q.to <= |b'|
    ensures a'[p.from..p.to] == b'[q.from..q.to]
  {
    if k < |ops| {
      SameRun(a, a', p.from, p.to);
      SameRun(b, b', q.from, q.to);
    }
  }

  /** One more operation lengthens each side by its own range. */
  lemma SidesLonger(ops: seq<WordOp>, op: WordOp)
    ensures OldSide(ops + [op]) == OldSide(ops) + [Edit(!op.tag.Equal?, op.oldAt)]
    ensures NewSide(ops + [op]) == NewSide(ops) + [Edit(!op.tag.Equal?, op.newAt)]
  {
  }

  lemma SameRun(a: seq<string>, a': seq<string>, i: nat, j: nat)
    requires a <= a' && i <= j <= |a|
    ensures a'[i..j] == a[i..j]
  {
  }

  lemma TilesLonger(edits: seq<Edit>, n: nat, edit: Edit, n': nat)
    requires Tiles(edits, n) && n <= n' && edit.run == Stretch(n, n')
    ensures Tiles(edits + [edit], n')
  {
    var more := edits + [edit];
    forall k | 0 <= k < |more|
      ensures Reached(more, k) == more[k].run.from <= more[k].run.to <= n'
    {
      if k < |edits| {
        assert Reached(edits, k) == edits[k].run.from <= edits[k].run.to <= n;
        assert Reached(more, k) == Reached(edits, k);
      }
    }
  }

  /** The line differ of the dashboard, put to work on words: when it answers, it answers honestly. */
  method DiffWordLists(a: seq<string>, b: seq<string>) returns (r: Option<seq<WordOp>>)
    ensures r == None <==> TooBig(a, b)
    ensures r.Some? ==> WordScript(r.value, a, b)
  {
    var script := Script(a, b);
    if script == None {
      return None;
    }
    ScriptsAreHonest(script.value);
    return Some(AsWordOps(script.value));
  }

  /** The coarsest differ of all: everything was replaced. */
  function ReplaceAll(a: seq<string>, b: seq<string>): seq<WordOp> {
    [WordOp(Replace, Stretch(0, |a|), Stretch(0, |b|))]
  }

  /** There is a differ that keeps the promise on every pair of lists, so asking for one asks for
      nothing impossible. */
  lemma SomeDifferIsHonest()
    ensures exists differ: Differ :: Honest(differ)
  {
    var differ: Differ := (a, b) => ReplaceAll(a, b);
    forall a, b ensures WordScript(differ(a, b), a, b) {
      var ops := ReplaceAll(a, b);
      assert OldSide(ops) == [Edit(true, Stretch(0, |a|))] && NewSide(ops) == [Edit(true, Stretch(0, |b|))];
    }
    assert Honest(differ);
  }
}
