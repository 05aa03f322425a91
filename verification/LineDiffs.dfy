/** The edit script between two lists of lines, by dynamic programming on what is left once the
    shared ends are peeled off. The cells of the table are 16 bits wide, which is shown to be enough. */
module LineDiffs {
  import opened EditScripts

  /** The largest table that is filled. */
  const MAX_CELLS := 4_000_000

  const UINT16 := 0x1_0000

  /** What a 16-bit cell holds after a number is stored in it. */
  function ToUint16(x: nat): nat { x % UINT16 }

  // ---- Peeling the ends ----

  /** The number of lines the two lists start with in common. */
  function SharedHead<T(==)>(a: seq<T>, b: seq<T>): (h: nat)
    ensures h <= |a| && h <= |b|
    ensures forall x :: 0 <= x < h ==> a[x] == b[x]
    ensures h < |a| && h < |b| ==> a[h] != b[h]
  {
    if a != [] && b != [] && a[0] == b[0] then SharedHead(a[1..], b[1..]) + 1 else 0
  }

  /** The number of lines the two lists end with in common. */
  function SharedTail<T(==)>(a: seq<T>, b: seq<T>): (t: nat)
    ensures t <= |a| && t <= |b|
  {
    if a != [] && b != [] && Last(a) == Last(b) then SharedTail(DropLast(a), DropLast(b)) + 1 else 0
  }

  /** Agreeing line by line from the end as far as `k` means sharing that much. */
  lemma {:induction false} SharedTailReaches<T>(a: seq<T>, b: seq<T>, k: nat)
    requires k < |a| && k < |b|
    requires k <= SharedTail(a, b)
    ensures k < SharedTail(a, b) <==> a[|a| - 1 - k] == b[|b| - 1 - k]
    decreases k
  {
    if k > 0 {
      SharedTailReaches(DropLast(a), DropLast(b), k - 1);
    }
  }

  lemma {:induction false} TailShared<T>(a: seq<T>, b: seq<T>, t: nat)
    requires t == SharedTail(a, b)
    ensures t <= |a| && t <= |b| && Tail(a, t) == Tail(b, t)
    decreases t
  {
    if t > 0 {
      var a', b' := DropLast(a), DropLast(b);
      SharesLast(a, b, a', b');
      TailShared(a', b', t - 1);
      LongerTail(a, a', t);
      LongerTail(b, b', t);
    }
  }

  function Tail<T>(s: seq<T>, t: nat): seq<T>
    requires t <= |s|
  {
    s[|s| - t..]
  }

  lemma SharesLast<T>(a: seq<T>, b: seq<T>, a': seq<T>, b': seq<T>)
    requires SharedTail(a, b) > 0 && a' == DropLast(a) && b' == DropLast(b)
    ensures Last(a) == Last(b) && SharedTail(a', b') == SharedTail(a, b) - 1
  {
  }

  lemma LongerTail<T>(s: seq<T>, s': seq<T>, t: nat)
    requires 0 < t <= |s| && s' == DropLast(s)
    ensures Tail(s, t) == Tail(s', t - 1) + [Last(s)]
  {
  }

  /** Two lists as the lines they share at either end and what is left between. */
  datatype Peeled<T> = Peeled(head: seq<T>, a: seq<T>, b: seq<T>, tail: seq<T>)

  function Peel<T(==)>(a: seq<T>, b: seq<T>): Peeled<T> {
    var head := SharedHead(a, b);
    PeelAt(a, b, head, SharedTail(a[head..], b[head..]))
  }

  function PeelAt<T>(a: seq<T>, b: seq<T>, head: nat, tail: nat): Peeled<T>
    requires head + tail <= |a| && head + tail <= |b|
  {
    Peeled(a[..head], a[head..|a| - tail], b[head..|b| - tail], a[|a| - tail..])
  }

  lemma Repeeled<T>(a: seq<T>, b: seq<T>, head: nat, tail: nat)
    requires head + tail <= |a| && head + tail <= |b|
    requires forall k :: 0 <= k < head ==> a[k] == b[k]
    requires a[|a| - tail..] == b[|b| - tail..]
    ensures var p := PeelAt(a, b, head, tail);
            a == p.head + (p.a + p.tail) && b == p.head + (p.b + p.tail)
  {
    assert a[..head] == b[..head];
    InThree(a, head, tail);
    InThree(b, head, tail);
  }

  lemma EndOfEnd<T>(s: seq<T>, head: nat, tail: nat)
    requires head + tail <= |s|
    ensures Tail(s[head..], tail) == Tail(s, tail)
  {
  }

  lemma InThree<T>(s: seq<T>, head: nat, tail: nat)
    requires head + tail <= |s|
    ensures s == s[..head] + (s[head..|s| - tail] + s[|s| - tail..])
  {
  }

  lemma PeelRejoins<T>(a: seq<T>, b: seq<T>)
    ensures var p := Peel(a, b);
            a == p.head + (p.a + p.tail) && b == p.head + (p.b + p.tail)
  {
    var head := SharedHead(a, b);
    var x, y := a[head..], b[head..];
    var tail := SharedTail(x, y);
    TailsPeeled(a, b, head, x, y, tail);
    Repeeled(a, b, head, tail);
    assert Peel(a, b) == PeelAt(a, b, head, tail);
  }

  /** Both ends can be peeled without losing anything in common. */
  lemma PeelingKeepsLcs<T>(a: seq<T>, b: seq<T>)
    ensures var p := Peel(a, b);
            Lcs(a, b) == |p.head| + Lcs(p.a, p.b) + |p.tail|
  {
    var p := Peel(a, b);
    PeelRejoins(a, b);
    PeelHead(p.head, p.a + p.tail, p.b + p.tail);
    PeelTail(p.a, p.b, p.tail);
  }

  /** Whether a table for these lists would exceed the budget. */
  predicate Exceeds<T>(a: seq<T>, b: seq<T>) {
    (|a| + 1) * (|b| + 1) > MAX_CELLS
  }

  /** Whether comparing the two lists would, once their ends are peeled. */
  predicate TooBig<T(==)>(a: seq<T>, b: seq<T>) {
    Exceeds(Peel(a, b).a, Peel(a, b).b)
  }

  method PeelHeadOf<T(==)>(a: seq<T>, b: seq<T>) returns (head: nat)
    ensures head == SharedHead(a, b)
  {
    head := 0;
    while head < |a| && head < |b| && a[head] == b[head]
      invariant head <= SharedHead(a, b)
    {
      head := head + 1;
    }
  }

  lemma EndsOfRests<T>(a: seq<T>, b: seq<T>, head: nat, x: seq<T>, y: seq<T>, tail: nat)
    requires head <= |a| && head <= |b| && x == a[head..] && y == b[head..]
    requires tail <= |x| && tail <= |y| && Tail(x, tail) == Tail(y, tail)
    ensures head + tail <= |a| && head + tail <= |b| && Tail(a, tail) == Tail(b, tail)
  {
    EndOfEnd(a, head, tail);
    EndOfEnd(b, head, tail);
  }

  lemma TailsPeeled<T>(a: seq<T>, b: seq<T>, head: nat, x: seq<T>, y: seq<T>, tail: nat)
    requires head <= |a| && head <= |b| && x == a[head..] && y == b[head..] && tail == SharedTail(x, y)
    ensures head + tail <= |a| && head + tail <= |b| && Tail(a, tail) == Tail(b, tail)
  {
    TailShared(x, y, tail);
    EndsOfRests(a, b, head, x, y, tail);
  }

  method PeelEnds<T(==)>(a: seq<T>, b: seq<T>) returns (head: nat, tail: nat)
    ensures head + tail <= |a| && head + tail <= |b|
    ensures head == SharedHead(a, b)
    ensures PeelAt(a, b, head, tail) == Peel(a, b)
    ensures a[|a| - tail..] == b[|b| - tail..]
  {
    head := PeelHeadOf(a, b);
    tail := PeelTailAfter(a, b, head);
    TailsPeeled(a, b, head, a[head..], b[head..], tail);
  }

  method PeelTailAfter<T(==)>(a: seq<T>, b: seq<T>, head: nat) returns (tail: nat)
    requires head <= |a| && head <= |b|
    ensures tail == SharedTail(a[head..], b[head..])
  {
    tail := 0;
    ghost var x, y := a[head..], b[head..];
    while tail < |a| - head && tail < |b| - head && a[|a| - 1 - tail] == b[|b| - 1 - tail]
      invariant tail <= SharedTail(x, y)
    {
      SharedTailReaches(x, y, tail);
      tail := tail + 1;
    }
    if tail < |x| && tail < |y| {
      SharedTailReaches(x, y, tail);
    }
  }

  // ---- The table ----

  /** Where the cell of row `i` and column `j` lies in a table `w` cells wide. */
  function At(i: nat, j: nat, w: nat): nat { i * w + j }

  lemma {:induction false} RowsApart(i: nat, p: nat, w: nat)
    requires i < p
    ensures i * w + w <= p * w
  {
    assert p * w == (p - 1) * w + w;
    if i < p - 1 {
      RowsApart(i, p - 1, w);
    }
  }

  lemma AtInside(i: nat, j: nat, rows: nat, w: nat)
    requires i < rows && j < w
    ensures At(i, j, w) < rows * w
  {
    RowsApart(i, rows, w);
  }

  /** Cells do not overlap. */
  lemma AtDistinct(i: nat, j: nat, p: nat, q: nat, w: nat)
    requires j < w && q < w
    requires i != p || j != q
    ensures At(i, j, w) != At(p, q, w)
  {
    if i < p {
      RowsApart(i, p, w);
    } else if p < i {
      RowsApart(p, i, w);
    }
  }

  lemma ProductsGrow(x: nat, y: nat, x': nat, y': nat)
    requires x <= x' && y <= y'
    ensures x * y <= x' * y'
  {
    assert x * y <= x' * y;
    assert x' * y <= x' * y';
  }

  /** A table within the budget has a side of at most 1999 lines, which bounds what any two
      suffixes share. */
  lemma SuffixesFit<T>(a: seq<T>, b: seq<T>, i: nat, j: nat)
    requires !Exceeds(a, b)
    requires i <= |a| && j <= |b|
    ensures Lcs(a[i..], b[j..]) <= 1999
  {
    LcsSmall(a[i..], b[j..]);
    if 2000 <= |a| && 2000 <= |b| {
      ProductsGrow(2001, 2001, |a| + 1, |b| + 1);
    }
  }

  /** The cell of row `i` and column `j` holds what the suffixes from there share. */
  ghost predicate Holds<T>(t: seq<nat>, a: seq<T>, b: seq<T>, i: nat, j: nat)
    requires i <= |a| && j <= |b|
  {
    var k := At(i, j, |b| + 1);
    k < |t| && t[k] == Lcs(a[i..], b[j..])
  }

  /** Row `i` of the table is filled in from column `j` on. */
  ghost predicate Filled<T>(t: seq<nat>, a: seq<T>, b: seq<T>, i: nat, j: nat)
    requires i <= |a|
  {
    forall q :: j <= q <= |b| ==> Holds(t, a, b, i, q)
  }

  /** Fills in the lengths of the longest common subsequences of all pairs of suffixes. No
      cell ever holds more than 1999, so none wraps. */
  method FillTable<T(==)>(a: seq<T>, b: seq<T>) returns (t: array<nat>)
    requires !Exceeds(a, b)
    ensures fresh(t)
    ensures forall i :: 0 <= i <= |a| ==> Filled(t[..], a, b, i, 0)
    ensures forall k :: 0 <= k < t.Length ==> t[k] <= 1999
  {
    t := new nat[(|a| + 1) * (|b| + 1)](_ => 0);
    BlankHoldsEdges(t[..], a, b);
    var i := |a|;
    while i > 0
      invariant 0 <= i <= |a|
      invariant forall p :: i <= p <= |a| ==> Filled(t[..], a, b, p, 0)
      invariant forall p :: 0 <= p < i ==> Filled(t[..], a, b, p, |b|)
      invariant forall k :: 0 <= k < t.Length ==> t[k] <= 1999
    {
      i := i - 1;
      ghost var before := t[..];
      FillRow(t, a, b, i);
      forall p | 0 <= p < i
        ensures Filled(t[..], a, b, p, |b|)
      {
        assert Filled(before, a, b, p, |b|);
        assert RowKept(before, t[..], a, b, p);
      }
      forall p | i < p <= |a|
        ensures Filled(t[..], a, b, p, 0)
      {
        assert Filled(before, a, b, p, 0);
        assert RowKept(before, t[..], a, b, p);
      }
    }
  }

  /** An empty suffix shares nothing, which is what a blank table says. */
  lemma BlankHoldsEdges<T>(t: seq<nat>, a: seq<T>, b: seq<T>)
    requires |t| == (|a| + 1) * (|b| + 1)
    requires forall k :: 0 <= k < |t| ==> t[k] == 0
    ensures Filled(t, a, b, |a|, 0)
    ensures forall p :: 0 <= p < |a| ==> Filled(t, a, b, p, |b|)
  {
    forall p, q | 0 <= p <= |a| && 0 <= q <= |b| && (p == |a| || q == |b|)
      ensures Holds(t, a, b, p, q)
    {
      AtInside(p, q, |a| + 1, |b| + 1);
    }
  }

  /** Row `p` lost nothing. */
  ghost predicate RowKept<T>(before: seq<nat>, t: seq<nat>, a: seq<T>, b: seq<T>, p: nat)
    requires p <= |a|
  {
    forall q :: 0 <= q <= |b| && Holds(before, a, b, p, q) ==> Holds(t, a, b, p, q)
  }

  method FillRow<T(==)>(t: array<nat>, a: seq<T>, b: seq<T>, i: nat)
    requires i < |a|
    requires !Exceeds(a, b)
    requires Filled(t[..], a, b, i + 1, 0)
    requires Filled(t[..], a, b, i, |b|)
    requires forall k :: 0 <= k < t.Length ==> t[k] <= 1999
    modifies t
    ensures Filled(t[..], a, b, i, 0)
    ensures forall p :: 0 <= p <= |a| && p != i ==> RowKept(old(t[..]), t[..], a, b, p)
    ensures forall k :: 0 <= k < t.Length ==> t[k] <= 1999
  {
    var j := |b|;
    while j > 0
      invariant 0 <= j <= |b|
      invariant Filled(t[..], a, b, i + 1, 0)
      invariant Filled(t[..], a, b, i, j)
      invariant forall p :: 0 <= p <= |a| && p != i ==> RowKept(old(t[..]), t[..], a, b, p)
      invariant forall k :: 0 <= k < t.Length ==> t[k] <= 1999
    {
      j := j - 1;
      ghost var before := t[..];
      FillCell(t, a, b, i, j);
      forall p, q | 0 <= p <= |a| && 0 <= q <= |b| && (p != i || q != j) && Holds(before, a, b, p, q)
        ensures Holds(t[..], a, b, p, q)
      {
        AtDistinct(i, j, p, q, |b| + 1);
      }
      forall p | 0 <= p <= |a| && p != i
        ensures RowKept(old(t[..]), t[..], a, b, p)
      {
        assert RowKept(old(t[..]), before, a, b, p);
      }
    }
  }

  /** One cell, from its neighbours below and to the right. */
  method FillCell<T(==)>(t: array<nat>, a: seq<T>, b: seq<T>, i: nat, j: nat)
    requires i < |a| && j < |b|
    requires !Exceeds(a, b)
    requires Holds(t[..], a, b, i + 1, j + 1)
    requires Holds(t[..], a, b, i + 1, j)
    requires Holds(t[..], a, b, i, j + 1)
    modifies t
    ensures Holds(t[..], a, b, i, j)
    ensures t[..] == old(t[..])[At(i, j, |b| + 1) := Lcs(a[i..], b[j..])]
    ensures Lcs(a[i..], b[j..]) <= 1999
  {
    var w := |b| + 1;
    SuffixesFit(a, b, i, j);
    t[At(i, j, w)] := ToUint16(
      if a[i] == b[j] then t[At(i + 1, j + 1, w)] + 1
      else Max(t[At(i + 1, j, w)], t[At(i, j + 1, w)]));
  }

  // ---- The script ----

  /** The rows so far spell the first `i` old lines and the first `j` new ones. */
  ghost predicate Spelt<T>(ops: seq<Op<T>>, a: seq<T>, b: seq<T>, i: nat, j: nat) {
    i <= |a| && j <= |b| && Turns(ops, a[..i], b[..j])
  }

  lemma KeepRow<T>(ops: seq<Op<T>>, a: seq<T>, b: seq<T>, i: nat, j: nat, row: Op<T>)
    requires Spelt(ops, a, b, i, j)
    requires i < |a| && j < |b| && a[i] == b[j]
    requires row == Keep(i + 1, j + 1, a[i])
    ensures Spelt(ops + [row], a, b, i + 1, j + 1)
    ensures |Kept(ops + [row])| == |Kept(ops)| + 1
  {
    Appended(ops, row);
    AppendedNumbered(ops, row);
  }

  lemma RemoveRow<T>(ops: seq<Op<T>>, a: seq<T>, b: seq<T>, i: nat, j: nat, row: Op<T>)
    requires Spelt(ops, a, b, i, j)
    requires i < |a|
    requires row == Remove(i + 1, a[i])
    ensures Spelt(ops + [row], a, b, i + 1, j)
    ensures Kept(ops + [row]) == Kept(ops)
  {
    Appended(ops, row);
    AppendedNumbered(ops, row);
  }

  lemma AddRow<T>(ops: seq<Op<T>>, a: seq<T>, b: seq<T>, i: nat, j: nat, row: Op<T>)
    requires Spelt(ops, a, b, i, j)
    requires j < |b|
    requires row == Add(j + 1, b[j])
    ensures Spelt(ops + [row], a, b, i, j + 1)
    ensures Kept(ops + [row]) == Kept(ops)
  {
    Appended(ops, row);
    AppendedNumbered(ops, row);
  }

  /** The walk takes away the next old line here. */
  ghost predicate Removes<T>(a: seq<T>, b: seq<T>, i: nat, j: nat)
    requires i <= |a| && j <= |b|
  {
    i < |a| && (j == |b| || (a[i] != b[j] && Lcs(a[i + 1..], b[j..]) >= Lcs(a[i..], b[j + 1..])))
  }

  /** Having added a line where it could not remove one, the walk does not remove one next. */
  lemma NoRemovalAfterAdding<T>(a: seq<T>, b: seq<T>, i: nat, j: nat)
    requires i <= |a| && j < |b|
    requires i < |a| ==> a[i] != b[j]
    requires !Removes(a, b, i, j)
    ensures !Removes(a, b, i, j + 1)
  {
    if i < |a| {
      LcsWithoutFirst(a[i + 1..], b[j..]);
      assert b[j..][1..] == b[j + 1..];
      assert b[j + 1..] != [] ==> b[j + 1..][1..] == b[j + 2..];
      assert a[i..][1..] == a[i + 1..];
    }
  }

  /** What the recurrence says at the place the walk has reached. */
  lemma LcsHere<T>(a: seq<T>, b: seq<T>, i: nat, j: nat)
    requires i <= |a| && j <= |b|
    ensures i == |a| || j == |b| ==> Lcs(a[i..], b[j..]) == 0
    ensures i < |a| && j < |b| && a[i] == b[j] ==> Lcs(a[i..], b[j..]) == Lcs(a[i + 1..], b[j + 1..]) + 1
    ensures i < |a| && j < |b| && a[i] != b[j] ==>
              Lcs(a[i..], b[j..]) == Max(Lcs(a[i + 1..], b[j..]), Lcs(a[i..], b[j + 1..]))
  {
    if i < |a| && j < |b| {
      assert a[i..][1..] == a[i + 1..] && b[j..][1..] == b[j + 1..];
    }
  }

  /** What the walk keeps: the rows spell what it has passed, and together with what the rest
      shares they keep `total` lines. */
  ghost predicate Walked<T>(ops: seq<Op<T>>, a: seq<T>, b: seq<T>, head: nat, ma: seq<T>, mb: seq<T>,
                            i: nat, j: nat, total: nat)
  {
    && i <= |ma| && j <= |mb|
    && head + |ma| <= |a| && ma == a[head..head + |ma|]
    && head + |mb| <= |b| && mb == b[head..head + |mb|]
    && Spelt(ops, a, b, head + i, head + j)
    && |Kept(ops)| + Lcs(ma[i..], mb[j..]) == total
    && RemovalsFirst(ops)
    && (ops != [] && Last(ops).Add? ==> !Removes(ma, mb, i, j))
  }

  lemma StepKeeps<T>(ops: seq<Op<T>>, a: seq<T>, b: seq<T>, head: nat, ma: seq<T>, mb: seq<T>,
                     i: nat, j: nat, total: nat, row: Op<T>)
    requires Walked(ops, a, b, head, ma, mb, i, j, total)
    requires i < |ma| && j < |mb| && ma[i] == mb[j]
    requires row == Keep(head + i + 1, head + j + 1, ma[i])
    ensures Walked(ops + [row], a, b, head, ma, mb, i + 1, j + 1, total)
  {
    LcsHere(ma, mb, i, j);
    KeepRow(ops, a, b, head + i, head + j, row);
    AppendedInOrder(ops, row);
  }

  lemma RemovalLosesNothing<T>(ma: seq<T>, mb: seq<T>, i: nat, j: nat)
    requires i <= |ma| && j <= |mb| && Removes(ma, mb, i, j)
    ensures i < |ma| && Lcs(ma[i..], mb[j..]) == Lcs(ma[i + 1..], mb[j..])
  {
    LcsHere(ma, mb, i, j);
    LcsHere(ma, mb, i + 1, j);
  }

  lemma StepRemoves<T>(ops: seq<Op<T>>, a: seq<T>, b: seq<T>, head: nat, ma: seq<T>, mb: seq<T>,
                       i: nat, j: nat, total: nat, row: Op<T>)
    requires Walked(ops, a, b, head, ma, mb, i, j, total)
    requires Removes(ma, mb, i, j)
    requires row == Remove(head + i + 1, ma[i])
    ensures Walked(ops + [row], a, b, head, ma, mb, i + 1, j, total)
  {
    RemovalLosesNothing(ma, mb, i, j);
    RemoveRow(ops, a, b, head + i, head + j, row);
    AppendedInOrder(ops, row);
    SnocEnds(ops, row);
  }

  lemma StepAdds<T>(ops: seq<Op<T>>, a: seq<T>, b: seq<T>, head: nat, ma: seq<T>, mb: seq<T>,
                    i: nat, j: nat, total: nat, row: Op<T>)
    requires Walked(ops, a, b, head, ma, mb, i, j, total)
    requires j < |mb| && (i < |ma| ==> ma[i] != mb[j]) && !Removes(ma, mb, i, j)
    requires row == Add(head + j + 1, mb[j])
    ensures Walked(ops + [row], a, b, head, ma, mb, i, j + 1, total)
  {
    LcsHere(ma, mb, i, j);
    LcsHere(ma, mb, i, j + 1);
    NoRemovalAfterAdding(ma, mb, i, j);
    AddRow(ops, a, b, head + i, head + j, row);
    AppendedInOrder(ops, row);
  }

  /** Walks the table from its first cell to its last, writing a row for each step. */
  method Walk<T(==)>(a: seq<T>, b: seq<T>, head: nat, tail: nat, start: seq<Op<T>>)
      returns (ops: seq<Op<T>>)
    requires head + tail <= |a| && head + tail <= |b|
    requires Spelt(start, a, b, head, head)
    requires forall k :: 0 <= k < |start| ==> start[k].Keep?
    requires !Exceeds(a[head..|a| - tail], b[head..|b| - tail])
    ensures Spelt(ops, a, b, |a| - tail, |b| - tail)
    ensures |Kept(ops)| == |Kept(start)| + Lcs(a[head..|a| - tail], b[head..|b| - tail])
    ensures RemovalsFirst(ops)
  {
    var ma, mb := a[head..|a| - tail], b[head..|b| - tail];
    var w := |mb| + 1;
    var t := FillTable(ma, mb);
    ghost var cells := t[..];
    ghost var total := |Kept(start)| + Lcs(ma, mb);
    ops := start;
    var i, j := 0, 0;
    while i < |ma| || j < |mb|
      invariant Walked(ops, a, b, head, ma, mb, i, j, total)
      invariant t[..] == cells
      decreases |ma| - i + |mb| - j
    {
      if i < |ma| && j < |mb| {
        TableSays(cells, ma, mb, i, j);
      }
      if i < |ma| && j < |mb| && ma[i] == mb[j] {
        var row := Keep(head + i + 1, head + j + 1, ma[i]);
        StepKeeps(ops, a, b, head, ma, mb, i, j, total, row);
        ops := ops + [row];
        i, j := i + 1, j + 1;
      } else if i < |ma| && (j == |mb| || t[At(i + 1, j, w)] >= t[At(i, j + 1, w)]) {
        var row := Remove(head + i + 1, ma[i]);
        StepRemoves(ops, a, b, head, ma, mb, i, j, total, row);
        ops := ops + [row];
        i := i + 1;
      } else {
        var row := Add(head + j + 1, mb[j]);
        StepAdds(ops, a, b, head, ma, mb, i, j, total, row);
        ops := ops + [row];
        j := j + 1;
      }
    }
  }

  lemma TableSays<T>(t: seq<nat>, a: seq<T>, b: seq<T>, i: nat, j: nat)
    requires i < |a| && j < |b|
    requires forall p :: 0 <= p <= |a| ==> Filled(t, a, b, p, 0)
    ensures Holds(t, a, b, i + 1, j) && Holds(t, a, b, i, j + 1)
  {
    assert Filled(t, a, b, i + 1, 0) && Filled(t, a, b, i, 0);
  }

  /** The rows of the lines shared at the start. */
  method KeepHead<T(==)>(a: seq<T>, b: seq<T>, head: nat) returns (ops: seq<Op<T>>)
    requires head <= SharedHead(a, b)
    ensures Spelt(ops, a, b, head, head)
    ensures |Kept(ops)| == head
    ensures forall k :: 0 <= k < |ops| ==> ops[k].Keep?
  {
    ops := [];
    var i := 0;
    while i < head
      invariant 0 <= i <= head
      invariant Spelt(ops, a, b, i, i)
      invariant |Kept(ops)| == i
      invariant forall k :: 0 <= k < |ops| ==> ops[k].Keep?
    {
      var row := Keep(i + 1, i + 1, a[i]);
      KeepRow(ops, a, b, i, i, row);
      ops := ops + [row];
      i := i + 1;
    }
  }

  /** The rows so far, and those of the lines shared at the end. */
  method KeepTail<T(==)>(a: seq<T>, b: seq<T>, tail: nat, start: seq<Op<T>>) returns (ops: seq<Op<T>>)
    requires tail <= |a| && tail <= |b| && a[|a| - tail..] == b[|b| - tail..]
    requires Spelt(start, a, b, |a| - tail, |b| - tail)
    requires RemovalsFirst(start)
    ensures Turns(ops, a, b)
    ensures |Kept(ops)| == |Kept(start)| + tail
    ensures RemovalsFirst(ops)
  {
    ops := start;
    var k := 0;
    ghost var p, q := |a| - tail, |b| - tail;
    while k < tail
      invariant 0 <= k <= tail
      invariant p == |a| - tail + k && q == |b| - tail + k
      invariant Spelt(ops, a, b, p, q)
      invariant |Kept(ops)| == |Kept(start)| + k
      invariant RemovalsFirst(ops)
    {
      assert a[p] == a[|a| - tail..][k] == b[|b| - tail..][k] == b[q];
      var row := Keep(|a| - tail + k + 1, |b| - tail + k + 1, a[|a| - tail + k]);
      KeepRow(ops, a, b, p, q, row);
      AppendedInOrder(ops, row);
      ops := ops + [row];
      k, p, q := k + 1, p + 1, q + 1;
    }
    assert a[..p] == a && b[..q] == b;
  }

  /** A script that turns `a` into `b`, or none when the table would be too big.

      It keeps as many rows as any common subsequence of the two has, so no script changes fewer,
      and nowhere is an added row followed by a removed one. */
  method Script<T(==,!new)>(a: seq<T>, b: seq<T>) returns (r: Option<seq<Op<T>>>)
    ensures r == None <==> TooBig(a, b)
    ensures r.Some? ==> Turns(r.value, a, b)
    ensures r.Some? ==> IsLongestCommon(Kept(r.value), a, b)
    ensures r.Some? ==> forall other :: Turns(other, a, b) ==> |r.value| <= |other|
    ensures r.Some? ==> RemovalsFirst(r.value)
  {
    var head, tail := PeelEnds(a, b);
    PeelRejoins(a, b);
    PeelingKeepsLcs(a, b);
    var ma, mb := a[head..|a| - tail], b[head..|b| - tail];
    if Exceeds(ma, mb) {
      return None;
    }
    var ops := KeepHead(a, b, head);
    ops := Walk(a, b, head, tail, ops);
    ops := KeepTail(a, b, tail, ops);
    OptimalByCount(ops, a, b);
    return Some(ops);
  }
}
