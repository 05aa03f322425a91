/** Edit scripts between two lists of lines, and what it means for one to be optimal.

    An edit script is a list of rows: a line kept from both sides, a line removed from the old
    side, or a line added on the new side. This module says what a script spells, defines the
    longest common subsequence twice (by index embeddings, and by the recurrence the table
    computes) and proves the two agree. Nothing here refers to how a script is found. */
module EditScripts {

  datatype Option<+T> = None | Some(value: T)

  datatype Op<+T> =
    | Keep(oldNo: nat, newNo: nat, text: T)
    | Remove(oldNo: nat, text: T)
    | Add(newNo: nat, text: T)

  function DropLast<T>(s: seq<T>): seq<T>
    requires s != []
  {
    s[..|s| - 1]
  }

  function Last<T>(s: seq<T>): T
    requires s != []
  {
    s[|s| - 1]
  }

  // Sequences taken apart and put together again.

  lemma Regroup<T>(one: seq<T>, two: seq<T>, three: seq<T>)
    ensures one + (two + three) == (one + two) + three
  {
  }

  lemma NilAdds<T>(s: seq<T>)
    ensures [] + s == s && s + [] == s
  {
  }

  /** A sequence with one element put after it, taken apart. */
  lemma SnocEnds<T>(s: seq<T>, x: T)
    ensures DropLast(s + [x]) == s && Last(s + [x]) == x
  {
  }

  lemma TakeMore<T>(s: seq<T>, n: nat)
    requires n < |s|
    ensures s[..n + 1] == s[..n] + [s[n]]
    ensures DropLast(s[..n + 1]) == s[..n] && Last(s[..n + 1]) == s[n]
  {
  }

  lemma TakeFurther<T>(s: seq<T>, m: nat, n: nat)
    requires m <= n <= |s|
    ensures s[..n] == s[..m] + s[m..n]
  {
  }

  lemma JoinEnds<T>(one: seq<T>, two: seq<T>)
    requires two != []
    ensures DropLast(one + two) == one + DropLast(two) && Last(one + two) == Last(two)
  {
  }

  lemma Rejoin<T>(s: seq<T>)
    requires s != []
    ensures s == DropLast(s) + [Last(s)]
  {
  }

  /** A sequence with one element put before it, taken apart. */
  lemma ConsEnds<T>(x: T, s: seq<T>)
    ensures ([x] + s)[0] == x && ([x] + s)[1..] == s
  {
  }

  ghost predicate Distinct<T(!new)>(s: seq<T>) { forall i, j :: 0 <= i < j < |s| ==> s[i] != s[j] }

  function Without<T(==)>(s: seq<T>, x: T): seq<T> {
    if s == [] then [] else (if s[0] == x then [] else [s[0]]) + Without(s[1..], x)
  }

  lemma {:induction false} WithoutIs<T(!new)>(s: seq<T>, x: T)
    ensures x !in Without(s, x)
    ensures forall y :: y != x ==> (y in Without(s, x) <==> y in s)
    ensures |Without(s, x)| <= |s|
    ensures x !in s ==> Without(s, x) == s
    ensures Distinct(s) ==> Distinct(Without(s, x))
    ensures Distinct(s) && x in s ==> |Without(s, x)| == |s| - 1
    decreases |s|
  {
    if s != [] {
      WithoutIs(s[1..], x);
      assert s == [s[0]] + s[1..];
      var rest := Without(s[1..], x);
      forall j | Distinct(s) && 0 <= j < |rest| ensures rest[j] != s[0] || s[0] == x {
        assert s[0] !in s[1..] && rest[j] in rest;
      }
    }
  }

  // ---- What a script spells ----

  /** The text of the rows that stand on the old side. */
  function Olds<T>(ops: seq<Op<T>>): seq<T> {
    if ops == [] then []
    else Olds(DropLast(ops)) + (if Last(ops).Add? then [] else [Last(ops).text])
  }

  /** The text of the rows that stand on the new side. */
  function News<T>(ops: seq<Op<T>>): seq<T> {
    if ops == [] then []
    else News(DropLast(ops)) + (if Last(ops).Remove? then [] else [Last(ops).text])
  }

  /** The text of the rows common to both. */
  function Kept<T>(ops: seq<Op<T>>): seq<T> {
    if ops == [] then []
    else Kept(DropLast(ops)) + (if Last(ops).Keep? then [Last(ops).text] else [])
  }

  /** The rows on each side are numbered 1, 2, 3, ... */
  ghost predicate Numbered<T>(ops: seq<Op<T>>) {
    forall k :: 0 <= k < |ops| ==> RowNumbered(ops, k)
  }

  ghost predicate RowNumbered<T>(ops: seq<Op<T>>, k: nat)
    requires k < |ops|
  {
    && (!ops[k].Add? ==> ops[k].oldNo == |Olds(ops[..k])| + 1)
    && (!ops[k].Remove? ==> ops[k].newNo == |News(ops[..k])| + 1)
  }

  /** `ops` turns `a` into `b`. */
  ghost predicate Turns<T>(ops: seq<Op<T>>, a: seq<T>, b: seq<T>) {
    Numbered(ops) && Olds(ops) == a && News(ops) == b
  }

  /** No removed row comes straight after an added one. */
  ghost predicate RemovalsFirst<T>(ops: seq<Op<T>>) {
    forall k :: 0 < k < |ops| ==> !(ops[k - 1].Add? && ops[k].Remove?)
  }

  lemma Appended<T>(ops: seq<Op<T>>, op: Op<T>)
    ensures Olds(ops + [op]) == Olds(ops) + (if op.Add? then [] else [op.text])
    ensures News(ops + [op]) == News(ops) + (if op.Remove? then [] else [op.text])
    ensures Kept(ops + [op]) == Kept(ops) + (if op.Keep? then [op.text] else [])
  {
    assert DropLast(ops + [op]) == ops;
  }

  lemma AppendedInOrder<T>(ops: seq<Op<T>>, op: Op<T>)
    requires RemovalsFirst(ops)
    requires ops != [] && Last(ops).Add? ==> !op.Remove?
    ensures RemovalsFirst(ops + [op])
  {
  }

  /** A row that carries the next number on each side it stands on keeps a script numbered. */
  lemma AppendedNumbered<T>(ops: seq<Op<T>>, op: Op<T>)
    requires Numbered(ops)
    requires !op.Add? ==> op.oldNo == |Olds(ops)| + 1
    requires !op.Remove? ==> op.newNo == |News(ops)| + 1
    ensures Numbered(ops + [op])
  {
    var more := ops + [op];
    forall k | 0 <= k < |more|
      ensures RowNumbered(more, k)
    {
      if k < |ops| {
        assert RowNumbered(ops, k);
        assert more[..k] == ops[..k];
      } else {
        assert more[..k] == ops;
      }
    }
  }

  lemma {:induction false} Concatenated<T>(x: seq<Op<T>>, y: seq<Op<T>>)
    ensures Olds(x + y) == Olds(x) + Olds(y)
    ensures News(x + y) == News(x) + News(y)
    decreases |y|
  {
    if y == [] {
      NilAdds(x);
      NilAdds(Olds(x));
      NilAdds(News(x));
    } else {
      var less, op := DropLast(y), Last(y);
      Concatenated(x, less);
      JoinEnds(x, y);
      Regroup(Olds(x), Olds(less), if op.Add? then [] else [op.text]);
      Regroup(News(x), News(less), if op.Remove? then [] else [op.text]);
    }
  }

  // ---- The longest common subsequence, by embeddings ----

  /** `at` lists positions of `a`, left to right, that read `s`. */
  ghost predicate Embeds<T>(s: seq<T>, a: seq<T>, at: seq<nat>) {
    && |at| == |s|
    && (forall k :: 0 <= k < |s| ==> at[k] < |a| && a[at[k]] == s[k])
    && (forall j, k :: 0 <= j < k < |s| ==> at[j] < at[k])
  }

  ghost predicate IsSubsequence<T>(s: seq<T>, a: seq<T>) {
    exists at: seq<nat> :: Embeds(s, a, at)
  }

  /** `s` is common to `a` and `b`, and nothing longer is. */
  ghost predicate IsLongestCommon<T(!new)>(s: seq<T>, a: seq<T>, b: seq<T>) {
    && IsSubsequence(s, a)
    && IsSubsequence(s, b)
    && forall o :: IsSubsequence(o, a) && IsSubsequence(o, b) ==> |o| <= |s|
  }

  // ---- ... and by the recurrence on the first lines ----

  function Lcs<T(==)>(a: seq<T>, b: seq<T>): nat
    decreases |a| + |b|
  {
    if a == [] || b == [] then 0
    else if a[0] == b[0] then Lcs(a[1..], b[1..]) + 1
    else Max(Lcs(a[1..], b), Lcs(a, b[1..]))
  }

  function Max(x: int, y: int): int { if x < y then y else x }

  function Min(x: int, y: int): int { if x < y then x else y }

  lemma {:induction false} LcsSmall<T>(a: seq<T>, b: seq<T>)
    ensures Lcs(a, b) <= Min(|a|, |b|)
    decreases |a| + |b|
  {
    if a != [] && b != [] {
      LcsSmall(a[1..], b[1..]);
      LcsSmall(a[1..], b);
      LcsSmall(a, b[1..]);
    }
  }

  /** Peeling a shared first line loses nothing. */
  lemma {:induction false} PeelHead<T>(h: seq<T>, a: seq<T>, b: seq<T>)
    ensures Lcs(h + a, h + b) == |h| + Lcs(a, b)
    decreases |h|
  {
    if h == [] {
      assert h + a == a && h + b == b;
    } else {
      PeelHead(h[1..], a, b);
      assert (h + a)[1..] == h[1..] + a && (h + b)[1..] == h[1..] + b;
    }
  }

  /** Peeling a shared last line loses nothing either, though the recurrence reads from the front. */
  lemma {:induction false} PeelLast<T>(a: seq<T>, b: seq<T>, x: T)
    ensures Lcs(a + [x], b + [x]) == Lcs(a, b) + 1
    decreases |a| + |b|
  {
    if a != [] {
      assert (a + [x])[1..] == a[1..] + [x];
      PeelLast(a[1..], b, x);
    }
    if b != [] {
      assert (b + [x])[1..] == b[1..] + [x];
      PeelLast(a, b[1..], x);
    }
    if a != [] && b != [] {
      PeelLast(a[1..], b[1..], x);
    }
  }

  lemma {:induction false} PeelTail<T>(a: seq<T>, b: seq<T>, t: seq<T>)
    ensures Lcs(a + t, b + t) == Lcs(a, b) + |t|
    decreases |t|
  {
    if t == [] {
      assert a + t == a && b + t == b;
    } else {
      PeelTail(a, b, DropLast(t));
      PeelLast(a + DropLast(t), b + DropLast(t), Last(t));
      assert a + t == a + DropLast(t) + [Last(t)] && b + t == b + DropLast(t) + [Last(t)];
    }
  }

  /** Losing one line loses at most one in common. */
  lemma {:induction false} LcsWithoutFirst<T>(a: seq<T>, b: seq<T>)
    ensures a != [] ==> Lcs(a[1..], b) <= Lcs(a, b) <= Lcs(a[1..], b) + 1
    ensures b != [] ==> Lcs(a, b[1..]) <= Lcs(a, b) <= Lcs(a, b[1..]) + 1
    decreases |a| + |b|
  {
    if a != [] && b != [] {
      LcsWithoutFirst(a[1..], b);
      LcsWithoutFirst(a, b[1..]);
    }
  }

  /** More lines at the end never make less in common. */
  lemma {:induction false} LcsGrows<T>(a: seq<T>, b: seq<T>, x: T)
    ensures Lcs(a, b) <= Lcs(a + [x], b)
    ensures Lcs(a, b) <= Lcs(a, b + [x])
    decreases |a| + |b|
  {
    if a != [] && b != [] {
      assert (a + [x])[1..] == a[1..] + [x] && (b + [x])[1..] == b[1..] + [x];
      LcsGrows(a[1..], b[1..], x);
      LcsGrows(a[1..], b, x);
      LcsGrows(a, b[1..], x);
    }
  }

  /** An embedding that leaves the last place alone, without that place. */
  lemma EmbedsBefore<T>(s: seq<T>, a: seq<T>, at: seq<nat>)
    requires Embeds(s, a, at) && s != [] && Last(at) < |a| - 1
    ensures Embeds(s, DropLast(a), at)
  {
    forall k | 0 <= k < |s| ensures at[k] < |a| - 1 {
      assert k < |s| - 1 ==> at[k] < at[|s| - 1];
    }
  }

  /** An embedding that ends in the last place, without it. */
  lemma EmbedsLess<T>(s: seq<T>, a: seq<T>, at: seq<nat>)
    requires Embeds(s, a, at) && s != [] && Last(at) == |a| - 1
    ensures Last(s) == Last(a) && Embeds(DropLast(s), DropLast(a), DropLast(at))
  {
    forall k | 0 <= k < |s| - 1 ensures at[k] < |a| - 1 {
      assert at[k] < at[|s| - 1];
    }
  }

  /** No common subsequence is longer than the recurrence says. */
  lemma {:induction false} LcsBounds<T>(s: seq<T>, a: seq<T>, at: seq<nat>, b: seq<T>, bt: seq<nat>)
    requires Embeds(s, a, at) && Embeds(s, b, bt)
    ensures |s| <= Lcs(a, b)
    decreases |a| + |b|
  {
    if s != [] {
      assert a != [] && b != [] by { assert at[0] < |a| && bt[0] < |b|; }
      var a', b' := DropLast(a), DropLast(b);
      if Last(at) < |a| - 1 {
        EmbedsBefore(s, a, at);
        LcsBounds(s, a', at, b, bt);
        LcsGrows(a', b, Last(a));
        Rejoin(a);
      } else if Last(bt) < |b| - 1 {
        EmbedsBefore(s, b, bt);
        LcsBounds(s, a, at, b', bt);
        LcsGrows(a, b', Last(b));
        Rejoin(b);
      } else {
        EmbedsLess(s, a, at);
        EmbedsLess(s, b, bt);
        LcsBounds(DropLast(s), a', DropLast(at), b', DropLast(bt));
        PeelLast(a', b', Last(s));
        Rejoin(a);
        Rejoin(b);
      }
    }
  }

  lemma EmbedsOneMore<T>(s: seq<T>, a: seq<T>, at: seq<nat>, x: T)
    requires Embeds(s, a, at)
    ensures IsSubsequence(s + [x], a + [x])
  {
    assert Embeds(s + [x], a + [x], at + [|a|]);
  }

  lemma EmbedsStill<T>(s: seq<T>, a: seq<T>, at: seq<nat>, x: T)
    requires Embeds(s, a, at)
    ensures IsSubsequence(s, a + [x])
  {
    assert Embeds(s, a + [x], at);
  }

  /** The kept rows of a script are found, in order, on both sides. */
  lemma {:induction false} KeptIsCommon<T>(ops: seq<Op<T>>)
    ensures IsSubsequence(Kept(ops), Olds(ops)) && IsSubsequence(Kept(ops), News(ops))
    decreases |ops|
  {
    if ops == [] {
      assert Embeds(Kept(ops), Olds(ops), []) && Embeds(Kept(ops), News(ops), []);
    } else {
      var less := DropLast(ops);
      KeptIsCommon(less);
      var at: seq<nat> :| Embeds(Kept(less), Olds(less), at);
      var bt: seq<nat> :| Embeds(Kept(less), News(less), bt);
      var text := Last(ops).text;
      if Last(ops).Keep? {
        EmbedsOneMore(Kept(less), Olds(less), at, text);
        EmbedsOneMore(Kept(less), News(less), bt, text);
      } else if Last(ops).Remove? {
        EmbedsStill(Kept(less), Olds(less), at, text);
        NilAdds(Kept(less));
        NilAdds(News(less));
      } else {
        EmbedsStill(Kept(less), News(less), bt, text);
        NilAdds(Kept(less));
        NilAdds(Olds(less));
      }
    }
  }

  /** A script that keeps as many rows as the recurrence says keeps a longest common subsequence,
      and no script between the same two lists has fewer changed rows. */
  lemma OptimalByCount<T(!new)>(ops: seq<Op<T>>, a: seq<T>, b: seq<T>)
    requires Turns(ops, a, b)
    requires |Kept(ops)| == Lcs(a, b)
    ensures IsLongestCommon(Kept(ops), a, b)
    ensures forall other :: Turns(other, a, b) ==> |ops| <= |other|
  {
    KeptIsCommon(ops);
    forall o | IsSubsequence(o, a) && IsSubsequence(o, b)
      ensures |o| <= |Kept(ops)|
    {
      var at: seq<nat> :| Embeds(o, a, at);
      var bt: seq<nat> :| Embeds(o, b, bt);
      LcsBounds(o, a, at, b, bt);
    }
    forall other | Turns(other, a, b)
      ensures |ops| <= |other|
    {
      KeptIsCommon(other);
      RowsCounted(ops);
      RowsCounted(other);
    }
  }

  /** Every row is on one side, except the kept ones, which are on both. */
  lemma {:induction false} RowsCounted<T>(ops: seq<Op<T>>)
    ensures |Olds(ops)| + |News(ops)| == |ops| + |Kept(ops)|
    decreases |ops|
  {
    if ops != [] {
      RowsCounted(DropLast(ops));
    }
  }
}
