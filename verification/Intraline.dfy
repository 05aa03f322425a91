/** The marks on the two lines of an edited pair, from tokens to byte ranges, and what the marks
    guarantee whatever word-level edit script they come from. */
module Intraline {
  import opened EditScripts
  import opened Utf8

  /** `FindChanges` gives up on a line with more bytes. */
  const MAX_LINE := 400

  datatype Range = Range(start: nat, end: nat)

  /** A stretch of characters, by index. */
  datatype Stretch = Stretch(from: nat, to: nat)

  // ---- Byte ranges over stretches of characters ----

  ghost predicate Within(at: seq<Stretch>, n: nat) {
    forall k :: 0 <= k < |at| ==> at[k].from <= at[k].to <= n
  }

  ghost predicate Ordered(at: seq<Stretch>) {
    forall j, k :: 0 <= j < k < |at| ==> at[j].to <= at[k].from
  }

  /** The byte range of a stretch of `line`. */
  function ByteRange(line: string, s: Stretch): Range
    requires s.from <= |line| && s.to <= |line|
  {
    Range(Off(line, s.from), Off(line, s.to))
  }

  /** `ranges` are the byte ranges of the stretches `at`, so each begins and ends between two characters
      of the line. */
  ghost predicate Lies(line: string, ranges: seq<Range>, at: seq<Stretch>) {
    && |ranges| == |at|
    && Within(at, |line|)
    && forall k :: 0 <= k < |at| ==> ranges[k] == ByteRange(line, at[k])
  }

  predicate Marked(at: seq<Stretch>, c: int) {
    exists k :: 0 <= k < |at| && at[k].from <= c < at[k].to
  }

  /** Some text other than whitespace stands in `line[from..to]`. */
  ghost predicate HasText(line: string, from: int, to: int) {
    exists c :: 0 <= c < |line| && from <= c < to && !IsSpace(line[c])
  }

  /** Between any two of the stretches there is text. */
  ghost predicate Separated(line: string, at: seq<Stretch>) {
    Ordered(at) && forall j, k :: 0 <= j < k < |at| ==> HasText(line, at[j].to, at[k].from)
  }

  /** The text of the first `n` characters that is neither marked nor whitespace. */
  function Survivors(line: string, at: seq<Stretch>, n: nat): string
    requires n <= |line|
  {
    if n == 0 then ""
    else
      Survivors(line, at, n - 1)
      + (if IsSpace(line[n - 1]) || Marked(at, n - 1) then "" else [line[n - 1]])
  }

  lemma {:induction false} SurvivorsPast(line: string, at: seq<Stretch>, p: nat, q: nat)
    requires p <= q <= |line|
    requires forall k :: 0 <= k < |at| ==> at[k].to <= p
    ensures Survivors(line, at, q) == Survivors(line, at, p) + Strip(line[p..q])
    decreases q
  {
    if p < q {
      SurvivorsPast(line, at, p, q - 1);
      assert line[p..q] == line[p..q - 1] + [line[q - 1]];
      assert line[p..q][..q - p - 1] == line[p..q - 1];
    }
  }

  lemma {:induction false} SurvivorsInside(line: string, at: seq<Stretch>, p: nat, q: nat)
    requires p <= q <= |line|
    requires forall k :: 0 <= k < |at| ==> at[k].to <= p
    ensures Survivors(line, at + [Stretch(p, q)], q) == Survivors(line, at, p)
    decreases q
  {
    var more := at + [Stretch(p, q)];
    MarksOneMore(at, Stretch(p, q));
    if p < q {
      SurvivorsInsideUpTo(line, at, p, q, q - 1);
      assert Marked(more, q - 1);
    } else {
      SurvivorsAgree(line, at, more, p);
    }
  }

  lemma {:induction false} SurvivorsInsideUpTo(line: string, at: seq<Stretch>, p: nat, q: nat, n: nat)
    requires p <= n <= q <= |line|
    ensures Survivors(line, at + [Stretch(p, q)], n) == Survivors(line, at, p)
    decreases n
  {
    MarksOneMore(at, Stretch(p, q));
    if n == p {
      SurvivorsAgree(line, at, at + [Stretch(p, q)], p);
    } else {
      SurvivorsInsideUpTo(line, at, p, q, n - 1);
      assert Marked(at + [Stretch(p, q)], n - 1);
    }
  }

  lemma MarksOneMore(at: seq<Stretch>, s: Stretch)
    ensures forall c :: Marked(at + [s], c) <==> Marked(at, c) || s.from <= c < s.to
  {
    var more := at + [s];
    forall c
      ensures Marked(more, c) <==> Marked(at, c) || s.from <= c < s.to
    {
      if Marked(at, c) {
        var k :| 0 <= k < |at| && at[k].from <= c < at[k].to;
        assert more[k] == at[k];
      }
      assert more[|at|] == s;
    }
  }

  /** Only what the marks say about text matters. */
  lemma {:induction false} SurvivorsAgree(line: string, at: seq<Stretch>, at': seq<Stretch>, n: nat)
    requires n <= |line|
    requires forall c :: 0 <= c < n && !IsSpace(line[c]) ==> (Marked(at, c) <==> Marked(at', c))
    ensures Survivors(line, at, n) == Survivors(line, at', n)
    decreases n
  {
    if n > 0 {
      SurvivorsAgree(line, at, at', n - 1);
    }
  }

  lemma {:induction false} NoSurvivors(line: string, at: seq<Stretch>, n: nat)
    requires n <= |line|
    ensures Survivors(line, at, n) == "" <==> forall c :: 0 <= c < n && !IsSpace(line[c]) ==> Marked(at, c)
    decreases n
  {
    if n > 0 {
      NoSurvivors(line, at, n - 1);
    }
  }

  // ---- Tokens ----

  datatype Kind = Word | Space | Symbol

  /** What a character is; `alnum` is Unicode's notion of letters and digits. */
  function KindOf(c: char, alnum: char -> bool): Kind {
    if alnum(c) || c == '_' then Word else if IsSpace(c) then Space else Symbol
  }

  /** `cuts` are the character positions at which tokens start, and the end of the line. */
  ghost predicate CutAt(line: string, tokens: seq<Range>, cuts: seq<nat>) {
    && |cuts| == |tokens| + 1
    && cuts[0] == 0
    && Rising(cuts, |line|)
    && (forall k :: 0 <= k < |tokens| ==> tokens[k] == ByteRange(line, Stretch(cuts[k], cuts[k + 1])))
  }

  predicate Rising(cuts: seq<nat>, n: nat) {
    && (forall j, k :: 0 <= j < k < |cuts| ==> cuts[j] < cuts[k])
    && (forall k :: 0 <= k < |cuts| ==> cuts[k] <= n)
  }

  /** Each token is a single symbol or a longest run of one other kind. */
  ghost predicate CutByKind(line: string, cuts: seq<nat>, alnum: char -> bool) {
    forall k :: 0 <= k < |cuts| - 1 ==> IsToken(line, cuts, k, alnum)
  }

  ghost predicate IsToken(line: string, cuts: seq<nat>, k: nat, alnum: char -> bool)
    requires k < |cuts| - 1
  {
    && cuts[k] < cuts[k + 1] <= |line|
    && (forall c :: cuts[k] <= c < cuts[k + 1] ==> KindOf(line[c], alnum) == KindOf(line[cuts[k]], alnum))
    && (KindOf(line[cuts[k]], alnum).Symbol? ==> cuts[k + 1] == cuts[k] + 1)
    && (k > 0 && 0 < cuts[k] ==> Breaks(line, cuts[k], alnum))
  }

  /** A token ends before character `c`. */
  ghost predicate Breaks(line: string, c: nat, alnum: char -> bool)
    requires 0 < c < |line|
  {
    KindOf(line[c - 1], alnum) != KindOf(line[c], alnum) || KindOf(line[c], alnum).Symbol?
  }

  lemma TokenGrows(line: string, cuts: seq<nat>, alnum: char -> bool)
    requires |cuts| >= 2 && CutByKind(line, cuts, alnum)
    requires 0 < Last(cuts) < |line| && !Breaks(line, Last(cuts), alnum)
    ensures CutByKind(line, DropLast(cuts) + [Last(cuts) + 1], alnum)
  {
    var more := DropLast(cuts) + [Last(cuts) + 1];
    forall k | 0 <= k < |more| - 1
      ensures IsToken(line, more, k, alnum)
    {
      assert IsToken(line, cuts, k, alnum);
      if k == |more| - 2 {
        assert KindOf(line[Last(cuts) - 1], alnum) == KindOf(line[cuts[k]], alnum);
      }
    }
  }

  lemma CutGrows(line: string, tokens: seq<Range>, cuts: seq<nat>)
    requires tokens != [] && CutAt(line, tokens, cuts) && Last(cuts) < |line|
    ensures var n := Last(cuts);
            CutAt(line, DropLast(tokens) + [Range(Last(tokens).start, Off(line, n) + Width(line[n]))],
                  DropLast(cuts) + [n + 1])
  {
    var n := Last(cuts);
    var wide := DropLast(tokens) + [Range(Last(tokens).start, Off(line, n + 1))];
    var more := DropLast(cuts) + [n + 1];
    forall k | 0 <= k < |wide|
      ensures wide[k] == ByteRange(line, Stretch(more[k], more[k + 1]))
    {
      assert tokens[k] == ByteRange(line, Stretch(cuts[k], cuts[k + 1]));
    }
  }

  lemma CutStarts(line: string, tokens: seq<Range>, cuts: seq<nat>)
    requires CutAt(line, tokens, cuts) && Last(cuts) < |line|
    ensures var n := Last(cuts);
            CutAt(line, tokens + [Range(Off(line, n), Off(line, n) + Width(line[n]))], cuts + [n + 1])
  {
    var n := Last(cuts);
    var one := ByteRange(line, Stretch(n, n + 1));
    assert one == Range(Off(line, n), Off(line, n) + Width(line[n]));
    RisingMore(cuts, |line|, n + 1);
    CutMore(line, tokens, cuts, one, tokens + [one], cuts + [n + 1]);
  }

  lemma CutMore(line: string, tokens: seq<Range>, cuts: seq<nat>, one: Range, wide: seq<Range>, more: seq<nat>)
    requires CutAt(line, tokens, cuts) && more != [] && Last(cuts) < Last(more) <= |line| && more == cuts + [Last(more)]
    requires Rising(more, |line|) && wide == tokens + [one] && one == ByteRange(line, Stretch(Last(cuts), Last(more)))
    ensures CutAt(line, wide, more)
  {
    forall k | 0 <= k < |wide|
      ensures wide[k] == ByteRange(line, Stretch(more[k], more[k + 1]))
    {
      if k < |tokens| {
        assert tokens[k] == ByteRange(line, Stretch(cuts[k], cuts[k + 1]));
        assert more[k] == cuts[k] && more[k + 1] == cuts[k + 1];
      } else {
        assert more[k] == Last(cuts) && more[k + 1] == Last(more);
      }
    }
  }

  lemma RisingMore(cuts: seq<nat>, n: nat, next: nat)
    requires Rising(cuts, n) && cuts != [] && Last(cuts) < next <= n
    ensures Rising(cuts + [next], n)
  {
  }

  lemma TokenStarts(line: string, cuts: seq<nat>, alnum: char -> bool)
    requires |cuts| >= 1 && CutByKind(line, cuts, alnum)
    requires Last(cuts) < |line|
    requires 0 < Last(cuts) ==> Breaks(line, Last(cuts), alnum)
    ensures CutByKind(line, cuts + [Last(cuts) + 1], alnum)
  {
    var more := cuts + [Last(cuts) + 1];
    forall k | 0 <= k < |more| - 1
      ensures IsToken(line, more, k, alnum)
    {
      if k < |cuts| - 1 {
        assert IsToken(line, cuts, k, alnum);
      }
    }
  }

  /** What holds when the first `n` characters have been split. */
  ghost predicate Splitting(line: string, n: nat, tokens: seq<Range>, cuts: seq<nat>, alnum: char -> bool) {
    && n <= |line|
    && CutAt(line, tokens, cuts) && cuts[|tokens|] == n
    && CutByKind(line, cuts, alnum)
    && (n == 0 <==> tokens == [])
  }

  lemma SplitGrows(line: string, n: nat, tokens: seq<Range>, cuts: seq<nat>, alnum: char -> bool)
    requires Splitting(line, n, tokens, cuts, alnum) && 0 < n < |line| && !Breaks(line, n, alnum)
    ensures Splitting(line, n + 1, DropLast(tokens) + [Range(Last(tokens).start, Off(line, n) + Width(line[n]))],
                      DropLast(cuts) + [n + 1], alnum)
  {
    TokenGrows(line, cuts, alnum);
    CutGrows(line, tokens, cuts);
  }

  lemma SplitStarts(line: string, n: nat, tokens: seq<Range>, cuts: seq<nat>, alnum: char -> bool)
    requires Splitting(line, n, tokens, cuts, alnum) && n < |line| && (n > 0 ==> Breaks(line, n, alnum))
    ensures Splitting(line, n + 1, tokens + [Range(Off(line, n), Off(line, n) + Width(line[n]))], cuts + [n + 1], alnum)
  {
    TokenStarts(line, cuts, alnum);
    CutStarts(line, tokens, cuts);
  }

  /** The tokens of `line`. `cuts` are the character indices they begin and end at. */
  method Tokens(line: string, alnum: char -> bool) returns (tokens: seq<Range>, ghost cuts: seq<nat>)
    ensures CutAt(line, tokens, cuts) && cuts[|tokens|] == |line|
    ensures CutByKind(line, cuts, alnum)
  {
    tokens, cuts := [], [0];
    var last: Option<Kind> := None;
    var at := 0;
    for n := 0 to |line|
      invariant at == Off(line, n)
      invariant Splitting(line, n, tokens, cuts, alnum)
      invariant last == if n == 0 then None else Some(KindOf(line[n - 1], alnum))
    {
      var k := KindOf(line[n], alnum);
      if tokens != [] && last == Some(k) && k != Symbol {
        SplitGrows(line, n, tokens, cuts, alnum);
        tokens := DropLast(tokens) + [Range(Last(tokens).start, at + Width(line[n]))];
        cuts := DropLast(cuts) + [n + 1];
      } else {
        SplitStarts(line, n, tokens, cuts, alnum);
        tokens := tokens + [Range(at, at + Width(line[n]))];
        cuts := cuts + [n + 1];
      }
      last := Some(k);
      at := at + Width(line[n]);
    }
  }

  /** From the start of the first token of `run` to the end of its last, when there are such. */
  function Span(tokens: seq<Range>, run: Stretch): Option<Range> {
    if run.from < |tokens| && 1 <= run.to && run.to - 1 < |tokens|
    then Some(Range(tokens[run.from].start, tokens[run.to - 1].end))
    else None
  }

  // ---- Joining ----

  predicate AllSpace(text: string) {
    forall c :: 0 <= c < |text| ==> IsSpace(text[c])
  }

  /** The same text is marked on both; `joined` may mark more whitespace. */
  ghost predicate SameText(line: string, at: seq<Stretch>, joined: seq<Stretch>) {
    && (forall c :: Marked(at, c) ==> Marked(joined, c))
    && (forall c :: 0 <= c < |line| && !IsSpace(line[c]) && Marked(joined, c) ==> Marked(at, c))
  }

  /** The stretches of `at` joined so far. */
  ghost predicate JoinedSoFar(line: string, at: seq<Stretch>, joined: seq<Stretch>) {
    && Within(joined, |line|)
    && Separated(line, joined)
    && SameText(line, at, joined)
    && (at == [] <==> joined == [])
    && (at != [] ==> Last(joined).to == Last(at).to)
  }

  lemma JoinWidens(line: string, at: seq<Stretch>, joined: seq<Stretch>, s: Stretch)
    requires at != [] && JoinedSoFar(line, at, joined)
    requires Last(at).to <= s.from <= s.to <= |line|
    requires AllSpace(line[Last(at).to..s.from])
    ensures JoinedSoFar(line, at + [s], DropLast(joined) + [Stretch(Last(joined).from, s.to)])
  {
    var front, last := DropLast(joined), Last(joined);
    var wider := Stretch(last.from, s.to);
    assert joined == front + [last];
    MarksOneMore(front, last);
    MarksOneMore(front, wider);
    MarksOneMore(at, s);
    forall c | last.to <= c < s.from
      ensures IsSpace(line[c])
    {
      assert line[last.to..s.from][c - last.to] == line[c];
    }
  }

  lemma JoinStarts(line: string, at: seq<Stretch>, joined: seq<Stretch>, s: Stretch)
    requires JoinedSoFar(line, at, joined)
    requires s.from <= s.to <= |line|
    requires at != [] ==> Last(at).to <= s.from && !AllSpace(line[Last(at).to..s.from])
    ensures JoinedSoFar(line, at + [s], joined + [s])
  {
    MarksOneMore(joined, s);
    MarksOneMore(at, s);
    if at != [] {
      var gap := line[Last(at).to..s.from];
      var c :| 0 <= c < |gap| && !IsSpace(gap[c]);
      assert !IsSpace(line[Last(at).to + c]);
      assert HasText(line, Last(joined).to, s.from);
      SeparatedMore(line, joined, s);
    }
  }

  lemma SeparatedMore(line: string, at: seq<Stretch>, s: Stretch)
    requires Within(at, |line|) && Separated(line, at)
    requires at != [] ==> Last(at).to <= s.from && HasText(line, Last(at).to, s.from)
    ensures Separated(line, at + [s])
  {
    forall j | 0 <= j < |at|
      ensures at[j].to <= s.from && HasText(line, at[j].to, s.from)
    {
      assert at[j].to <= Last(at).to;
    }
  }

  lemma LiesMore(line: string, ranges: seq<Range>, at: seq<Stretch>, s: Stretch)
    requires Lies(line, ranges, at) && s.from <= s.to <= |line|
    ensures Lies(line, ranges + [ByteRange(line, s)], at + [s])
  {
  }

  /** The gap before the next range can be sliced. */
  lemma JoinReaches(line: string, at: seq<Stretch>, joined: seq<Stretch>, n: nat)
    requires n < |at| && Within(at, |line|) && Ordered(at)
    requires JoinedSoFar(line, at[..n], joined)
    ensures joined != [] ==>
              && n > 0 && Last(joined).to == at[n - 1].to <= at[n].from
              && IsBoundary(line, Off(line, Last(joined).to)) && IsBoundary(line, Off(line, at[n].from))
              && Off(line, Last(joined).to) <= Off(line, at[n].from)
              && Slice(line, Off(line, Last(joined).to), Off(line, at[n].from)) == line[at[n - 1].to..at[n].from]
  {
    if joined != [] {
      SliceAt(line, at[n - 1].to, at[n].from);
    }
  }

  /** What holds when the first `n` ranges have been joined. */
  ghost predicate Joining(line: string, at: seq<Stretch>, n: nat, out: seq<Range>, joined: seq<Stretch>) {
    n <= |at| && JoinedSoFar(line, at[..n], joined) && Lies(line, out, joined)
  }

  lemma LiesWider(line: string, out: seq<Range>, joined: seq<Stretch>, to: nat)
    requires joined != [] && Lies(line, out, joined) && Last(joined).from <= to <= |line|
    ensures Lies(line, DropLast(out) + [Range(Last(out).start, Off(line, to))],
                 DropLast(joined) + [Stretch(Last(joined).from, to)])
  {
    LiesMore(line, DropLast(out), DropLast(joined), Stretch(Last(joined).from, to));
  }

  lemma WidenLast(line: string, at: seq<Stretch>, n: nat, out: seq<Range>, joined: seq<Stretch>)
    requires Within(at, |line|) && Ordered(at) && 0 < n < |at| && Joining(line, at, n, out, joined)
    requires at[n - 1].to <= at[n].from && AllSpace(line[at[n - 1].to..at[n].from])
    ensures Joining(line, at, n + 1, DropLast(out) + [Range(Last(out).start, Off(line, at[n].to))],
                    DropLast(joined) + [Stretch(Last(joined).from, at[n].to)])
  {
    TakeMore(at, n);
    assert Last(at[..n]) == at[n - 1];
    JoinWidens(line, at[..n], joined, at[n]);
    LiesWider(line, out, joined, at[n].to);
  }

  lemma StartNew(line: string, at: seq<Stretch>, n: nat, out: seq<Range>, joined: seq<Stretch>)
    requires Within(at, |line|) && Ordered(at) && n < |at| && Joining(line, at, n, out, joined)
    requires joined != [] ==> n > 0 && at[n - 1].to <= at[n].from && !AllSpace(line[at[n - 1].to..at[n].from])
    ensures Joining(line, at, n + 1, out + [ByteRange(line, at[n])], joined + [at[n]])
  {
    TakeMore(at, n);
    assert n > 0 ==> Last(at[..n]) == at[n - 1];
    JoinStarts(line, at[..n], joined, at[n]);
    LiesMore(line, out, joined, at[n]);
  }

  /** `ranges` with neighbours made one wherever the characters between them are all whitespace. */
  method Join(ranges: seq<Range>, line: string, ghost at: seq<Stretch>)
      returns (out: seq<Range>, ghost joined: seq<Stretch>)
    requires Lies(line, ranges, at) && Ordered(at)
    ensures Lies(line, out, joined)
    ensures Separated(line, joined)
    ensures SameText(line, at, joined)
  {
    out, joined := [], [];
    for n := 0 to |ranges|
      invariant Joining(line, at, n, out, joined)
    {
      var r := ranges[n];
      if joined != [] {
        JoinReaches(line, at, joined, n);
      }
      if out != [] && AllSpace(Slice(line, Last(out).end, r.start)) {
        WidenLast(line, at, n, out, joined);
        joined := DropLast(joined) + [Stretch(Last(joined).from, at[n].to)];
        out := DropLast(out) + [Range(Last(out).start, r.end)];
      } else {
        StartNew(line, at, n, out, joined);
        joined := joined + [at[n]];
        out := out + [r];
      }
    }
    assert at[..|ranges|] == at;
  }

  // ---- Covering ----

  /** Whether some range holds all of `Trim(line)`. */
  predicate Covers(ranges: seq<Range>, line: string) {
    var trimmed := Trim(line);
    if trimmed == "" then true
    else
      var start := Bytes(line) - Bytes(TrimStart(line));
      var end := start + Bytes(trimmed);
      exists k :: 0 <= k < |ranges| && ranges[k].start <= start && ranges[k].end >= end
  }

  lemma TrimCuts(line: string) returns (i: nat, j: nat)
    ensures i <= j <= |line|
    ensures TrimStart(line) == line[i..] && Trim(line) == line[i..j]
    ensures forall c :: 0 <= c < |line| && (c < i || j <= c) ==> IsSpace(line[c])
    ensures i < j ==> !IsSpace(line[i]) && !IsSpace(line[j - 1])
  {
    var rest := TrimStart(line);
    TrimStartTakes(line);
    TrimEndTakes(rest);
    i := |line| - |rest|;
    j := i + |Trim(line)|;
    forall c | i <= c < |line|
      ensures rest[c - i] == line[c]
    {
    }
    assert rest[..j - i] == line[i..j];
    forall c | j <= c < |line|
      ensures IsSpace(line[c])
    {
      assert rest[c - i] == line[c];
    }
  }

  /** Where the trimmed line lies. */
  lemma TrimLies(line: string) returns (i: nat, j: nat)
    ensures i <= j <= |line|
    ensures Trim(line) == line[i..j]
    ensures Bytes(line) - Bytes(TrimStart(line)) == Off(line, i)
    ensures Bytes(line) - Bytes(TrimStart(line)) + Bytes(Trim(line)) == Off(line, j)
    ensures forall c :: 0 <= c < |line| && (c < i || j <= c) ==> IsSpace(line[c])
    ensures i < j ==> !IsSpace(line[i]) && !IsSpace(line[j - 1])
  {
    i, j := TrimCuts(line);
    OffSplits(line, i, |line|);
    assert line[i..|line|] == line[i..];
    OffSplits(line, i, j);
  }

  /** A range that covers what is not whitespace marks it all. */
  lemma CoveringMarksAll(line: string, ranges: seq<Range>, at: seq<Stretch>, i: nat, j: nat, k: nat)
    requires Lies(line, ranges, at) && k < |ranges| && i < j <= |line|
    requires ranges[k].start <= Off(line, i) && ranges[k].end >= Off(line, j)
    requires forall c :: 0 <= c < |line| && (c < i || j <= c) ==> IsSpace(line[c])
    ensures forall c :: 0 <= c < |line| && !IsSpace(line[c]) ==> Marked(at, c)
  {
    OffOrder(line, i, at[k].from);
    OffOrder(line, at[k].to, j);
    forall c | 0 <= c < |line| && !IsSpace(line[c])
      ensures Marked(at, c)
    {
      assert at[k].from <= c < at[k].to;
    }
  }

  /** When all that is not whitespace is marked, one range covers it. */
  lemma AllMarkedIsCovered(line: string, ranges: seq<Range>, at: seq<Stretch>, i: nat, j: nat) returns (k: nat)
    requires Lies(line, ranges, at) && Separated(line, at) && i < j <= |line|
    requires !IsSpace(line[i]) && !IsSpace(line[j - 1])
    requires forall c :: 0 <= c < |line| && !IsSpace(line[c]) ==> Marked(at, c)
    ensures k < |ranges| && ranges[k].start <= Off(line, i) && ranges[k].end >= Off(line, j)
  {
    assert Marked(at, i) && Marked(at, j - 1);
    var f: nat :| 0 <= f < |at| && at[f].from <= i < at[f].to;
    var m: nat :| 0 <= m < |at| && at[m].from <= j - 1 < at[m].to;
    k := f;
    OneCovers(line, at, k, m);
    OffOrder(line, i, at[k].from);
    OffOrder(line, at[k].to, j);
  }

  /** For separated ranges, one of them covers the line exactly when no text survives them all. */
  lemma CoversNoSurvivors(line: string, ranges: seq<Range>, at: seq<Stretch>)
    requires Lies(line, ranges, at) && Separated(line, at)
    ensures Covers(ranges, line) <==> Survivors(line, at, |line|) == ""
  {
    var i, j := TrimLies(line);
    NoSurvivors(line, at, |line|);
    if i < j {
      if Covers(ranges, line) {
        var k: nat :| 0 <= k < |ranges| && ranges[k].start <= Off(line, i) && ranges[k].end >= Off(line, j);
        CoveringMarksAll(line, ranges, at, i, j, k);
      }
      if forall c :: 0 <= c < |line| && !IsSpace(line[c]) ==> Marked(at, c) {
        var k := AllMarkedIsCovered(line, ranges, at, i, j);
        assert ranges[k].start <= Off(line, i) && ranges[k].end >= Off(line, j);
      }
    }
  }

  /** Two stretches with text between them leave some of it unmarked. */
  lemma OneCovers(line: string, at: seq<Stretch>, k: nat, m: nat)
    requires Within(at, |line|) && Separated(line, at)
    requires forall c :: 0 <= c < |line| && !IsSpace(line[c]) ==> Marked(at, c)
    requires k < |at| && m < |at|
    requires at[k].from < at[k].to && at[m].from < at[m].to
    requires at[k].from < at[m].to
    ensures k == m
  {
    if k < m {
      GapUnmarked(line, at, k);
    }
  }

  /** Right after each stretch but the last, some text is unmarked. */
  lemma GapUnmarked(line: string, at: seq<Stretch>, k: nat)
    requires Within(at, |line|) && Separated(line, at)
    requires k + 1 < |at|
    ensures exists c :: 0 <= c < |line| && !IsSpace(line[c]) && !Marked(at, c)
  {
    assert HasText(line, at[k].to, at[k + 1].from);
    var c :| 0 <= c < |line| && at[k].to <= c < at[k + 1].from && !IsSpace(line[c]);
    forall j | 0 <= j < |at|
      ensures !(at[j].from <= c < at[j].to)
    {
      if j < k {
        assert at[j].to <= at[k].from;
      } else if k + 1 < j {
        assert at[k + 1].to <= at[j].from;
      }
    }
  }

  // ---- The word-level edit script ----

  datatype Tag = Equal | Delete | Insert | Replace

  /** One operation of a word diff: a run of old words against a run of new ones. */
  datatype WordOp = WordOp(tag: Tag, oldAt: Stretch, newAt: Stretch)

  /** One side of an operation. */
  datatype Edit = Edit(changed: bool, run: Stretch)

  function OldSide(ops: seq<WordOp>): (r: seq<Edit>)
    ensures |r| == |ops|
  {
    seq(|ops|, k requires 0 <= k < |ops| => Edit(!ops[k].tag.Equal?, ops[k].oldAt))
  }

  function NewSide(ops: seq<WordOp>): (r: seq<Edit>)
    ensures |r| == |ops|
  {
    seq(|ops|, k requires 0 <= k < |ops| => Edit(!ops[k].tag.Equal?, ops[k].newAt))
  }

  /** The number of words the first `k` edits go through. */
  function Reached(edits: seq<Edit>, k: nat): nat
    requires k <= |edits|
  {
    if k == 0 then 0 else edits[k - 1].run.to
  }

  /** The edits go through `n` words, left to right, leaving none out. */
  ghost predicate Tiles(edits: seq<Edit>, n: nat) {
    && (forall k :: 0 <= k < |edits| ==> Reached(edits, k) == edits[k].run.from <= edits[k].run.to <= n)
    && Reached(edits, |edits|) == n
  }

  /** What a word differ promises: its operations go through both lists of words, and the runs
      it calls equal are. */
  ghost predicate WordScript(ops: seq<WordOp>, a: seq<string>, b: seq<string>) {
    && Tiles(OldSide(ops), |a|)
    && Tiles(NewSide(ops), |b|)
    && forall k :: 0 <= k < |ops| && ops[k].tag.Equal? ==>
         a[OldSide(ops)[k].run.from..OldSide(ops)[k].run.to] == b[NewSide(ops)[k].run.from..NewSide(ops)[k].run.to]
  }

  /** The words of a line cut into tokens. */
  function WordsAt(line: string, cuts: seq<nat>): (words: seq<string>)
    requires cuts != [] && Rising(cuts, |line|)
    ensures |words| == |cuts| - 1
  {
    seq(|cuts| - 1, k requires 0 <= k < |cuts| - 1 => line[cuts[k]..cuts[k + 1]])
  }

  function Concat(words: seq<string>): string {
    if words == [] then "" else Concat(DropLast(words)) + Last(words)
  }

  /** The positions at which the tokens of `line` start, and its end. */
  ghost predicate TokenCuts(line: string, cuts: seq<nat>, alnum: char -> bool) {
    && cuts != [] && cuts[0] == 0 && Last(cuts) == |line|
    && Rising(cuts, |line|)
    && CutByKind(line, cuts, alnum)
  }

  lemma {:induction false} RunText(line: string, cuts: seq<nat>, i: nat, j: nat)
    requires cuts != [] && Rising(cuts, |line|) && i <= j < |cuts|
    ensures cuts[i] <= cuts[j] <= |line|
    ensures Concat(WordsAt(line, cuts)[i..j]) == line[cuts[i]..cuts[j]]
    decreases j - i
  {
    if i < j {
      RunText(line, cuts, i, j - 1);
      OneMoreWord(WordsAt(line, cuts), i, j);
      assert cuts[i] <= cuts[j - 1] < cuts[j] <= |line|;
      Glued(line, cuts[i], cuts[j - 1], cuts[j]);
    }
  }

  lemma Glued(s: string, i: nat, m: nat, j: nat)
    requires i <= m <= j <= |s|
    ensures s[i..j] == s[i..m] + s[m..j]
  {
  }

  lemma OneMoreWord(words: seq<string>, i: nat, j: nat)
    requires i < j <= |words|
    ensures Concat(words[i..j]) == Concat(words[i..j - 1]) + words[j - 1]
  {
    assert DropLast(words[i..j]) == words[i..j - 1];
  }

  /** A token is not broken inside. */
  lemma TokenWhole(line: string, cuts: seq<nat>, k: nat, alnum: char -> bool)
    requires k + 1 < |cuts| && IsToken(line, cuts, k, alnum)
    ensures forall c :: cuts[k] < c < cuts[k + 1] ==> !Breaks(line, c, alnum)
  {
  }

  /** Of two tokens starting together, neither ends after the other. */
  lemma TokenEndsOnce(line: string, cuts: seq<nat>, cuts': seq<nat>, k: nat, alnum: char -> bool)
    requires TokenCuts(line, cuts, alnum) && TokenCuts(line, cuts', alnum)
    requires k + 1 < |cuts| && k + 1 < |cuts'| && cuts[k] == cuts'[k]
    ensures cuts'[k + 1] <= cuts[k + 1]
  {
    assert IsToken(line, cuts, k, alnum) && IsToken(line, cuts', k, alnum);
    TokenWhole(line, cuts', k, alnum);
    if k + 1 < |cuts| - 1 {
      assert IsToken(line, cuts, k + 1, alnum);
      assert Breaks(line, cuts[k + 1], alnum);
    }
  }

  lemma OnlyLastReaches(cuts: seq<nat>, k: nat, n: nat)
    requires Rising(cuts, n) && k < |cuts| && cuts[k] == n
    ensures k == |cuts| - 1
  {
    assert Last(cuts) <= n;
  }

  /** A line is cut into tokens in one way only. */
  lemma {:induction false} TokensUnique(line: string, cuts: seq<nat>, cuts': seq<nat>, alnum: char -> bool, n: nat)
    requires TokenCuts(line, cuts, alnum) && TokenCuts(line, cuts', alnum)
    requires n < |cuts|
    ensures n < |cuts'| && cuts[..n + 1] == cuts'[..n + 1]
    ensures n == |cuts| - 1 ==> cuts == cuts'
    decreases n
  {
    if n > 0 {
      TokensUnique(line, cuts, cuts', alnum, n - 1);
      assert cuts[n - 1] == cuts[..n][n - 1] == cuts'[..n][n - 1] == cuts'[n - 1];
      assert cuts[n - 1] < cuts[n];
      TokenEndsOnce(line, cuts, cuts', n - 1, alnum);
      TokenEndsOnce(line, cuts', cuts, n - 1, alnum);
    }
    assert cuts[n] == cuts'[n];
    assert cuts[..n + 1] == cuts'[..n + 1];
    if n == |cuts| - 1 {
      assert cuts'[n] == |line|;
      OnlyLastReaches(cuts', n, |line|);
      assert cuts == cuts[..n + 1];
    }
  }

  // ---- Marking one side ----

  /** Character `c` belongs to a changed word of the first `k` edits. */
  ghost predicate ChangedChar(cuts: seq<nat>, edits: seq<Edit>, k: nat, c: int)
    requires k <= |edits|
    requires forall m :: 0 <= m < k ==> edits[m].run.from < |cuts| && edits[m].run.to < |cuts|
  {
    exists m :: 0 <= m < k && edits[m].changed && cuts[edits[m].run.from] <= c < cuts[edits[m].run.to]
  }

  /** The words of `line`, and edits that go through them. */
  ghost predicate Side(line: string, cuts: seq<nat>, edits: seq<Edit>) {
    cuts != [] && cuts[0] == 0 && Rising(cuts, |line|) && Tiles(edits, |cuts| - 1)
  }

  /** The stretch that `Span` finds, if any. */
  function SpanStretch(cuts: seq<nat>, run: Stretch): Option<Stretch>
    requires run.from < |cuts| && run.to < |cuts|
  {
    if run.from < |cuts| - 1 && 1 <= run.to then Some(Stretch(cuts[run.from], cuts[run.to])) else None
  }

  function Listed<T>(o: Option<T>): seq<T> {
    if o.Some? then [o.value] else []
  }

  /** The marks of the first `k` edits: exactly the characters of changed words. */
  ghost predicate MarksUpTo(line: string, cuts: seq<nat>, edits: seq<Edit>, k: nat, at: seq<Stretch>)
    requires Side(line, cuts, edits) && k <= |edits|
  {
    && Placed(at, cuts[Reached(edits, k)])
    && (forall c :: Marked(at, c) <==> ChangedChar(cuts, edits, k, c))
  }

  /** Stretches left to right, none past character `n`. */
  ghost predicate Placed(at: seq<Stretch>, n: nat) {
    Within(at, n) && Ordered(at)
  }

  lemma PlacedMore(at: seq<Stretch>, n: nat, s: Option<Stretch>, m: nat)
    requires Placed(at, n) && n <= m
    requires s.Some? ==> s.value == Stretch(n, m)
    ensures Placed(at + Listed(s), m)
  {
  }

  lemma MarksMore(at: seq<Stretch>, s: Option<Stretch>)
    ensures forall c :: Marked(at + Listed(s), c) <==> Marked(at, c) || (s.Some? && s.value.from <= c < s.value.to)
  {
    if s.Some? {
      MarksOneMore(at, s.value);
    } else {
      assert at + [] == at;
    }
  }

  lemma SurvivorsMore(line: string, at: seq<Stretch>, n: nat, s: Option<Stretch>, m: nat)
    requires Placed(at, n) && n <= m <= |line|
    requires if s.Some? then s.value == Stretch(n, m) else n == m
    ensures Survivors(line, at + Listed(s), m) == Survivors(line, at, n)
  {
    if s.Some? {
      SurvivorsInside(line, at, n, m);
    } else {
      assert at + [] == at;
    }
  }

  lemma SpanIs(line: string, tokens: seq<Range>, cuts: seq<nat>, run: Stretch)
    requires CutAt(line, tokens, cuts)
    requires run.from <= run.to < |cuts|
    ensures match Span(tokens, run)
            case None => SpanStretch(cuts, run) == None
            case Some(r) => && SpanStretch(cuts, run) == Some(Stretch(cuts[run.from], cuts[run.to]))
                            && cuts[run.from] <= cuts[run.to] <= |line|
                            && r == ByteRange(line, Stretch(cuts[run.from], cuts[run.to]))
  {
    if Span(tokens, run).Some? {
      assert tokens[run.from] == ByteRange(line, Stretch(cuts[run.from], cuts[run.from + 1]));
      assert tokens[run.to - 1] == ByteRange(line, Stretch(cuts[run.to - 1], cuts[run.to]));
    }
  }

  lemma RunSpan(line: string, cuts: seq<nat>, edits: seq<Edit>, k: nat)
    requires Side(line, cuts, edits) && k < |edits|
    ensures var run := edits[k].run;
            && run.from == Reached(edits, k) <= run.to == Reached(edits, k + 1) < |cuts|
            && cuts[run.from] <= cuts[run.to] <= |line|
            && match SpanStretch(cuts, run)
               case Some(s) => s == Stretch(cuts[run.from], cuts[run.to])
               case None => cuts[run.from] == cuts[run.to]
  {
    assert Reached(edits, k) == edits[k].run.from <= edits[k].run.to;
  }

  /** A changed run is marked, and nothing of it survives. */
  lemma MarkRun(line: string, cuts: seq<nat>, edits: seq<Edit>, k: nat, at: seq<Stretch>)
    requires Side(line, cuts, edits) && k < |edits|
    requires MarksUpTo(line, cuts, edits, k, at)
    requires edits[k].changed
    ensures MarksUpTo(line, cuts, edits, k + 1, at + Listed(SpanStretch(cuts, edits[k].run)))
    ensures Survivors(line, at + Listed(SpanStretch(cuts, edits[k].run)), cuts[Reached(edits, k + 1)])
            == Survivors(line, at, cuts[Reached(edits, k)])
  {
    RunSpan(line, cuts, edits, k);
    var s := SpanStretch(cuts, edits[k].run);
    var n, m := cuts[Reached(edits, k)], cuts[Reached(edits, k + 1)];
    PlacedMore(at, n, s, m);
    MarksMore(at, s);
    SurvivorsMore(line, at, n, s, m);
    forall c
      ensures Marked(at + Listed(s), c) <==> ChangedChar(cuts, edits, k + 1, c)
    {
      ChangedOneMore(line, cuts, edits, k, c);
    }
  }

  /** An unchanged run survives, but for its whitespace. */
  lemma KeepRun(line: string, cuts: seq<nat>, edits: seq<Edit>, k: nat, at: seq<Stretch>)
    requires Side(line, cuts, edits) && k < |edits|
    requires MarksUpTo(line, cuts, edits, k, at)
    requires !edits[k].changed
    ensures MarksUpTo(line, cuts, edits, k + 1, at)
    ensures cuts[edits[k].run.from] <= cuts[edits[k].run.to] <= |line|
    ensures Survivors(line, at, cuts[Reached(edits, k + 1)])
            == Survivors(line, at, cuts[Reached(edits, k)])
               + Strip(line[cuts[edits[k].run.from]..cuts[edits[k].run.to]])
  {
    RunSpan(line, cuts, edits, k);
    SurvivorsPast(line, at, cuts[edits[k].run.from], cuts[edits[k].run.to]);
    forall c
      ensures Marked(at, c) <==> ChangedChar(cuts, edits, k + 1, c)
    {
      ChangedOneMore(line, cuts, edits, k, c);
    }
  }

  lemma ChangedOneMore(line: string, cuts: seq<nat>, edits: seq<Edit>, k: nat, c: int)
    requires Side(line, cuts, edits) && k < |edits|
    ensures ChangedChar(cuts, edits, k + 1, c) <==>
              || ChangedChar(cuts, edits, k, c)
              || (edits[k].changed && cuts[edits[k].run.from] <= c < cuts[edits[k].run.to])
  {
  }

  // ---- The words that changed ----

  datatype Changes = Changes(oldMarks: seq<Range>, newMarks: seq<Range>)

  /** The bytes of `text` outside its whitespace. */
  function Weight(text: string): nat { Bytes(Strip(text)) }

  type Differ = (seq<string>, seq<string>) -> seq<WordOp>

  /** A differ that keeps its promise on every pair of word lists. */
  ghost predicate Honest(differ: Differ) {
    forall a, b :: WordScript(differ(a, b), a, b)
  }

  /** The marks of one side: ordered stretches with text between any two, holding every changed
      word and, besides those, nothing but whitespace. */
  ghost predicate MarksSide(line: string, cuts: seq<nat>, edits: seq<Edit>, at: seq<Stretch>) {
    && Side(line, cuts, edits)
    && Within(at, |line|)
    && Separated(line, at)
    && (forall c :: ChangedChar(cuts, edits, |edits|, c) ==> Marked(at, c))
    && (forall c :: 0 <= c < |line| && !IsSpace(line[c]) && Marked(at, c) ==> ChangedChar(cuts, edits, |edits|, c))
  }

  /** The marks of both sides, for the words the two lines are made of. */
  ghost predicate Marks(oldLine: string, newLine: string, alnum: char -> bool, differ: Differ,
                        oldAt: seq<Stretch>, newAt: seq<Stretch>)
  {
    exists oldCuts, newCuts ::
      && TokenCuts(oldLine, oldCuts, alnum)
      && TokenCuts(newLine, newCuts, alnum)
      && var ops := differ(WordsAt(oldLine, oldCuts), WordsAt(newLine, newCuts));
         MarksSide(oldLine, oldCuts, OldSide(ops), oldAt) && MarksSide(newLine, newCuts, NewSide(ops), newAt)
  }

  /** Everything said about `Changes(oldLine, newLine)`: when it has an answer, and what the
      answer marks. `oldAt` and `newAt` are the marks in characters. */
  ghost predicate AreChanges(oldLine: string, newLine: string, alnum: char -> bool, differ: Differ,
                             r: Option<Changes>, oldAt: seq<Stretch>, newAt: seq<Stretch>)
  {
    if oldLine == newLine || Bytes(oldLine) > MAX_LINE || Bytes(newLine) > MAX_LINE then r == None
    else
      && Marks(oldLine, newLine, alnum, differ, oldAt, newAt)
      && Survivors(oldLine, oldAt, |oldLine|) == Survivors(newLine, newAt, |newLine|)
      && var shared := Survivors(oldLine, oldAt, |oldLine|);
         if shared == "" || Bytes(shared) * 2 < Min(Weight(oldLine), Weight(newLine)) then r == None
         else r.Some? && Lies(oldLine, r.value.oldMarks, oldAt) && Lies(newLine, r.value.newMarks, newAt)
  }

  /** What the loop over the operations keeps. */
  ghost predicate DiffedUpTo(oldLine: string, newLine: string, oldCuts: seq<nat>, newCuts: seq<nat>, ops: seq<WordOp>,
                             k: nat, oldAt: seq<Stretch>, newAt: seq<Stretch>, shared: nat)
  {
    && k <= |ops|
    && Side(oldLine, oldCuts, OldSide(ops)) && Side(newLine, newCuts, NewSide(ops))
    && MarksUpTo(oldLine, oldCuts, OldSide(ops), k, oldAt)
    && MarksUpTo(newLine, newCuts, NewSide(ops), k, newAt)
    && var i, j := oldCuts[Reached(OldSide(ops), k)], newCuts[Reached(NewSide(ops), k)];
       Survivors(oldLine, oldAt, i) == Survivors(newLine, newAt, j) && shared == Bytes(Survivors(oldLine, oldAt, i))
  }

  lemma DiffEqual(oldLine: string, newLine: string, oldCuts: seq<nat>, newCuts: seq<nat>, ops: seq<WordOp>,
                  k: nat, oldAt: seq<Stretch>, newAt: seq<Stretch>, shared: nat)
    requires DiffedUpTo(oldLine, newLine, oldCuts, newCuts, ops, k, oldAt, newAt, shared)
    requires k < |ops| && ops[k].tag.Equal?
    requires WordScript(ops, WordsAt(oldLine, oldCuts), WordsAt(newLine, newCuts))
    ensures var run := ops[k].oldAt;
            && oldCuts[run.from] <= oldCuts[run.to] <= |oldLine|
            && DiffedUpTo(oldLine, newLine, oldCuts, newCuts, ops, k + 1, oldAt, newAt,
                          shared + Weight(oldLine[oldCuts[run.from]..oldCuts[run.to]]))
  {
    var a, b := OldSide(ops)[k].run, NewSide(ops)[k].run;
    KeepRun(oldLine, oldCuts, OldSide(ops), k, oldAt);
    KeepRun(newLine, newCuts, NewSide(ops), k, newAt);
    RunText(oldLine, oldCuts, a.from, a.to);
    RunText(newLine, newCuts, b.from, b.to);
    assert WordsAt(oldLine, oldCuts)[a.from..a.to] == WordsAt(newLine, newCuts)[b.from..b.to];
    BytesConcat(Survivors(oldLine, oldAt, oldCuts[Reached(OldSide(ops), k)]),
                Strip(oldLine[oldCuts[a.from]..oldCuts[a.to]]));
  }

  lemma DiffChanged(oldLine: string, newLine: string, oldCuts: seq<nat>, newCuts: seq<nat>, ops: seq<WordOp>,
                    k: nat, oldAt: seq<Stretch>, newAt: seq<Stretch>, shared: nat)
    requires DiffedUpTo(oldLine, newLine, oldCuts, newCuts, ops, k, oldAt, newAt, shared)
    requires k < |ops| && !ops[k].tag.Equal?
    ensures ops[k].oldAt.from < |oldCuts| && ops[k].oldAt.to < |oldCuts|
    ensures ops[k].newAt.from < |newCuts| && ops[k].newAt.to < |newCuts|
    ensures DiffedUpTo(oldLine, newLine, oldCuts, newCuts, ops, k + 1,
                       oldAt + Listed(SpanStretch(oldCuts, ops[k].oldAt)),
                       newAt + Listed(SpanStretch(newCuts, ops[k].newAt)), shared)
  {
    MarkRun(oldLine, oldCuts, OldSide(ops), k, oldAt);
    MarkRun(newLine, newCuts, NewSide(ops), k, newAt);
  }

  function Words(line: string, tokens: seq<Range>): (words: seq<string>)
    requires forall k :: 0 <= k < |tokens| ==>
               IsBoundary(line, tokens[k].start) && IsBoundary(line, tokens[k].end) && tokens[k].start <= tokens[k].end
  {
    seq(|tokens|, k requires 0 <= k < |tokens| => Slice(line, tokens[k].start, tokens[k].end))
  }

  lemma WordsOfTokens(line: string, tokens: seq<Range>, cuts: seq<nat>)
    requires CutAt(line, tokens, cuts)
    ensures forall k :: 0 <= k < |tokens| ==>
              && IsBoundary(line, tokens[k].start) && IsBoundary(line, tokens[k].end)
              && tokens[k].start <= tokens[k].end
              && Slice(line, tokens[k].start, tokens[k].end) == WordsAt(line, cuts)[k]
  {
    forall k | 0 <= k < |tokens|
      ensures && IsBoundary(line, tokens[k].start) && IsBoundary(line, tokens[k].end)
              && tokens[k].start <= tokens[k].end
              && Slice(line, tokens[k].start, tokens[k].end) == WordsAt(line, cuts)[k]
    {
      assert cuts[k] < cuts[k + 1];
      SliceAt(line, cuts[k], cuts[k + 1]);
    }
  }

  /** Splits a line and reads its words. */
  method WordsOf(line: string, alnum: char -> bool)
      returns (tokens: seq<Range>, words: seq<string>, ghost cuts: seq<nat>)
    ensures CutAt(line, tokens, cuts) && TokenCuts(line, cuts, alnum)
    ensures words == WordsAt(line, cuts)
  {
    tokens, cuts := Tokens(line, alnum);
    WordsOfTokens(line, tokens, cuts);
    words := Words(line, tokens);
    assert words == WordsAt(line, cuts);
  }

  lemma RunSlices(line: string, tokens: seq<Range>, cuts: seq<nat>, edits: seq<Edit>, k: nat)
    requires CutAt(line, tokens, cuts) && Side(line, cuts, edits) && k < |edits|
    ensures var run := edits[k].run;
            && run.from < |cuts| && run.to < |cuts|
            && match Span(tokens, run)
               case None =>
                 SpanStretch(cuts, run) == None && cuts[run.from] == cuts[run.to]
               case Some(r) =>
                 && cuts[run.from] <= cuts[run.to] <= |line|
                 && SpanStretch(cuts, run) == Some(Stretch(cuts[run.from], cuts[run.to]))
                 && r == ByteRange(line, Stretch(cuts[run.from], cuts[run.to]))
                 && IsBoundary(line, r.start) && IsBoundary(line, r.end) && r.start <= r.end
                 && Slice(line, r.start, r.end) == line[cuts[run.from]..cuts[run.to]]
  {
    RunSpan(line, cuts, edits, k);
    SpanIs(line, tokens, cuts, edits[k].run);
    SliceAt(line, cuts[edits[k].run.from], cuts[edits[k].run.to]);
  }

  lemma LiesSpan(line: string, tokens: seq<Range>, cuts: seq<nat>, edits: seq<Edit>, k: nat,
                 ranges: seq<Range>, at: seq<Stretch>)
    requires CutAt(line, tokens, cuts) && Side(line, cuts, edits) && k < |edits|
    requires Lies(line, ranges, at)
    ensures edits[k].run.from < |cuts| && edits[k].run.to < |cuts|
    ensures Lies(line, ranges + Listed(Span(tokens, edits[k].run)), at + Listed(SpanStretch(cuts, edits[k].run)))
  {
    RunSlices(line, tokens, cuts, edits, k);
    if Span(tokens, edits[k].run).Some? {
      LiesMore(line, ranges, at, SpanStretch(cuts, edits[k].run).value);
    } else {
      assert ranges + [] == ranges && at + [] == at;
    }
  }

  /** The ranges gathered from the first `k` operations, and what they mean. */
  ghost predicate Gathered(oldLine: string, newLine: string, oldCuts: seq<nat>, newCuts: seq<nat>, ops: seq<WordOp>,
                           k: nat, gone: seq<Range>, added: seq<Range>, shared: nat,
                           oldAt: seq<Stretch>, newAt: seq<Stretch>)
  {
    && Lies(oldLine, gone, oldAt) && Lies(newLine, added, newAt)
    && DiffedUpTo(oldLine, newLine, oldCuts, newCuts, ops, k, oldAt, newAt, shared)
  }

  lemma GatherEqual(oldLine: string, newLine: string, oldTokens: seq<Range>, oldCuts: seq<nat>, newCuts: seq<nat>,
                    ops: seq<WordOp>, k: nat, gone: seq<Range>, added: seq<Range>, shared: nat,
                    oldAt: seq<Stretch>, newAt: seq<Stretch>)
    requires CutAt(oldLine, oldTokens, oldCuts)
    requires Gathered(oldLine, newLine, oldCuts, newCuts, ops, k, gone, added, shared, oldAt, newAt)
    requires k < |ops| && ops[k].tag.Equal?
    requires WordScript(ops, WordsAt(oldLine, oldCuts), WordsAt(newLine, newCuts))
    ensures match Span(oldTokens, ops[k].oldAt)
            case None => Gathered(oldLine, newLine, oldCuts, newCuts, ops, k + 1, gone, added, shared, oldAt, newAt)
            case Some(r) =>
              && IsBoundary(oldLine, r.start) && IsBoundary(oldLine, r.end) && r.start <= r.end
              && Gathered(oldLine, newLine, oldCuts, newCuts, ops, k + 1, gone, added,
                          shared + Weight(Slice(oldLine, r.start, r.end)), oldAt, newAt)
  {
    RunSlices(oldLine, oldTokens, oldCuts, OldSide(ops), k);
    DiffEqual(oldLine, newLine, oldCuts, newCuts, ops, k, oldAt, newAt, shared);
  }

  lemma GatherChanged(oldLine: string, newLine: string, oldTokens: seq<Range>, newTokens: seq<Range>,
                      oldCuts: seq<nat>, newCuts: seq<nat>, ops: seq<WordOp>, k: nat,
                      gone: seq<Range>, added: seq<Range>, shared: nat, oldAt: seq<Stretch>, newAt: seq<Stretch>)
    requires CutAt(oldLine, oldTokens, oldCuts) && CutAt(newLine, newTokens, newCuts)
    requires Gathered(oldLine, newLine, oldCuts, newCuts, ops, k, gone, added, shared, oldAt, newAt)
    requires k < |ops| && !ops[k].tag.Equal?
    ensures ops[k].oldAt.from < |oldCuts| && ops[k].oldAt.to < |oldCuts|
    ensures ops[k].newAt.from < |newCuts| && ops[k].newAt.to < |newCuts|
    ensures Gathered(oldLine, newLine, oldCuts, newCuts, ops, k + 1,
                     gone + Listed(Span(oldTokens, ops[k].oldAt)), added + Listed(Span(newTokens, ops[k].newAt)),
                     shared,
                     oldAt + Listed(SpanStretch(oldCuts, ops[k].oldAt)),
                     newAt + Listed(SpanStretch(newCuts, ops[k].newAt)))
  {
    LiesSpan(oldLine, oldTokens, oldCuts, OldSide(ops), k, gone, oldAt);
    LiesSpan(newLine, newTokens, newCuts, NewSide(ops), k, added, newAt);
    DiffChanged(oldLine, newLine, oldCuts, newCuts, ops, k, oldAt, newAt, shared);
  }

  lemma GatherNothing(oldLine: string, newLine: string, oldCuts: seq<nat>, newCuts: seq<nat>, ops: seq<WordOp>)
    requires Side(oldLine, oldCuts, OldSide(ops)) && Side(newLine, newCuts, NewSide(ops))
    ensures Gathered(oldLine, newLine, oldCuts, newCuts, ops, 0, [], [], 0, [], [])
  {
  }

  /** The ranges of the words only on one side, and how much the two lines share. */
  method DiffWords(oldLine: string, newLine: string, oldTokens: seq<Range>, newTokens: seq<Range>, ops: seq<WordOp>,
                   ghost oldCuts: seq<nat>, ghost newCuts: seq<nat>)
      returns (gone: seq<Range>, added: seq<Range>, shared: nat, ghost oldAt: seq<Stretch>, ghost newAt: seq<Stretch>)
    requires CutAt(oldLine, oldTokens, oldCuts) && CutAt(newLine, newTokens, newCuts)
    requires WordScript(ops, WordsAt(oldLine, oldCuts), WordsAt(newLine, newCuts))
    ensures Gathered(oldLine, newLine, oldCuts, newCuts, ops, |ops|, gone, added, shared, oldAt, newAt)
  {
    gone, added, shared, oldAt, newAt := [], [], 0, [], [];
    GatherNothing(oldLine, newLine, oldCuts, newCuts, ops);
    for k := 0 to |ops|
      invariant Gathered(oldLine, newLine, oldCuts, newCuts, ops, k, gone, added, shared, oldAt, newAt)
    {
      var op := ops[k];
      if op.tag.Equal? {
        GatherEqual(oldLine, newLine, oldTokens, oldCuts, newCuts, ops, k, gone, added, shared, oldAt, newAt);
        var r := Span(oldTokens, op.oldAt);
        if r.Some? {
          shared := shared + Weight(Slice(oldLine, r.value.start, r.value.end));
        }
      } else {
        GatherChanged(oldLine, newLine, oldTokens, newTokens, oldCuts, newCuts, ops, k, gone, added, shared, oldAt,
                      newAt);
        gone := gone + Listed(Span(oldTokens, op.oldAt));
        added := added + Listed(Span(newTokens, op.newAt));
        oldAt := oldAt + Listed(SpanStretch(oldCuts, op.oldAt));
        newAt := newAt + Listed(SpanStretch(newCuts, op.newAt));
      }
    }
  }

  /** Joining marks keeps what they say about text. */
  lemma JoinedSide(line: string, cuts: seq<nat>, edits: seq<Edit>, at: seq<Stretch>, joined: seq<Stretch>)
    requires Side(line, cuts, edits) && Last(cuts) == |line|
    requires MarksUpTo(line, cuts, edits, |edits|, at)
    requires Within(joined, |line|) && Separated(line, joined) && SameText(line, at, joined)
    ensures MarksSide(line, cuts, edits, joined)
    ensures Reached(edits, |edits|) == |cuts| - 1
    ensures Survivors(line, joined, |line|) == Survivors(line, at, |line|)
  {
    SurvivorsAgree(line, at, joined, |line|);
  }

  /** The ranges to mark on either line. `AreChanges` says when there are any and which they are;
      `oldAt` and `newAt` are the same ranges in characters. */
  method FindChanges(oldLine: string, newLine: string, alnum: char -> bool, differ: Differ)
      returns (r: Option<Changes>, ghost oldAt: seq<Stretch>, ghost newAt: seq<Stretch>)
    requires Honest(differ)
    ensures AreChanges(oldLine, newLine, alnum, differ, r, oldAt, newAt)
  {
    oldAt, newAt := [], [];
    if oldLine == newLine || Bytes(oldLine) > MAX_LINE || Bytes(newLine) > MAX_LINE {
      return None, oldAt, newAt;
    }
    var oldTokens, oldWords, oldCuts := WordsOf(oldLine, alnum);
    var newTokens, newWords, newCuts := WordsOf(newLine, alnum);
    var ops := differ(oldWords, newWords);
    assert WordScript(ops, oldWords, newWords);
    var gone, added, shared;
    ghost var goneAt, addedAt;
    gone, added, shared, goneAt, addedAt :=
      DiffWords(oldLine, newLine, oldTokens, newTokens, ops, oldCuts, newCuts);
    var oldMarks, newMarks;
    oldMarks, oldAt := Join(gone, oldLine, goneAt);
    newMarks, newAt := Join(added, newLine, addedAt);
    JoinedSide(oldLine, oldCuts, OldSide(ops), goneAt, oldAt);
    JoinedSide(newLine, newCuts, NewSide(ops), addedAt, newAt);
    assert Marks(oldLine, newLine, alnum, differ, oldAt, newAt);
    CoversNoSurvivors(oldLine, oldMarks, oldAt);
    CoversNoSurvivors(newLine, newMarks, newAt);
    if shared * 2 < Min(Weight(oldLine), Weight(newLine)) {
      return None, oldAt, newAt;
    }
    if Covers(oldMarks, oldLine) || Covers(newMarks, newLine) {
      return None, oldAt, newAt;
    }
    return Some(Changes(oldMarks, newMarks)), oldAt, newAt;
  }

  /** What a reader of the marks may rely on: taking away the marked parts and all whitespace
      leaves the same text on both sides, and some of it. */
  lemma ChangesLeaveSharedText(oldLine: string, newLine: string, alnum: char -> bool, differ: Differ,
                               r: Option<Changes>, oldAt: seq<Stretch>, newAt: seq<Stretch>)
    requires AreChanges(oldLine, newLine, alnum, differ, r, oldAt, newAt)
    requires r.Some?
    ensures Survivors(oldLine, oldAt, |oldLine|) == Survivors(newLine, newAt, |newLine|) != ""
    ensures Lies(oldLine, r.value.oldMarks, oldAt) && Separated(oldLine, oldAt)
    ensures Lies(newLine, r.value.newMarks, newAt) && Separated(newLine, newAt)
    ensures exists c :: 0 <= c < |oldLine| && !IsSpace(oldLine[c]) && !Marked(oldAt, c)
    ensures exists c :: 0 <= c < |newLine| && !IsSpace(newLine[c]) && !Marked(newAt, c)
  {
    NoSurvivors(oldLine, oldAt, |oldLine|);
    NoSurvivors(newLine, newAt, |newLine|);
  }
}
