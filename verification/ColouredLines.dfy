/** Coloured lines: runs of text with a class, and splitting them where a change starts or ends. */
module ColouredLines {
  import opened EditScripts
  import opened Utf8
  import opened Intraline

  datatype Class =
    | Plain | Comment | StringLiteral | Number | Keyword | FunctionName | TypeName | Operator

  datatype Span = Span(class_: Class, text: string, changed: bool)

  type Line = seq<Span>

  /** One character as it is drawn. */
  datatype Glyph = Glyph(class_: Class, c: char, changed: bool)

  function Glyphs(span: Span): (g: seq<Glyph>) {
    seq(|span.text|, k requires 0 <= k < |span.text| => Glyph(span.class_, span.text[k], span.changed))
  }

  /** A line, character by character. */
  function Drawn(line: Line): seq<Glyph> {
    if line == [] then [] else Drawn(DropLast(line)) + Glyphs(Last(line))
  }

  /** The text of a line: its spans' texts, one after another. */
  function Text(line: Line): string {
    if line == [] then "" else Text(DropLast(line)) + Last(line).text
  }

  lemma {:induction false} DrawnText(line: Line)
    ensures |Drawn(line)| == |Text(line)|
    ensures forall k :: 0 <= k < |Text(line)| ==> Drawn(line)[k].c == Text(line)[k]
    decreases |line|
  {
    if line != [] {
      DrawnText(DropLast(line));
    }
  }

  lemma Pushed(line: Line, span: Span)
    ensures Drawn(line + [span]) == Drawn(line) + Glyphs(span)
    ensures Text(line + [span]) == Text(line) + span.text
  {
    SnocEnds(line, span);
  }

  lemma {:induction false} TextConcat(x: Line, y: Line)
    ensures Text(x + y) == Text(x) + Text(y)
    ensures Drawn(x + y) == Drawn(x) + Drawn(y)
    decreases |y|
  {
    if y == [] {
      NilAdds(x);
      NilAdds(Text(x));
      NilAdds(Drawn(x));
    } else {
      var y', last := DropLast(y), Last(y);
      TextConcat(x, y');
      Rejoin(y);
      Regroup(x, y', [last]);
      Pushed(x + y', last);
      Regroup(Text(x), Text(y'), last.text);
      Regroup(Drawn(x), Drawn(y'), Glyphs(last));
    }
  }

  lemma Cancelled(p: string, x: string, y: string)
    requires p + x == p + y
    ensures x == y
  {
    assert x == (p + x)[|p|..] && y == (p + y)[|p|..];
  }

  // ---- Lines that stand for a text ----

  /** `text` as one span of no class, or as no span when it is empty. */
  function PlainLine(text: string): Line {
    if text == "" then [] else [Span(Plain, text, false)]
  }

  lemma PlainLineText(text: string)
    ensures Text(PlainLine(text)) == text
  {
    if text != "" {
      Pushed([], Span(Plain, text, false));
      assert [] + [Span(Plain, text, false)] == PlainLine(text);
    }
  }

  /** A line's text from the text of its first spans, of the next one and of the others. */
  lemma TextAround(line: Line, k: nat)
    requires k < |line|
    ensures Text(line[..k + 1]) == Text(line[..k]) + line[k].text
    ensures Text(line) == Text(line[..k]) + (line[k].text + Text(line[k + 1..]))
  {
    TakeMore(line, k);
    Pushed(line[..k], line[k]);
    assert line == line[..k + 1] + line[k + 1..];
    TextConcat(line[..k + 1], line[k + 1..]);
    Regroup(Text(line[..k]), line[k].text, Text(line[k + 1..]));
  }

  /** Reading a span's text off the front of what remains, as it has to be if all is to match. */
  lemma ReadsOff(line: Line, text: string, k: nat, rest: string)
    requires k < |line| && text == Text(line[..k]) + rest
    ensures Text(line) == text ==> line[k].text <= rest
    ensures line[k].text <= rest ==> text == Text(line[..k + 1]) + rest[|line[k].text|..]
  {
    var piece := line[k].text;
    TextAround(line, k);
    if Text(line) == text {
      Cancelled(Text(line[..k]), piece + Text(line[k + 1..]), rest);
    }
    if piece <= rest {
      assert rest == piece + rest[|piece|..];
      Regroup(Text(line[..k]), piece, rest[|piece|..]);
    }
  }

  /** Whether `line` reads `text`, found by taking the spans off its front in turn. */
  method Rebuilds(line: Line, text: string) returns (b: bool)
    ensures b <==> Text(line) == text
  {
    var rest := text;
    NilAdds(text);
    for k := 0 to |line|
      invariant text == Text(line[..k]) + rest
    {
      ReadsOff(line, text, k, rest);
      var piece := line[k].text;
      if |piece| <= |rest| && rest[..|piece|] == piece {
        rest := rest[|piece|..];
      } else {
        return false;
      }
    }
    assert line[..|line|] == line;
    return rest == "";
  }

  // ---- Marking ----

  /** The line with each character flagged as the stretches say. */
  function Flagged(g: seq<Glyph>, at: seq<Stretch>): (r: seq<Glyph>)
    ensures |r| == |g|
  {
    seq(|g|, k requires 0 <= k < |g| => Glyph(g[k].class_, g[k].c, Marked(at, k)))
  }

  /** The part of a span at a byte range of it, keeping its class. */
  function Piece(span: Span, range: Range, changed: bool): Span
    requires IsBoundary(span.text, range.start) && IsBoundary(span.text, range.end) && range.start <= range.end
  {
    Span(span.class_, Slice(span.text, range.start, range.end), changed)
  }

  /** `span` is the part of the line from character `s` on. */
  ghost predicate Stands(line: Line, span: Span, s: nat) {
    && s + |span.text| <= |Text(line)|
    && |Drawn(line)| == |Text(line)|
    && Text(line)[s..s + |span.text|] == span.text
    && forall k :: s <= k < s + |span.text|
        ==> Drawn(line)[k].class_ == span.class_ && Drawn(line)[k].c == Text(line)[k]
  }

  lemma SpanStands(line: Line, n: nat)
    requires n < |line|
    ensures Stands(line, line[n], |Text(line[..n])|)
    ensures Text(line[..n + 1]) == Text(line[..n]) + line[n].text
  {
    assert line[..n + 1] == line[..n] + [line[n]];
    assert line == line[..n + 1] + line[n + 1..];
    Pushed(line[..n], line[n]);
    TextConcat(line[..n + 1], line[n + 1..]);
    DrawnText(line);
    DrawnText(line[..n]);
  }

  lemma OffsInside(text: string, part: string, s: nat, i: nat)
    requires s <= i <= s + |part| <= |text|
    requires text[s..s + |part|] == part
    ensures Off(text, i) - Off(text, s) == Off(part, i - s)
  {
    forall c | 0 <= c < i - s
      ensures text[s + c] == part[c]
    {
      assert part[c] == text[s..s + |part|][c];
    }
    OffShifts(text, s, part, i - s);
  }

  /** Characters `i` to `j` of a text, as bytes counted from character `s`. */
  function From(text: string, s: nat, i: nat, j: nat): (r: Range)
    requires s <= i <= j <= |text|
    ensures r.start <= r.end
  {
    OffSplits(text, s, i);
    OffSplits(text, i, j);
    Range(Off(text, i) - Off(text, s), Off(text, j) - Off(text, s))
  }

  lemma FromInside(text: string, part: string, s: nat, i: nat, j: nat)
    requires s <= i <= j <= s + |part| <= |text|
    requires text[s..s + |part|] == part
    ensures From(text, s, i, j) == Range(Off(part, i - s), Off(part, j - s))
  {
    OffsInside(text, part, s, i);
    OffsInside(text, part, s, j);
  }

  lemma PieceSliced(text: string, part: string, s: nat, i: nat, j: nat, r: Range)
    requires s <= i <= j <= s + |part| <= |text|
    requires text[s..s + |part|] == part
    requires r == Range(Off(part, i - s), Off(part, j - s))
    ensures r.start <= r.end
    ensures IsBoundary(part, r.start) && IsBoundary(part, r.end)
    ensures Slice(part, r.start, r.end) == text[i..j]
  {
    SliceAt(part, i - s, j - s);
    SliceOfSlice(text, s, s + |part|, i, j);
  }

  lemma SliceOfSlice(text: string, s: nat, e: nat, i: nat, j: nat)
    requires s <= i <= j <= e <= |text|
    ensures text[s..e][i - s..j - s] == text[i..j]
  {
    var part, inner := text[s..e], text[s..e][i - s..j - s];
    forall k | 0 <= k < j - i
      ensures inner[k] == text[i..j][k]
    {
      assert inner[k] == part[i - s + k] == text[i + k];
    }
  }

  /** Cutting characters `i` to `j` of the line out of the span they are in. */
  lemma PieceIs(line: Line, span: Span, s: nat, i: nat, j: nat, at: seq<Stretch>, flag: bool)
    requires Stands(line, span, s)
    requires s <= i <= j <= s + |span.text|
    requires forall k :: i <= k < j ==> Marked(at, k) == flag
    ensures var r := From(Text(line), s, i, j);
            && IsBoundary(span.text, r.start) && IsBoundary(span.text, r.end)
            && Piece(span, r, flag).text == Text(line)[i..j]
            && Glyphs(Piece(span, r, flag)) == Flagged(Drawn(line), at)[i..j]
  {
    FromInside(Text(line), span.text, s, i, j);
    PieceSliced(Text(line), span.text, s, i, j, From(Text(line), s, i, j));
    GlyphsAre(line, span, s, i, j, at, flag, Piece(span, From(Text(line), s, i, j), flag));
  }

  lemma GlyphsAre(line: Line, span: Span, s: nat, i: nat, j: nat, at: seq<Stretch>, flag: bool, piece: Span)
    requires Stands(line, span, s)
    requires s <= i <= j <= s + |span.text|
    requires forall k :: i <= k < j ==> Marked(at, k) == flag
    requires piece.class_ == span.class_ && piece.changed == flag && piece.text == Text(line)[i..j]
    ensures Glyphs(piece) == Flagged(Drawn(line), at)[i..j]
  {
    forall k | 0 <= k < j - i
      ensures Glyphs(piece)[k] == Flagged(Drawn(line), at)[i + k]
    {
      assert Drawn(line)[i + k].c == Text(line)[i + k];
    }
  }

  // ---- The marking loops ----

  /** Everything before character `d` is emitted, flagged as it should be. */
  ghost predicate Emitted(line: Line, at: seq<Stretch>, out: Line, d: nat) {
    && d <= |Text(line)| == |Drawn(line)|
    && Drawn(out) == Flagged(Drawn(line), at)[..d]
    && forall k :: 0 <= k < |out| ==> out[k].text != ""
  }

  /** The next piece emitted, if it holds any text. */
  lemma Emit(line: Line, span: Span, s: nat, at: seq<Stretch>, out: Line, d: nat, to: nat, flag: bool)
    requires Stands(line, span, s) && Emitted(line, at, out, d)
    requires s <= d < to <= s + |span.text|
    requires forall k :: d <= k < to ==> Marked(at, k) == flag
    ensures var r := From(Text(line), s, d, to);
            && IsBoundary(span.text, r.start) && IsBoundary(span.text, r.end)
            && Emitted(line, at, out + [Piece(span, r, flag)], to)
  {
    PieceIs(line, span, s, d, to, at, flag);
    Pushed(out, Piece(span, From(Text(line), s, d, to), flag));
    TakeFurther(Flagged(Drawn(line), at), d, to);
  }

  /** What the loop over the ranges keeps within the span from `s` to `e`: the ranges before `m`
      are dealt with up to `d`, and the later ones start no earlier. */
  ghost predicate Dealt(at: seq<Stretch>, m: nat, s: nat, d: nat, e: nat) {
    && m <= |at| && s <= d <= e
    && (forall j :: 0 <= j < m ==> at[j].to <= d || e <= at[j].from || d == e || at[j].from == at[j].to)
    && (forall j :: m <= j < |at| ==> d == s || d <= at[j].from)
  }

  // The byte comparisons of the loop say the same as comparing characters.

  ghost predicate Climbs(offs: seq<nat>) { forall i, j :: 0 <= i < j < |offs| ==> offs[i] < offs[j] }

  /** The byte offsets of all characters, and of the end. */
  lemma AllOffsets(text: string) returns (offs: seq<nat>)
    ensures |offs| == |text| + 1 && Climbs(offs) && forall k :: 0 <= k <= |text| ==> offs[k] == Off(text, k)
  {
    offs := seq(|text| + 1, k requires 0 <= k <= |text| => Off(text, k));
    forall i, j | 0 <= i < j < |offs| ensures offs[i] < offs[j] {
      OffOrder(text, i, j);
    }
  }

  /** Cutting a range to a span, in characters and in bytes. */
  lemma ClipOffsets(offs: seq<nat>, part: Stretch, s: nat, e: nat, d: nat, a: nat, b: nat, from: nat, to: nat)
    requires Climbs(offs) && s <= d <= e < |offs| && part.from <= part.to < |offs|
    requires a == Max(part.from, s) && b == Min(part.to, e)
    requires from == Max(offs[part.from], offs[s]) && to == Min(offs[part.to], offs[e])
    ensures a < |offs| && b < |offs| && from == offs[a] && to == offs[b]
    ensures from >= to <==> a >= b
    ensures offs[s] <= offs[d] && (from > offs[d] <==> a > d) && (a >= d ==> from >= offs[d])
  {
  }

  lemma DealNext(at: seq<Stretch>, n: nat, m: nat, s: nat, d: nat, e: nat, from: nat, to: nat)
    requires Placed(at, n) && m < |at|
    requires Dealt(at, m, s, d, e)
    requires from == Max(at[m].from, s) && to == Min(at[m].to, e)
    ensures if from >= to then Dealt(at, m + 1, s, d, e)
            else
              && d <= from < to <= e && Dealt(at, m + 1, s, to, e)
              && (forall k :: d <= k < from ==> Marked(at, k) == false)
              && (forall k :: from <= k < to ==> Marked(at, k) == true)
  {
    if from < to {
      forall k | from <= k < to
        ensures Marked(at, k)
      {
        assert at[m].from <= k < at[m].to;
      }
    }
  }

  lemma DealtAll(at: seq<Stretch>, s: nat, d: nat, e: nat)
    requires Dealt(at, |at|, s, d, e)
    ensures forall k :: d <= k < e ==> Marked(at, k) == false
  {
  }

  /** Emitting the part of the span at byte range `r`, which lies from character `d` to `to`. */
  lemma EmitRange(line: Line, span: Span, s: nat, at: seq<Stretch>, out: Line, d: nat, to: nat, flag: bool, r: Range)
    requires Stands(line, span, s) && Emitted(line, at, out, d)
    requires s <= d < to <= s + |span.text|
    requires forall k :: d <= k < to ==> Marked(at, k) == flag
    requires Off(Text(line), s) + r.start == Off(Text(line), d)
    requires Off(Text(line), s) + r.end == Off(Text(line), to)
    ensures r.start <= r.end && IsBoundary(span.text, r.start) && IsBoundary(span.text, r.end)
    ensures Emitted(line, at, out + [Piece(span, r, flag)], to)
  {
    assert r == From(Text(line), s, d, to);
    Emit(line, span, s, at, out, d, to, flag);
  }

  /** Between two ranges: everything before character `d`, byte `done`, is emitted. */
  ghost predicate Marking(line: Line, span: Span, s: nat, at: seq<Stretch>, m: nat, out: Line, d: nat, done: nat) {
    && Stands(line, span, s)
    && Dealt(at, m, s, d, s + |span.text|)
    && done == Off(Text(line), d)
    && Emitted(line, at, out, d)
  }

  /** What one range has to do with a span: nothing, or the characters from `a` to `b`. */
  lemma ClipRange(line: Line, span: Span, s: nat, at: seq<Stretch>, m: nat, out: Line, d: nat, done: nat,
                  start: nat, r: Range) returns (a: nat, b: nat)
    requires Marking(line, span, s, at, m, out, d, done)
    requires start == Off(Text(line), s)
    requires Placed(at, |Text(line)|) && m < |at| && r == ByteRange(Text(line), at[m])
    ensures a <= |Text(line)| && b <= s + |span.text|
    ensures var from, to := Max(r.start, start), Min(r.end, start + Bytes(span.text));
            if from >= to then Marking(line, span, s, at, m + 1, out, d, done)
            else
              && from == Off(Text(line), a) && to == Off(Text(line), b)
              && start <= done <= from && (from > done <==> a > d)
              && d <= a < b && Dealt(at, m + 1, s, b, s + |span.text|)
              && (forall k :: d <= k < a ==> Marked(at, k) == false)
              && (forall k :: a <= k < b ==> Marked(at, k) == true)
  {
    var text, e := Text(line), s + |span.text|;
    a, b := Max(at[m].from, s), Min(at[m].to, e);
    var from, to := Max(r.start, start), Min(r.end, start + Bytes(span.text));
    OffSplits(text, s, e);
    var offs := AllOffsets(text);
    ClipOffsets(offs, at[m], s, e, d, a, b, from, to);
    DealNext(at, |text|, m, s, d, e, a, b);
  }

  /** The pieces of a span up to the end of one range. */
  method MarkRange(ghost line: Line, span: Span, start: nat, r: Range, sofar: Line, sofarDone: nat,
                   ghost s: nat, ghost at: seq<Stretch>, ghost m: nat, ghost sofarD: nat)
      returns (out: Line, done: nat, ghost d: nat)
    requires Marking(line, span, s, at, m, sofar, sofarD, sofarDone)
    requires start == Off(Text(line), s)
    requires Placed(at, |Text(line)|) && m < |at| && r == ByteRange(Text(line), at[m])
    ensures Marking(line, span, s, at, m + 1, out, d, done)
  {
    var end := start + Bytes(span.text);
    out, done, d := sofar, sofarDone, sofarD;
    var from, to := Max(r.start, start), Min(r.end, end);
    ghost var a, b := ClipRange(line, span, s, at, m, sofar, d, done, start, r);
    if from >= to {
      return;
    }
    if from > done {
      EmitRange(line, span, s, at, out, d, a, false, Range(done - start, from - start));
      out := out + [Piece(span, Range(done - start, from - start), false)];
    }
    assert Emitted(line, at, out, a);
    EmitRange(line, span, s, at, out, a, b, true, Range(from - start, to - start));
    out := out + [Piece(span, Range(from - start, to - start), true)];
    done := to;
    d := b;
  }

  /** Adds the pieces of `span` to `sofar`: no piece straddles the edge of a range. */
  method MarkSpan(ghost line: Line, span: Span, start: nat, ranges: seq<Range>, sofar: Line,
                  ghost s: nat, ghost at: seq<Stretch>) returns (out: Line)
    requires Stands(line, span, s) && start == Off(Text(line), s)
    requires Lies(Text(line), ranges, at) && Ordered(at)
    requires Emitted(line, at, sofar, s)
    ensures Emitted(line, at, out, s + |span.text|)
  {
    ghost var text, e := Text(line), s + |span.text|;
    out := sofar;
    var done: nat := start; // the byte offset of `d`
    ghost var d := s;
    for m := 0 to |ranges|
      invariant Marking(line, span, s, at, m, out, d, done)
    {
      out, done, d := MarkRange(line, span, start, ranges[m], out, done, s, at, m, d);
    }
    DealtAll(at, s, d, e);
    OffSplits(text, s, e);
    OffOrder(text, d, e);
    OffOrder(text, s, d);
    var end := start + Bytes(span.text);
    if done < end {
      EmitRange(line, span, s, at, out, d, e, false, Range(done - start, end - start));
      out := out + [Piece(span, Range(done - start, end - start), false)];
    }
  }

  /** Between two spans: the first `n` are emitted, `start` bytes of them. */
  ghost predicate MarkedUpTo(line: Line, at: seq<Stretch>, n: nat, out: Line, start: nat) {
    && n <= |line|
    && |Text(line[..n])| <= |Text(line)|
    && start == Off(Text(line), |Text(line[..n])|)
    && Emitted(line, at, out, |Text(line[..n])|)
  }

  lemma NextSpan(line: Line, n: nat)
    requires n < |line|
    ensures var s := |Text(line[..n])|;
            && Stands(line, line[n], s)
            && |Text(line[..n + 1])| == s + |line[n].text| <= |Text(line)|
            && Off(Text(line), s + |line[n].text|) == Off(Text(line), s) + Bytes(line[n].text)
  {
    SpanStands(line, n);
    OffSplits(Text(line), |Text(line[..n])|, |Text(line[..n])| + |line[n].text|);
  }

  /** Flags `ranges` in `line`: what is drawn keeps every character and its class, and a character is
      flagged exactly when one of the ranges holds it. */
  method MarkLine(line: Line, ranges: seq<Range>, ghost at: seq<Stretch>) returns (out: Line)
    requires Lies(Text(line), ranges, at) && Ordered(at)
    ensures Drawn(out) == Flagged(Drawn(line), at)
    ensures Text(out) == Text(line)
    ensures forall k :: 0 <= k < |out| ==> out[k].text != ""
  {
    out := [];
    var start: nat := 0;
    DrawnText(line);
    for n := 0 to |line|
      invariant MarkedUpTo(line, at, n, out, start)
    {
      NextSpan(line, n);
      out := MarkSpan(line, line[n], start, ranges, out, |Text(line[..n])|, at);
      start := start + Bytes(line[n].text);
    }
    assert line[..|line|] == line;
    FlaggedText(line, out, at);
  }

  lemma FlaggedText(line: Line, out: Line, at: seq<Stretch>)
    requires Drawn(out) == Flagged(Drawn(line), at)
    ensures Text(out) == Text(line)
  {
    DrawnText(line);
    DrawnText(out);
    forall k | 0 <= k < |Text(line)|
      ensures Text(out)[k] == Text(line)[k]
    {
      assert Drawn(out)[k].c == Drawn(line)[k].c;
    }
  }
}