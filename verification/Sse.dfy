/** Reading server-sent events out of a body that arrives in pieces. */
module Sse {
  import opened EditScripts

  datatype SseEvent = SseEvent(event: string, data: string)

  // ---- Lines ----

  /** Where a character first is, or the length when it is nowhere. */
  function First(s: string, c: char): (i: nat)
    ensures i <= |s| && c !in s[..i] && (i < |s| ==> s[i] == c)
  {
    if s == [] || s[0] == c then 0
    else
      var i := First(s[1..], c);
      assert s[..i + 1] == [s[0]] + s[1..][..i];
      i + 1
  }

  lemma FirstIs(s: string, c: char, i: nat)
    requires i < |s| && s[i] == c && c !in s[..i]
    ensures First(s, c) == i
  {
  }

  /** A text cut at its line feeds; what follows the last of them comes last. */
  function Lines(s: string): (ls: seq<string>)
    ensures ls != []
    decreases |s|
  {
    var nl := First(s, '\n');
    if nl == |s| then [s] else [s[..nl]] + Lines(s[nl + 1..])
  }

  /** One carriage return at the end does not count. */
  function Strip(raw: string): string {
    if raw != [] && Last(raw) == '\r' then DropLast(raw) else raw
  }

  function WithoutSpace(s: string): string { if s != [] && s[0] == ' ' then s[1..] else s }

  function FieldOf(text: string): string { text[..First(text, ':')] }

  function ValueOf(text: string): string {
    var colon := First(text, ':');
    if colon == |text| then "" else WithoutSpace(text[colon + 1..])
  }

  function Join(ls: seq<string>): string {
    if ls == [] then "" else if |ls| == 1 then ls[0] else ls[0] + "\n" + Join(ls[1..])
  }

  // ---- Line by line ----

  /** The event being read. */
  datatype Open = Open(event: string, data: seq<string>)

  const FRESH := Open("message", [])

  function Pending(open: Open): seq<SseEvent> {
    if open.data != [] then [SseEvent(open.event, Join(open.data))] else []
  }

  function Next(open: Open, raw: string): Open {
    var text := Strip(raw);
    if text == "" then FRESH
    else if text[0] == ':' then open
    else if FieldOf(text) == "event" then open.(event := ValueOf(text))
    else if FieldOf(text) == "data" then open.(data := open.data + [ValueOf(text)])
    else open
  }

  function Emitted(open: Open, raw: string): seq<SseEvent> { if Strip(raw) == "" then Pending(open) else [] }

  function After(open: Open, ls: seq<string>): Open {
    if ls == [] then open else Next(After(open, DropLast(ls)), Last(ls))
  }

  function Out(open: Open, ls: seq<string>): seq<SseEvent> {
    if ls == [] then [] else Out(open, DropLast(ls)) + Emitted(After(open, DropLast(ls)), Last(ls))
  }

  /** What reading a whole text yields. Of the tail nothing is yielded by itself, only what is open
      once it has been taken in. */
  function Read(text: string): seq<SseEvent> {
    var ls, tail := DropLast(Lines(text)), Last(Lines(text));
    Out(FRESH, ls) + Pending(if tail == "" then After(FRESH, ls) else Next(After(FRESH, ls), tail))
  }

  lemma OneMoreLine(open: Open, ls: seq<string>, l: string)
    ensures After(open, ls + [l]) == Next(After(open, ls), l)
    ensures Out(open, ls + [l]) == Out(open, ls) + Emitted(After(open, ls), l)
  {
    SnocEnds(ls, l);
  }

  lemma {:induction false} OutSplits(open: Open, one: seq<string>, two: seq<string>)
    ensures After(open, one + two) == After(After(open, one), two)
    ensures Out(open, one + two) == Out(open, one) + Out(After(open, one), two)
    decreases |two|
  {
    if two == [] {
      NilAdds(one);
      NilAdds(Out(open, one));
    } else {
      var before, l := DropLast(two), Last(two);
      var mid := After(open, one);
      OutSplits(open, one, before);
      Rejoin(two);
      Regroup(one, before, [l]);
      OneMoreLine(open, one + before, l);
      OneMoreLine(mid, before, l);
      Regroup(Out(open, one), Out(mid, before), Emitted(After(mid, before), l));
    }
  }

  lemma OutOne(open: Open, l: string)
    ensures After(open, [l]) == Next(open, l) && Out(open, [l]) == Emitted(open, l)
  {
    NilAdds([l]);
    OneMoreLine(open, [], l);
    NilAdds(Emitted(open, l));
  }

  // ---- Piece by piece ----

  function Concat(pieces: seq<string>): string { if pieces == [] then "" else Concat(DropLast(pieces)) + Last(pieces) }

  lemma NoLineFeedIsOneLine(s: string)
    requires '\n' !in s
    ensures Lines(s) == [s] && DropLast(Lines(s)) == [] && Last(Lines(s)) == s
  {
  }

  lemma FirstLine(s: string, nl: nat)
    requires nl == First(s, '\n') < |s|
    ensures Lines(s) == [s[..nl]] + Lines(s[nl + 1..])
  {
  }

  /** A first line, whatever is added at the end. */
  lemma FirstLineStays(a: string, b: string, nl: nat)
    requires nl == First(a, '\n') < |a|
    ensures Lines(a + b) == [a[..nl]] + Lines(a[nl + 1..] + b)
  {
    assert (a + b)[..nl] == a[..nl];
    FirstIs(a + b, '\n', nl);
    assert (a + b)[nl + 1..] == a[nl + 1..] + b;
  }

  lemma {:induction false} LinesOfJoin(a: string, b: string)
    ensures Lines(a + b) == DropLast(Lines(a)) + Lines(Last(Lines(a)) + b)
    decreases |a|
  {
    var nl := First(a, '\n');
    if nl < |a| {
      var l, rest := a[..nl], Lines(a[nl + 1..]);
      FirstLine(a, nl);
      FirstLineStays(a, b, nl);
      LinesOfJoin(a[nl + 1..], b);
      JoinEnds([l], rest);
      Regroup([l], DropLast(rest), Lines(Last(rest) + b));
    } else {
      assert a[..nl] == a;
      NoLineFeedIsOneLine(a);
      NilAdds(Lines(a + b));
    }
  }

  /** The lines left in a buffer, after those already taken from it. */
  ghost predicate TakenFrom(text: string, taken: seq<string>, buffer: string) { taken + Lines(buffer) == Lines(text) }

  lemma TakesFirst(text: string, taken: seq<string>, buffer: string, nl: nat)
    requires TakenFrom(text, taken, buffer) && nl == First(buffer, '\n') < |buffer|
    ensures TakenFrom(text, taken + [buffer[..nl]], buffer[nl + 1..])
  {
    FirstLine(buffer, nl);
    Regroup(taken, [buffer[..nl]], Lines(buffer[nl + 1..]));
  }

  /** The lines of a buffer, as a next piece leaves them. */
  lemma TakesPiece(text: string, taken: seq<string>, buffer: string, piece: string)
    requires TakenFrom(text, taken, buffer) && '\n' !in buffer
    ensures TakenFrom(text + piece, taken, buffer + piece)
  {
    NoLineFeedIsOneLine(buffer);
    SnocEnds(taken, buffer);
    LinesOfJoin(text, piece);
  }

  /** Reads a body whose `pieces` are decoded one after another, and `flush` is what the decoder
      held back. What comes out depends on the whole text only, not on where it was cut. */
  method SseEvents(pieces: seq<string>, flush: string) returns (out: seq<SseEvent>)
    requires '\n' !in flush
    ensures out == Read(Concat(pieces) + flush)
  {
    var buffer, event, data := "", "message", [];
    ghost var taken: seq<string> := [];
    out := [];
    for k := 0 to |pieces|
      invariant TakenFrom(Concat(pieces[..k]), taken, buffer) && '\n' !in buffer
      invariant Open(event, data) == After(FRESH, taken) && out == Out(FRESH, taken)
    {
      assert DropLast(pieces[..k + 1]) == pieces[..k];
      ghost var text := Concat(pieces[..k + 1]);
      TakesPiece(Concat(pieces[..k]), taken, buffer, pieces[k]);
      buffer := buffer + pieces[k];
      while First(buffer, '\n') < |buffer|
        invariant TakenFrom(text, taken, buffer)
        invariant Open(event, data) == After(FRESH, taken) && out == Out(FRESH, taken)
        decreases |buffer|
      {
        var nl := First(buffer, '\n');
        var done: seq<SseEvent>;
        event, data, done := TakeLine(event, data, buffer[..nl]);
        TakesFirst(text, taken, buffer, nl);
        OutSplits(FRESH, taken, [buffer[..nl]]);
        OutOne(After(FRESH, taken), buffer[..nl]);
        taken := taken + [buffer[..nl]];
        buffer := buffer[nl + 1..];
        out := out + done;
      }
    }
    assert pieces[..|pieces|] == pieces;
    TakesPiece(Concat(pieces), taken, buffer, flush);
    assert Lines(buffer + flush) == [buffer + flush];
    assert DropLast(Lines(Concat(pieces) + flush)) == taken && Last(Lines(Concat(pieces) + flush)) == buffer + flush;
    buffer := buffer + flush;
    if buffer != "" {
      var dropped: seq<SseEvent>;
      event, data, dropped := TakeLine(event, data, buffer);
    }
    if data != [] {
      out := out + [SseEvent(event, Join(data))];
    }
  }

  method TakeLine(event0: string, data0: seq<string>, raw: string)
      returns (event: string, data: seq<string>, out: seq<SseEvent>)
    ensures Open(event, data) == Next(Open(event0, data0), raw)
    ensures out == Emitted(Open(event0, data0), raw)
  {
    event, data, out := event0, data0, [];
    var text := Strip(raw);
    if text == "" {
      out := Pending(Open(event, data));
      event, data := "message", [];
      return;
    }
    if text[0] == ':' {
      return;
    }
    var colon := First(text, ':');
    var field := text[..colon];
    var value := if colon == |text| then "" else WithoutSpace(text[colon + 1..]);
    if field == "event" {
      event := value;
    } else if field == "data" {
      data := data + [value];
    }
  }

  // ---- What the events are ----

  /** Lines with the carriage returns off, cut at blank ones; the last block may still be open. */
  function Blocks(ls: seq<string>): (bs: seq<seq<string>>)
    ensures bs != []
  {
    if ls == [] then [[]]
    else
      var bs, text := Blocks(DropLast(ls)), Strip(Last(ls));
      if text == "" then bs + [[]] else DropLast(bs) + [Last(bs) + [text]]
  }

  /** The name a block gives last. */
  function NameOf(block: seq<string>): string {
    if block == [] then "message"
    else if FieldOf(Last(block)) == "event" then ValueOf(Last(block))
    else NameOf(DropLast(block))
  }

  function DataOf(block: seq<string>): seq<string> {
    if block == [] then []
    else DataOf(DropLast(block)) + if FieldOf(Last(block)) == "data" then [ValueOf(Last(block))] else []
  }

  function EventOf(block: seq<string>): seq<SseEvent> {
    if DataOf(block) == [] then [] else [SseEvent(NameOf(block), Join(DataOf(block)))]
  }

  function EventsOf(blocks: seq<seq<string>>): seq<SseEvent> {
    if blocks == [] then [] else EventsOf(DropLast(blocks)) + EventOf(Last(blocks))
  }

  lemma EventsOfMore(blocks: seq<seq<string>>, block: seq<string>)
    ensures EventsOf(blocks + [block]) == EventsOf(blocks) + EventOf(block)
  {
    SnocEnds(blocks, block);
  }

  lemma CommentsHaveNoField(text: string)
    requires text != "" && text[0] == ':'
    ensures FieldOf(text) == ""
  {
    FirstIs(text, ':', 0);
  }

  /** Reading line by line keeps what the block being read says, and has yielded the events of the
      blocks before. */
  lemma {:induction false} OpenIsLastBlock(ls: seq<string>)
    ensures After(FRESH, ls) == Open(NameOf(Last(Blocks(ls))), DataOf(Last(Blocks(ls))))
    ensures Out(FRESH, ls) == EventsOf(DropLast(Blocks(ls)))
    decreases |ls|
  {
    if ls != [] {
      OpenIsLastBlock(DropLast(ls));
      var bs, text := Blocks(DropLast(ls)), Strip(Last(ls));
      if text == "" {
        BlockEnds(bs);
      } else {
        BlockGoesOn(bs, text);
        NilAdds(Out(FRESH, DropLast(ls)));
      }
    }
  }

  lemma BlockEnds(bs: seq<seq<string>>)
    requires bs != []
    ensures DropLast(bs + [[]]) == bs && Last(bs + [[]]) == []
    ensures EventsOf(bs) == EventsOf(DropLast(bs)) + EventOf(Last(bs))
  {
    SnocEnds(bs, []);
  }

  lemma BlockGoesOn(bs: seq<seq<string>>, text: string)
    requires bs != [] && text != ""
    ensures var bs' := DropLast(bs) + [Last(bs) + [text]];
            && DropLast(bs') == DropLast(bs) && Last(bs') == Last(bs) + [text]
    ensures var next := if text[0] == ':' then Open(NameOf(Last(bs)), DataOf(Last(bs)))
                        else if FieldOf(text) == "event" then Open(ValueOf(text), DataOf(Last(bs)))
                        else if FieldOf(text) == "data" then Open(NameOf(Last(bs)), DataOf(Last(bs)) + [ValueOf(text)])
                        else Open(NameOf(Last(bs)), DataOf(Last(bs)));
            Open(NameOf(Last(bs) + [text]), DataOf(Last(bs) + [text])) == next
  {
    SnocEnds(DropLast(bs), Last(bs) + [text]);
    SnocEnds(Last(bs), text);
    NilAdds(DataOf(Last(bs)));
    if text[0] == ':' {
      CommentsHaveNoField(text);
    }
  }

  /** Every block of a text, the last one too, whether or not a blank line ends it. */
  function Meant(text: string): seq<SseEvent> { EventsOf(Blocks(Lines(text))) }

  /** An event of which all is read but the end of a blank line. */
  predicate LosesLast(text: string) {
    Last(Lines(text)) == "\r" && DataOf(Last(Blocks(DropLast(Lines(text))))) != []
  }

  /** Reading yields exactly the events of the text, the one still open at the end among them; unless
      what is left at the end is a lone carriage return, which loses it. */
  lemma ReadsWhatIsMeant(text: string)
    ensures Read(text) == Meant(text) <==> !LosesLast(text)
    ensures LosesLast(text) ==> Read(text) == EventsOf(DropLast(Blocks(DropLast(Lines(text)))))
  {
    var ls, tail := DropLast(Lines(text)), Last(Lines(text));
    Rejoin(Lines(text));
    PendingIsEvent(ls);
    if Strip(tail) == "" {
      BlankTail(ls, tail);
      if tail != "" {
        OnlyReturnsStripToNothing(tail);
        NilAdds(Out(FRESH, ls));
        LongerDiffers(Out(FRESH, ls), Pending(After(FRESH, ls)));
      }
    } else {
      OpenTail(ls, tail);
    }
  }

  lemma LongerDiffers<T>(one: seq<T>, two: seq<T>)
    ensures one + two == one <==> two == []
  {
  }

  lemma PendingIsEvent(ls: seq<string>)
    ensures Pending(After(FRESH, ls)) == EventOf(Last(Blocks(ls)))
    ensures Out(FRESH, ls) + EventOf(Last(Blocks(ls))) == EventsOf(Blocks(ls))
    ensures Out(FRESH, ls) == EventsOf(DropLast(Blocks(ls)))
  {
    OpenIsLastBlock(ls);
  }

  lemma OnlyReturnsStripToNothing(tail: string)
    requires Strip(tail) == "" && tail != ""
    ensures tail == "\r"
  {
    Rejoin(tail);
    NilAdds([Last(tail)]);
  }

  /** A blank tail ends the block before, and begins one that says nothing. */
  lemma BlankTail(ls: seq<string>, tail: string)
    requires Strip(tail) == ""
    ensures EventsOf(Blocks(ls + [tail])) == Out(FRESH, ls) + Pending(After(FRESH, ls))
    ensures Pending(Next(After(FRESH, ls), tail)) == []
  {
    PendingIsEvent(ls);
    SnocEnds(ls, tail);
    EventsOfMore(Blocks(ls), []);
    NilAdds(EventsOf(Blocks(ls)));
  }

  /** Any other tail is part of the last block. */
  lemma OpenTail(ls: seq<string>, tail: string)
    requires Strip(tail) != ""
    ensures EventsOf(Blocks(ls + [tail])) == Out(FRESH, ls) + Pending(Next(After(FRESH, ls), tail))
  {
    PendingIsEvent(ls + [tail]);
    OneMoreLine(FRESH, ls, tail);
    NilAdds(Out(FRESH, ls));
  }

  // ---- Written and read back ----

  function Line(l: string): string { l + "\n" }

  function PrintData(ls: seq<string>): string {
    if ls == [] then "" else Line("data: " + ls[0]) + PrintData(ls[1..])
  }

  /** An event as a server writes it, a line for each line of its data. */
  function Print(e: SseEvent): string { Line("event: " + e.event) + (PrintData(Lines(e.data)) + Line("")) }

  function PrintAll(es: seq<SseEvent>): string { if es == [] then "" else Print(es[0]) + PrintAll(es[1..]) }

  function StripAll(ls: seq<string>): seq<string> { seq(|ls|, i requires 0 <= i < |ls| => Strip(ls[i])) }

  /** What becomes of an event that is written and read: each line loses a final carriage return. */
  function Stripped(e: SseEvent): SseEvent { SseEvent(Strip(e.event), Join(StripAll(Lines(e.data)))) }

  function StrippedAll(es: seq<SseEvent>): seq<SseEvent> {
    seq(|es|, i requires 0 <= i < |es| => Stripped(es[i]))
  }

  function DataLines(ls: seq<string>): seq<string> {
    seq(|ls|, i requires 0 <= i < |ls| => "data: " + ls[i])
  }

  function PrintedLines(e: SseEvent): seq<string> { ["event: " + e.event] + DataLines(Lines(e.data)) + [""] }

  ghost predicate OneLineEach(ls: seq<string>) { forall i :: 0 <= i < |ls| ==> '\n' !in ls[i] }

  lemma {:induction false} LinesAreLines(s: string)
    ensures OneLineEach(Lines(s))
    ensures Join(Lines(s)) == s
    decreases |s|
  {
    var nl := First(s, '\n');
    if nl < |s| {
      var l, rest := s[..nl], Lines(s[nl + 1..]);
      LinesAreLines(s[nl + 1..]);
      FirstLine(s, nl);
      ConsEnds(l, rest);
      LineAndRest(s, nl);
    } else {
      assert s[..nl] == s;
      NoLineFeedIsOneLine(s);
    }
  }

  lemma LineAndRest(s: string, nl: nat)
    requires nl < |s| && s[nl] == '\n'
    ensures s == s[..nl] + "\n" + s[nl + 1..]
  {
  }

  /** A line put before a text is its first. */
  lemma LineBefore(l: string, rest: string, s: string)
    requires '\n' !in l
    ensures Lines((Line(l) + rest) + s) == [l] + Lines(rest + s)
  {
    var all := (Line(l) + rest) + s;
    assert all[..|l|] == l;
    assert all[|l|] == '\n';
    FirstIs(all, '\n', |l|);
    assert all[|l| + 1..] == rest + s;
  }

  lemma NoLineFeed(one: string, two: string)
    requires '\n' !in one && '\n' !in two
    ensures '\n' !in one + two
  {
  }

  lemma {:induction false} DataLinesBefore(ls: seq<string>, s: string)
    requires OneLineEach(ls)
    ensures Lines(PrintData(ls) + s) == DataLines(ls) + Lines(s)
    decreases |ls|
  {
    if ls == [] {
      NilAdds(s);
      NilAdds(Lines(s));
    } else {
      var l, ls' := "data: " + ls[0], ls[1..];
      DataLinesBefore(ls', s);
      NoLineFeed("data: ", ls[0]);
      LineBefore(l, PrintData(ls'), s);
      DataLinesFirst(ls, l, ls');
      Regroup([l], DataLines(ls'), Lines(s));
    }
  }

  lemma DataLinesFirst(ls: seq<string>, l: string, ls': seq<string>)
    requires ls != [] && l == "data: " + ls[0] && ls' == ls[1..]
    ensures PrintData(ls) == Line(l) + PrintData(ls') && DataLines(ls) == [l] + DataLines(ls')
  {
  }

  lemma PrintedBefore(e: SseEvent, s: string)
    requires '\n' !in e.event
    ensures Lines(Print(e) + s) == PrintedLines(e) + Lines(s)
  {
    var name, ls := "event: " + e.event, Lines(e.data);
    LinesAreLines(e.data);
    NoLineFeed("event: ", e.event);
    LineBefore(name, PrintData(ls) + Line(""), s);
    Regroup(PrintData(ls), Line(""), s);
    DataLinesBefore(ls, Line("") + s);
    BlankBefore(s);
    GroupPrinted(name, DataLines(ls), Lines(s));
  }

  lemma BlankBefore(s: string)
    ensures Lines(Line("") + s) == [""] + Lines(s)
  {
    LineBefore("", "", s);
    NilAdds(Line(""));
    NilAdds(s);
  }

  lemma GroupPrinted(name: string, data: seq<string>, rest: seq<string>)
    ensures [name] + (data + ([""] + rest)) == [name] + data + [""] + rest
  {
    Regroup(data, [""], rest);
    Regroup([name], data + [""], rest);
    Regroup([name], data, [""]);
  }

  /** A field line, taken apart. */
  lemma FieldLine(field: string, value: string)
    requires ':' !in field
    ensures var text := field + ": " + value;
            && Strip(text) == field + ": " + Strip(value)
            && FieldOf(text) == field && ValueOf(text) == value
  {
    var text := field + ": " + value;
    assert text[..|field|] == field && text[|field|] == ':';
    FirstIs(text, ':', |field|);
    assert text[|field| + 1..] == " " + value;
    if value == "" {
      assert Last(text) == ' ';
    } else {
      assert Last(text) == Last(value) && DropLast(text) == field + ": " + DropLast(value);
    }
  }

  lemma ReadsData(open: Open, l: string)
    ensures Next(open, "data: " + l) == open.(data := open.data + [Strip(l)]) && Emitted(open, "data: " + l) == []
  {
    assert "data: " == "data" + ": ";
    FieldLine("data", l);
    FieldLine("data", Strip(l));
  }

  lemma ReadsName(open: Open, l: string)
    ensures Next(open, "event: " + l) == open.(event := Strip(l)) && Emitted(open, "event: " + l) == []
  {
    assert "event: " == "event" + ": ";
    FieldLine("event", l);
    FieldLine("event", Strip(l));
  }

  lemma {:induction false} ReadsDataLines(name: string, ls: seq<string>)
    ensures After(Open(name, []), DataLines(ls)) == Open(name, StripAll(ls))
    ensures Out(Open(name, []), DataLines(ls)) == []
    decreases |ls|
  {
    if ls != [] {
      var before, l := DataLines(DropLast(ls)), Last(ls);
      ReadsDataLines(name, DropLast(ls));
      DataLinesEnd(ls);
      ReadsData(Open(name, StripAll(DropLast(ls))), l);
      OneMoreLine(Open(name, []), before, "data: " + l);
    }
  }

  lemma DataLinesEnd(ls: seq<string>)
    requires ls != []
    ensures DataLines(ls) == DataLines(DropLast(ls)) + ["data: " + Last(ls)]
    ensures StripAll(ls) == StripAll(DropLast(ls)) + [Strip(Last(ls))]
  {
  }

  lemma ReadsBlank(open: Open)
    ensures Next(open, "") == FRESH && Emitted(open, "") == Pending(open)
  {
  }

  lemma ReadsPrinted(e: SseEvent)
    ensures After(FRESH, PrintedLines(e)) == FRESH
    ensures Out(FRESH, PrintedLines(e)) == [Stripped(e)]
  {
    var name, data := ["event: " + e.event], DataLines(Lines(e.data));
    var named := Open(Strip(e.event), []);
    var lines := StripAll(Lines(e.data));
    ReadsName(FRESH, e.event);
    OutOne(FRESH, name[0]);
    ReadsDataLines(Strip(e.event), Lines(e.data));
    ReadsBlank(Open(Strip(e.event), lines));
    OutOne(Open(Strip(e.event), lines), "");
    OutSplits(FRESH, name, data);
    OutSplits(FRESH, name + data, [""]);
  }

  lemma {:induction false} ReadsAllPrinted(es: seq<SseEvent>)
    requires forall i :: 0 <= i < |es| ==> '\n' !in es[i].event
    ensures Last(Lines(PrintAll(es))) == ""
    ensures var ls := DropLast(Lines(PrintAll(es))); After(FRESH, ls) == FRESH && Out(FRESH, ls) == StrippedAll(es)
    decreases |es|
  {
    if es == [] {
      NoLineFeedIsOneLine("");
    } else {
      ReadsAllPrinted(es[1..]);
      PrintedBefore(es[0], PrintAll(es[1..]));
      ReadsOneMore(es[0], Lines(PrintAll(es[1..])));
      StrippedCons(es);
    }
  }

  lemma StrippedCons(es: seq<SseEvent>)
    requires es != []
    ensures StrippedAll(es) == [Stripped(es[0])] + StrippedAll(es[1..])
  {
  }

  lemma ReadsOneMore(e: SseEvent, rest: seq<string>)
    requires rest != []
    ensures var ls := DropLast(PrintedLines(e) + rest);
            && Last(PrintedLines(e) + rest) == Last(rest)
            && After(FRESH, ls) == After(FRESH, DropLast(rest))
            && Out(FRESH, ls) == [Stripped(e)] + Out(FRESH, DropLast(rest))
  {
    ReadsPrinted(e);
    JoinEnds(PrintedLines(e), rest);
    OutSplits(FRESH, PrintedLines(e), DropLast(rest));
  }

  /** No name holds a line feed, and no line ends in a carriage return. */
  ghost predicate Printable(e: SseEvent) {
    '\n' !in e.event && Strip(e.event) == e.event && StripAll(Lines(e.data)) == Lines(e.data)
  }

  lemma PartsLack(s: string, i: nat, j: nat, c: char)
    requires i <= j <= |s| && c !in s
    ensures c !in s[i..j]
  {
  }

  lemma ReadsNoLineFeed(open: Open, raw: string)
    requires '\n' !in open.event && '\n' !in raw
    ensures '\n' !in Next(open, raw).event
    ensures forall i :: 0 <= i < |Emitted(open, raw)| ==> '\n' !in Emitted(open, raw)[i].event
  {
    var text := Strip(raw);
    PartsLack(raw, 0, |text|, '\n');
    var colon := First(text, ':');
    if colon < |text| {
      PartsLack(text, colon + 1, |text|, '\n');
      var value := text[colon + 1..];
      if value != "" {
        PartsLack(value, 1, |value|, '\n');
      }
    }
  }

  lemma {:induction false} NamesHaveNoLineFeed(open: Open, ls: seq<string>)
    requires OneLineEach(ls) && '\n' !in open.event
    ensures '\n' !in After(open, ls).event
    ensures forall i :: 0 <= i < |Out(open, ls)| ==> '\n' !in Out(open, ls)[i].event
    decreases |ls|
  {
    if ls != [] {
      NamesHaveNoLineFeed(open, DropLast(ls));
      ReadsNoLineFeed(After(open, DropLast(ls)), Last(ls));
    }
  }

  /** Written and read back, events are the same exactly when every one of them can be printed so. */
  lemma RoundTrip(es: seq<SseEvent>)
    ensures Read(PrintAll(es)) == es <==> forall i :: 0 <= i < |es| ==> Printable(es[i])
  {
    var read := Read(PrintAll(es));
    if forall i :: 0 <= i < |es| ==> '\n' !in es[i].event {
      ReadsAllPrinted(es);
      assert read == StrippedAll(es);
      forall i | 0 <= i < |es| ensures Stripped(es[i]) == es[i] <==> Printable(es[i]) {
        StrippedSame(es[i]);
      }
      if read == es {
        assert forall i :: 0 <= i < |es| ==> StrippedAll(es)[i] == es[i];
      }
    } else {
      LinesAreLines(PrintAll(es));
      ReadNames(PrintAll(es));
    }
  }

  lemma ReadNames(text: string)
    ensures forall i :: 0 <= i < |Read(text)| ==> '\n' !in Read(text)[i].event
  {
    var ls, tail := DropLast(Lines(text)), Last(Lines(text));
    LinesAreLines(text);
    NamesHaveNoLineFeed(FRESH, ls);
    ReadsNoLineFeed(After(FRESH, ls), tail);
    var open := if tail == "" then After(FRESH, ls) else Next(After(FRESH, ls), tail);
    NamesOfJoin(Out(FRESH, ls), Pending(open));
  }

  lemma NamesOfJoin(one: seq<SseEvent>, two: seq<SseEvent>)
    requires forall i :: 0 <= i < |one| ==> '\n' !in one[i].event
    requires forall i :: 0 <= i < |two| ==> '\n' !in two[i].event
    ensures forall i :: 0 <= i < |one + two| ==> '\n' !in (one + two)[i].event
  {
  }

  lemma StrippedSame(e: SseEvent)
    requires '\n' !in e.event
    ensures Stripped(e) == e <==> Printable(e)
  {
    LinesAreLines(e.data);
    var ls := Lines(e.data);
    if Join(StripAll(ls)) == e.data {
      JoinedLength(ls);
      assert StripAll(ls) == ls;
    }
  }

  /** Taking anything off a line makes the whole shorter. */
  lemma {:induction false} JoinedLength(ls: seq<string>)
    requires ls != []
    ensures |Join(StripAll(ls))| <= |Join(ls)|
    ensures |Join(StripAll(ls))| == |Join(ls)| ==> StripAll(ls) == ls
    decreases |ls|
  {
    assert StripAll(ls) == [Strip(ls[0])] + StripAll(ls[1..]);
    if |ls| > 1 {
      JoinedLength(ls[1..]);
      assert StripAll(ls)[1..] == StripAll(ls[1..]);
      assert ls == [ls[0]] + ls[1..];
    }
  }

  /** However a body is cut, the same comes out; and what was written comes out whole. */
  method CutAnywhere(es: seq<SseEvent>, one: seq<string>, two: seq<string>) returns (a: seq<SseEvent>, b: seq<SseEvent>)
    requires Concat(one) == Concat(two) == PrintAll(es)
    requires forall i :: 0 <= i < |es| ==> Printable(es[i])
    ensures a == b == es
  {
    a := SseEvents(one, "");
    b := SseEvents(two, "");
    RoundTrip(es);
    assert PrintAll(es) + "" == PrintAll(es);
  }
}
