/** Exercise globs: compiled to the source of a regular expression, which is then read by the
    regular-expression engine. A character here is a UTF-16 code unit, as it is there; `Unit` says
    which character is which unit. */
module Globs {
  import opened EditScripts

  // ---- Code units ----

  /** The character that stands for a code unit. Dafny has no characters for surrogates, so those have
      the ones right above U+FFFF instead; in this module they stand for nothing else. */
  function Unit(n: nat): char
    requires n < 0x1_0000
  {
    if 0xD800 <= n < 0xE000 then (n - 0xD800 + 0x1_0000) as char else n as char
  }

  /** A code point, spelled in code units. */
  function Utf16(point: nat): string
    requires point < 0x11_0000
  {
    if point < 0x1_0000 then [Unit(point)]
    else [Unit(0xD800 + (point - 0x1_0000) / 0x400), Unit(0xDC00 + (point - 0x1_0000) % 0x400)]
  }

  lemma UnitsAreDistinct(m: nat, n: nat)
    requires m < 0x1_0000 && n < 0x1_0000
    ensures Unit(m) == Unit(n) <==> m == n
  {
  }

  type CodeUnit = n: nat | n < 0x1_0000 witness 0

  function Spelled(units: seq<CodeUnit>): string {
    if units == [] then "" else [Unit(units[0])] + Spelled(units[1..])
  }

  /** A glob with no wildcard accepts what it spells, unit by unit, surrogates included. */
  lemma {:induction false} PlainGlobsMeanThemselves(glob: seq<CodeUnit>, path: seq<CodeUnit>)
    requires '*' as int !in glob && '?' as int !in glob
    ensures Accepts(Spelled(glob), Spelled(path)) <==> glob == path
    decreases |glob|
  {
    if glob != [] {
      var unit, rest := glob[0], glob[1..];
      ConsEnds(Unit(unit), Spelled(rest));
      assert glob == [unit] + rest;
      UnitsAreDistinct(unit, '*' as int);
      UnitsAreDistinct(unit, '?' as int);
      if path != [] {
        ConsEnds(Unit(path[0]), Spelled(path[1..]));
        assert path == [path[0]] + path[1..];
        UnitsAreDistinct(unit, path[0]);
        PlainGlobsMeanThemselves(rest, path[1..]);
      }
    }
  }

  /** A question mark takes one code unit, so a code point that needs two needs two of them. */
  lemma QuestionTakesOneUnit(point: nat)
    requires point < 0x11_0000 && point != '/' as nat
    ensures Accepts("?", Utf16(point)) <==> point < 0x1_0000
    ensures Accepts("??", Utf16(point)) <==> point >= 0x1_0000
  {
    var text := Utf16(point);
    assert Accepts("?", text) <==> text != [] && text[0] != '/' && Accepts([], text[1..]) by {
      assert "?"[1..] == [];
    }
    assert Accepts("??", text) <==> text != [] && text[0] != '/' && Accepts("?", text[1..]) by {
      assert "??"[1..] == "?";
    }
    if point >= 0x1_0000 {
      assert text[1..] == [text[1]];
      assert Accepts("?", text[1..]) <==> text[1] != '/' && Accepts([], text[1..][1..]) by {
        assert "?"[1..] == [];
      }
    }
  }

  // ---- What a glob means ----

  /** What `.` does not match. */
  predicate IsLineTerminator(c: char) { c == '\n' || c == '\r' || c == '\U{2028}' || c == '\U{2029}' }

  ghost predicate OnOneLine(s: string) { forall i :: 0 <= i < |s| ==> !IsLineTerminator(s[i]) }

  predicate StartsDeep(glob: string) { |glob| >= 2 && glob[0] == '*' && glob[1] == '*' }

  /** What follows `**`: a slash right after it is part of it. */
  function AfterDeep(glob: string): string
    requires StartsDeep(glob)
  {
    if |glob| > 2 && glob[2] == '/' then glob[3..] else glob[2..]
  }

  /** `**` stands for anything on one line, `*` and `?` for anything but a slash, and everything else
      for itself. */
  ghost predicate Accepts(glob: string, path: string)
    decreases |glob|
  {
    if glob == [] then path == []
    else if StartsDeep(glob) then
      exists n :: 0 <= n <= |path| && OnOneLine(path[..n]) && Accepts(AfterDeep(glob), path[n..])
    else if glob[0] == '*' then
      exists n :: 0 <= n <= |path| && '/' !in path[..n] && Accepts(glob[1..], path[n..])
    else
      path != [] && (if glob[0] == '?' then path[0] != '/' else path[0] == glob[0]) && Accepts(glob[1..], path[1..])
  }

  // ---- Compiling ----

  const SYNTAX := ['\\', '^', '$', '.', '|', '+', '(', ')', '[', ']', '{', '}']

  function Compiled(glob: string): string
    decreases |glob|
  {
    if glob == [] then ""
    else if StartsDeep(glob) then ".*" + Compiled(AfterDeep(glob))
    else CompiledOne(glob[0]) + Compiled(glob[1..])
  }

  function CompiledOne(c: char): string {
    if c == '*' then "[^/]*"
    else if c == '?' then "[^/]"
    else if c in SYNTAX then ['\\', c]
    else [c]
  }

  method GlobToRegExp(glob: string) returns (source: string)
    ensures source == "^" + Compiled(glob) + "$"
  {
    var re, i := "", 0;
    while i < |glob|
      invariant 0 <= i <= |glob|
      invariant re + Compiled(glob[i..]) == Compiled(glob)
    {
      ghost var before, rest := re, glob[i..];
      assert StartsDeep(rest) <==> i + 1 < |glob| && glob[i] == '*' && glob[i + 1] == '*';
      var c := glob[i];
      if c == '*' {
        if i + 1 < |glob| && glob[i + 1] == '*' {
          re := re + ".*";
          i := i + 1;
          if i + 1 < |glob| && glob[i + 1] == '/' {
            i := i + 1;
          }
        } else {
          re := re + "[^/]*";
        }
      } else if c == '?' {
        re := re + "[^/]";
      } else if c in SYNTAX {
        re := re + ['\\'] + [c];
      } else {
        re := re + [c];
      }
      i := i + 1;
      assert glob[i..] == if StartsDeep(rest) then AfterDeep(rest) else rest[1..];
      assert re == before + if StartsDeep(rest) then ".*" else CompiledOne(rest[0]);
      Regroup(before, if StartsDeep(rest) then ".*" else CompiledOne(rest[0]), Compiled(glob[i..]));
    }
    assert glob[i..] == [];
    source := "^" + re + "$";
  }

  // ---- Reading a regular expression ----

  datatype Atom = Dot | NotSlash | Char(c: char)

  datatype Piece = One(atom: Atom) | Many(atom: Atom)

  predicate IsSyntax(c: char) { c in SYNTAX || c == '*' || c == '?' }

  /** An atom and how long it is; of classes only `[^/]` is known. */
  function ReadAtom(s: string): Option<(Atom, nat)> {
    if s == [] then None
    else if s[0] == '.' then Some((Dot, 1))
    else if s[0] == '\\' then (if |s| > 1 && IsSyntax(s[1]) then Some((Char(s[1]), 2)) else None)
    else if s[0] == '[' then (if |s| > 3 && s[..4] == "[^/]" then Some((NotSlash, 4)) else None)
    else if IsSyntax(s[0]) then None
    else Some((Char(s[0]), 1))
  }

  lemma AtomLength(s: string)
    ensures ReadAtom(s).Some? ==> 0 < ReadAtom(s).value.1 <= |s|
  {
  }

  /** The pieces up to the final `$`; of quantifiers only `*` is known. */
  function ReadPieces(s: string): Option<seq<Piece>>
    decreases |s|
  {
    if s == "$" then Some([])
    else
      AtomLength(s);
      match ReadAtom(s)
      case None => None
      case Some((atom, n)) =>
        if n < |s| && s[n] == '*' then
          (match ReadPieces(s[n + 1..]) case None => None case Some(rest) => Some([Many(atom)] + rest))
        else
          (match ReadPieces(s[n..]) case None => None case Some(rest) => Some([One(atom)] + rest))
  }

  /** An expression anchored at both ends. */
  function ReadRegExp(source: string): Option<seq<Piece>> {
    if source != [] && source[0] == '^' then ReadPieces(source[1..]) else None
  }

  predicate AtomMatches(atom: Atom, c: char) {
    match atom
    case Dot => !IsLineTerminator(c)
    case NotSlash => c != '/'
    case Char(d) => c == d
  }

  predicate Matches(ps: seq<Piece>, s: string)
    decreases |ps| + |s|
  {
    if ps == [] then s == []
    else
      match ps[0]
      case One(atom) => s != [] && AtomMatches(atom, s[0]) && Matches(ps[1..], s[1..])
      case Many(atom) => Matches(ps[1..], s) || (s != [] && AtomMatches(atom, s[0]) && Matches(ps, s[1..]))
  }

  /** What a regular expression answers; one that cannot be read matches nothing. */
  predicate Test(source: string, s: string) {
    var pieces := ReadRegExp(source);
    pieces.Some? && Matches(pieces.value, s)
  }

  // ---- The expression means what the glob means ----

  function PiecesOf(glob: string): seq<Piece>
    decreases |glob|
  {
    if glob == [] then []
    else if StartsDeep(glob) then [Many(Dot)] + PiecesOf(AfterDeep(glob))
    else [PieceOf(glob[0])] + PiecesOf(glob[1..])
  }

  function PieceOf(c: char): Piece {
    if c == '*' then Many(NotSlash) else if c == '?' then One(NotSlash) else One(Char(c))
  }

  /** What is compiled never begins with a quantifier. */
  lemma NoQuantifierFirst(glob: string)
    ensures Compiled(glob) != [] ==> Compiled(glob)[0] != '*' && Compiled(glob)[0] != '?'
  {
  }

  lemma ReadsDeep(rest: string)
    requires rest != []
    ensures ReadPieces(".*" + rest) == match ReadPieces(rest) case None => None case Some(ps) => Some([Many(Dot)] + ps)
  {
    var s := ".*" + rest;
    assert s[0] == '.' && s[1] == '*';
    assert s[2..] == rest;
    assert ReadAtom(s) == Some((Dot, 1));
    assert s != "$";
  }

  lemma ReadsOne(c: char, rest: string)
    requires rest != [] && rest[0] != '*'
    ensures ReadPieces(CompiledOne(c) + rest)
         == match ReadPieces(rest) case None => None case Some(ps) => Some([PieceOf(c)] + ps)
  {
    var s := CompiledOne(c) + rest;
    if c == '*' {
      assert s[..4] == "[^/]" && s[4] == '*' && s[5..] == rest;
      assert ReadAtom(s) == Some((NotSlash, 4));
    } else if c == '?' {
      assert s[..4] == "[^/]" && s[4..] == rest;
      assert ReadAtom(s) == Some((NotSlash, 4));
    } else if c in SYNTAX {
      assert s[0] == '\\' && s[1] == c && s[2..] == rest;
      assert ReadAtom(s) == Some((Char(c), 2));
    } else {
      assert s[0] == c && s[1..] == rest;
      assert ReadAtom(s) == Some((Char(c), 1));
    }
  }

  /** Read back, the compiled expression has a piece for every part of the glob. */
  lemma {:induction false} ReadsCompiled(glob: string)
    ensures ReadPieces(Compiled(glob) + "$") == Some(PiecesOf(glob))
    decreases |glob|
  {
    if glob == [] {
      assert Compiled(glob) + "$" == "$";
    } else if StartsDeep(glob) {
      ReadsCompiled(AfterDeep(glob));
      ReadsDeep(Compiled(AfterDeep(glob)) + "$");
      Regroup(".*", Compiled(AfterDeep(glob)), "$");
    } else {
      var rest := Compiled(glob[1..]);
      ReadsCompiled(glob[1..]);
      NoQuantifierFirst(glob[1..]);
      assert (rest + "$")[0] == if rest == [] then '$' else rest[0];
      ReadsOne(glob[0], rest + "$");
      Regroup(CompiledOne(glob[0]), rest, "$");
    }
  }

  ghost predicate AllMatch(atom: Atom, s: string) { forall i :: 0 <= i < |s| ==> AtomMatches(atom, s[i]) }

  ghost predicate SplitsAt(atom: Atom, rest: seq<Piece>, s: string, n: nat) {
    n <= |s| && AllMatch(atom, s[..n]) && Matches(rest, s[n..])
  }

  /** A repeated atom takes some run of what it matches, and leaves the rest to the rest. */
  lemma {:induction false} ManyTakesARun(atom: Atom, rest: seq<Piece>, s: string)
    ensures Matches([Many(atom)] + rest, s) <==> exists n: nat :: SplitsAt(atom, rest, s, n)
    decreases |s|
  {
    var ps := [Many(atom)] + rest;
    assert ps[1..] == rest;
    assert s[0..] == s;
    if Matches(rest, s) {
      assert SplitsAt(atom, rest, s, 0);
    }
    if s != [] {
      ManyTakesARun(atom, rest, s[1..]);
      if AtomMatches(atom, s[0]) && Matches(ps, s[1..]) {
        var n: nat :| SplitsAt(atom, rest, s[1..], n);
        assert s[..n + 1] == [s[0]] + s[1..][..n] && s[n + 1..] == s[1..][n..];
        assert SplitsAt(atom, rest, s, n + 1);
      }
      if exists n: nat :: SplitsAt(atom, rest, s, n) {
        var n: nat :| SplitsAt(atom, rest, s, n);
        if n > 0 {
          assert s[..n][0] == s[0];
          assert s[1..][..n - 1] == s[..n][1..] && s[1..][n - 1..] == s[n..];
          assert SplitsAt(atom, rest, s[1..], n - 1);
        }
      }
    }
  }

  lemma {:induction false} PiecesAccept(glob: string, path: string)
    ensures Matches(PiecesOf(glob), path) <==> Accepts(glob, path)
    decreases |glob|
  {
    if glob == [] {
    } else if StartsDeep(glob) {
      DeepAccepts(glob, path);
    } else if glob[0] == '*' {
      StarAccepts(glob, path);
    } else {
      assert PiecesOf(glob)[1..] == PiecesOf(glob[1..]);
      if path != [] {
        PiecesAccept(glob[1..], path[1..]);
      }
    }
  }

  lemma DeepAccepts(glob: string, path: string)
    requires StartsDeep(glob)
    ensures Matches(PiecesOf(glob), path) <==> Accepts(glob, path)
    decreases |glob|, 0
  {
    var rest := AfterDeep(glob);
    ManyTakesARun(Dot, PiecesOf(rest), path);
    forall n: nat | n <= |path|
      ensures SplitsAt(Dot, PiecesOf(rest), path, n) <==> OnOneLine(path[..n]) && Accepts(rest, path[n..])
    {
      PiecesAccept(rest, path[n..]);
    }
  }

  lemma StarAccepts(glob: string, path: string)
    requires glob != [] && glob[0] == '*' && !StartsDeep(glob)
    ensures Matches(PiecesOf(glob), path) <==> Accepts(glob, path)
    decreases |glob|, 0
  {
    ManyTakesARun(NotSlash, PiecesOf(glob[1..]), path);
    forall n: nat | n <= |path|
      ensures SplitsAt(NotSlash, PiecesOf(glob[1..]), path, n) <==> '/' !in path[..n] && Accepts(glob[1..], path[n..])
    {
      PiecesAccept(glob[1..], path[n..]);
    }
  }

  /** Compiled, read back and matched: exactly the paths the glob means. */
  lemma CompiledMeansTheGlob(glob: string, path: string)
    ensures Test("^" + Compiled(glob) + "$", path) <==> Accepts(glob, path)
  {
    var source := "^" + Compiled(glob) + "$";
    assert source[1..] == Compiled(glob) + "$";
    ReadsCompiled(glob);
    PiecesAccept(glob, path);
  }
}
