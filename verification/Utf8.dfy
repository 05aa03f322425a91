/** Text as characters with a UTF-8 width, and the byte positions a `&str` is sliced at. */
module Utf8 {

  /** The bytes a character takes in UTF-8. */
  function Width(c: char): (w: nat)
    ensures 1 <= w <= 4
  {
    if c as int < 0x80 then 1
    else if c as int < 0x800 then 2
    else if c as int < 0x1_0000 then 3
    else 4
  }

  /** The byte at which the `k`-th character starts, or the text ends. */
  function Off(s: string, k: nat): nat
    requires k <= |s|
  {
    if k == 0 then 0 else Off(s, k - 1) + Width(s[k - 1])
  }

  /** The length of a text in bytes. */
  function Bytes(s: string): nat { Off(s, |s|) }

  /** A byte position depends only on the text before it. */
  lemma {:induction false} OffShifts(s: string, i: nat, t: string, k: nat)
    requires i + k <= |s| && k <= |t|
    requires forall c :: 0 <= c < k ==> s[i + c] == t[c]
    ensures Off(s, i + k) == Off(s, i) + Off(t, k)
    decreases k
  {
    if k > 0 {
      OffShifts(s, i, t, k - 1);
      assert s[i + (k - 1)] == t[k - 1];
    }
  }

  lemma OffSplits(s: string, i: nat, j: nat)
    requires i <= j <= |s|
    ensures Off(s, j) == Off(s, i) + Bytes(s[i..j])
    ensures Off(s, i) <= Off(s, j)
  {
    OffShifts(s, i, s[i..j], j - i);
  }

  lemma BytesConcat(s: string, t: string)
    ensures Bytes(s + t) == Bytes(s) + Bytes(t)
  {
    OffShifts(s + t, 0, s, |s|);
    OffShifts(s + t, |s|, t, |t|);
  }

  lemma BytesPositive(s: string)
    ensures Bytes(s) == 0 <==> s == ""
  {
  }

  /** Byte positions order characters as their indices do. */
  lemma OffOrder(s: string, i: nat, j: nat)
    requires i <= |s| && j <= |s|
    ensures i < j <==> Off(s, i) < Off(s, j)
    ensures i == j <==> Off(s, i) == Off(s, j)
  {
    if i < j {
      OffSplits(s, i, j);
      BytesPositive(s[i..j]);
    } else if j < i {
      OffSplits(s, j, i);
      BytesPositive(s[j..i]);
    }
  }

  // ---- Slicing at bytes ----

  /** Byte `b` is where a character starts, or the end of the text. */
  ghost predicate IsBoundary(s: string, b: nat) {
    exists k :: 0 <= k <= |s| && Off(s, k) == b
  }

  /** The character that starts at byte `b`. */
  function CharAt(s: string, b: nat): (k: nat)
    requires IsBoundary(s, b)
    ensures k <= |s| && Off(s, k) == b
  {
    SomeIndex(s, b, |s|)
  }

  function SomeIndex(s: string, b: nat, n: nat): (k: nat)
    requires n <= |s| && exists k :: 0 <= k <= n && Off(s, k) == b
    ensures k <= n && Off(s, k) == b
  {
    if Off(s, n) == b then n else SomeIndex(s, b, n - 1)
  }

  /** `&s[from..to]`. Its preconditions are what the slice panics without. */
  function Slice(s: string, from: nat, to: nat): string
    requires IsBoundary(s, from) && IsBoundary(s, to) && from <= to
  {
    OffOrder(s, CharAt(s, to), CharAt(s, from));
    s[CharAt(s, from)..CharAt(s, to)]
  }

  lemma SliceAt(s: string, i: nat, j: nat)
    requires i <= j <= |s|
    ensures IsBoundary(s, Off(s, i)) && IsBoundary(s, Off(s, j)) && Off(s, i) <= Off(s, j)
    ensures Slice(s, Off(s, i), Off(s, j)) == s[i..j]
  {
    OffOrder(s, i, j);
    OffOrder(s, CharAt(s, Off(s, i)), i);
    OffOrder(s, CharAt(s, Off(s, j)), j);
  }

  // ---- Whitespace ----

  /** Unicode's White_Space property. */
  predicate IsSpace(c: char) {
    var n := c as int;
    || 0x09 <= n <= 0x0D || n == 0x20 || n == 0x85 || n == 0xA0 || n == 0x1680
    || 0x2000 <= n <= 0x200A || n == 0x2028 || n == 0x2029 || n == 0x202F || n == 0x205F || n == 0x3000
  }

  /** A text without its whitespace. */
  function Strip(s: string): string {
    if s == "" then ""
    else Strip(s[..|s| - 1]) + (if IsSpace(s[|s| - 1]) then "" else [s[|s| - 1]])
  }

  function TrimStart(s: string): string {
    if s != "" && IsSpace(s[0]) then TrimStart(s[1..]) else s
  }

  function TrimEnd(s: string): string {
    if s != "" && IsSpace(s[|s| - 1]) then TrimEnd(s[..|s| - 1]) else s
  }

  function Trim(s: string): string { TrimEnd(TrimStart(s)) }

  /** Trimming takes off exactly the whitespace at the ends. */
  lemma {:induction false} TrimStartTakes(s: string)
    ensures var n := |s| - |TrimStart(s)|;
            && 0 <= n <= |s| && TrimStart(s) == s[n..]
            && (forall c :: 0 <= c < n ==> IsSpace(s[c]))
            && (n < |s| ==> !IsSpace(s[n]))
    decreases |s|
  {
    if s != "" && IsSpace(s[0]) {
      TrimStartTakes(s[1..]);
      var m := |s[1..]| - |TrimStart(s[1..])|;
      assert forall c :: 0 <= c < m + 1 ==> s[c] == if c == 0 then s[0] else s[1..][c - 1];
    }
  }

  lemma {:induction false} TrimEndTakes(s: string)
    ensures var n := |TrimEnd(s)|;
            && n <= |s| && TrimEnd(s) == s[..n]
            && (forall c :: n <= c < |s| ==> IsSpace(s[c]))
            && (n > 0 ==> !IsSpace(s[n - 1]))
    decreases |s|
  {
    if s != "" && IsSpace(s[|s| - 1]) {
      TrimEndTakes(s[..|s| - 1]);
    }
  }
}
