/** Five fields joined into one string with bars between them, and why two such strings are equal only
    when all five fields are. */
module SnapshotKeys {

  const BAR: char := '|'

  /** A string that cannot be mistaken for two fields. */
  type Field = s: string | BAR !in s witness ""

  /** The five fields of a key. Only `path`, which comes first, may hold a bar. */
  datatype Parts = Parts(path: string, version: nat, dirty: bool, language: Field, commit: Field)

  function Digit(n: nat): char
    requires n < 10
  {
    "0123456789"[n]
  }

  function Decimal(n: nat): (s: string)
    ensures s != "" && BAR !in s
  {
    if n < 10 then [Digit(n)] else Decimal(n / 10) + [Digit(n % 10)]
  }

  function Truth(b: bool): (s: string)
    ensures BAR !in s
  {
    if b then "true" else "false"
  }

  /** The fields joined with bars. */
  function KeyString(p: Parts): string {
    p.path + [BAR] + Decimal(p.version) + [BAR] + Truth(p.dirty) + [BAR] + p.language + [BAR] + p.commit
  }

  lemma {:induction false} DecimalInjective(m: nat, n: nat)
    requires Decimal(m) == Decimal(n)
    ensures m == n
    decreases m
  {
    var s := Decimal(m);
    assert s[|s| - 1] == Digit(m % 10) == Digit(n % 10);
    if m >= 10 && n >= 10 {
      assert Decimal(m / 10) == s[..|s| - 1] == Decimal(n / 10);
      DecimalInjective(m / 10, n / 10);
    }
  }

  /** The last bar of a string is where its last field starts. */
  lemma LastField(a: string, x: string, b: string, y: string)
    requires BAR !in x && BAR !in y
    requires a + [BAR] + x == b + [BAR] + y
    ensures a == b && x == y
  {
    var s := a + [BAR] + x;
    assert s[|a|] == BAR && s[|b|] == BAR;
    assert forall k :: |a| < k < |s| ==> s[k] == x[k - |a| - 1];
    assert forall k :: |b| < k < |s| ==> s[k] == y[k - |b| - 1];
    assert |a| == |b|;
    assert s[..|a|] == a && s[..|b|] == b;
    assert s[|a| + 1..] == x && s[|b| + 1..] == y;
  }

  /** Equal keys were built from equal parts, whatever bars the path holds. */
  lemma KeysTellPartsApart(p: Parts, q: Parts)
    requires KeyString(p) == KeyString(q)
    ensures p == q
  {
    var p1, q1 := p.path + [BAR] + Decimal(p.version), q.path + [BAR] + Decimal(q.version);
    var p2, q2 := p1 + [BAR] + Truth(p.dirty), q1 + [BAR] + Truth(q.dirty);
    var p3, q3 := p2 + [BAR] + p.language, q2 + [BAR] + q.language;
    LastField(p3, p.commit, q3, q.commit);
    LastField(p2, p.language, q2, q.language);
    LastField(p1, Truth(p.dirty), q1, Truth(q.dirty));
    LastField(p.path, Decimal(p.version), q.path, Decimal(q.version));
    DecimalInjective(p.version, q.version);
  }
}
