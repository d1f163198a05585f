/** Three-way comparison, its lexicographic lifting, and SemVer precedence (section 11 of Semantic Versioning 2.0.0). */
module Orders {
  /** -1, 0 or 1; antisymmetric, transitive, and 0 only between equals. */
  ghost predicate Total<T(!new)>(cmp: (T, T) -> int) {
    && (forall a, b :: cmp(a, b) == -cmp(b, a) && -1 <= cmp(a, b) <= 1)
    && (forall a, b :: cmp(a, b) == 0 <==> a == b)
    && (forall a, b, c {:trigger cmp(a, b), cmp(b, c)} :: cmp(a, b) <= 0 && cmp(b, c) <= 0 ==> cmp(a, c) <= 0)
  }

  function Lex<T>(cmp: (T, T) -> int, a: seq<T>, b: seq<T>): int {
    if a == [] && b == [] then 0
    else if a == [] then -1
    else if b == [] then 1
    else if cmp(a[0], b[0]) != 0 then cmp(a[0], b[0])
    else Lex(cmp, a[1..], b[1..])
  }

  lemma {:induction false} LexSwaps<T(!new)>(cmp: (T, T) -> int, a: seq<T>, b: seq<T>)
    requires Total(cmp)
    ensures Lex(cmp, a, b) == -Lex(cmp, b, a) && -1 <= Lex(cmp, a, b) <= 1
    ensures Lex(cmp, a, b) == 0 <==> a == b
  {
    if a != [] && b != [] {
      LexSwaps(cmp, a[1..], b[1..]);
      assert a == [a[0]] + a[1..] && b == [b[0]] + b[1..];
    }
  }

  lemma {:induction false} LexTransitive<T(!new)>(cmp: (T, T) -> int, a: seq<T>, b: seq<T>, c: seq<T>)
    requires Total(cmp) && Lex(cmp, a, b) <= 0 && Lex(cmp, b, c) <= 0
    ensures Lex(cmp, a, c) <= 0
  {
    if a != [] && b != [] && c != [] {
      var x, y, z := a[0], b[0], c[0];
      assert cmp(x, y) <= 0 && cmp(y, z) <= 0;
      assert cmp(x, z) <= 0;
      if cmp(x, z) == 0 {
        assert cmp(y, x) <= 0;
        LexTransitive(cmp, a[1..], b[1..], c[1..]);
      }
    }
  }

  function CompareInt(a: int, b: int): int {
    if a < b then -1 else if a > b then 1 else 0
  }

  function CompareChar(a: char, b: char): int {
    if a < b then -1 else if a > b then 1 else 0
  }

  function CompareText(a: string, b: string): int { Lex(CompareChar, a, b) }

  /** A dot-separated identifier: numeric or alphanumeric. */
  datatype Ident = Num(n: nat) | Text(s: string)

  /** Numbers numerically, texts in ASCII order, every number before every text. */
  function CompareIdent(a: Ident, b: Ident): int {
    match (a, b)
    case (Num(m), Num(n)) => CompareInt(m, n)
    case (Num(_), Text(_)) => -1
    case (Text(_), Num(_)) => 1
    case (Text(s), Text(t)) => CompareText(s, t)
  }

  datatype Version = Version(major: nat, minor: nat, patch: nat, pre: seq<Ident>)

  /** SemVer precedence: the release numbers, then a pre-release before its release, then its identifiers. */
  function Compare(v: Version, w: Version): int {
    if v.major != w.major then CompareInt(v.major, w.major)
    else if v.minor != w.minor then CompareInt(v.minor, w.minor)
    else if v.patch != w.patch then CompareInt(v.patch, w.patch)
    else if v.pre == [] && w.pre == [] then 0
    else if v.pre == [] then 1
    else if w.pre == [] then -1
    else Lex(CompareIdent, v.pre, w.pre)
  }

  lemma TextTotal()
    ensures Total(CompareText)
  {
    forall a, b ensures CompareText(a, b) == -CompareText(b, a) && -1 <= CompareText(a, b) <= 1 && (CompareText(a, b) == 0 <==> a == b) {
      LexSwaps(CompareChar, a, b);
    }
    forall a, b, c | CompareText(a, b) <= 0 && CompareText(b, c) <= 0 ensures CompareText(a, c) <= 0 {
      LexTransitive(CompareChar, a, b, c);
    }
  }

  lemma IdentTotal()
    ensures Total(CompareText) && Total(CompareIdent)
  {
    TextTotal();
    forall a, b, c | CompareIdent(a, b) <= 0 && CompareIdent(b, c) <= 0 ensures CompareIdent(a, c) <= 0 {
      if a.Text? && c.Text? { assert b.Text? && CompareText(a.s, b.s) <= 0 && CompareText(b.s, c.s) <= 0; }
    }
    assert forall a: Ident, b: Ident :: CompareIdent(a, b) == 0 <==> a == b;
  }

  /** Precedence is a total order on versions without build metadata. */
  lemma PrecedenceTotal()
    ensures Total(Compare)
  {
    IdentTotal();
    forall v, w ensures Compare(v, w) == -Compare(w, v) && -1 <= Compare(v, w) <= 1 && (Compare(v, w) == 0 <==> v == w) {
      LexSwaps(CompareIdent, v.pre, w.pre);
    }
    forall u, v, w | Compare(u, v) <= 0 && Compare(v, w) <= 0 ensures Compare(u, w) <= 0 {
      if Lex(CompareIdent, u.pre, v.pre) <= 0 && Lex(CompareIdent, v.pre, w.pre) <= 0 {
        LexTransitive(CompareIdent, u.pre, v.pre, w.pre);
      }
    }
  }

  // ---------------------------------------------------------------- what comes first

  /** One is a proper beginning of the other, or where they first differ its element comes first. */
  ghost predicate Before<T(!new)>(less: (T, T) -> bool, a: seq<T>, b: seq<T>) {
    exists i :: 0 <= i <= |a| && i < |b| && a[..i] == b[..i] && (i < |a| ==> less(a[i], b[i]))
  }

  ghost predicate TextBefore(a: string, b: string) { Before((x: char, y: char) => x < y, a, b) }

  /** Numbers by value, numbers before texts, texts in ASCII order. */
  ghost predicate IdentBefore(a: Ident, b: Ident) {
    match (a, b)
    case (Num(m), Num(n)) => m < n
    case (Num(_), Text(_)) => true
    case (Text(_), Num(_)) => false
    case (Text(s), Text(t)) => TextBefore(s, t)
  }

  /** The older version: by major, then minor, then patch number; then a pre-release is older than its release. */
  ghost predicate Precedes(v: Version, w: Version) {
    || v.major < w.major
    || (v.major == w.major && v.minor < w.minor)
    || (v.major == w.major && v.minor == w.minor && v.patch < w.patch)
    || (v.major == w.major && v.minor == w.minor && v.patch == w.patch && v.pre != []
        && (w.pre == [] || Before(IdentBefore, v.pre, w.pre)))
  }

  lemma BeforeTail<T(!new)>(less: (T, T) -> bool, a: seq<T>, b: seq<T>)
    requires a != [] && b != [] && a[0] == b[0] && !less(a[0], b[0])
    ensures Before(less, a, b) <==> Before(less, a[1..], b[1..])
  {
    if i :| 0 <= i <= |a| && i < |b| && a[..i] == b[..i] && (i < |a| ==> less(a[i], b[i])) {
      assert i > 0;
      assert a[1..][..i - 1] == a[..i][1..] && b[1..][..i - 1] == b[..i][1..];
    }
    if i :| 0 <= i <= |a[1..]| && i < |b[1..]| && a[1..][..i] == b[1..][..i] && (i < |a[1..]| ==> less(a[1..][i], b[1..][i])) {
      assert a[..i + 1] == [a[0]] + a[1..][..i] && b[..i + 1] == [b[0]] + b[1..][..i];
    }
  }

  lemma BeforeHead<T(!new)>(less: (T, T) -> bool, a: seq<T>, b: seq<T>)
    requires a != [] && b != [] && a[0] != b[0]
    ensures Before(less, a, b) <==> less(a[0], b[0])
  {
    forall i | 0 < i <= |a| && i < |b| ensures a[..i] != b[..i] {
      assert a[..i][0] == a[0] && b[..i][0] == b[0];
    }
    if less(a[0], b[0]) { assert a[..0] == b[..0]; }
  }

  lemma BeforeEmpty<T(!new)>(less: (T, T) -> bool, a: seq<T>, b: seq<T>)
    requires a == [] || b == []
    ensures Before(less, a, b) <==> b != []
  {
    if b != [] { assert a[..0] == b[..0]; }
  }

  lemma {:induction false} LexMeaning<T(!new)>(cmp: (T, T) -> int, less: (T, T) -> bool, a: seq<T>, b: seq<T>)
    requires Total(cmp) && forall x, y :: less(x, y) <==> cmp(x, y) < 0
    ensures Lex(cmp, a, b) < 0 <==> Before(less, a, b)
  {
    if a == [] || b == [] {
      BeforeEmpty(less, a, b);
    } else if a[0] == b[0] {
      BeforeTail(less, a, b);
      LexMeaning(cmp, less, a[1..], b[1..]);
    } else {
      BeforeHead(less, a, b);
    }
  }

  lemma IdentMeaning(a: Ident, b: Ident)
    ensures CompareIdent(a, b) < 0 <==> IdentBefore(a, b)
  {
    if a.Text? && b.Text? { LexMeaning(CompareChar, (x: char, y: char) => x < y, a.s, b.s); }
  }

  /** The comparison is negative exactly when the first version is the older one. */
  lemma CompareMeaning(v: Version, w: Version)
    ensures Compare(v, w) < 0 <==> Precedes(v, w)
    ensures Compare(v, w) == 0 <==> v == w
    ensures Compare(v, w) == 1 <==> Precedes(w, v)
  {
    PrecedenceTotal();
    OlderMeaning(v, w);
    OlderMeaning(w, v);
  }

  lemma OlderMeaning(v: Version, w: Version)
    ensures Compare(v, w) < 0 <==> Precedes(v, w)
  {
    IdentTotal();
    forall a, b ensures IdentBefore(a, b) <==> CompareIdent(a, b) < 0 { IdentMeaning(a, b); }
    LexMeaning(CompareIdent, IdentBefore, v.pre, w.pre);
  }
}
