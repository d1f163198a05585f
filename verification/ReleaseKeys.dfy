/** The sort key of release directories and the choice of the latest one, hack/resolve_release.py. */
module ReleaseKeys {
  import opened Basics
  import opened Orders

  // ---------------------------------------------------------------- text

  predicate IsDigit(c: char) { '0' <= c <= '9' }

  predicate IsDigits(s: string) { s != [] && forall i :: 0 <= i < |s| ==> IsDigit(s[i]) }

  /** The number a string of digits stands for, leading zeros allowed. */
  function Value(s: string): nat
    requires forall i :: 0 <= i < |s| ==> IsDigit(s[i])
  {
    if s == [] then 0
    else assert IsDigit(s[|s| - 1]); Value(s[..|s| - 1]) * 10 + (s[|s| - 1] as nat - '0' as nat)
  }

  function Decimal(n: nat): string {
    if n < 10 then ['0' + n as char] else Decimal(n / 10) + ['0' + (n % 10) as char]
  }

  lemma {:induction false} DecimalReadsBack(n: nat)
    ensures IsDigits(Decimal(n)) && Value(Decimal(n)) == n
  {
    if n >= 10 {
      DecimalReadsBack(n / 10);
      assert Decimal(n)[..|Decimal(n)| - 1] == Decimal(n / 10);
    } else {
      assert Decimal(n)[..0] == [];
    }
  }

  /** The pieces of a string between the separators, always at least one. */
  function Split(sep: char -> bool, s: string): (parts: seq<string>)
    ensures |parts| > 0
  {
    if s == [] then [""]
    else
      var rest := Split(sep, s[1..]);
      if sep(s[0]) then [""] + rest else [[s[0]] + rest[0]] + rest[1..]
  }

  function Join(parts: seq<string>): string
    requires |parts| > 0
  {
    if |parts| == 1 then parts[0] else parts[0] + ['.'] + Join(parts[1..])
  }

  /** What comes before and after the first hyphen; everything and nothing where there is none. */
  function Partition(s: string): (string, string) {
    if s == [] then ("", "")
    else if s[0] == '-' then ("", s[1..])
    else var (a, b) := Partition(s[1..]); ([s[0]] + a, b)
  }

  // ---------------------------------------------------------------- the key

  /** The tagged tuples: 0 for a number, 1 for a text, 2 for a release without pre-release. */
  datatype Tagged = Id(id: Ident) | Top

  datatype Key = Key(release: seq<Ident>, pre: seq<Tagged>)

  function Classify(part: string): Ident {
    if IsDigits(part) then Num(Value(part)) else Text(part)
  }

  function ClassifyAll(parts: seq<string>): seq<Ident> {
    seq(|parts|, i requires 0 <= i < |parts| => Classify(parts[i]))
  }

  function Tag(ids: seq<Ident>): seq<Tagged> { seq(|ids|, i requires 0 <= i < |ids| => Id(ids[i])) }

  predicate IsDot(c: char) { c == '.' }
  predicate IsHyphen(c: char) { c == '-' }
  predicate IsDotOrHyphen(c: char) { IsDot(c) || IsHyphen(c) }

  function VersionKey(name: string): Key {
    var (release, pre) := Partition(name);
    Key(ClassifyAll(Split(IsDot, release)),
        if pre == [] then [Top] else Tag(ClassifyAll(Split(IsDotOrHyphen, pre))))
  }

  function CompareTagged(a: Tagged, b: Tagged): int {
    match (a, b)
    case (Id(x), Id(y)) => CompareIdent(x, y)
    case (Id(_), Top) => -1
    case (Top, Id(_)) => 1
    case (Top, Top) => 0
  }

  /** Tuples compare element by element. */
  function CompareKey(k: Key, l: Key): int {
    var c := Lex(CompareIdent, k.release, l.release);
    if c != 0 then c else Lex(CompareTagged, k.pre, l.pre)
  }

  lemma TaggedTotal()
    ensures Total(CompareIdent) && Total(CompareTagged)
  {
    IdentTotal();
    forall a, b, c | CompareTagged(a, b) <= 0 && CompareTagged(b, c) <= 0 ensures CompareTagged(a, c) <= 0 {
      if a.Id? && c.Id? { assert CompareIdent(a.id, b.id) <= 0 && CompareIdent(b.id, c.id) <= 0; }
    }
    assert forall a: Tagged, b: Tagged :: CompareTagged(a, b) == 0 <==> a == b;
  }

  /** Any two names compare, one way or the other, and the comparison is transitive. */
  lemma KeysTotal()
    ensures Total(CompareKey)
  {
    TaggedTotal();
    forall k, l ensures CompareKey(k, l) == -CompareKey(l, k) && -1 <= CompareKey(k, l) <= 1 && (CompareKey(k, l) == 0 <==> k == l) {
      LexSwaps(CompareIdent, k.release, l.release);
      LexSwaps(CompareTagged, k.pre, l.pre);
    }
    forall k, l, m | CompareKey(k, l) <= 0 && CompareKey(l, m) <= 0 ensures CompareKey(k, m) <= 0 {
      KeyTransitive(k, l, m);
    }
  }

  lemma KeyTransitive(k: Key, l: Key, m: Key)
    requires Total(CompareIdent) && Total(CompareTagged)
    requires CompareKey(k, l) <= 0 && CompareKey(l, m) <= 0
    ensures CompareKey(k, m) <= 0
  {
    LexTransitive(CompareIdent, k.release, l.release, m.release);
    LexSwaps(CompareIdent, k.release, m.release);
    LexSwaps(CompareIdent, k.release, l.release);
    LexSwaps(CompareIdent, l.release, m.release);
    if k.release == m.release {
      LexSwaps(CompareIdent, m.release, l.release);
      LexTransitive(CompareTagged, k.pre, l.pre, m.pre);
    }
  }

  // ---------------------------------------------------------------- agreement with SemVer

  function Show(id: Ident): string {
    match id
    case Num(n) => Decimal(n)
    case Text(s) => s
  }

  function ShowAll(ids: seq<Ident>): (parts: seq<string>)
    ensures |parts| == |ids|
  {
    seq(|ids|, i requires 0 <= i < |ids| => Show(ids[i]))
  }

  function Numbers(v: Version): seq<Ident> { [Num(v.major), Num(v.minor), Num(v.patch)] }

  function Render(v: Version): string {
    Join(ShowAll(Numbers(v))) + if v.pre == [] then "" else "-" + Join(ShowAll(v.pre))
  }

  /** A text identifier is not empty, not a number and holds no dot. */
  predicate ProperIdent(id: Ident) {
    id.Text? ==> id.s != [] && !IsDigits(id.s) && '.' !in id.s
  }

  predicate Proper(v: Version) { forall i :: 0 <= i < |v.pre| ==> ProperIdent(v.pre[i]) }

  predicate NoHyphen(v: Version) { forall i :: 0 <= i < |v.pre| && v.pre[i].Text? ==> '-' !in v.pre[i].s }

  /** An identifier taken apart at its hyphens. */
  function Pieces(id: Ident): seq<Ident> {
    match id
    case Num(_) => [id]
    case Text(s) => ClassifyAll(Split(IsHyphen, s))
  }

  function AllPieces(ids: seq<Ident>): seq<Ident> {
    if ids == [] then [] else Pieces(ids[0]) + AllPieces(ids[1..])
  }

  /** The version with hyphens in its pre-release turned into dots. */
  function Undashed(v: Version): Version { v.(pre := AllPieces(v.pre)) }

  lemma {:induction false} PartitionAt(a: string, b: string)
    requires '-' !in a
    ensures Partition(a + "-" + b) == (a, b) && Partition(a) == (a, "")
  {
    if a == [] {
      assert a + "-" + b == "-" + b;
    } else {
      PartitionAt(a[1..], b);
      assert (a + "-" + b)[1..] == a[1..] + "-" + b && a == [a[0]] + a[1..];
    }
  }

  lemma {:induction false} SplitAt(sep: char -> bool, a: string, c: char, b: string)
    requires sep(c)
    ensures Split(sep, a + [c] + b) == Split(sep, a) + Split(sep, b)
  {
    if a == [] {
      assert (a + [c] + b)[1..] == b;
    } else {
      assert (a + [c] + b)[1..] == a[1..] + [c] + b;
      SplitAt(sep, a[1..], c, b);
    }
  }

  lemma {:induction false} SplitNowhere(sep: char -> bool, s: string)
    requires forall c :: c in s ==> !sep(c)
    ensures Split(sep, s) == [s]
  {
    if s != [] {
      SplitNowhere(sep, s[1..]);
      assert s == [s[0]] + s[1..];
    }
  }

  lemma {:induction false} SplitAtHyphensOnly(s: string)
    requires '.' !in s
    ensures Split(IsDotOrHyphen, s) == Split(IsHyphen, s)
  {
    if s != [] { SplitAtHyphensOnly(s[1..]); }
  }

  lemma DigitsAreOnePiece(n: nat)
    ensures Classify(Decimal(n)) == Num(n) && '-' !in Decimal(n)
    ensures Split(IsDotOrHyphen, Decimal(n)) == [Decimal(n)] && Split(IsDot, Decimal(n)) == [Decimal(n)]
  {
    DecimalReadsBack(n);
    assert forall c :: c in Decimal(n) ==> IsDigit(c);
    SplitNowhere(IsDotOrHyphen, Decimal(n));
    SplitNowhere(IsDot, Decimal(n));
  }

  lemma PiecesOfOne(id: Ident)
    requires ProperIdent(id)
    ensures ClassifyAll(Split(IsDotOrHyphen, Show(id))) == Pieces(id)
    ensures id.Text? && '-' !in id.s ==> Pieces(id) == [id]
  {
    match id
    case Num(n) => DigitsAreOnePiece(n);
    case Text(s) =>
      SplitAtHyphensOnly(s);
      if '-' !in s { SplitNowhere(IsHyphen, s); }
  }

  /** Printing and splitting again, one identifier at a time. */
  lemma SplitJoined(sep: char -> bool, ids: seq<Ident>)
    requires |ids| > 1 && sep('.')
    ensures ClassifyAll(Split(sep, Join(ShowAll(ids)))) ==
            ClassifyAll(Split(sep, Show(ids[0]))) + ClassifyAll(Split(sep, Join(ShowAll(ids[1..]))))
    ensures Join(ShowAll(ids)) == Show(ids[0]) + ['.'] + Join(ShowAll(ids[1..]))
  {
    assert ShowAll(ids)[1..] == ShowAll(ids[1..]);
    SplitAt(sep, Show(ids[0]), '.', Join(ShowAll(ids[1..])));
  }

  lemma {:induction false} PiecesOfAll(ids: seq<Ident>)
    requires ids != [] && forall i :: 0 <= i < |ids| ==> ProperIdent(ids[i])
    ensures ClassifyAll(Split(IsDotOrHyphen, Join(ShowAll(ids)))) == AllPieces(ids)
    ensures Join(ShowAll(ids)) != []
  {
    PiecesOfOne(ids[0]);
    if |ids| == 1 {
      assert AllPieces(ids[1..]) == [];
      assert Join(ShowAll(ids)) == Show(ids[0]);
      if ids[0].Num? { DecimalReadsBack(ids[0].n); }
    } else {
      SplitJoined(IsDotOrHyphen, ids);
      PiecesOfAll(ids[1..]);
    }
  }

  lemma {:induction false} UndashedKeeps(ids: seq<Ident>)
    requires forall i :: 0 <= i < |ids| ==> ProperIdent(ids[i])
    requires forall i :: 0 <= i < |ids| && ids[i].Text? ==> '-' !in ids[i].s
    ensures AllPieces(ids) == ids
  {
    if ids != [] {
      PiecesOfOne(ids[0]);
      assert Pieces(ids[0]) == [ids[0]];
      UndashedKeeps(ids[1..]);
      assert ids == [ids[0]] + ids[1..];
    }
  }

  lemma {:induction false} NumbersSplit(ids: seq<Ident>)
    requires ids != [] && forall i :: 0 <= i < |ids| ==> ids[i].Num?
    ensures var text := Join(ShowAll(ids)); '-' !in text && ClassifyAll(Split(IsDot, text)) == ids
  {
    DigitsAreOnePiece(ids[0].n);
    if |ids| > 1 {
      SplitJoined(IsDot, ids);
      NumbersSplit(ids[1..]);
    }
  }

  /** The key of a printed version holds its numbers and the pieces of its pre-release. */
  lemma KeyOfRendered(v: Version)
    requires Proper(v)
    ensures VersionKey(Render(v)) == Key(Numbers(v), if v.pre == [] then [Top] else Tag(AllPieces(v.pre)))
  {
    var text := Join(ShowAll(Numbers(v)));
    NumbersSplit(Numbers(v));
    if v.pre == [] {
      PartitionAt(text, "");
      assert Render(v) == text;
    } else {
      var pre := Join(ShowAll(v.pre));
      PartitionAt(text, pre);
      assert Render(v) == text + "-" + pre;
      PiecesOfAll(v.pre);
    }
  }

  lemma {:induction false} TagsCompare(a: seq<Ident>, b: seq<Ident>)
    ensures Lex(CompareTagged, Tag(a), Tag(b)) == Lex(CompareIdent, a, b)
  {
    if a != [] && b != [] {
      assert Tag(a)[1..] == Tag(a[1..]) && Tag(b)[1..] == Tag(b[1..]);
      TagsCompare(a[1..], b[1..]);
    }
  }

  lemma NumbersCompare(v: Version, w: Version)
    ensures Lex(CompareIdent, Numbers(v), Numbers(w)) ==
              if v.major != w.major then CompareInt(v.major, w.major)
              else if v.minor != w.minor then CompareInt(v.minor, w.minor)
              else CompareInt(v.patch, w.patch)
  {
    var a, b := Numbers(v), Numbers(w);
    assert a[1..][1..] == [Num(v.patch)] && b[1..][1..] == [Num(w.patch)];
    assert a[1..][1..][1..] == [] && b[1..][1..][1..] == [];
    assert Lex(CompareIdent, a[1..][1..], b[1..][1..]) == CompareInt(v.patch, w.patch);
    assert a[1..][0] == Num(v.minor) && b[1..][0] == Num(w.minor);
  }

  lemma PiecesExist(v: Version)
    requires Proper(v) && v.pre != []
    ensures AllPieces(v.pre) != []
  {
    PiecesOfAll(v.pre);
  }

  /** For every pair of versions the keys of their names order them as SemVer orders them with dots for hyphens. */
  lemma KeyOrderIsUndashedPrecedence(v: Version, w: Version)
    requires Proper(v) && Proper(w)
    ensures CompareKey(VersionKey(Render(v)), VersionKey(Render(w))) == Compare(Undashed(v), Undashed(w))
  {
    KeyOfRendered(v); KeyOfRendered(w);
    NumbersCompare(v, w);
    var a, b := AllPieces(v.pre), AllPieces(w.pre);
    if v.pre != [] { PiecesExist(v); assert Tag(a)[0] == Id(a[0]); }
    if w.pre != [] { PiecesExist(w); assert Tag(b)[0] == Id(b[0]); }
    TagsCompare(a, b);
    assert v.pre == [] && w.pre == [] ==> Lex(CompareTagged, [Top], [Top]) == 0;
  }

  /** Without hyphens inside pre-release identifiers that is SemVer precedence itself. */
  lemma KeyOrderIsPrecedence(v: Version, w: Version)
    requires Proper(v) && Proper(w) && NoHyphen(v) && NoHyphen(w)
    ensures CompareKey(VersionKey(Render(v)), VersionKey(Render(w))) == Compare(v, w)
    ensures CompareKey(VersionKey(Render(v)), VersionKey(Render(w))) < 0 <==> Precedes(v, w)
  {
    CompareMeaning(v, w);
    KeyOrderIsUndashedPrecedence(v, w);
    UndashedKeeps(v.pre);
    UndashedKeeps(w.pre);
  }

  /** With one they can disagree: 1.0.0-a-b and 1.0.0-a.b have the same key and not the same precedence. */
  lemma HyphensDisagree()
    ensures var v, w := Version(1, 0, 0, [Text("a-b")]), Version(1, 0, 0, [Text("a"), Text("b")]);
            Proper(v) && Proper(w) && VersionKey(Render(v)) == VersionKey(Render(w)) && Compare(v, w) == 1
  {
    var v, w := Version(1, 0, 0, [Text("a-b")]), Version(1, 0, 0, [Text("a"), Text("b")]);
    SplitNowhere(IsHyphen, "a");
    SplitNowhere(IsHyphen, "b");
    SplitAt(IsHyphen, "a", '-', "b");
    assert "a" + ['-'] + "b" == "a-b";
    assert Split(IsHyphen, "a-b") == ["a", "b"];
    assert !IsDigit("a"[0]) && !IsDigit("b"[0]) && !IsDigit("a-b"[0]);
    assert AllPieces(v.pre) == [Text("a"), Text("b")] by { assert v.pre[1..] == []; }
    UndashedKeeps(w.pre);
    KeyOfRendered(v); KeyOfRendered(w);
    assert "a-b"[0] == "a"[0] && "a-b"[1..] != "" && "a"[1..] == "";
    assert CompareText("a-b", "a") == 1;
  }

  // ---------------------------------------------------------------- the latest directory

  function CompareNames(a: string, b: string): int { CompareKey(VersionKey(a), VersionKey(b)) }

  const Doomed: string := "-to-delete"

  predicate EndsWith(s: string, end: string) { |s| >= |end| && s[|s| - |end|..] == end }

  function Kept(dirs: seq<string>): (r: seq<string>)
    ensures forall d :: d in r <==> d in dirs && !EndsWith(d, Doomed)
  {
    if dirs == [] then []
    else if EndsWith(dirs[0], Doomed) then Kept(dirs[1..])
    else [dirs[0]] + Kept(dirs[1..])
  }

  ghost predicate Preorder<T(!new)>(cmp: (T, T) -> int) {
    && (forall a, b :: cmp(a, b) == -cmp(b, a))
    && (forall a, b, c {:trigger cmp(a, b), cmp(b, c)} :: cmp(a, b) <= 0 && cmp(b, c) <= 0 ==> cmp(a, c) <= 0)
  }

  /** A stable sort: each item goes behind those that are not above it. */
  function Insert<T>(cmp: (T, T) -> int, sorted: seq<T>, x: T): (r: seq<T>)
    ensures r != [] && multiset(r) == multiset(sorted) + multiset{x}
  {
    var last := |sorted| - 1;
    if last < 0 || cmp(sorted[last], x) <= 0 then sorted + [x]
    else
      assert sorted == sorted[..last] + [sorted[last]];
      Insert(cmp, sorted[..last], x) + [sorted[last]]
  }

  function Sorted<T>(cmp: (T, T) -> int, items: seq<T>): (r: seq<T>)
    ensures multiset(r) == multiset(items)
  {
    if items == [] then []
    else
      var last := |items| - 1;
      assert items == items[..last] + [items[last]];
      Insert(cmp, Sorted(cmp, items[..last]), items[last])
  }

  function LatestDir(dirs: seq<string>): Option<string> {
    var sorted := Sorted(CompareNames, Kept(dirs));
    if sorted == [] then None else Some(sorted[|sorted| - 1])
  }

  predicate Ordered<T>(cmp: (T, T) -> int, items: seq<T>) {
    forall i, j :: 0 <= i < j < |items| ==> cmp(items[i], items[j]) <= 0
  }

  predicate Below<T>(cmp: (T, T) -> int, items: seq<T>, x: T) {
    forall i :: 0 <= i < |items| ==> cmp(items[i], x) <= 0
  }

  lemma AppendKeepsOrder<T>(cmp: (T, T) -> int, items: seq<T>, x: T)
    requires Ordered(cmp, items) && Below(cmp, items, x)
    ensures Ordered(cmp, items + [x])
  {
    var r := items + [x];
    forall i, j | 0 <= i < j < |r| ensures cmp(r[i], r[j]) <= 0 {
      assert r[i] == items[i];
    }
  }

  lemma InsertStaysBelow<T>(cmp: (T, T) -> int, sorted: seq<T>, x: T, top: T)
    requires Below(cmp, sorted, top) && cmp(x, top) <= 0
    ensures Below(cmp, Insert(cmp, sorted, x), top)
  {
    var r := Insert(cmp, sorted, x);
    forall i | 0 <= i < |r| ensures cmp(r[i], top) <= 0 {
      assert r[i] in multiset(r) && (r[i] == x || r[i] in sorted);
    }
  }

  lemma {:induction false} InsertKeepsOrder<T(!new)>(cmp: (T, T) -> int, sorted: seq<T>, x: T)
    requires Preorder(cmp) && Ordered(cmp, sorted)
    ensures Ordered(cmp, Insert(cmp, sorted, x))
  {
    if sorted == [] { return; }
    var before, top := sorted[..|sorted| - 1], sorted[|sorted| - 1];
    assert Below(cmp, before, top);
    if cmp(top, x) <= 0 {
      assert Below(cmp, sorted, x) by {
        forall i | 0 <= i < |sorted| - 1 ensures cmp(sorted[i], x) <= 0 { assert cmp(sorted[i], top) <= 0; }
      }
      AppendKeepsOrder(cmp, sorted, x);
    } else {
      assert cmp(x, top) == -cmp(top, x);
      InsertKeepsOrder(cmp, before, x);
      InsertStaysBelow(cmp, before, x, top);
      AppendKeepsOrder(cmp, Insert(cmp, before, x), top);
    }
  }

  lemma {:induction false} SortedIsOrdered<T(!new)>(cmp: (T, T) -> int, items: seq<T>)
    requires Preorder(cmp)
    ensures Ordered(cmp, Sorted(cmp, items))
  {
    if items != [] {
      var last := |items| - 1;
      SortedIsOrdered(cmp, items[..last]);
      InsertKeepsOrder(cmp, Sorted(cmp, items[..last]), items[last]);
    }
  }

  lemma LastSorted<T>(cmp: (T, T) -> int, items: seq<T>)
    requires |items| > 1
    ensures var before, x := Sorted(cmp, items[..|items| - 1]), items[|items| - 1];
            var sorted := Sorted(cmp, items);
            before != [] && sorted != []
            && sorted[|sorted| - 1] == if cmp(before[|before| - 1], x) <= 0 then x else before[|before| - 1]
  {
    assert items[..|items| - 1][0] in multiset(items[..|items| - 1]);
  }

  /** The item is a maximum, and no later one equals it. */
  predicate LastMaximum<T>(cmp: (T, T) -> int, items: seq<T>, i: nat) {
    && i < |items|
    && (forall j :: 0 <= j < |items| ==> cmp(items[j], items[i]) <= 0)
    && (forall j :: i < j < |items| ==> cmp(items[j], items[i]) < 0)
  }

  lemma MaximumSoFar<T(!new)>(cmp: (T, T) -> int, items: seq<T>, k: nat)
    requires Preorder(cmp) && |items| > 1 && LastMaximum(cmp, items[..|items| - 1], k)
    ensures LastMaximum(cmp, items, if cmp(items[k], items[|items| - 1]) <= 0 then |items| - 1 else k)
  {
    var last := |items| - 1;
    var before := items[..last];
    assert cmp(items[last], items[last]) == 0;
    forall j | 0 <= j < last ensures cmp(items[j], items[k]) <= 0 && (j > k ==> cmp(items[j], items[k]) < 0) {
      assert before[j] == items[j] && before[k] == items[k];
    }
  }

  /** The last of the sorted items is a maximum, and of the equal maxima the one listed last. */
  lemma {:induction false} LastIsMaximum<T(!new)>(cmp: (T, T) -> int, items: seq<T>) returns (i: nat)
    requires Preorder(cmp) && items != []
    ensures LastMaximum(cmp, items, i)
    ensures var sorted := Sorted(cmp, items); sorted != [] && sorted[|sorted| - 1] == items[i]
  {
    var last := |items| - 1;
    if last == 0 {
      i := 0;
      assert Sorted(cmp, items[..0]) == [] && cmp(items[0], items[0]) == 0;
    } else {
      var k := LastIsMaximum(cmp, items[..last]);
      MaximumSoFar(cmp, items, k);
      LastSorted(cmp, items);
      i := if cmp(items[k], items[last]) <= 0 then last else k;
    }
  }

  lemma NamesOrdered()
    ensures Preorder(CompareNames)
  {
    KeysTotal();
    forall a, b ensures CompareNames(a, b) == -CompareNames(b, a) {
      assert CompareKey(VersionKey(a), VersionKey(b)) == -CompareKey(VersionKey(b), VersionKey(a));
    }
    forall a, b, c | CompareNames(a, b) <= 0 && CompareNames(b, c) <= 0 ensures CompareNames(a, c) <= 0 {
      var k, l, m := VersionKey(a), VersionKey(b), VersionKey(c);
      assert CompareKey(k, l) <= 0 && CompareKey(l, m) <= 0;
    }
  }

  /** Flagged for deletion: some name with this ending. */
  ghost predicate Flagged(d: string) { exists name: string :: d == name + "-to-delete" }

  lemma FlaggedMeaning(d: string)
    ensures EndsWith(d, Doomed) <==> Flagged(d)
  {
    if EndsWith(d, Doomed) { assert d == d[..|d| - |Doomed|] + "-to-delete"; }
  }

  /** The directory chosen is none flagged for deletion and a maximum of the others; none is chosen only where none is left. */
  lemma LatestIsMaximum(dirs: seq<string>)
    ensures LatestDir(dirs).None? <==> forall d :: d in dirs ==> Flagged(d)
    ensures LatestDir(dirs).Some? ==>
              var latest := LatestDir(dirs).value;
              && latest in dirs && !Flagged(latest)
              && forall d :: d in dirs && !Flagged(d) ==> CompareNames(d, latest) <= 0
  {
    var kept := Kept(dirs);
    forall d ensures EndsWith(d, Doomed) <==> Flagged(d) { FlaggedMeaning(d); }
    if kept != [] {
      assert kept[0] in dirs && !EndsWith(kept[0], Doomed);
      NamesOrdered();
      var i := LastIsMaximum(CompareNames, kept);
      assert kept[i] in kept;
      forall d | d in dirs && !EndsWith(d, Doomed) ensures CompareNames(d, kept[i]) <= 0 {
        assert d in kept;
      }
    } else {
      assert forall d :: d in dirs ==> EndsWith(d, Doomed) || d in kept;
    }
  }

  /** Among names of versions without hyphens inside pre-release identifiers, none chosen over a later one. */
  lemma LatestIsNotOlder(dirs: seq<string>, v: Version, w: Version)
    requires Proper(v) && Proper(w) && NoHyphen(v) && NoHyphen(w)
    requires LatestDir(dirs) == Some(Render(w)) && Render(v) in dirs && !Flagged(Render(v))
    ensures !Precedes(w, v)
  {
    LatestIsMaximum(dirs);
    KeyOrderIsPrecedence(v, w);
    CompareMeaning(v, w);
  }
}
