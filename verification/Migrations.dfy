/** Version order and the selection of migrations to run (scripts/run-migrations.ts). */
module Migrations {
  import opened Arithmetic
  import opened Texts

  /** A version name and the numbers between its dots; a part that is no number counts as 0. */
  datatype Version = Version(name: string, parts: seq<real>)

  function Numbers(parts: seq<string>, num: string -> real): (r: seq<real>)
    ensures |r| == |parts| && forall i :: 0 <= i < |parts| ==> r[i] == num(parts[i])
    decreases |parts|
  {
    if parts == [] then [] else [num(parts[0])] + Numbers(parts[1..], num)
  }

  /** `num` is `Number(part) || 0`, for parts that are not infinite. */
  function Parse(name: string, num: string -> real): Version {
    Version(name, Numbers(Split(name, '.'), num))
  }

  // ---- The order ----

  /** A missing part counts as 0. */
  function At(p: seq<real>, i: nat): real {
    if i < |p| then p[i] else 0.0
  }

  function CompareFrom(p: seq<real>, q: seq<real>, i: nat): real
    decreases Max(|p|, |q|) - i
  {
    if i >= Max(|p|, |q|) then 0.0
    else if At(p, i) - At(q, i) != 0.0 then At(p, i) - At(q, i)
    else CompareFrom(p, q, i + 1)
  }

  function Compare(a: Version, b: Version): real {
    CompareFrom(a.parts, b.parts, 0)
  }

  method CompareSemver(a: string, b: string, num: string -> real) returns (diff: real)
    ensures diff == Compare(Parse(a, num), Parse(b, num))
  {
    var partsA := Numbers(Split(a, '.'), num);
    var partsB := Numbers(Split(b, '.'), num);
    var i := 0;
    while i < Max(|partsA|, |partsB|)
      invariant CompareFrom(partsA, partsB, i) == CompareFrom(partsA, partsB, 0)
    {
      diff := (if i < |partsA| then partsA[i] else 0.0) - (if i < |partsB| then partsB[i] else 0.0);
      if diff != 0.0 {
        return diff;
      }
      i := i + 1;
    }
    diff := 0.0;
  }

  ghost predicate SameUpTo(p: seq<real>, q: seq<real>, n: nat) {
    forall i: nat :: i < n ==> At(p, i) == At(q, i)
  }

  /** Lexicographic order on the numbers, missing ones being 0. */
  ghost predicate LexLess(p: seq<real>, q: seq<real>) {
    exists n: nat :: SameUpTo(p, q, n) && At(p, n) < At(q, n)
  }

  lemma {:induction false} CompareFromIs(p: seq<real>, q: seq<real>, i: nat)
    requires SameUpTo(p, q, i)
    ensures CompareFrom(p, q, i) < 0.0 <==> LexLess(p, q)
    ensures CompareFrom(p, q, i) > 0.0 <==> LexLess(q, p)
    ensures CompareFrom(p, q, i) == 0.0 <==> forall n: nat :: At(p, n) == At(q, n)
    decreases Max(|p|, |q|) - i
  {
    if i < Max(|p|, |q|) && At(p, i) == At(q, i) {
      CompareFromIs(p, q, i + 1);
    } else if i < Max(|p|, |q|) {
      assert SameUpTo(q, p, i);
      FirstDifference(p, q, i);
    } else {
      assert forall n: nat :: n >= i ==> At(p, n) == At(q, n) == 0.0;
    }
  }

  lemma FirstDifference(p: seq<real>, q: seq<real>, i: nat)
    requires SameUpTo(p, q, i) && At(p, i) != At(q, i)
    ensures LexLess(p, q) <==> At(p, i) < At(q, i)
    ensures LexLess(q, p) <==> At(q, i) < At(p, i)
  {
    assert SameUpTo(q, p, i);
    if n: nat :| SameUpTo(p, q, n) && At(p, n) < At(q, n) { assert !(i < n) && !(n < i); }
    if n: nat :| SameUpTo(q, p, n) && At(q, n) < At(p, n) { assert !(i < n) && !(n < i); }
  }

  /** The comparison is the lexicographic one, both ways, and its zero is equality of all numbers. */
  lemma CompareIsLex(a: Version, b: Version)
    ensures Compare(a, b) < 0.0 <==> LexLess(a.parts, b.parts)
    ensures Compare(a, b) > 0.0 <==> LexLess(b.parts, a.parts)
    ensures Compare(a, b) == 0.0 <==> forall n: nat :: At(a.parts, n) == At(b.parts, n)
  {
    CompareFromIs(a.parts, b.parts, 0);
  }

  predicate Le(a: Version, b: Version) {
    Compare(a, b) <= 0.0
  }

  lemma LeTotal(a: Version, b: Version)
    ensures Le(a, a) && (Le(a, b) || Le(b, a))
    ensures Le(a, b) && Le(b, a) <==> Compare(a, b) == 0.0
  {
    CompareIsLex(a, a);
    CompareIsLex(a, b);
    CompareIsLex(b, a);
  }

  lemma LexTransitive(p: seq<real>, q: seq<real>, r: seq<real>)
    requires LexLess(p, q) && LexLess(q, r)
    ensures LexLess(p, r)
  {
    var n: nat :| SameUpTo(p, q, n) && At(p, n) < At(q, n);
    var m: nat :| SameUpTo(q, r, m) && At(q, m) < At(r, m);
    var k := if n < m then n else m;
    assert SameUpTo(p, r, k) && At(p, k) < At(r, k);
  }

  lemma LexRespectsEqual(p: seq<real>, p': seq<real>, q: seq<real>)
    requires forall n: nat :: At(p, n) == At(p', n)
    ensures LexLess(p, q) <==> LexLess(p', q)
    ensures LexLess(q, p) <==> LexLess(q, p')
  {
    if n: nat :| SameUpTo(p, q, n) && At(p, n) < At(q, n) { assert SameUpTo(p', q, n); }
    if n: nat :| SameUpTo(p', q, n) && At(p', n) < At(q, n) { assert SameUpTo(p, q, n); }
    if n: nat :| SameUpTo(q, p, n) && At(q, n) < At(p, n) { assert SameUpTo(q, p', n); }
    if n: nat :| SameUpTo(q, p', n) && At(q, n) < At(p', n) { assert SameUpTo(q, p, n); }
  }

  lemma LeTransitive(a: Version, b: Version, c: Version)
    requires Le(a, b) && Le(b, c)
    ensures Le(a, c)
  {
    CompareIsLex(a, b);
    CompareIsLex(b, c);
    CompareIsLex(a, c);
    if Compare(a, b) == 0.0 {
      LexRespectsEqual(a.parts, b.parts, c.parts);
    } else if Compare(b, c) == 0.0 {
      LexRespectsEqual(c.parts, b.parts, a.parts);
    } else {
      LexTransitive(a.parts, b.parts, c.parts);
    }
  }

  // ---- Selection and sorting ----

  predicate Digits(s: string) {
    s != "" && forall i :: 0 <= i < |s| ==> '0' <= s[i] <= '9'
  }

  /** /^\d+\.\d+\.\d+$/ */
  predicate VersionName(name: string) {
    var parts := Split(name, '.');
    |parts| == 3 && Digits(parts[0]) && Digits(parts[1]) && Digits(parts[2])
  }

  datatype DirEntry = DirEntry(name: string, isDirectory: bool)

  predicate InRange(v: Version, from: Version, to: Version) {
    Compare(v, from) > 0.0 && Compare(v, to) <= 0.0
  }

  /** The versions found, in directory order. */
  function Found(entries: seq<DirEntry>, num: string -> real): seq<Version>
    decreases |entries|
  {
    if entries == [] then []
    else if entries[0].isDirectory && VersionName(entries[0].name)
    then [Parse(entries[0].name, num)] + Found(entries[1..], num)
    else Found(entries[1..], num)
  }

  function Select(vs: seq<Version>, from: Version, to: Version): seq<Version>
    decreases |vs|
  {
    if vs == [] then []
    else if InRange(vs[0], from, to) then [vs[0]] + Select(vs[1..], from, to)
    else Select(vs[1..], from, to)
  }

  ghost predicate Sorted(vs: seq<Version>) {
    forall i, j :: 0 <= i <= j < |vs| ==> Le(vs[i], vs[j])
  }

  /** The versions that compare equal to `v`, in order. */
  function Class(vs: seq<Version>, v: Version): seq<Version>
    decreases |vs|
  {
    if vs == [] then []
    else if Compare(vs[0], v) == 0.0 then [vs[0]] + Class(vs[1..], v)
    else Class(vs[1..], v)
  }

  /** What `sort` promises: ascending, and equal versions stay in their order. */
  ghost predicate StableSort(vs: seq<Version>, out: seq<Version>) {
    Sorted(out) && forall v :: Class(out, v) == Class(vs, v)
  }

  lemma ClassHead(vs: seq<Version>, v: Version)
    requires vs != []
    ensures Class(vs, v) == if Compare(vs[0], v) == 0.0 then [vs[0]] + Class(vs[1..], v) else Class(vs[1..], v)
  {
  }

  lemma {:induction false} ClassCat(a: seq<Version>, b: seq<Version>, v: Version)
    ensures Class(a + b, v) == Class(a, v) + Class(b, v)
    decreases |a|
  {
    if a == [] {
      assert a + b == b;
    } else {
      assert (a + b)[0] == a[0] && (a + b)[1..] == a[1..] + b;
      ClassCat(a[1..], b, v);
      ClassHead(a + b, v);
      ClassHead(a, v);
    }
  }

  lemma {:induction false} ClassMember(vs: seq<Version>, v: Version)
    ensures Class(vs, v) != [] ==> exists i :: 0 <= i < |vs| && Compare(vs[i], v) == 0.0
    decreases |vs|
  {
    if vs == [] {
    } else {
      ClassMember(vs[1..], v);
      if Compare(vs[0], v) != 0.0 && Class(vs, v) != [] {
        var i :| 0 <= i < |vs[1..]| && Compare(vs[1..][i], v) == 0.0;
        assert vs[1..][i] == vs[i + 1];
      }
    }
  }

  lemma OwnClass(vs: seq<Version>)
    requires vs != []
    ensures Class(vs, vs[0]) != [] && Class(vs, vs[0])[0] == vs[0]
  {
    LeTotal(vs[0], vs[0]);
  }

  lemma FirstOfClass(vs: seq<Version>, v: Version)
    requires vs != [] && Compare(vs[0], v) == 0.0
    ensures Class(vs, v) != [] && Class(vs, v)[0] == vs[0]
  {
  }

  lemma SmallestFirst(a: seq<Version>, v: Version)
    requires Sorted(a) && a != [] && Class(a, v) != []
    ensures Le(a[0], v)
  {
    ClassMember(a, v);
    var i :| 0 <= i < |a| && Compare(a[i], v) == 0.0;
    assert Le(a[0], a[i]);
    LeTransitive(a[0], a[i], v);
  }

  lemma SortedTail(a: seq<Version>)
    requires Sorted(a) && a != []
    ensures Sorted(a[1..])
  {
    forall i, j | 0 <= i <= j < |a| - 1 ensures Le(a[1..][i], a[1..][j]) { assert Le(a[i + 1], a[j + 1]); }
  }

  /** A stable sort has only one result. */
  lemma {:induction false} SortUnique(a: seq<Version>, b: seq<Version>)
    requires Sorted(a) && Sorted(b) && forall v :: Class(a, v) == Class(b, v)
    ensures a == b
    decreases |a|
  {
    if a == [] {
      if b != [] { BothStart(b, a); }
    } else {
      BothStart(a, b);
      SameHead(a, b);
      forall v ensures Class(a[1..], v) == Class(b[1..], v) {
        ClassHead(a, v);
        ClassHead(b, v);
        assert Class(a, v) == Class(b, v);
        if Compare(a[0], v) == 0.0 {
          assert Class(a[1..], v) == Class(a, v)[1..] && Class(b[1..], v) == Class(b, v)[1..];
        }
      }
      SortedTail(a);
      SortedTail(b);
      SortUnique(a[1..], b[1..]);
      assert a == [a[0]] + a[1..] && b == [b[0]] + b[1..];
    }
  }

  lemma BothStart(a: seq<Version>, b: seq<Version>)
    requires a != [] && forall v :: Class(a, v) == Class(b, v)
    ensures b != []
  {
    OwnClass(a);
    assert Class(b, a[0]) == Class(a, a[0]);
  }

  lemma SameHead(a: seq<Version>, b: seq<Version>)
    requires Sorted(a) && Sorted(b) && a != [] && b != []
    requires forall v :: Class(a, v) == Class(b, v)
    ensures a[0] == b[0]
  {
    OwnClass(a);
    OwnClass(b);
    assert Class(b, a[0]) == Class(a, a[0]) && Class(a, b[0]) == Class(b, b[0]);
    SmallestFirst(b, a[0]);
    SmallestFirst(a, b[0]);
    LeTotal(a[0], b[0]);
    LeTotal(b[0], a[0]);
    FirstOfClass(b, a[0]);
  }

  // ---- Upgrading in two steps ----

  lemma {:induction false} SelectedClass(vs: seq<Version>, from: Version, to: Version, v: Version)
    ensures Class(Select(vs, from, to), v) == if InRange(v, from, to) then Class(vs, v) else []
    decreases |vs|
  {
    if vs == [] {
    } else {
      SelectedClass(vs[1..], from, to, v);
      if Compare(vs[0], v) == 0.0 { EqualInRange(vs[0], v, from, to); }
    }
  }

  lemma EqualInRange(u: Version, v: Version, from: Version, to: Version)
    requires Compare(u, v) == 0.0
    ensures InRange(u, from, to) <==> InRange(v, from, to)
  {
    CompareIsLex(u, v);
    CompareIsLex(u, from);
    CompareIsLex(v, from);
    CompareIsLex(u, to);
    CompareIsLex(v, to);
    LexRespectsEqual(u.parts, v.parts, from.parts);
    LexRespectsEqual(u.parts, v.parts, to.parts);
  }

  /** A migration runs when it is newer than the old version and no newer than the new one. */
  lemma InRangeIs(v: Version, from: Version, to: Version)
    ensures InRange(v, from, to) <==> LexLess(from.parts, v.parts) && !LexLess(to.parts, v.parts)
  {
    CompareIsLex(v, from);
    CompareIsLex(v, to);
  }

  /** The names of three runs of digits with dots between them, and no others. */
  lemma VersionNameIs(name: string)
    ensures VersionName(name)
       <==> exists a, b, c :: Digits(a) && Digits(b) && Digits(c) && name == a + "." + b + "." + c
  {
    var parts := Split(name, '.');
    if VersionName(name) {
      JoinSplit(name, '.');
      JoinThree(parts, '.');
      assert name == parts[0] + "." + parts[1] + "." + parts[2];
    }
    if a, b, c :| Digits(a) && Digits(b) && Digits(c) && name == a + "." + b + "." + c {
      DigitsNoDot(a);
      DigitsNoDot(b);
      DigitsNoDot(c);
      assert name == a + ['.'] + b + ['.'] + c;
      SplitCat(a + ['.'] + b, '.', c);
      SplitCat(a, '.', b);
      SplitPlain(a, '.');
      SplitPlain(b, '.');
      SplitPlain(c, '.');
      assert parts == [a, b, c];
    }
  }

  lemma DigitsIs(s: string)
    ensures Digits(s) <==> s != "" && forall c :: c in s ==> c in "0123456789"
  {
    if Digits(s) {
      forall c | c in s ensures c in "0123456789" {
        var i :| 0 <= i < |s| && s[i] == c;
        IsDigit(c);
      }
    } else if s != "" {
      var i :| 0 <= i < |s| && !('0' <= s[i] <= '9');
      IsDigit(s[i]);
      assert s[i] in s;
    }
  }

  lemma IsDigit(c: char)
    ensures '0' <= c <= '9' <==> c in "0123456789"
  {
    var digits := "0123456789";
    if '0' <= c <= '9' {
      var i := c as int - '0' as int;
      assert digits[i] == c;
    }
  }

  lemma DigitsNoDot(s: string)
    requires Digits(s)
    ensures '.' !in s
  {
  }

  lemma {:induction false} FoundCat(a: seq<DirEntry>, b: seq<DirEntry>, num: string -> real)
    ensures Found(a + b, num) == Found(a, num) + Found(b, num)
    decreases |a|
  {
    if a == [] {
      assert a + b == b;
    } else {
      assert (a + b)[0] == a[0] && (a + b)[1..] == a[1..] + b;
      FoundCat(a[1..], b, num);
    }
  }

  /** Entry by entry, in directory order: directories with a version name, and nothing else. */
  lemma FoundOne(e: DirEntry, num: string -> real)
    ensures Found([e], num) == if e.isDirectory && VersionName(e.name) then [Parse(e.name, num)] else []
  {
    assert [e][1..] == [];
  }

  /** a <= b <= c: the range (a, c] is (a, b] and (b, c], which do not meet. */
  lemma RangeSplits(v: Version, a: Version, b: Version, c: Version)
    requires Le(a, b) && Le(b, c)
    ensures InRange(v, a, c) <==> InRange(v, a, b) || InRange(v, b, c)
    ensures !(InRange(v, a, b) && InRange(v, b, c))
  {
    LeTotal(v, a);
    LeTotal(v, b);
    LeTotal(v, c);
    if Le(v, b) { LeTransitive(v, b, c); }
    if Le(v, a) { LeTransitive(v, a, b); }
  }

  lemma {:induction false} SortedInRange(vs: seq<Version>, from: Version, to: Version, out: seq<Version>, i: nat)
    requires StableSort(Select(vs, from, to), out) && i < |out|
    ensures InRange(out[i], from, to)
  {
    var v := out[i];
    assert out == out[..i] + out[i..];
    ClassCat(out[..i], out[i..], v);
    OwnClass(out[i..]);
    assert Class(out, v) != [];
    SelectedClass(vs, from, to, v);
    assert Class(out, v) == Class(Select(vs, from, to), v);
  }

  /** Upgrading from a to b and then from b to c runs exactly the migrations,
      in the same order, that upgrading from a to c runs. */
  lemma TwoUpgradesAreOne(vs: seq<Version>, a: Version, b: Version, c: Version,
                          ab: seq<Version>, bc: seq<Version>, ac: seq<Version>)
    requires Le(a, b) && Le(b, c)
    requires StableSort(Select(vs, a, b), ab) && StableSort(Select(vs, b, c), bc) && StableSort(Select(vs, a, c), ac)
    ensures ab + bc == ac
  {
    var both := ab + bc;
    forall i, j | 0 <= i <= j < |both| ensures Le(both[i], both[j]) {
      if i < |ab| && j >= |ab| {
        SortedInRange(vs, a, b, ab, i);
        SortedInRange(vs, b, c, bc, j - |ab|);
        LeTotal(b, both[j]);
        LeTotal(both[j], b);
        LeTransitive(both[i], b, both[j]);
      } else if j < |ab| {
        assert Le(ab[i], ab[j]);
      } else {
        assert Le(bc[i - |ab|], bc[j - |ab|]);
      }
    }
    forall v ensures Class(both, v) == Class(ac, v) {
      ClassCat(ab, bc, v);
      SelectedClass(vs, a, b, v);
      SelectedClass(vs, b, c, v);
      SelectedClass(vs, a, c, v);
      RangeSplits(v, a, b, c);
      assert Class(ab, v) == Class(Select(vs, a, b), v) && Class(bc, v) == Class(Select(vs, b, c), v);
      assert Class(ac, v) == Class(Select(vs, a, c), v);
    }
    SortUnique(both, ac);
  }

  // ---- A stable sort exists ----

  /** Before the first version that is not smaller. */
  function Insert(v: Version, vs: seq<Version>): seq<Version>
    decreases |vs|
  {
    if vs == [] || Le(v, vs[0]) then [v] + vs else [vs[0]] + Insert(v, vs[1..])
  }

  function Sort(vs: seq<Version>): seq<Version>
    decreases |vs|
  {
    if vs == [] then [] else Insert(vs[0], Sort(vs[1..]))
  }

  lemma {:induction false} InsertClass(v: Version, vs: seq<Version>, u: Version)
    requires Sorted(vs)
    ensures Class(Insert(v, vs), u) == Class([v] + vs, u)
    decreases |vs|
  {
    if vs != [] && !Le(v, vs[0]) {
      var rest := vs[1..];
      SortedTail(vs);
      InsertClass(v, rest, u);
      var out := [vs[0]] + Insert(v, rest);
      assert out[1..] == Insert(v, rest) && ([v] + rest)[1..] == rest && ([v] + vs)[1..] == vs;
      ClassHead(out, u);
      ClassHead([v] + rest, u);
      ClassHead([v] + vs, u);
      ClassHead(vs, u);
      if Compare(v, u) == 0.0 && Compare(vs[0], u) == 0.0 {
        LeTotal(v, u);
        LeTotal(u, vs[0]);
        LeTotal(vs[0], u);
        LeTransitive(v, u, vs[0]);
      }
    }
  }

  lemma {:induction false} InsertSorted(v: Version, vs: seq<Version>)
    requires Sorted(vs)
    ensures Sorted(Insert(v, vs))
    ensures Insert(v, vs)[0] == v || (vs != [] && Insert(v, vs)[0] == vs[0])
    decreases |vs|
  {
    if vs == [] || Le(v, vs[0]) {
      var out := [v] + vs;
      forall i, j | 0 <= i <= j < |out| ensures Le(out[i], out[j]) {
        LeTotal(v, v);
        if i == 0 && j > 0 { LeTransitive(v, vs[0], vs[j - 1]); } else if i > 0 { assert Le(vs[i - 1], vs[j - 1]); }
      }
    } else {
      var rest := Insert(v, vs[1..]);
      SortedTail(vs);
      InsertSorted(v, vs[1..]);
      LeTotal(v, vs[0]);
      var out := [vs[0]] + rest;
      forall i, j | 0 <= i <= j < |out| ensures Le(out[i], out[j]) {
        LeTotal(vs[0], vs[0]);
        if i == 0 && j > 0 {
          assert Le(rest[0], rest[j - 1]);
          assert Le(vs[0], rest[0]);
          LeTransitive(vs[0], rest[0], rest[j - 1]);
        } else if i > 0 {
          assert Le(rest[i - 1], rest[j - 1]);
        }
      }
    }
  }

  lemma {:induction false} SortIsStable(vs: seq<Version>)
    ensures StableSort(vs, Sort(vs))
    decreases |vs|
  {
    if vs == [] {
    } else {
      var rest := Sort(vs[1..]);
      SortIsStable(vs[1..]);
      InsertSorted(vs[0], rest);
      forall v ensures Class(Sort(vs), v) == Class(vs, v) {
        InsertClass(vs[0], rest, v);
        assert ([vs[0]] + rest)[1..] == rest;
        ClassHead([vs[0]] + rest, v);
        ClassHead(vs, v);
        assert Class(rest, v) == Class(vs[1..], v);
      }
    }
  }

  // ---- Running them ----

  datatype Outcome = NotFound | Ran | Failed(message: string)

  datatype MigrationResult = MigrationResult(version: string, success: bool, error: string)

  /** Every selected migration gets one result, in order; a failure stops none of the later ones. */
  method RunMigrations(entries: seq<DirEntry>, from: string, to: string, num: string -> real, run: string -> Outcome)
    returns (results: seq<MigrationResult>)
    ensures var versions := Sort(Select(Found(entries, num), Parse(from, num), Parse(to, num)));
      |results| == |versions|
      && forall i :: 0 <= i < |versions| ==>
           var name, r := versions[i].name, results[i];
           r.version == name && (r.success <==> run(name) == Ran)
           && r.error == match run(name)
                         case NotFound => "Migration " + name + "/index.ts not found"
                         case Ran => ""
                         case Failed(message) => message
  {
    var versions := Sort(Select(Found(entries, num), Parse(from, num), Parse(to, num)));
    results := [];
    for i := 0 to |versions|
      invariant |results| == i
      invariant forall j :: 0 <= j < i ==>
        var name, r := versions[j].name, results[j];
        r.version == name && (r.success <==> run(name) == Ran)
        && r.error == match run(name)
                      case NotFound => "Migration " + name + "/index.ts not found"
                      case Ran => ""
                      case Failed(message) => message
    {
      var name := versions[i].name;
      match run(name) {
        case NotFound =>
          results := results + [MigrationResult(name, false, "Migration " + name + "/index.ts not found")];
        case Ran =>
          results := results + [MigrationResult(name, true, "")];
        case Failed(message) =>
          results := results + [MigrationResult(name, false, message)];
      }
    }
  }
}
