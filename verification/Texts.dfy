/** The string operations of JavaScript that the models share. */
module Texts {
  /** White space, for `trim` and for `\s` alike. */
  predicate IsSpace(c: char) {
    c == ' ' || '\U{0009}' <= c <= '\U{000D}' || c == '\U{00A0}' || c == '\U{1680}' || '\U{2000}' <= c <= '\U{200A}'
    || c == '\U{2028}' || c == '\U{2029}' || c == '\U{202F}' || c == '\U{205F}' || c == '\U{3000}' || c == '\U{FEFF}'
  }

  /** s.trimStart() */
  function TrimStart(s: string): (r: string)
    ensures |r| <= |s|
    decreases |s|
  {
    if s != "" && IsSpace(s[0]) then TrimStart(s[1..]) else s
  }

  /** s.trimEnd() */
  function TrimEnd(s: string): (r: string)
    ensures |r| <= |s|
    decreases |s|
  {
    if s != "" && IsSpace(s[|s| - 1]) then TrimEnd(s[..|s| - 1]) else s
  }

  function Trim(s: string): string {
    TrimEnd(TrimStart(s))
  }

  /** No white space at either end. */
  predicate Trimmed(s: string) {
    s == "" || (!IsSpace(s[0]) && !IsSpace(s[|s| - 1]))
  }

  lemma {:induction false} TrimStartIs(s: string)
    ensures var r := TrimStart(s); r == s[|s| - |r|..] && (r == "" || !IsSpace(r[0]))
    decreases |s|
  {
    if s != "" && IsSpace(s[0]) { TrimStartIs(s[1..]); }
  }

  lemma {:induction false} TrimEndIs(s: string)
    ensures var r := TrimEnd(s); r == s[..|r|] && (r == "" || !IsSpace(r[|r| - 1]))
    decreases |s|
  {
    if s != "" && IsSpace(s[|s| - 1]) { TrimEndIs(s[..|s| - 1]); }
  }

  predicate Blank(s: string) {
    forall i :: 0 <= i < |s| ==> IsSpace(s[i])
  }

  lemma {:induction false} TrimStartDrops(s: string) returns (a: string)
    ensures s == a + TrimStart(s) && Blank(a)
    decreases |s|
  {
    if s != "" && IsSpace(s[0]) {
      var b := TrimStartDrops(s[1..]);
      a := [s[0]] + b;
      assert s == [s[0]] + s[1..] == a + TrimStart(s);
    } else {
      a := "";
      assert s == "" + s;
    }
  }

  lemma {:induction false} TrimEndDrops(s: string) returns (b: string)
    ensures s == TrimEnd(s) + b && Blank(b)
    decreases |s|
  {
    if s != "" && IsSpace(s[|s| - 1]) {
      var a := TrimEndDrops(s[..|s| - 1]);
      b := a + [s[|s| - 1]];
      assert s == s[..|s| - 1] + [s[|s| - 1]] == TrimEnd(s) + b;
    } else {
      b := "";
      assert s == s + "";
    }
  }

  /** Only white space is cut off, all of it, at both ends. */
  lemma TrimIs(s: string) returns (a: string, b: string)
    ensures s == a + Trim(s) + b && Blank(a) && Blank(b) && Trimmed(Trim(s))
  {
    a := TrimStartDrops(s);
    b := TrimEndDrops(TrimStart(s));
    assert s == a + (Trim(s) + b) == a + Trim(s) + b;
    TrimIsTrimmed(s);
  }

  lemma TrimIsTrimmed(s: string)
    ensures Trimmed(Trim(s))
  {
    TrimStartIs(s);
    TrimEndIs(TrimStart(s));
  }

  lemma TrimOfTrimmed(s: string)
    requires Trimmed(s)
    ensures Trim(s) == s
  {
  }

  lemma TrimKeepsOut(s: string, c: char)
    requires c !in s
    ensures c !in Trim(s)
  {
    TrimStartIs(s);
    TrimEndIs(TrimStart(s));
  }

  lemma TrimPadded(s: string)
    ensures Trim(" " + s) == Trim(s)
  {
    assert (" " + s)[1..] == s;
  }

  /** s.indexOf(c) */
  function IndexOf(s: string, c: char): (i: int)
    ensures -1 <= i < |s|
    ensures i >= 0 ==> s[i] == c
    decreases |s|
  {
    if s == "" then -1
    else if s[0] == c then 0
    else var i := IndexOf(s[1..], c); if i < 0 then -1 else i + 1
  }

  lemma {:induction false} IndexOfFirst(s: string, c: char)
    ensures var i := IndexOf(s, c); if i < 0 then c !in s else c !in s[..i]
    decreases |s|
  {
    if s != "" && s[0] != c {
      IndexOfFirst(s[1..], c);
      var i := IndexOf(s[1..], c);
      if i >= 0 { assert s[..i + 1] == [s[0]] + s[1..][..i]; } else { assert s == [s[0]] + s[1..]; }
    }
  }

  /** The first occurrence is the only one with nothing before it. */
  lemma {:induction false} IndexOfIs(a: string, c: char, b: string)
    requires c !in a
    ensures IndexOf(a + [c] + b, c) == |a|
    decreases |a|
  {
    var s := a + [c] + b;
    if a != "" {
      assert s[1..] == a[1..] + [c] + b;
      IndexOfIs(a[1..], c, b);
    }
  }

  // ---- Splitting and joining ----

  /** s.split(c) */
  function Split(s: string, c: char): (r: seq<string>)
    ensures r != []
    decreases |s|
  {
    if s == "" then [""]
    else
      var r := Split(s[1..], c);
      if s[0] == c then [""] + r else [[s[0]] + r[0]] + r[1..]
  }

  /** parts.join(c) */
  function Join(parts: seq<string>, c: char): string
    decreases |parts|
  {
    if parts == [] then ""
    else if |parts| == 1 then parts[0]
    else parts[0] + [c] + Join(parts[1..], c)
  }

  lemma {:induction false} SplitPlain(s: string, c: char)
    requires c !in s
    ensures Split(s, c) == [s]
    decreases |s|
  {
    if s != "" {
      SplitPlain(s[1..], c);
      assert [s[0]] + s[1..] == s;
    }
  }

  /** Splitting a concatenation at a separator splits the parts. */
  lemma {:induction false} SplitCat(a: string, c: char, b: string)
    ensures Split(a + [c] + b, c) == Split(a, c) + Split(b, c)
    decreases |a|
  {
    var s := a + [c] + b;
    if a == "" {
      assert s[1..] == b;
    } else {
      var rest := a[1..] + [c] + b;
      assert s[0] == a[0] && s[1..] == rest;
      SplitCat(a[1..], c, b);
      SplitHead(s, c);
      SplitHead(a, c);
      JoinHeads(a[0], Split(a[1..], c), Split(b, c));
    }
  }

  lemma JoinHeads(x: char, r: seq<string>, q: seq<string>)
    requires r != []
    ensures [""] + (r + q) == [""] + r + q
    ensures [[x] + (r + q)[0]] + (r + q)[1..] == [[x] + r[0]] + r[1..] + q
  {
  }

  lemma SplitHead(s: string, c: char)
    requires s != ""
    ensures var r := Split(s[1..], c);
      Split(s, c) == if s[0] == c then [""] + r else [[s[0]] + r[0]] + r[1..]
  {
  }

  ghost predicate NoneHas(parts: seq<string>, c: char) {
    forall i :: 0 <= i < |parts| ==> c !in parts[i]
  }

  lemma {:induction false} SplitNoneHas(s: string, c: char)
    ensures NoneHas(Split(s, c), c)
    decreases |s|
  {
    if s != "" {
      SplitNoneHas(s[1..], c);
      var r := Split(s[1..], c);
      assert c !in r[0];
    }
  }

  lemma JoinThree(parts: seq<string>, c: char)
    requires |parts| == 3
    ensures Join(parts, c) == parts[0] + [c] + parts[1] + [c] + parts[2]
  {
    var rest := parts[1..];
    assert rest == [parts[1], parts[2]] && rest[1..] == [parts[2]];
    assert Join(rest, c) == parts[1] + [c] + Join(rest[1..], c) && Join(rest[1..], c) == parts[2];
    assert parts[0] + [c] + (parts[1] + [c] + parts[2]) == parts[0] + [c] + parts[1] + [c] + parts[2];
  }

  /** Joining what was split gives the text back. */
  lemma {:induction false} JoinSplit(s: string, c: char)
    ensures Join(Split(s, c), c) == s
    decreases |s|
  {
    if s != "" {
      var r := Split(s[1..], c);
      JoinSplit(s[1..], c);
      assert s == [s[0]] + s[1..];
      if s[0] == c {
        assert ([""] + r)[1..] == r;
      } else {
        var p := [[s[0]] + r[0]] + r[1..];
        assert p[1..] == r[1..];
        assert |r| > 1 ==> [s[0]] + (r[0] + [c] + Join(r[1..], c)) == p[0] + [c] + Join(p[1..], c);
      }
    }
  }

  lemma {:induction false} SplitJoin(parts: seq<string>, c: char)
    requires parts != [] && NoneHas(parts, c)
    ensures Split(Join(parts, c), c) == parts
    decreases |parts|
  {
    assert c !in parts[0];
    if |parts| == 1 {
      SplitPlain(parts[0], c);
      assert parts == [parts[0]];
    } else {
      forall i | 0 <= i < |parts| - 1 ensures c !in parts[1..][i] { assert parts[1..][i] == parts[i + 1]; }
      SplitJoin(parts[1..], c);
      SplitPlain(parts[0], c);
      SplitCat(parts[0], c, Join(parts[1..], c));
    }
  }
}
