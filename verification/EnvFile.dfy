/** Reading and setting one key of a `.env` file (setup/environment.ts). */
module EnvFile {
  import opened Options
  import opened Texts

  /** `v || null`: an empty value reads as none. */
  function Present(v: string): Option<string> {
    if v == "" then None else Some(v)
  }

  /** The key a line defines and the text after its first '='. */
  function Definition(line: string): Option<(string, string)> {
    var t := Trim(line);
    if t == "" || "#" <= t then None
    else var eq := IndexOf(t, '='); if eq < 1 then None else Some((t[..eq], t[eq + 1..]))
  }

  predicate Defines(line: string, key: string) {
    Definition(line).Some? && Definition(line).value.0 == key
  }

  function ReadLines(lines: seq<string>, key: string): Option<string>
    decreases |lines|
  {
    if lines == [] then None
    else if Defines(lines[0], key) then Present(Trim(Definition(lines[0]).value.1))
    else ReadLines(lines[1..], key)
  }

  /** `content` is None when the file cannot be read. */
  function Read(content: Option<string>, key: string): Option<string> {
    if content == None then None else ReadLines(Split(content.value, '\n'), key)
  }

  method ReadEnvKey(content: Option<string>, key: string) returns (value: Option<string>)
    ensures value == Read(content, key)
  {
    if content == None {
      return None;
    }
    var lines := Split(content.value, '\n');
    for i := 0 to |lines|
      invariant ReadLines(lines[i..], key) == Read(content, key)
    {
      ghost var rest := lines[i..];
      assert rest[0] == lines[i] && rest[1..] == lines[i + 1..];
      var trimmed := Trim(lines[i]);
      if trimmed == "" || "#" <= trimmed {
        continue;
      }
      var eq := IndexOf(trimmed, '=');
      if eq < 1 {
        continue;
      }
      if trimmed[..eq] == key {
        return Present(Trim(trimmed[eq + 1..]));
      }
    }
    assert lines[|lines|..] == [];
    value := None;
  }

  /** White space around a line does not matter; then the key is what stands before the first
      '=', unless that is nothing or begins a comment. */
  lemma DefinitionIs(k: string, rest: string)
    requires '=' !in k && Trimmed(k + "=" + rest)
    ensures Definition(k + "=" + rest) == if k == "" || k[0] == '#' then None else Some((k, rest))
  {
    var line := k + ['='] + rest;
    IndexOfIs(k, '=', rest);
    assert line == k + "=" + rest && line[..|k|] == k && line[|k| + 1..] == rest;
    TrimOfTrimmed(line);
    assert k != "" ==> line[0] == k[0];
  }

  lemma DefinitionTrims(line: string)
    ensures Definition(line) == Definition(Trim(line))
    ensures '=' !in line ==> Definition(line) == None
  {
    TrimIsTrimmed(line);
    TrimOfTrimmed(Trim(line));
    if '=' !in line { TrimKeepsOut(line, '='); }
  }

  /** The first line that defines the key answers: with its text trimmed, or with nothing if
      that is empty. */
  lemma {:induction false} FirstDefinitionAnswers(lines: seq<string>, key: string, i: nat)
    requires i < |lines| && Defines(lines[i], key) && forall j :: 0 <= j < i ==> !Defines(lines[j], key)
    ensures var text := Trim(Definition(lines[i]).value.1);
      ReadLines(lines, key) == if text == "" then None else Some(text)
    decreases i
  {
    if i == 0 {
    } else {
      var rest := lines[1..];
      assert forall j :: 0 <= j < |rest| ==> rest[j] == lines[j + 1];
      FirstDefinitionAnswers(rest, key, i - 1);
      SkippedLine(lines, key);
    }
  }

  lemma SkippedLine(lines: seq<string>, key: string)
    requires lines != [] && !Defines(lines[0], key)
    ensures ReadLines(lines, key) == ReadLines(lines[1..], key)
  {
  }

  // ---- Setting ----

  /** The line that `upsertEnvKey` looks for. */
  predicate Assigns(line: string, key: string) {
    key + "=" <= Trim(line)
  }

  function FindFrom(lines: seq<string>, key: string): (i: int)
    ensures -1 <= i < |lines|
    decreases |lines|
  {
    if lines == [] then -1
    else if Assigns(lines[0], key) then 0
    else var i := FindFrom(lines[1..], key); if i < 0 then -1 else i + 1
  }

  /** Without the blank lines at the end. */
  function Chopped(lines: seq<string>): (r: seq<string>)
    ensures |r| <= |lines| && r == lines[..|r|]
    decreases |lines|
  {
    if lines != [] && Trim(lines[|lines| - 1]) == "" then Chopped(lines[..|lines| - 1]) else lines
  }

  function Updated(lines: seq<string>, key: string, value: string): (r: seq<string>)
    ensures r != []
  {
    var i := FindFrom(lines, key);
    var line := key + "=" + value;
    if i >= 0 then lines[i := line] else Chopped(lines) + [line]
  }

  function Content(content: Option<string>): string {
    if content.Some? then content.value else ""
  }

  function Upserted(content: Option<string>, key: string, value: string): string {
    Join(Updated(Split(Content(content), '\n'), key, value), '\n') + "\n"
  }

  method FindLine(lines: seq<string>, key: string) returns (idx: int)
    ensures idx == FindFrom(lines, key)
  {
    for i := 0 to |lines|
      invariant FindFrom(lines, key) == var f := FindFrom(lines[i..], key); if f < 0 then -1 else f + i
    {
      ghost var rest := lines[i..];
      assert rest[0] == lines[i] && rest[1..] == lines[i + 1..];
      if Assigns(lines[i], key) {
        return i;
      }
    }
    idx := -1;
  }

  /** The text the file is written with. */
  method UpsertEnvKey(content: Option<string>, key: string, value: string) returns (written: string)
    ensures written == Upserted(content, key, value)
  {
    var line := key + "=" + value;
    var lines := Split(Content(content), '\n');
    ghost var was := lines;
    var idx := FindLine(lines, key);
    if idx >= 0 {
      lines := lines[idx := line];
    } else {
      while lines != [] && Trim(lines[|lines| - 1]) == ""
        invariant Chopped(lines) == Chopped(was)
        decreases |lines|
      {
        lines := lines[..|lines| - 1];
      }
      lines := lines + [line];
    }
    written := Join(lines, '\n') + "\n";
  }

  // ---- Lines of the written text ----

  function SplitAll(parts: seq<string>): seq<string>
    decreases |parts|
  {
    if parts == [] then [] else Split(parts[0], '\n') + SplitAll(parts[1..])
  }

  lemma {:induction false} SplitJoinAny(parts: seq<string>)
    requires parts != []
    ensures Split(Join(parts, '\n'), '\n') == SplitAll(parts)
    decreases |parts|
  {
    if |parts| == 1 {
      assert SplitAll(parts[1..]) == [] && parts[1..] == [];
    } else {
      SplitJoinAny(parts[1..]);
      SplitCat(parts[0], '\n', Join(parts[1..], '\n'));
    }
  }

  lemma {:induction false} SplitAllCat(a: seq<string>, b: seq<string>)
    ensures SplitAll(a + b) == SplitAll(a) + SplitAll(b)
    decreases |a|
  {
    if a == [] {
      assert a + b == b;
    } else {
      assert (a + b)[0] == a[0] && (a + b)[1..] == a[1..] + b;
      SplitAllCat(a[1..], b);
    }
  }

  lemma SplitAllAround(a: seq<string>, line: string, b: seq<string>)
    requires NoneHas(a, '\n') && NoneHas(b, '\n')
    ensures SplitAll(a + [line] + b) == a + Split(line, '\n') + b
  {
    SplitAllCat(a + [line], b);
    SplitAllCat(a, [line]);
    SplitAllPlain(a);
    SplitAllPlain(b);
    SplitAllOne(line);
  }

  lemma SplitAllOne(line: string)
    ensures SplitAll([line]) == Split(line, '\n')
  {
    assert [line][1..] == [] && SplitAll([]) == [];
    assert Split(line, '\n') + [] == Split(line, '\n');
  }

  lemma {:induction false} SplitAllPlain(parts: seq<string>)
    requires NoneHas(parts, '\n')
    ensures SplitAll(parts) == parts
    decreases |parts|
  {
    if parts == [] {
    } else {
      assert '\n' !in parts[0] && forall i :: 0 <= i < |parts| - 1 ==> parts[1..][i] == parts[i + 1];
      SplitPlain(parts[0], '\n');
      SplitAllPlain(parts[1..]);
    }
  }

  /** Around the edit: the lines kept before it and after it. */
  function Before(lines: seq<string>, key: string): seq<string> {
    var i := FindFrom(lines, key);
    if i >= 0 then lines[..i] else Chopped(lines)
  }

  function After(lines: seq<string>, key: string): seq<string> {
    var i := FindFrom(lines, key);
    if i >= 0 then lines[i + 1..] else []
  }

  /** The edit puts the new text between kept lines, which hold no line break. */
  lemma KeptLines(content: Option<string>, key: string, value: string)
    ensures var lines := Split(Content(content), '\n');
      Updated(lines, key, value) == Before(lines, key) + [key + "=" + value] + After(lines, key)
      && NoneHas(Before(lines, key), '\n') && NoneHas(After(lines, key), '\n')
  {
    SplitNoneHas(Content(content), '\n');
  }

  /** The written text reads as the kept lines with the new text's own lines between them. */
  lemma UpsertedLines(content: Option<string>, key: string, value: string)
    ensures var lines := Split(Content(content), '\n');
      Split(Upserted(content, key, value), '\n')
      == Before(lines, key) + (Split(key + "=" + value, '\n') + (After(lines, key) + [""]))
  {
    var lines, line := Split(Content(content), '\n'), key + "=" + value;
    var a, b := Before(lines, key), After(lines, key);
    KeptLines(content, key, value);
    SplitJoinAny(a + [line] + b);
    SplitAllAround(a, line, b);
    var text := Join(a + [line] + b, '\n');
    assert text + "\n" == text + ['\n'] + "";
    SplitCat(text, '\n', "");
    Regroup(a, Split(line, '\n'), b, [""]);
  }

  lemma Regroup(a: seq<string>, b: seq<string>, c: seq<string>, d: seq<string>)
    ensures a + b + c + d == a + (b + (c + d))
  {
  }

  // ---- Reading lines ----

  ghost predicate NoneDefines(lines: seq<string>, key: string) {
    forall i :: 0 <= i < |lines| ==> !Defines(lines[i], key)
  }

  lemma {:induction false} ReadSkips(a: seq<string>, b: seq<string>, key: string)
    requires NoneDefines(a, key)
    ensures ReadLines(a + b, key) == ReadLines(b, key)
    decreases |a|
  {
    if a == [] {
      assert a + b == b;
    } else {
      assert (a + b)[0] == a[0] && (a + b)[1..] == a[1..] + b;
      assert forall i :: 0 <= i < |a| - 1 ==> a[1..][i] == a[i + 1];
      ReadSkips(a[1..], b, key);
    }
  }

  lemma {:induction false} ReadPrefix(a: seq<string>, b: seq<string>, c: seq<string>, key: string)
    requires ReadLines(b, key) == ReadLines(c, key)
    ensures ReadLines(a + b, key) == ReadLines(a + c, key)
    decreases |a|
  {
    if a == [] {
      assert a + b == b && a + c == c;
    } else {
      assert (a + b)[0] == a[0] == (a + c)[0] && (a + b)[1..] == a[1..] + b && (a + c)[1..] == a[1..] + c;
      ReadPrefix(a[1..], b, c, key);
    }
  }

  lemma {:induction false} NotFoundBefore(lines: seq<string>, key: string)
    ensures var i := FindFrom(lines, key);
      (i >= 0 ==> Assigns(lines[i], key))
      && forall j :: 0 <= j < (if i >= 0 then i else |lines|) ==> !Assigns(lines[j], key)
    decreases |lines|
  {
    if lines != [] && !Assigns(lines[0], key) {
      NotFoundBefore(lines[1..], key);
      assert forall j :: 0 <= j < |lines| - 1 ==> lines[1..][j] == lines[j + 1];
    }
  }

  lemma {:induction false} ChoppedIs(lines: seq<string>)
    ensures var n := |Chopped(lines)|;
      Chopped(lines) == lines[..n] && (n > 0 ==> Trim(lines[n - 1]) != "")
      && forall i :: n <= i < |lines| ==> Trim(lines[i]) == ""
    decreases |lines|
  {
    if lines != [] && Trim(lines[|lines| - 1]) == "" {
      var front := lines[..|lines| - 1];
      ChoppedIs(front);
      assert forall i :: 0 <= i < |front| ==> front[i] == lines[i];
    }
  }

  /** The line looked for is the first that begins, white space aside, with the key and '='. */
  predicate SetAt(lines: seq<string>, key: string, i: nat) {
    i < |lines| && key + "=" <= Trim(lines[i]) && forall j :: 0 <= j < i ==> !(key + "=" <= Trim(lines[j]))
  }

  lemma FindIs(lines: seq<string>, key: string)
    ensures var f := FindFrom(lines, key);
      (f >= 0 ==> SetAt(lines, key, f)) && forall i: nat :: SetAt(lines, key, i) ==> i == f
  {
    var f := FindFrom(lines, key);
    NotFoundBefore(lines, key);
    assert f >= 0 ==> Assigns(lines[f], key);
    forall i: nat | SetAt(lines, key, i) ensures i == f { assert Assigns(lines[i], key); }
  }

  /** The first line of the key is replaced where it stands; no other line, comment or blank, is
      touched, and the file ends with a line break. */
  lemma ReplacedLines(content: Option<string>, was: seq<string>, key: string, value: string, i: nat)
    requires '\n' !in key && '\n' !in value
    requires was == Split(if content.Some? then content.value else "", '\n') && SetAt(was, key, i)
    ensures Split(Upserted(content, key, value), '\n') == was[..i] + [key + "=" + value] + was[i + 1..] + [""]
  {
    var lines, line := Split(Content(content), '\n'), key + "=" + value;
    UpsertedLines(content, key, value);
    SplitPlain(line, '\n');
    FindIs(lines, key);
    Regroup(lines[..i], [line], lines[i + 1..], [""]);
  }

  /** If there is none, the new line follows the last line that is not blank. */
  lemma AddedLines(content: Option<string>, was: seq<string>, key: string, value: string)
    requires '\n' !in key && '\n' !in value
    requires was == Split(if content.Some? then content.value else "", '\n') && forall i: nat :: !SetAt(was, key, i)
    ensures exists n :: 0 <= n <= |was| && (n > 0 ==> Trim(was[n - 1]) != "")
                  && (forall i :: n <= i < |was| ==> Trim(was[i]) == "")
                  && Split(Upserted(content, key, value), '\n') == was[..n] + [key + "=" + value, ""]
  {
    var lines, line := Split(Content(content), '\n'), key + "=" + value;
    UpsertedLines(content, key, value);
    SplitPlain(line, '\n');
    FindIs(lines, key);
    ChoppedIs(lines);
    var n := |Chopped(lines)|;
    assert lines[..n] + ([line] + ([] + [""])) == lines[..n] + [line, ""];
  }

  // ---- Keys ----

  /** The keys a `.env` line can define. */
  predicate ValidKey(key: string) {
    key != "" && '=' !in key && '\n' !in key && !IsSpace(key[0]) && key[0] != '#'
  }

  lemma DefinedKeyValid(line: string, key: string)
    requires '\n' !in line && Defines(line, key)
    ensures ValidKey(key)
  {
    var t := Trim(line);
    TrimIsTrimmed(line);
    TrimKeepsOut(line, '\n');
    IndexOfFirst(t, '=');
    assert key[0] == t[0];
  }

  lemma KeyFirst(key: string, rest: string)
    requires '=' !in key
    ensures IndexOf(key + "=" + rest, '=') == |key| && (key + "=" + rest)[..|key|] == key
    ensures (key + "=" + rest)[|key| + 1..] == rest
  {
    assert key + "=" + rest == key + ['='] + rest;
    IndexOfIs(key, '=', rest);
  }

  /** For a valid key, the line looked for when setting is the line found when reading. */
  lemma AssignsIsDefines(line: string, key: string)
    requires ValidKey(key)
    ensures Assigns(line, key) <==> Defines(line, key)
  {
    var t := Trim(line);
    if Assigns(line, key) {
      var rest := t[|key| + 1..];
      assert t == key + "=" + rest;
      KeyFirst(key, rest);
      assert t[0] == key[0];
    }
    if Defines(line, key) {
      assert t[..|key|] == key && t[|key|] == '=';
      assert t[..|key| + 1] == key + "=";
    }
  }

  lemma {:induction false} TrimEndCat(a: string, s: string)
    requires a != "" && !IsSpace(a[|a| - 1])
    ensures TrimEnd(a + s) == a + TrimEnd(s)
    decreases |s|
  {
    if s == "" {
      assert a + s == a;
    } else {
      assert (a + s)[|a + s| - 1] == s[|s| - 1];
      assert (a + s)[..|a + s| - 1] == a + s[..|s| - 1];
      if IsSpace(s[|s| - 1]) { TrimEndCat(a, s[..|s| - 1]); }
    }
  }

  lemma {:induction false} TrimEndCons(c: char, s: string)
    ensures TrimEnd([c] + s) == if TrimEnd(s) == "" then TrimEnd([c]) else [c] + TrimEnd(s)
    decreases |s|
  {
    if s == "" {
      assert [c] + s == [c];
    } else if IsSpace(s[|s| - 1]) {
      assert ([c] + s)[..|s|] == [c] + s[..|s| - 1];
      TrimEndCons(c, s[..|s| - 1]);
    }
  }

  lemma {:induction false} TrimsCommute(s: string)
    ensures TrimStart(TrimEnd(s)) == TrimEnd(TrimStart(s))
    decreases |s|
  {
    if s != "" {
      assert s == [s[0]] + s[1..];
      TrimEndCons(s[0], s[1..]);
      if IsSpace(s[0]) {
        TrimsCommute(s[1..]);
        if TrimEnd(s[1..]) != "" { assert ([s[0]] + TrimEnd(s[1..]))[1..] == TrimEnd(s[1..]); }
      }
    }
  }

  lemma TrimOfTrimEnd(s: string)
    ensures Trim(TrimEnd(s)) == Trim(s)
  {
    TrimsCommute(s);
    TrimEndIs(TrimStart(s));
  }

  /** What the new line says. */
  lemma NewLineDefines(key: string, value: string)
    requires key != "" && !IsSpace(key[0])
    ensures Trim(key + "=" + value) == key + "=" + TrimEnd(value)
    ensures ValidKey(key) ==> Definition(key + "=" + value) == Some((key, TrimEnd(value)))
  {
    var line := key + "=" + value;
    assert line[0] == key[0];
    TrimEndCat(key + "=", value);
    if ValidKey(key) {
      KeyFirst(key, TrimEnd(value));
      assert (key + "=" + TrimEnd(value))[0] == key[0];
    }
  }

  lemma {:induction false} SplitPrefix(a: string, s: string)
    requires '\n' !in a
    ensures Split(a + s, '\n') == [a + Split(s, '\n')[0]] + Split(s, '\n')[1..]
    decreases |a|
  {
    var parts := Split(s, '\n');
    if a == "" {
      assert a + s == s && a + parts[0] == parts[0];
    } else {
      assert (a + s)[0] == a[0] && (a + s)[1..] == a[1..] + s;
      SplitPrefix(a[1..], s);
      assert [a[0]] + (a[1..] + parts[0]) == a + parts[0];
    }
  }

  // ---- What a write does to later reads ----

  lemma BeforeSilent(lines: seq<string>, key: string)
    requires ValidKey(key)
    ensures NoneDefines(Before(lines, key), key)
  {
    var a := Before(lines, key);
    NotFoundBefore(lines, key);
    forall j | 0 <= j < |a| ensures !Defines(a[j], key) {
      assert a[j] == lines[j];
      AssignsIsDefines(lines[j], key);
    }
  }

  lemma FirstAnswers(key: string, value: string, lines: seq<string>)
    requires ValidKey(key) && lines != [] && lines[0] == key + "=" + value
    ensures ReadLines(lines, key) == Present(Trim(value))
  {
    NewLineDefines(key, value);
    TrimOfTrimEnd(value);
  }

  /** The first of the new lines answers, whatever follows them. */
  lemma NewLinesAnswer(key: string, value: string, rest: seq<string>)
    requires ValidKey(key)
    ensures ReadLines(Split(key + "=" + value, '\n') + rest, key) == Present(Trim(Split(value, '\n')[0]))
  {
    SplitPrefix(key + "=", value);
    FirstAnswers(key, Split(value, '\n')[0], Split(key + "=" + value, '\n') + rest);
  }

  /** A read right after a write returns the value's first line, trimmed; an empty one reads as none. */
  lemma ReadAfterWrite(content: Option<string>, key: string, value: string)
    requires ValidKey(key)
    ensures Read(Some(Upserted(content, key, value)), key) == Present(Trim(Split(value, '\n')[0]))
  {
    var lines := Split(Content(content), '\n');
    var tail := Split(key + "=" + value, '\n') + (After(lines, key) + [""]);
    UpsertedLines(content, key, value);
    BeforeSilent(lines, key);
    ReadSkips(Before(lines, key), tail, key);
    NewLinesAnswer(key, value, After(lines, key) + [""]);
  }

  lemma {:induction false} InvalidReadsNothing(lines: seq<string>, key: string)
    requires NoneHas(lines, '\n') && !ValidKey(key)
    ensures ReadLines(lines, key) == None
    decreases |lines|
  {
    if lines == [] {
    } else {
      assert '\n' !in lines[0] && forall i :: 0 <= i < |lines| - 1 ==> lines[1..][i] == lines[i + 1];
      if Defines(lines[0], key) { DefinedKeyValid(lines[0], key); }
      InvalidReadsNothing(lines[1..], key);
    }
  }

  /** A value that is not blank reads back exactly under the keys a line can define:
      not empty, no '=' or line break, not starting with white space or '#'. */
  lemma ReadsBackIff(content: Option<string>, key: string, value: string)
    requires Trim(Split(value, '\n')[0]) != ""
    ensures Read(Some(Upserted(content, key, value)), key) == Some(Trim(Split(value, '\n')[0])) <==> ValidKey(key)
  {
    if ValidKey(key) {
      ReadAfterWrite(content, key, value);
    } else {
      SplitNoneHas(Upserted(content, key, value), '\n');
      InvalidReadsNothing(Split(Upserted(content, key, value), '\n'), key);
    }
  }

  lemma {:induction false} IndexOfPrefix(a: string, b: string, c: char)
    requires c in a
    ensures IndexOf(a + b, c) == IndexOf(a, c) >= 0
    decreases |a|
  {
    assert (a + b)[0] == a[0];
    if a[0] != c {
      assert a == [a[0]] + a[1..] && (a + b)[1..] == a[1..] + b;
      IndexOfPrefix(a[1..], b, c);
    }
  }

  /** Lines that begin with the same `key=` define the same key. */
  lemma SamePrefixSameKey(l: string, m: string, key: string, other: string)
    requires Assigns(l, key) && Assigns(m, key)
    ensures Defines(l, other) <==> Defines(m, other)
  {
    var p, t, u := key + "=", Trim(l), Trim(m);
    assert t == p + t[|p|..] && u == p + u[|p|..] && p[|key|] == '=';
    IndexOfPrefix(p, t[|p|..], '=');
    IndexOfPrefix(p, u[|p|..], '=');
    assert t[0] == p[0] == u[0];
    var eq := IndexOf(p, '=');
    assert t[..eq] == p[..eq] == u[..eq];
  }

  lemma {:induction false} ChoppedReads(lines: seq<string>, key: string, rest: seq<string>)
    ensures ReadLines(lines + rest, key) == ReadLines(Chopped(lines) + rest, key)
    decreases |lines|
  {
    if lines != [] && Trim(lines[|lines| - 1]) == "" {
      var front, last := lines[..|lines| - 1], [lines[|lines| - 1]];
      assert lines + rest == front + (last + rest);
      assert (last + rest)[0] == last[0] && (last + rest)[1..] == rest;
      ReadPrefix(front, last + rest, rest, key);
      ChoppedReads(front, key, rest);
    }
  }

  lemma SkipsMiddle(a: seq<string>, mid: seq<string>, b: seq<string>, key: string)
    requires NoneDefines(mid, key)
    ensures ReadLines(a + (mid + b), key) == ReadLines(a + b, key)
  {
    ReadSkips(mid, b, key);
    ReadPrefix(a, mid + b, b, key);
  }

  lemma BlankEnd(lines: seq<string>, key: string)
    ensures ReadLines(lines + [""], key) == ReadLines(lines, key)
  {
    assert NoneDefines([""], key);
    SkipsMiddle(lines, [""], [], key);
    assert [""] + [] == [""] && lines + [] == lines;
  }

  lemma EditedRead(lines: seq<string>, i: nat, other: string)
    requires i < |lines| && !Defines(lines[i], other)
    ensures ReadLines(lines[..i] + (lines[i + 1..] + [""]), other) == ReadLines(lines + [""], other)
  {
    SkipsMiddle(lines[..i], [lines[i]], lines[i + 1..] + [""], other);
    assert lines + [""] == lines[..i] + ([lines[i]] + (lines[i + 1..] + [""]));
  }

  /** Without the edited line, reading the kept lines is reading the old ones. */
  lemma KeptLinesRead(lines: seq<string>, key: string, other: string)
    requires var i := FindFrom(lines, key); i >= 0 ==> !Defines(lines[i], other)
    ensures ReadLines(Before(lines, key) + (After(lines, key) + [""]), other) == ReadLines(lines, other)
  {
    var i := FindFrom(lines, key);
    if i >= 0 {
      EditedRead(lines, i, other);
    } else {
      assert [] + [""] == [""];
      ChoppedReads(lines, other, [""]);
    }
    BlankEnd(lines, other);
  }

  /** Setting a key changes no other key that the new text's own lines do not define. */
  lemma UpsertFrame(content: Option<string>, key: string, value: string, other: string)
    requires NoneDefines(Split(key + "=" + value, '\n'), other)
    ensures Read(Some(Upserted(content, key, value)), other) == Read(Some(Content(content)), other)
  {
    var lines := Split(Content(content), '\n');
    UpsertedLines(content, key, value);
    SkipsMiddle(Before(lines, key), Split(key + "=" + value, '\n'), After(lines, key) + [""], other);
    if FindFrom(lines, key) >= 0 { OldLineDefinesNoMore(content, key, value, other); }
    KeptLinesRead(lines, key, other);
  }

  lemma OldLineDefinesNoMore(content: Option<string>, key: string, value: string, other: string)
    requires var lines := Split(Content(content), '\n'); FindFrom(lines, key) >= 0
    requires NoneDefines(Split(key + "=" + value, '\n'), other)
    ensures var lines := Split(Content(content), '\n'); !Defines(lines[FindFrom(lines, key)], other)
  {
    var lines, parts := Split(Content(content), '\n'), Split(value, '\n');
    var l := lines[FindFrom(lines, key)];
    NotFoundBefore(lines, key);
    SplitNoneHas(Content(content), '\n');
    assert '\n' !in l;
    TrimKeepsOut(l, '\n');
    TrimIsTrimmed(l);
    var t := Trim(l);
    assert t[..|key| + 1] == key + "=";
    if key == "" {
      assert t[0] == '=';
    } else {
      assert t[0] == key[0] && forall j :: 0 <= j < |key| ==> key[j] == t[j];
      SplitPrefix(key + "=", value);
      var first := Split(key + "=" + value, '\n')[0];
      assert first == key + "=" + parts[0];
      NewLineDefines(key, parts[0]);
      SamePrefixSameKey(l, first, key, other);
    }
  }

  /** In particular: setting a valid key to a one-line value leaves every other key alone. */
  lemma OtherKeysKept(content: Option<string>, key: string, value: string, other: string)
    requires ValidKey(key) && '\n' !in value && other != key
    ensures Read(Some(Upserted(content, key, value)), other) == Read(Some(Content(content)), other)
  {
    SplitPlain(key + "=" + value, '\n');
    NewLineDefines(key, value);
    UpsertFrame(content, key, value, other);
  }
}
