/** Greedy wrapping of a terminal line (setup/lib/theme.ts). Colour sequences
    take no columns, so a word can be present and invisible. */
module WrapLine {
  import opened Texts

  // ---- Visible length ----

  predicate IsParam(c: char) {
    '0' <= c <= '9' || c == ';'
  }

  /** How many characters of the class [0-9;] come first. */
  function Params(s: string): (n: nat)
    ensures n <= |s| && (n < |s| ==> !IsParam(s[n]))
    decreases |s|
  {
    if s == "" || !IsParam(s[0]) then 0 else 1 + Params(s[1..])
  }

  /** The length of the colour sequence `s` begins with, or 0. */
  function Escape(s: string): (n: nat)
    ensures n <= |s|
  {
    if |s| < 2 || s[0] != '\U{001B}' || s[1] != '[' then 0
    else
      var n := 2 + Params(s[2..]);
      if n < |s| && s[n] == 'm' then n + 1 else 0
  }

  /** The length without colour sequences. */
  function Visible(s: string): nat
    decreases |s|
  {
    if s == "" then 0
    else if Escape(s) > 0 then Visible(s[Escape(s)..])
    else 1 + Visible(s[1..])
  }

  lemma {:induction false} ParamsStop(a: string, b: string)
    ensures Params(a + " " + b) == Params(a)
    decreases |a|
  {
    var s := a + " " + b;
    if a != "" {
      assert s[0] == a[0] && s[1..] == a[1..] + " " + b;
      ParamsStop(a[1..], b);
    }
  }

  lemma EscapeStops(a: string, b: string)
    ensures Escape(a + " " + b) == Escape(a)
  {
    var s := a + " " + b;
    if |a| >= 2 {
      assert s[2..] == a[2..] + " " + b;
      ParamsStop(a[2..], b);
    }
  }

  /** A space belongs to no colour sequence, so it splits the visible length. */
  lemma {:induction false} VisibleSplits(a: string, b: string)
    ensures Visible(a + " " + b) == Visible(a) + 1 + Visible(b)
    decreases |a|
  {
    var s := a + " " + b;
    EscapeStops(a, b);
    if a == "" {
      assert s == " " + b && s[1..] == b;
    } else {
      var n := if Escape(a) > 0 then Escape(a) else 1;
      assert s[n..] == a[n..] + " " + b;
      VisibleSplits(a[n..], b);
    }
  }

  // ---- Rows of words ----

  function Row(words: seq<string>): string {
    Join(words, ' ')
  }

  /** The columns a row of words takes. */
  function Len(words: seq<string>): nat
    decreases |words|
  {
    if words == [] then 0
    else if |words| == 1 then Visible(words[0])
    else Visible(words[0]) + 1 + Len(words[1..])
  }

  lemma {:induction false} LenIsVisible(words: seq<string>)
    ensures Len(words) == Visible(Row(words))
    decreases |words|
  {
    if |words| > 1 {
      LenIsVisible(words[1..]);
      VisibleSplits(words[0], Row(words[1..]));
    }
  }

  lemma {:induction false} RowSnoc(words: seq<string>, w: string)
    requires words != []
    ensures Row(words + [w]) == Row(words) + " " + w
    decreases |words|
  {
    var all := words + [w];
    assert [' '] == " ";
    if |words| == 1 {
      assert all[1..] == [w] && Row([w]) == w;
      assert Row(all) == all[0] + [' '] + Row(all[1..]);
    } else {
      var rest := Row(words[1..]);
      assert all[1..] == words[1..] + [w];
      RowSnoc(words[1..], w);
      assert words[0] + " " + (rest + " " + w) == words[0] + " " + rest + " " + w;
    }
  }

  /** The rows the loop makes of the words of the row begun and the words still to come. */
  function Groups(cur: seq<string>, words: seq<string>, width: int): seq<seq<string>>
    decreases |words|
  {
    if words == [] then (if Row(cur) != "" then [cur] else [])
    else if Visible(Row(cur)) == 0 then Groups([words[0]], words[1..], width)
    else if Visible(Row(cur)) + 1 + Visible(words[0]) <= width then Groups(cur + [words[0]], words[1..], width)
    else [cur] + Groups([words[0]], words[1..], width)
  }

  function RowsText(rows: seq<seq<string>>): (r: seq<string>)
    ensures |r| == |rows|
    decreases |rows|
  {
    if rows == [] then [] else [Row(rows[0])] + RowsText(rows[1..])
  }

  lemma {:induction false} RowsTextSnoc(rows: seq<seq<string>>, row: seq<string>)
    ensures RowsText(rows + [row]) == RowsText(rows) + [Row(row)]
    decreases |rows|
  {
    if rows == [] {
      assert rows + [row] == [row];
    } else {
      assert (rows + [row])[1..] == rows[1..] + [row];
      RowsTextSnoc(rows[1..], row);
    }
  }

  /** One turn of the loop: the word starts the first row, joins the row, or starts the next one. */
  lemma GroupsStep(made: seq<seq<string>>, row: seq<string>, words: seq<string>, width: int)
    requires words != []
    ensures var w, len := words[0], Visible(Row(row));
      made + Groups(row, words, width)
      == if len == 0 then made + Groups([w], words[1..], width)
         else if len + 1 + Visible(w) <= width then made + Groups(row + [w], words[1..], width)
         else made + [row] + Groups([w], words[1..], width)
  {
    var g := Groups([words[0]], words[1..], width);
    assert made + ([row] + g) == made + [row] + g;
  }

  function Wrapped(line: string, width: int): string {
    if Visible(line) <= width then line else Join(RowsText(Groups([], Split(line, ' '), width)), '\n')
  }

  method Wrap(line: string, width: int) returns (out: string)
    ensures out == Wrapped(line, width)
  {
    if Visible(line) <= width {
      return line;
    }
    var words := Split(line, ' ');
    var rows: seq<string> := [];
    var cur := "";
    var curLen := 0;
    ghost var made: seq<seq<string>> := [];
    ghost var row: seq<string> := [];
    for i := 0 to |words|
      invariant rows == RowsText(made) && cur == Row(row) && curLen == Visible(cur)
      invariant Groups([], words, width) == made + Groups(row, words[i..], width)
    {
      var word := words[i];
      var wLen := Visible(word);
      ghost var rest := words[i..];
      assert rest[0] == word && rest[1..] == words[i + 1..];
      GroupsStep(made, row, rest, width);
      if curLen == 0 {
        cur := word;
        curLen := wLen;
        row := [word];
      } else if curLen + 1 + wLen <= width {
        RowSnoc(row, word);
        VisibleSplits(cur, word);
        cur := cur + " " + word;
        curLen := curLen + 1 + wLen;
        row := row + [word];
      } else {
        RowsTextSnoc(made, row);
        rows := rows + [cur];
        cur := word;
        curLen := wLen;
        made, row := made + [row], [word];
      }
    }
    assert words[|words|..] == [];
    if cur != "" {
      RowsTextSnoc(made, row);
      rows := rows + [cur];
      made := made + [row];
    }
    assert Groups([], words, width) == made;
    out := Join(rows, '\n');
  }

  // ---- The best wrapping ----

  /** How many more words fit after `len` columns. */
  function Extra(len: nat, words: seq<string>, width: int): (n: nat)
    ensures n <= |words|
    decreases |words|
  {
    if words != [] && len + 1 + Visible(words[0]) <= width
    then 1 + Extra(len + 1 + Visible(words[0]), words[1..], width) else 0
  }

  function First(words: seq<string>, width: int): (n: nat)
    requires words != []
    ensures 1 <= n <= |words|
  {
    1 + Extra(Visible(words[0]), words[1..], width)
  }

  /** Every row takes all the words it can. */
  function Greedy(words: seq<string>, width: int): seq<seq<string>>
    decreases |words|
  {
    if words == [] then []
    else var n := First(words, width); [words[..n]] + Greedy(words[n..], width)
  }

  function Flatten(rows: seq<seq<string>>): seq<string>
    decreases |rows|
  {
    if rows == [] then [] else rows[0] + Flatten(rows[1..])
  }

  predicate RowFits(row: seq<string>, width: int) {
    row != [] && (Len(row) <= width || |row| == 1)
  }

  predicate AllFit(rows: seq<seq<string>>, width: int) {
    forall i :: 0 <= i < |rows| ==> RowFits(rows[i], width)
  }

  lemma {:induction false} ExtraFits(len: nat, words: seq<string>, width: int)
    ensures var e := Extra(len, words, width); e == 0 || len + 1 + Len(words[..e]) <= width
    decreases |words|
  {
    var e := Extra(len, words, width);
    if e == 0 {
    } else {
      var len' := len + 1 + Visible(words[0]);
      ExtraFits(len', words[1..], width);
      assert words[..e] == [words[0]] + words[1..][..e - 1];
    }
  }

  lemma {:induction false} ExtraMost(len: nat, words: seq<string>, width: int, m: nat)
    requires 1 <= m <= |words| && len + 1 + Len(words[..m]) <= width
    ensures Extra(len, words, width) >= m
    decreases m
  {
    if m > 1 {
      assert words[..m][1..] == words[1..][..m - 1];
      ExtraMost(len + 1 + Visible(words[0]), words[1..], width, m - 1);
    }
  }

  lemma {:induction false} GreedySplits(words: seq<string>, width: int)
    ensures Flatten(Greedy(words, width)) == words && AllFit(Greedy(words, width), width)
    decreases |words|
  {
    if words == [] {
    } else {
      var n := First(words, width);
      GreedySplits(words[n..], width);
      ExtraFits(Visible(words[0]), words[1..], width);
      if n > 1 { assert words[..n][1..] == words[1..][..n - 1]; }
      assert words[..n] + words[n..] == words;
      assert RowFits(words[..n], width);
    }
  }

  lemma {:induction false} SuffixShorter(words: seq<string>, i: nat)
    requires i < |words|
    ensures Len(words[i..]) <= Len(words)
    decreases i
  {
    if i > 0 {
      SuffixShorter(words[1..], i - 1);
      assert words[1..][i - 1..] == words[i..];
    } else {
      assert words[0..] == words;
    }
  }

  /** A row reaches at least as far as any fitting row that contains its first word. */
  lemma FirstReaches(words: seq<string>, i: nat, k: nat, width: int)
    requires i < k <= |words| && RowFits(words[..k], width)
    ensures i + First(words[i..], width) >= k
  {
    var row, rest := words[..k], words[i..];
    if k > i + 1 {
      SuffixShorter(row, i);
      assert row[i..] == rest[..k - i];
      assert rest[..k - i][1..] == rest[1..][..k - i - 1];
      ExtraMost(Visible(rest[0]), rest[1..], width, k - i - 1);
    }
  }

  /** So the first greedy row of a suffix ends no earlier than that row. */
  lemma GreedyRow(words: seq<string>, i: nat, k: nat, width: int) returns (next: nat)
    requires i < k <= |words| && RowFits(words[..k], width)
    ensures k <= next <= |words| && |Greedy(words[i..], width)| == 1 + |Greedy(words[next..], width)|
  {
    var n := First(words[i..], width);
    FirstReaches(words, i, k, width);
    next := i + n;
    assert words[i..][n..] == words[next..];
  }

  lemma FirstOfSplit(split: seq<seq<string>>, width: int)
    requires split != [] && AllFit(split, width)
    ensures var words := Flatten(split); var k := |split[0]|;
      words[..k] == split[0] && words[k..] == Flatten(split[1..])
    ensures RowFits(split[0], width) && AllFit(split[1..], width)
  {
    assert forall i :: 0 <= i < |split| - 1 ==> split[1..][i] == split[i + 1];
  }

  lemma SuffixOfRest(words: seq<string>, k: nat, rest: seq<string>, i: nat)
    requires k <= i <= |words| && rest == words[k..]
    ensures i - k <= |rest| && rest[i - k..] == words[i..]
  {
  }

  lemma {:induction false} GreedyFewestFrom(words: seq<string>, split: seq<seq<string>>, i: nat, width: int)
    requires Flatten(split) == words && AllFit(split, width) && i <= |words|
    ensures |Greedy(words[i..], width)| <= |split|
    decreases |split|
  {
    if i == |words| {
      assert words[i..] == [];
    } else {
      var k, rest := |split[0]|, Flatten(split[1..]);
      FirstOfSplit(split, width);
      if i >= k {
        SuffixOfRest(words, k, rest, i);
        GreedyFewestFrom(rest, split[1..], i - k, width);
      } else {
        var next := GreedyRow(words, i, k, width);
        SuffixOfRest(words, k, rest, next);
        GreedyFewestFrom(rest, split[1..], next - k, width);
      }
    }
  }

  /** No other way of breaking the words into fitting rows has fewer rows. */
  lemma GreedyFewest(words: seq<string>, split: seq<seq<string>>, width: int)
    requires Flatten(split) == words && AllFit(split, width)
    ensures |Greedy(words, width)| <= |split|
  {
    assert words[0..] == words;
    GreedyFewestFrom(words, split, 0, width);
  }

  // ---- The loop is the best wrapping while rows begin visibly ----

  lemma RowGrows(cur: seq<string>, words: seq<string>, width: int)
    requires Visible(Row(cur)) > 0 && Extra(Visible(Row(cur)), words, width) > 0
    ensures Groups(cur, words, width) == Groups(cur + [words[0]], words[1..], width)
    ensures Extra(Visible(Row(cur)), words, width)
         == 1 + Extra(Visible(Row(cur)) + 1 + Visible(words[0]), words[1..], width)
  {
  }

  /** A visible row takes the words that fit; then a new row begins. */
  lemma {:induction false} RunRow(cur: seq<string>, words: seq<string>, width: int)
    requires Visible(Row(cur)) > 0
    ensures var e := Extra(Visible(Row(cur)), words, width);
      Groups(cur, words, width) == [cur + words[..e]] + Groups([], words[e..], width)
    decreases |words|
  {
    var e := Extra(Visible(Row(cur)), words, width);
    if e == 0 {
      assert cur + words[..0] == cur && words[0..] == words;
    } else {
      var next := cur + [words[0]];
      Joins(cur, words[0]);
      RowGrows(cur, words, width);
      RunRow(next, words[1..], width);
      Shift(cur, words, e);
    }
  }

  lemma Joins(cur: seq<string>, w: string)
    requires Visible(Row(cur)) > 0
    ensures Visible(Row(cur + [w])) == Visible(Row(cur)) + 1 + Visible(w)
  {
    RowSnoc(cur, w);
    VisibleSplits(Row(cur), w);
  }

  lemma Shift(cur: seq<string>, words: seq<string>, e: nat)
    requires 0 < e <= |words|
    ensures cur + [words[0]] + words[1..][..e - 1] == cur + words[..e]
    ensures words[1..][e - 1..] == words[e..]
  {
  }

  lemma FirstGroup(words: seq<string>, width: int)
    requires words != [] && Visible(words[0]) > 0
    ensures var n := First(words, width);
      Groups([], words, width) == [words[..n]] + Groups([], words[n..], width)
  {
    var n := First(words, width);
    RunRow([words[0]], words[1..], width);
    assert [words[0]] + words[1..][..n - 1] == words[..n] && words[1..][n - 1..] == words[n..];
  }

  /** Each row begins with a visible word, or the last word is a colour sequence on its own. */
  predicate RowsBeginVisibly(words: seq<string>, width: int)
    decreases |words|
  {
    words == []
    || (Visible(words[0]) > 0 && RowsBeginVisibly(words[First(words, width)..], width))
    || (|words| == 1 && words[0] != "")
  }

  lemma {:induction false} BeginVisiblySame(words: seq<string>, width: int)
    requires RowsBeginVisibly(words, width)
    ensures Groups([], words, width) == Greedy(words, width)
    decreases |words|
  {
    if words == [] {
    } else {
      if Visible(words[0]) > 0 {
        FirstGroup(words, width);
        BeginVisiblySame(words[First(words, width)..], width);
      } else {
        assert words[1..] == [] && words[..1] == words == [words[0]];
      }
    }
  }

  lemma FlattenCons(row: seq<string>, rows: seq<seq<string>>)
    ensures Flatten([row] + rows) == row + Flatten(rows)
  {
    assert ([row] + rows)[1..] == rows;
  }

  lemma {:induction false} GroupsNoMore(words: seq<string>, width: int)
    ensures |Flatten(Groups([], words, width))| <= |words|
    decreases |words|
  {
    if words == [] {
    } else {
      if Visible(words[0]) > 0 {
        var n := First(words, width);
        FirstGroup(words, width);
        FlattenCons(words[..n], Groups([], words[n..], width));
        GroupsNoMore(words[n..], width);
      } else if |words| == 1 {
        FlattenCons([words[0]], []);
      } else {
        assert Groups([], words, width) == Groups([words[0]], words[1..], width) == Groups([], words[1..], width);
        GroupsNoMore(words[1..], width);
      }
    }
  }

  lemma SameFront(a: seq<string>, b: seq<string>, c: seq<string>)
    ensures a + b == a + c <==> b == c
  {
    assert (a + b)[|a|..] == b && (a + c)[|a|..] == c;
  }

  /** The loop keeps every word exactly when every row begins visibly; a word
      that takes no columns is dropped at the start of a row. */
  lemma {:induction false} KeepsWordsIff(words: seq<string>, width: int)
    ensures Flatten(Groups([], words, width)) == words <==> RowsBeginVisibly(words, width)
    decreases |words|
  {
    if RowsBeginVisibly(words, width) {
      BeginVisiblySame(words, width);
      GreedySplits(words, width);
    } else if Visible(words[0]) > 0 {
      var n := First(words, width);
      var rest := Flatten(Groups([], words[n..], width));
      FirstGroup(words, width);
      FlattenCons(words[..n], Groups([], words[n..], width));
      KeepsWordsIff(words[n..], width);
      SameFront(words[..n], rest, words[n..]);
      assert words[..n] + words[n..] == words;
    } else if |words| > 1 {
      assert Groups([], words, width) == Groups([words[0]], words[1..], width) == Groups([], words[1..], width);
      GroupsNoMore(words[1..], width);
    }
  }

  predicate AllVisible(words: seq<string>) {
    forall i :: 0 <= i < |words| ==> Visible(words[i]) > 0
  }

  lemma {:induction false} VisibleWordsBegin(words: seq<string>, width: int)
    requires AllVisible(words)
    ensures RowsBeginVisibly(words, width)
    decreases |words|
  {
    if words == [] {
    } else {
      var n := First(words, width);
      assert forall i :: 0 <= i < |words| - n ==> words[n..][i] == words[n + i];
      VisibleWordsBegin(words[n..], width);
    }
  }

  lemma {:induction false} RowTextAt(rows: seq<seq<string>>, i: nat)
    requires i < |rows|
    ensures RowsText(rows)[i] == Row(rows[i])
    decreases i
  {
    if i == 0 {
    } else {
      RowTextAt(rows[1..], i - 1);
    }
  }

  /** Every printed row takes no more columns than allowed, or is a single word. */
  lemma PrintedRowsFit(rows: seq<seq<string>>, width: int)
    requires AllFit(rows, width)
    ensures forall i :: 0 <= i < |rows| ==> Visible(RowsText(rows)[i]) <= width || RowsText(rows)[i] == rows[i][0]
  {
    forall i | 0 <= i < |rows|
      ensures Visible(RowsText(rows)[i]) <= width || RowsText(rows)[i] == rows[i][0]
    {
      assert RowFits(rows[i], width);
      RowTextAt(rows, i);
      LenIsVisible(rows[i]);
    }
  }

  /** For visible words: the rows hold all words in order, each printed row fits or is
      one word, and there are no fewer rows in any such split. */
  lemma WrapIsBest(line: string, width: int, split: seq<seq<string>>)
    requires var words := Split(line, ' ');
      AllVisible(words) && Flatten(split) == words && AllFit(split, width)
    ensures var rows := Groups([], Split(line, ' '), width);
      Flatten(rows) == Split(line, ' ') && AllFit(rows, width) && |rows| <= |split|
      && forall i :: 0 <= i < |rows| ==> Visible(RowsText(rows)[i]) <= width || RowsText(rows)[i] == rows[i][0]
  {
    var words := Split(line, ' ');
    VisibleWordsBegin(words, width);
    BeginVisiblySame(words, width);
    GreedySplits(words, width);
    GreedyFewest(words, split, width);
    PrintedRowsFit(Groups([], words, width), width);
  }

  // ---- The text that comes out ----

  /** Text without an escape character is as long as it looks. */
  lemma {:induction false} PlainVisible(s: string)
    requires '\U{001B}' !in s
    ensures Visible(s) == |s|
    decreases |s|
  {
    if s == "" {
    } else {
      PlainVisible(s[1..]);
    }
  }

  predicate AllParams(s: string) {
    forall i :: 0 <= i < |s| ==> '0' <= s[i] <= '9' || s[i] == ';'
  }

  lemma {:induction false} ParamsAre(ps: string, c: char, rest: string)
    requires AllParams(ps) && !IsParam(c)
    ensures Params(ps + [c] + rest) == |ps|
    decreases |ps|
  {
    var s := ps + [c] + rest;
    if ps == "" {
    } else {
      assert s[1..] == ps[1..] + [c] + rest;
      ParamsAre(ps[1..], c, rest);
    }
  }

  /** A colour sequence takes no columns; what only looks like one takes all of its own. */
  lemma ColourVisible(ps: string, c: char, rest: string)
    requires AllParams(ps) && !IsParam(c)
    ensures Visible("\U{001B}[" + ps + [c] + rest)
         == if c == 'm' then Visible(rest) else 1 + Visible("[" + ps + [c] + rest)
  {
    var s := "\U{001B}[" + ps + [c] + rest;
    assert s[2..] == ps + [c] + rest && s[1..] == "[" + ps + [c] + rest;
    ParamsAre(ps, c, rest);
    assert s[|ps| + 3..] == rest;
  }

  lemma {:induction false} JoinCat(a: seq<string>, b: seq<string>)
    requires a != [] && b != []
    ensures Row(a + b) == Row(a) + " " + Row(b)
    decreases |a|
  {
    assert [' '] == " " && (a + b)[0] == a[0] && (a + b)[1..] == a[1..] + b;
    if |a| == 1 {
      assert a[1..] + b == b;
    } else {
      JoinCat(a[1..], b);
      assert a[0] + " " + (Row(a[1..]) + " " + Row(b)) == a[0] + " " + Row(a[1..]) + " " + Row(b);
    }
  }

  /** Joining the rows with spaces is joining the words. */
  lemma {:induction false} RowsJoin(rows: seq<seq<string>>)
    requires rows != [] && forall i :: 0 <= i < |rows| ==> rows[i] != []
    ensures Flatten(rows) != [] && Join(RowsText(rows), ' ') == Row(Flatten(rows))
    decreases |rows|
  {
    assert rows[0] != [];
    if |rows| == 1 {
      assert rows[1..] == [] && Flatten(rows) == rows[0];
    } else {
      var rest := rows[1..];
      assert forall i :: 0 <= i < |rest| ==> rest[i] == rows[i + 1];
      RowsJoin(rest);
      JoinCat(rows[0], Flatten(rest));
      assert RowsText(rows)[1..] == RowsText(rest);
    }
  }

  lemma {:induction false} WordsPlain(words: seq<string>, c: char)
    requires c != ' ' && c !in Row(words)
    ensures NoneHas(words, c)
    decreases |words|
  {
    if |words| > 1 {
      WordsPlain(words[1..], c);
      assert forall i :: 1 <= i < |words| ==> words[i] == words[1..][i - 1];
    }
  }

  lemma {:induction false} RowsPlain(words: seq<string>, c: char)
    requires c != ' ' && NoneHas(words, c)
    ensures c !in Row(words)
    decreases |words|
  {
    if |words| > 1 {
      assert forall i :: 0 <= i < |words| - 1 ==> words[1..][i] == words[i + 1];
      RowsPlain(words[1..], c);
    }
  }

  lemma {:induction false} TextsPlain(rows: seq<seq<string>>, c: char)
    requires c != ' ' && NoneHas(Flatten(rows), c)
    ensures NoneHas(RowsText(rows), c)
    decreases |rows|
  {
    if rows == [] {
    } else {
      var all := Flatten(rows);
      assert all[..|rows[0]|] == rows[0] && all[|rows[0]|..] == Flatten(rows[1..]);
      RowsPlain(rows[0], c);
      TextsPlain(rows[1..], c);
      assert forall i :: 1 <= i < |rows| ==> RowsText(rows)[i] == RowsText(rows[1..])[i - 1];
    }
  }

  lemma GroupsNonEmpty(words: seq<string>, width: int)
    requires words != [] && Flatten(Groups([], words, width)) == words && AllFit(Groups([], words, width), width)
    ensures var rows := Groups([], words, width);
      rows != [] && forall i :: 0 <= i < |rows| ==> rows[i] != []
  {
    var rows := Groups([], words, width);
    assert forall i :: 0 <= i < |rows| ==> RowFits(rows[i], width);
  }

  /** A line that fits comes out as it is. A longer one of visible words comes out with some
      of its spaces turned into line breaks and nothing else changed: its rows are those of
      `WrapIsBest`, the fewest that fit. */
  lemma WrappedText(line: string, width: int)
    requires '\n' !in line && AllVisible(Split(line, ' '))
    ensures Visible(line) <= width ==> Wrapped(line, width) == line
    ensures Join(Split(Wrapped(line, width), '\n'), ' ') == line
    ensures Visible(line) > width ==>
      Split(Wrapped(line, width), '\n') == RowsText(Groups([], Split(line, ' '), width))
  {
    var words, rows := Split(line, ' '), Groups([], Split(line, ' '), width);
    if Visible(line) <= width {
      SplitPlain(line, '\n');
    } else {
      VisibleWordsBegin(words, width);
      BeginVisiblySame(words, width);
      GreedySplits(words, width);
      GroupsNonEmpty(words, width);
      JoinSplit(line, ' ');
      WordsPlain(words, '\n');
      TextsPlain(rows, '\n');
      SplitJoin(RowsText(rows), '\n');
      RowsJoin(rows);
    }
  }
}
