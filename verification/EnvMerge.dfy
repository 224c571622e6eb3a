/** Copying the keys of a v1 `.env` into the v2 `.env` (setup/migrate-v2/env.ts). */
module EnvMerge {
  import opened Options
  import opened Texts

  datatype Entry = Entry(key: string, line: string)

  // ---- Insertion-ordered maps ----

  predicate Has(m: seq<Entry>, key: string) {
    exists i :: 0 <= i < |m| && m[i].key == key
  }

  /** map.set: a known key keeps its place. */
  function Put(m: seq<Entry>, e: Entry): seq<Entry>
    decreases |m|
  {
    if m == [] then [e]
    else if m[0].key == e.key then [e] + m[1..]
    else [m[0]] + Put(m[1..], e)
  }

  ghost predicate Distinct(m: seq<Entry>) {
    forall i, j :: 0 <= i < j < |m| ==> m[i].key != m[j].key
  }

  lemma {:induction false} PutNew(m: seq<Entry>, e: Entry)
    requires !Has(m, e.key)
    ensures Put(m, e) == m + [e]
    decreases |m|
  {
    if m == [] {
    } else {
      assert forall i :: 0 <= i < |m| - 1 ==> m[1..][i] == m[i + 1];
      PutNew(m[1..], e);
    }
  }

  lemma {:induction false} PutKeys(m: seq<Entry>, e: Entry)
    ensures |Put(m, e)| >= |m| && forall i :: 0 <= i < |m| ==> Put(m, e)[i].key == m[i].key
    ensures Has(m, e.key) ==> |Put(m, e)| == |m|
    decreases |m|
  {
    if m != [] && m[0].key != e.key {
      PutKeys(m[1..], e);
      if Has(m, e.key) {
        var i :| 0 <= i < |m| && m[i].key == e.key;
        assert m[1..][i - 1].key == e.key;
      }
    }
  }

  lemma PutDistinct(m: seq<Entry>, e: Entry)
    requires Distinct(m)
    ensures Distinct(Put(m, e))
  {
    if Has(m, e.key) { PutKeys(m, e); } else { PutNew(m, e); }
  }

  /** A known key keeps its place and takes the new line; a new one goes to the end. */
  lemma {:induction false} PutIs(m: seq<Entry>, e: Entry)
    requires Distinct(m)
    ensures if Has(m, e.key)
            then |Put(m, e)| == |m|
                  && forall i :: 0 <= i < |m| ==> Put(m, e)[i] == if m[i].key == e.key then e else m[i]
            else Put(m, e) == m + [e]
    decreases |m|
  {
    if !Has(m, e.key) {
      PutNew(m, e);
    } else if m[0].key == e.key {
      assert forall i :: 1 <= i < |m| ==> m[i].key != m[0].key;
    } else {
      var rest := m[1..];
      assert forall i :: 0 <= i < |rest| ==> rest[i] == m[i + 1];
      var j :| 0 <= j < |m| && m[j].key == e.key;
      assert rest[j - 1].key == e.key;
      PutIs(rest, e);
    }
  }

  // ---- Parsing ----

  predicate IdentStart(c: char) {
    'A' <= c <= 'Z' || 'a' <= c <= 'z' || c == '_'
  }

  /** /^[A-Z_][A-Z0-9_]*$/i */
  predicate Ident(s: string) {
    s != "" && IdentStart(s[0]) && forall i :: 0 <= i < |s| ==> IdentStart(s[i]) || '0' <= s[i] <= '9'
  }

  /** The entry of a line already trimmed at its end. */
  function EntryOf(line: string): Option<Entry> {
    if line == "" || "#" <= line then None
    else
      var eq := IndexOf(line, '=');
      if eq <= 0 then None
      else var key := Trim(line[..eq]); if Ident(key) then Some(Entry(key, line)) else None
  }

  function Entries(raws: seq<string>): seq<Entry>
    decreases |raws|
  {
    if raws == [] then []
    else
      var e := EntryOf(TrimEnd(raws[0]));
      if e.Some? then [e.value] + Entries(raws[1..]) else Entries(raws[1..])
  }

  function PutAll(m: seq<Entry>, es: seq<Entry>): seq<Entry>
    decreases |es|
  {
    if es == [] then m else PutAll(Put(m, es[0]), es[1..])
  }

  function EntriesIn(text: string): seq<Entry> {
    Entries(Split(text, '\n'))
  }

  /** The map `parseEnv` returns: the last line of each key, in the order of first sight. */
  function Parsed(text: string): seq<Entry> {
    PutAll([], EntriesIn(text))
  }

  method ParseEnv(text: string) returns (out: seq<Entry>)
    ensures out == Parsed(text)
  {
    out := [];
    var raws := Split(text, '\n');
    for i := 0 to |raws|
      invariant PutAll(out, Entries(raws[i..])) == Parsed(text)
    {
      ghost var rest := raws[i..];
      assert rest[0] == raws[i] && rest[1..] == raws[i + 1..];
      var line := TrimEnd(raws[i]);
      if line == "" || "#" <= line {
        continue;
      }
      var eq := IndexOf(line, '=');
      if eq <= 0 {
        continue;
      }
      var key := Trim(line[..eq]);
      if !Ident(key) {
        continue;
      }
      PutAllCons(out, Entry(key, line), Entries(raws[i + 1..]));
      out := Put(out, Entry(key, line));
    }
    assert raws[|raws|..] == [];
  }

  lemma PutAllCons(m: seq<Entry>, e: Entry, es: seq<Entry>)
    ensures PutAll(m, [e] + es) == PutAll(Put(m, e), es)
  {
    assert ([e] + es)[1..] == es;
  }

  lemma {:induction false} PutAllCat(m: seq<Entry>, a: seq<Entry>, b: seq<Entry>)
    ensures PutAll(m, a + b) == PutAll(PutAll(m, a), b)
    decreases |a|
  {
    if a == [] {
      assert a + b == b;
    } else {
      assert (a + b)[1..] == a[1..] + b;
      PutAllCat(Put(m, a[0]), a[1..], b);
    }
  }

  lemma EntriesCons(raw: string, raws: seq<string>)
    ensures Entries([raw] + raws)
         == (if EntryOf(TrimEnd(raw)).Some? then [EntryOf(TrimEnd(raw)).value] else []) + Entries(raws)
  {
    assert ([raw] + raws)[1..] == raws;
  }

  lemma {:induction false} EntriesCat(a: seq<string>, b: seq<string>)
    ensures Entries(a + b) == Entries(a) + Entries(b)
    decreases |a|
  {
    if a == [] {
      assert a + b == b;
    } else {
      var head, rest := a[0], a[1..];
      assert a == [head] + rest && a + b == [head] + (rest + b);
      EntriesCat(rest, b);
      EntriesCons(head, rest);
      EntriesCons(head, rest + b);
    }
  }

  /** A parsed entry can be written down as its line and parsed again. */
  ghost predicate Faithful(e: Entry) {
    '\n' !in e.line && EntryOf(TrimEnd(e.line)) == Some(e)
  }

  ghost predicate AllFaithful(m: seq<Entry>) {
    forall i :: 0 <= i < |m| ==> Faithful(m[i])
  }

  lemma EntryFaithful(raw: string)
    requires '\n' !in raw && EntryOf(TrimEnd(raw)).Some?
    ensures Faithful(EntryOf(TrimEnd(raw)).value)
  {
    TrimEndIs(raw);
  }

  lemma {:induction false} PutFaithful(m: seq<Entry>, e: Entry)
    requires Faithful(e) && AllFaithful(m)
    ensures AllFaithful(Put(m, e))
    decreases |m|
  {
    if m == [] {
    } else {
      PutFaithful(m[1..], e);
    }
  }

  lemma {:induction false} PutAllGood(m: seq<Entry>, es: seq<Entry>)
    requires Distinct(m) && AllFaithful(m) && AllFaithful(es)
    ensures Distinct(PutAll(m, es)) && AllFaithful(PutAll(m, es))
    decreases |es|
  {
    if es == [] {
    } else {
      PutFaithful(m, es[0]);
      PutDistinct(m, es[0]);
      PutAllGood(Put(m, es[0]), es[1..]);
    }
  }

  lemma {:induction false} EntriesFaithful(raws: seq<string>)
    requires NoneHas(raws, '\n')
    ensures AllFaithful(Entries(raws))
    decreases |raws|
  {
    if raws == [] {
    } else {
      var raw, rest := raws[0], raws[1..];
      assert forall i :: 0 <= i < |rest| ==> rest[i] == raws[i + 1];
      EntriesFaithful(rest);
      assert raws == [raw] + rest;
      EntriesCons(raw, rest);
      if EntryOf(TrimEnd(raw)).Some? { EntryFaithful(raw); }
    }
  }

  lemma ParsedGood(text: string)
    ensures Distinct(Parsed(text)) && AllFaithful(Parsed(text))
  {
    SplitNoneHas(text, '\n');
    EntriesFaithful(Split(text, '\n'));
    PutAllGood([], EntriesIn(text));
  }

  /** The last entry under `key`. */
  ghost function LastOf(es: seq<Entry>, key: string): Option<Entry>
    decreases |es|
  {
    if es == [] then None
    else if es[|es| - 1].key == key then Some(es[|es| - 1])
    else LastOf(es[..|es| - 1], key)
  }

  ghost predicate Holds(m: seq<Entry>, es: seq<Entry>, key: string) {
    forall e: Entry :: e in m && e.key == key <==> LastOf(es, key) == Some(e)
  }

  lemma PutHolds(m: seq<Entry>, es: seq<Entry>, e: Entry, key: string)
    requires Distinct(m) && Holds(m, es, key)
    ensures Holds(Put(m, e), es + [e], key)
  {
    var m', es' := Put(m, e), es + [e];
    assert es'[..|es|] == es;
    PutIs(m, e);
    forall x: Entry ensures x in m' && x.key == key <==> LastOf(es', key) == Some(x) {
      assert x in m && x.key == key <==> LastOf(es, key) == Some(x);
      if Has(m, e.key) {
        var j :| 0 <= j < |m| && m[j].key == e.key;
        assert m'[j] == e;
        if x in m && x.key != e.key { var i :| 0 <= i < |m| && m[i] == x; assert m'[i] == x; }
      }
    }
  }

  lemma {:induction false} PutAllHolds(m: seq<Entry>, had: seq<Entry>, es: seq<Entry>, key: string)
    requires Distinct(m) && Holds(m, had, key)
    ensures Holds(PutAll(m, es), had + es, key)
    decreases |es|
  {
    if es == [] {
      assert had + es == had;
    } else {
      PutHolds(m, had, es[0], key);
      PutDistinct(m, es[0]);
      PutAllHolds(Put(m, es[0]), had + [es[0]], es[1..], key);
      assert had + [es[0]] + es[1..] == had + es;
    }
  }

  /** Of several lines for one key the last one counts. */
  lemma LastLineWins(text: string, key: string)
    ensures forall e: Entry :: e in Parsed(text) && e.key == key <==> LastOf(EntriesIn(text), key) == Some(e)
  {
    PutAllHolds([], [], EntriesIn(text), key);
    assert [] + EntriesIn(text) == EntriesIn(text);
  }

  /** A line defines a key exactly when it has an '=', is no comment, and what stands before
      the first '=' is, trimmed, a name of letters, digits and underscores. */
  lemma EntryIs(k: string, rest: string)
    requires '=' !in k
    ensures var line, name := k + "=" + rest, Trim(k);
      EntryOf(line)
      == if (k == "" || k[0] != '#') && name != "" && !('0' <= name[0] <= '9')
            && forall i :: 0 <= i < |name| ==> 'A' <= name[i] <= 'Z' || 'a' <= name[i] <= 'z' || name[i] == '_'
                                               || '0' <= name[i] <= '9'
         then Some(Entry(name, line)) else None
  {
    var line := k + ['='] + rest;
    IndexOfIs(k, '=', rest);
    assert line == k + "=" + rest && line[..|k|] == k;
    assert k != "" ==> line[0] == k[0];
    assert "#" <= line <==> line[0] == '#';
  }

  lemma NoEntryWithoutEquals(line: string)
    requires '=' !in line
    ensures EntryOf(line) == None
  {
    assert IndexOf(line, '=') < 0;
  }

  // ---- Merging ----

  /** The entries of `v1` whose keys `v2` lacks, in v1's order. */
  function Missing(v1: seq<Entry>, v2: seq<Entry>): seq<Entry>
    decreases |v1|
  {
    if v1 == [] then []
    else if Has(v2, v1[0].key) then Missing(v1[1..], v2)
    else [v1[0]] + Missing(v1[1..], v2)
  }

  function LinesOf(es: seq<Entry>): (r: seq<string>)
    ensures |r| == |es|
    decreases |es|
  {
    if es == [] then [] else [es[0].line] + LinesOf(es[1..])
  }

  const BLOCK_START := "# \U{2500}\U{2500} migrated from v1 \U{2500}\U{2500}"

  /** s.includes(part) */
  predicate Includes(s: string, part: string)
    decreases |s|
  {
    part <= s || (s != "" && Includes(s[1..], part))
  }

  function Ended(text: string): string {
    if text != "" && text[|text| - 1] != '\n' then text + "\n" else text
  }

  function Header(marked: bool): string {
    if marked then "" else "\n" + BLOCK_START + "\n"
  }

  function Merged(v2: string, missing: seq<Entry>): string {
    Ended(v2) + Header(Includes(v2, BLOCK_START)) + (Join(LinesOf(missing), '\n') + "\n")
  }

  lemma {:induction false} IncludesIs(s: string, part: string)
    ensures Includes(s, part) <==> exists i :: 0 <= i <= |s| && part <= s[i..]
    decreases |s|
  {
    assert s[0..] == s;
    if !(part <= s) && s != "" {
      IncludesIs(s[1..], part);
      if i :| 0 <= i <= |s| - 1 && part <= s[1..][i..] { assert s[1..][i..] == s[i + 1..]; }
      if i :| 0 <= i <= |s| && part <= s[i..] {
        assert s[i..] == s[1..][i - 1..];
      }
    }
  }

  /** The file as it is written: the old text, ended by a line break; the heading, unless the
      old text has it; the new lines. */
  lemma MergedIs(v2: string, missing: seq<Entry>)
    ensures var marked := exists i :: 0 <= i <= |v2| && "# \U{2500}\U{2500} migrated from v1 \U{2500}\U{2500}" <= v2[i..];
      Merged(v2, missing)
      == v2 + (if v2 != "" && v2[|v2| - 1] != '\n' then "\n" else "")
         + (if marked then "" else "\n# \U{2500}\U{2500} migrated from v1 \U{2500}\U{2500}\n")
         + (Join(LinesOf(missing), '\n') + "\n")
  {
    IncludesIs(v2, BLOCK_START);
    assert v2 + "" == v2;
    assert "\n" + BLOCK_START + "\n" == "\n# \U{2500}\U{2500} migrated from v1 \U{2500}\U{2500}\n";
  }

  lemma {:induction false} MissingSnoc(a: seq<Entry>, e: Entry, v2: seq<Entry>)
    ensures Missing(a + [e], v2) == if Has(v2, e.key) then Missing(a, v2) else Missing(a, v2) + [e]
    decreases |a|
  {
    if a == [] {
      assert a + [e] == [e];
    } else {
      assert (a + [e])[1..] == a[1..] + [e];
      MissingSnoc(a[1..], e, v2);
    }
  }

  lemma {:induction false} LinesSnoc(es: seq<Entry>, e: Entry)
    ensures LinesOf(es + [e]) == LinesOf(es) + [e.line]
    decreases |es|
  {
    if es == [] {
      assert es + [e] == [e];
    } else {
      assert (es + [e])[1..] == es[1..] + [e];
      LinesSnoc(es[1..], e);
    }
  }

  method MergedText(v2Text: string, appended: seq<string>) returns (result: string)
    ensures result == Ended(v2Text) + Header(Includes(v2Text, BLOCK_START)) + (Join(appended, '\n') + "\n")
  {
    var alreadyMigrated := Includes(v2Text, BLOCK_START);
    result := v2Text;
    if result != "" && result[|result| - 1] != '\n' {
      result := result + "\n";
    }
    if !alreadyMigrated {
      result := result + ("\n" + BLOCK_START + "\n");
    }
    result := result + (Join(appended, '\n') + "\n");
  }

  method Collect(v1Lines: seq<Entry>, v2Lines: seq<Entry>)
    returns (appended: seq<string>, copied: nat, skipped: nat)
    ensures appended == LinesOf(Missing(v1Lines, v2Lines))
    ensures copied == |appended| && copied + skipped == |v1Lines|
  {
    appended, copied, skipped := [], 0, 0;
    for i := 0 to |v1Lines|
      invariant appended == LinesOf(Missing(v1Lines[..i], v2Lines))
      invariant copied == |appended| && copied + skipped == i
    {
      assert v1Lines[..i + 1] == v1Lines[..i] + [v1Lines[i]];
      MissingSnoc(v1Lines[..i], v1Lines[i], v2Lines);
      if Has(v2Lines, v1Lines[i].key) {
        skipped := skipped + 1;
        continue;
      }
      LinesSnoc(Missing(v1Lines[..i], v2Lines), v1Lines[i]);
      copied := copied + 1;
      appended := appended + [v1Lines[i].line];
    }
    assert v1Lines[..|v1Lines|] == v1Lines;
  }

  /** The step itself: what it writes, if anything, and how many keys it copies and skips. */
  method Migrate(v1: Option<string>, v2: Option<string>)
    returns (written: Option<string>, copied: nat, skipped: nat)
    ensures v1 == None ==> written == None && copied == 0
    ensures v1.Some? ==>
      var text := if v2.Some? then v2.value else "";
      var missing := Missing(Parsed(v1.value), Parsed(text));
      written == (if missing == [] then None else Some(Merged(text, missing)))
      && copied == |missing| && copied + skipped == |Parsed(v1.value)|
  {
    if v1 == None {
      return None, 0, 0;
    }
    var v1Lines := ParseEnv(v1.value);
    var v2Text := if v2.Some? then v2.value else "";
    var v2Lines := ParseEnv(v2Text);
    var appended: seq<string>;
    appended, copied, skipped := Collect(v1Lines, v2Lines);
    written := None;
    if |appended| > 0 {
      var result := MergedText(v2Text, appended);
      written := Some(result);
    }
  }

  // ---- What the merged file says ----

  lemma {:induction false} MissingMember(v1: seq<Entry>, v2: seq<Entry>, e: Entry)
    ensures e in Missing(v1, v2) <==> e in v1 && !Has(v2, e.key)
    decreases |v1|
  {
    if v1 == [] {
    } else {
      MissingMember(v1[1..], v2, e);
      assert v1 == [v1[0]] + v1[1..];
    }
  }

  lemma {:induction false} MissingDistinct(v1: seq<Entry>, v2: seq<Entry>)
    requires Distinct(v1)
    ensures Distinct(Missing(v1, v2))
    decreases |v1|
  {
    if v1 == [] {
    } else {
      var rest, m := v1[1..], Missing(v1[1..], v2);
      assert forall i :: 0 <= i < |rest| ==> rest[i] == v1[i + 1];
      MissingDistinct(rest, v2);
      forall i | 0 <= i < |m| ensures m[i].key != v1[0].key {
        MissingMember(rest, v2, m[i]);
        var j :| 0 <= j < |rest| && rest[j] == m[i];
      }
    }
  }

  lemma MissingFaithful(v1: seq<Entry>, v2: seq<Entry>)
    requires AllFaithful(v1)
    ensures AllFaithful(Missing(v1, v2))
  {
    var m := Missing(v1, v2);
    forall i | 0 <= i < |m| ensures Faithful(m[i]) { MissingMember(v1, v2, m[i]); }
  }

  ghost predicate NewTo(m: seq<Entry>, es: seq<Entry>) {
    forall i :: 0 <= i < |es| ==> !Has(m, es[i].key)
  }

  /** New keys are added at the end, in order. */
  lemma {:induction false} PutAllNew(m: seq<Entry>, es: seq<Entry>)
    requires Distinct(es) && NewTo(m, es)
    ensures PutAll(m, es) == m + es
    decreases |es|
  {
    if es == [] {
      assert m + es == m;
    } else {
      var e, rest := es[0], es[1..];
      assert forall i :: 0 <= i < |rest| ==> rest[i] == es[i + 1];
      PutNew(m, e);
      forall i | 0 <= i < |rest| ensures !Has(m + [e], rest[i].key) {
        assert !Has(m, es[i + 1].key);
      }
      PutAllNew(m + [e], rest);
      assert m + [e] + rest == m + es;
    }
  }

  // ---- Text ----

  lemma EntriesBroken(a: string, b: string)
    ensures EntriesIn(a + ['\n'] + b) == EntriesIn(a) + EntriesIn(b)
  {
    SplitCat(a, '\n', b);
    EntriesCat(Split(a, '\n'), Split(b, '\n'));
  }

  lemma NoEntries(line: string)
    requires line == "" || line == BLOCK_START
    ensures EntriesIn(line) == []
  {
    assert BLOCK_START[0] == '#' && "#" <= BLOCK_START;
    assert TrimEnd(line) == line;
    SplitPlain(line, '\n');
    EntriesCons(line, []);
    assert [line] + [] == [line];
  }

  /** A text and what follows it on a new line; a final break, there or not, adds nothing. */
  lemma EntriesEnded(text: string, rest: string)
    ensures EntriesIn(Ended(text) + rest) == EntriesIn(text) + EntriesIn(rest)
  {
    NoEntries("");
    if text == "" {
      assert Ended(text) + rest == rest;
    } else if text[|text| - 1] == '\n' {
      var body := text[..|text| - 1];
      assert text == body + ['\n'] + "" && Ended(text) + rest == body + ['\n'] + rest;
      EntriesBroken(body, "");
      EntriesBroken(body, rest);
    } else {
      assert Ended(text) + rest == text + ['\n'] + rest;
      EntriesBroken(text, rest);
    }
  }

  lemma EntriesHeader(marked: bool, rest: string)
    ensures EntriesIn(Header(marked) + rest) == EntriesIn(rest)
  {
    if marked {
      assert Header(marked) + rest == rest;
    } else {
      var tail := BLOCK_START + ['\n'] + rest;
      assert Header(marked) + rest == "" + ['\n'] + tail;
      EntriesBroken("", tail);
      EntriesBroken(BLOCK_START, rest);
      NoEntries("");
      NoEntries(BLOCK_START);
    }
  }

  lemma {:induction false} EntriesOfLines(es: seq<Entry>)
    requires AllFaithful(es)
    ensures NoneHas(LinesOf(es), '\n') && Entries(LinesOf(es)) == es
    decreases |es|
  {
    if es == [] {
    } else {
      var e, rest := es[0], es[1..];
      assert Faithful(e) && forall i :: 0 <= i < |rest| ==> rest[i] == es[i + 1];
      EntriesOfLines(rest);
      EntriesCons(e.line, LinesOf(rest));
      assert es == [e] + rest;
    }
  }

  lemma EntriesAppended(es: seq<Entry>)
    requires es != [] && AllFaithful(es)
    ensures EntriesIn(Join(LinesOf(es), '\n') + "\n") == es
  {
    var lines := LinesOf(es);
    var text := Join(lines, '\n');
    EntriesOfLines(es);
    SplitJoin(lines, '\n');
    assert text + "\n" == text + ['\n'] + "";
    EntriesBroken(text, "");
    NoEntries("");
  }

  /** The merged file parses to v2's entries, unchanged and first, and then exactly
      v1's entries for the keys v2 lacked - whatever either text looked like. */
  lemma MergeParsesBack(v1: string, v2: string)
    requires Missing(Parsed(v1), Parsed(v2)) != []
    ensures Parsed(Merged(v2, Missing(Parsed(v1), Parsed(v2)))) == Parsed(v2) + Missing(Parsed(v1), Parsed(v2))
  {
    var had, missing := Parsed(v2), Missing(Parsed(v1), Parsed(v2));
    var marked := Includes(v2, BLOCK_START);
    var lines := Join(LinesOf(missing), '\n') + "\n";
    ParsedGood(v1);
    MissingFaithful(Parsed(v1), had);
    MissingDistinct(Parsed(v1), had);
    assert Merged(v2, missing) == Ended(v2) + (Header(marked) + lines);
    EntriesEnded(v2, Header(marked) + lines);
    EntriesHeader(marked, lines);
    EntriesAppended(missing);
    PutAllCat([], EntriesIn(v2), missing);
    forall i | 0 <= i < |missing| ensures !Has(had, missing[i].key) { MissingMember(Parsed(v1), had, missing[i]); }
    PutAllNew(had, missing);
  }

  /** A second run finds nothing to copy and writes nothing. */
  lemma SecondRunWritesNothing(v1: string, v2: string)
    requires Missing(Parsed(v1), Parsed(v2)) != []
    ensures Missing(Parsed(v1), Parsed(Merged(v2, Missing(Parsed(v1), Parsed(v2))))) == []
  {
    var mine, had := Parsed(v1), Parsed(v2);
    var missing := Missing(mine, had);
    var again := Missing(mine, had + missing);
    MergeParsesBack(v1, v2);
    if again != [] {
      var e := again[0];
      MissingMember(mine, had + missing, e);
      MissingMember(mine, had, e);
      HasCat(had, missing, e);
    }
  }

  lemma HasCat(a: seq<Entry>, b: seq<Entry>, e: Entry)
    requires Has(a, e.key) || e in b
    ensures Has(a + b, e.key)
  {
    if Has(a, e.key) {
      var i :| 0 <= i < |a| && a[i].key == e.key;
      assert (a + b)[i] == a[i];
    } else {
      var i :| 0 <= i < |b| && b[i] == e;
      assert (a + b)[|a| + i] == e;
    }
  }
}
