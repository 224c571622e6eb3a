/** The streaming parser of setup status blocks (setup/lib/runner.ts) and their
    printer (setup/status.ts). */
module StatusBlocks {
  import opened Options
  import opened Texts

  datatype Block = Block(kind: string, fields: map<string, string>)

  /** The parser's private state and the blocks it has emitted. */
  datatype Parser = Parser(buf: string, current: Option<Block>, blocks: seq<Block>)

  const FRESH := Parser("", None, [])

  const HEAD := "=== NANOCLAW SETUP: "
  const TAIL := " ==="
  const END := "=== END ==="

  // ---- One line ----

  /** The longest prefix without white space. */
  function Solid(s: string): (r: string)
    ensures |r| <= |s| && r == s[..|r|]
    decreases |s|
  {
    if s == "" || IsSpace(s[0]) then "" else [s[0]] + Solid(s[1..])
  }

  /** /^=== NANOCLAW SETUP: (\S+) ===/: the captured type. A shorter run than the
      longest one is followed by a character that is not a space. */
  function StartOf(line: string): Option<string> {
    if !(HEAD <= line) then None
    else
      var kind := Solid(line[|HEAD|..]);
      if kind != "" && TAIL <= line[|HEAD| + |kind|..] then Some(kind) else None
  }

  predicate IsEnd(line: string) {
    END <= line
  }

  /** `fields[key] = value`; assigning a string to `__proto__` sets nothing. */
  function WithField(fields: map<string, string>, key: string, value: string): map<string, string> {
    if key == "" || key == "__proto__" then fields else fields[key := value]
  }

  function InBlock(b: Block, line: string): Block {
    var colon := IndexOf(line, ':');
    if colon < 0 then b
    else b.(fields := WithField(b.fields, Trim(line[..colon]), Trim(line[colon + 1..])))
  }

  function Line(p: Parser, line: string): Parser {
    var start := StartOf(line);
    if start.Some? then p.(current := Some(Block(start.value, map[])))
    else if IsEnd(line) then
      if p.current.Some? then p.(current := None, blocks := p.blocks + [p.current.value]) else p
    else if p.current.Some? then p.(current := Some(InBlock(p.current.value, line)))
    else p
  }

  /** The parser one character at a time: what any way of chunking must amount to. */
  function Feed(p: Parser, text: string): Parser
    decreases |text|
  {
    if text == "" then p
    else if text[0] == '\n' then Feed(Line(p, p.buf).(buf := ""), text[1..])
    else Feed(p.(buf := p.buf + [text[0]]), text[1..])
  }

  lemma {:induction false} FeedCat(p: Parser, a: string, b: string)
    ensures Feed(p, a + b) == Feed(Feed(p, a), b)
    decreases |a|
  {
    if a == "" {
      assert a + b == b;
    } else {
      assert (a + b)[1..] == a[1..] + b;
      FeedCat(if a[0] == '\n' then Line(p, p.buf).(buf := "") else p.(buf := p.buf + [a[0]]), a[1..], b);
    }
  }

  lemma {:induction false} FeedPlain(p: Parser, text: string)
    requires '\n' !in text
    ensures Feed(p, text) == p.(buf := p.buf + text)
    decreases |text|
  {
    if text == "" {
      assert p.buf + text == p.buf;
    } else {
      FeedPlain(p.(buf := p.buf + [text[0]]), text[1..]);
      assert p.buf + [text[0]] + text[1..] == p.buf + text;
    }
  }

  lemma FeedLine(p: Parser, line: string, rest: string)
    requires p.buf == "" && '\n' !in line
    ensures Feed(p, line + "\n" + rest) == Feed(Line(p, line).(buf := ""), rest)
  {
    assert line + "\n" + rest == line + ("\n" + rest);
    FeedCat(p, line, "\n" + rest);
    FeedPlain(p, line);
    assert p.buf + line == line && ("\n" + rest)[1..] == rest;
    assert Line(p.(buf := line), line).(buf := "") == Line(p, line).(buf := "");
  }

  /** One pass of the loop in `write`. */
  lemma FeedFirstLine(p: Parser, text: string, idx: nat)
    requires p.buf == "" && IndexOf(text, '\n') == idx
    ensures Feed(p, text) == Feed(Line(p, text[..idx]).(buf := ""), text[idx + 1..])
  {
    IndexOfFirst(text, '\n');
    assert text[..idx] + "\n" + text[idx + 1..] == text;
    FeedLine(p, text[..idx], text[idx + 1..]);
  }

  /** Starting over with what was buffered. */
  lemma FeedBuffered(p: Parser, chunk: string)
    requires '\n' !in p.buf
    ensures Feed(p.(buf := ""), p.buf + chunk) == Feed(p, chunk)
  {
    FeedCat(p.(buf := ""), p.buf, chunk);
    FeedPlain(p.(buf := ""), p.buf);
    assert "" + p.buf == p.buf;
  }

  class StatusStream {
    var lineBuf: string
    var current: Option<Block>
    var blocks: seq<Block>
    var transcript: string

    ghost predicate Valid()
      reads this
    {
      '\n' !in lineBuf
    }

    ghost function State(): Parser
      reads this
    {
      Parser(lineBuf, current, blocks)
    }

    constructor ()
      ensures Valid() && State() == FRESH && transcript == ""
    {
      lineBuf, current, blocks, transcript := "", None, [], "";
    }

    method ProcessLine(line: string)
      modifies `current, `blocks
      ensures State() == Line(old(State()), line)
    {
      var start := StartOf(line);
      if start.Some? {
        current := Some(Block(start.value, map[]));
        return;
      }
      if IsEnd(line) {
        if current.Some? {
          blocks := blocks + [current.value];
          current := None;
        }
        return;
      }
      if current.None? {
        return;
      }
      var colon := IndexOf(line, ':');
      if colon == -1 {
        return;
      }
      var key := Trim(line[..colon]);
      var value := Trim(line[colon + 1..]);
      if key != "" && key != "__proto__" {
        current := Some(current.value.(fields := current.value.fields[key := value]));
      }
    }

    method Write(chunk: string)
      requires Valid()
      modifies this
      ensures Valid() && State() == Feed(old(State()), chunk)
      ensures transcript == old(transcript) + chunk
    {
      transcript := transcript + chunk;
      lineBuf := lineBuf + chunk;
      FeedBuffered(old(State()), chunk);
      var idx := IndexOf(lineBuf, '\n');
      while idx != -1
        invariant idx == IndexOf(lineBuf, '\n')
        invariant transcript == old(transcript) + chunk
        invariant Feed(State().(buf := ""), lineBuf) == Feed(old(State()), chunk)
        decreases |lineBuf|
      {
        FeedFirstLine(State().(buf := ""), lineBuf, idx);
        var line := lineBuf[..idx];
        lineBuf := lineBuf[idx + 1..];
        ProcessLine(line);
        idx := IndexOf(lineBuf, '\n');
      }
      IndexOfFirst(lineBuf, '\n');
      FeedPlain(State().(buf := ""), lineBuf);
      assert "" + lineBuf == lineBuf;
    }
  }

  // ---- Any chunking ----

  function Flatten(chunks: seq<string>): string
    decreases |chunks|
  {
    if chunks == [] then "" else chunks[0] + Flatten(chunks[1..])
  }

  function FeedAll(p: Parser, chunks: seq<string>): Parser
    decreases |chunks|
  {
    if chunks == [] then p else FeedAll(Feed(p, chunks[0]), chunks[1..])
  }

  /** However a text is cut into writes, the blocks, the open block and the
      buffered rest are those of a single write. */
  lemma {:induction false} ChunksDoNotMatter(p: Parser, chunks: seq<string>)
    ensures FeedAll(p, chunks) == Feed(p, Flatten(chunks))
    decreases |chunks|
  {
    if chunks == [] {
    } else {
      ChunksDoNotMatter(Feed(p, chunks[0]), chunks[1..]);
      FeedCat(p, chunks[0], Flatten(chunks[1..]));
    }
  }

  // ---- The printer ----

  datatype Entry = Entry(key: string, value: string)

  function EntryLine(e: Entry): string {
    e.key + ": " + e.value
  }

  function EntryLines(es: seq<Entry>): seq<string>
    decreases |es|
  {
    if es == [] then [] else [EntryLine(es[0])] + EntryLines(es[1..])
  }

  function BlockLines(step: string, es: seq<Entry>): seq<string> {
    [HEAD + step + TAIL] + EntryLines(es) + [END]
  }

  /** Lines as the console shows them. */
  function Text(lines: seq<string>): string
    decreases |lines|
  {
    if lines == [] then "" else lines[0] + "\n" + Text(lines[1..])
  }

  lemma {:induction false} EntryLinesSnoc(es: seq<Entry>, e: Entry)
    ensures EntryLines(es + [e]) == EntryLines(es) + [EntryLine(e)]
    decreases |es|
  {
    if es == [] {
      assert [] + [e] == [e];
    } else {
      assert (es + [e])[1..] == es[1..] + [e];
      EntryLinesSnoc(es[1..], e);
    }
  }

  lemma {:induction false} JoinIsText(lines: seq<string>)
    requires lines != []
    ensures Join(lines, '\n') + "\n" == Text(lines)
    decreases |lines|
  {
    if |lines| > 1 { JoinIsText(lines[1..]); }
  }

  /** What `emitStatus` prints; `console.log` ends the output with a newline. */
  method EmitStatus(step: string, fields: seq<Entry>) returns (out: string)
    ensures out == Text(BlockLines(step, fields))
  {
    var lines := [HEAD + step + TAIL];
    for i := 0 to |fields|
      invariant lines == [HEAD + step + TAIL] + EntryLines(fields[..i])
    {
      EntryLinesSnoc(fields[..i], fields[i]);
      assert fields[..i] + [fields[i]] == fields[..i + 1];
      lines := lines + [fields[i].key + ": " + fields[i].value];
    }
    assert fields[..|fields|] == fields;
    lines := lines + [END];
    JoinIsText(lines);
    out := Join(lines, '\n') + "\n";
  }

  // ---- When a printed block reads back ----

  predicate NoSpace(s: string) {
    forall i :: 0 <= i < |s| ==> !IsSpace(s[i])
  }

  predicate ValidStep(step: string) {
    step != "" && NoSpace(step)
  }

  /** A field that survives printing and parsing. */
  predicate ValidEntry(e: Entry) {
    e.key != "" && e.key != "__proto__" && ':' !in e.key && Trimmed(e.key) && Trimmed(e.value)
    && StartOf(EntryLine(e)) == None && !IsEnd(EntryLine(e))
  }

  lemma {:induction false} SolidStops(s: string, t: string)
    requires t != "" && IsSpace(t[0])
    ensures |Solid(s + t)| <= |s|
    ensures Solid(s + t) == s <==> NoSpace(s)
    decreases |s|
  {
    if s == "" {
      assert s + t == t;
    } else {
      assert (s + t)[1..] == s[1..] + t;
      SolidStops(s[1..], t);
      if !IsSpace(s[0]) {
        assert s == [s[0]] + s[1..];
        assert NoSpace(s) <==> NoSpace(s[1..]) by {
          if NoSpace(s[1..]) { assert forall i :: 0 < i < |s| ==> s[i] == s[1..][i - 1]; }
        }
      }
    }
  }

  /** The head line is read back as its step exactly when the step is a word. */
  lemma HeadReadsBack(step: string)
    ensures StartOf(HEAD + step + TAIL) == Some(step) <==> ValidStep(step)
  {
    var line := HEAD + step + TAIL;
    assert line[|HEAD|..] == step + TAIL;
    SolidStops(step, TAIL);
    if ValidStep(step) { assert line[|HEAD| + |step|..] == TAIL; }
  }

  /** The printed markers, in full. */
  lemma PrintedIs(step: string)
    ensures Text(BlockLines(step, [])) == "=== NANOCLAW SETUP: " + step + " ===\n=== END ===\n"
  {
    var head := HEAD + step + TAIL;
    assert BlockLines(step, []) == [head, END] && [head, END][1..] == [END] && [END][1..] == [];
    assert Text([END]) == END + "\n" + "";
  }

  /** A head line is found by its beginning: what follows the marker does not matter. */
  lemma HeadThenRest(step: string, rest: string)
    requires ValidStep(step)
    ensures StartOf("=== NANOCLAW SETUP: " + step + " ===" + rest) == Some(step)
  {
    var line := HEAD + step + TAIL + rest;
    assert line[|HEAD|..] == step + (TAIL + rest);
    SolidStops(step, TAIL + rest);
    assert line[|HEAD| + |step|..] == TAIL + rest;
  }

  /** A head line opens a block whatever was open, and an open one is lost unread. */
  lemma HeadOpens(p: Parser, step: string, rest: string)
    requires ValidStep(step)
    ensures Line(p, "=== NANOCLAW SETUP: " + step + " ===" + rest) == Parser(p.buf, Some(Block(step, map[])), p.blocks)
  {
    HeadThenRest(step, rest);
  }

  /** An end line, found by its beginning, emits the open block, if there is one. */
  lemma EndCloses(p: Parser, rest: string)
    ensures Line(p, "=== END ===" + rest)
         == if p.current.Some? then Parser(p.buf, None, p.blocks + [p.current.value]) else p
  {
    var line := "=== END ===" + rest;
    assert line[4] == 'E' && HEAD[4] == 'N';
  }

  /** Any other line is ignored outside a block, and inside one if it has no colon. */
  lemma OtherLineIgnored(p: Parser, line: string)
    requires StartOf(line) == None && !("=== END ===" <= line)
    requires p.current == None || ':' !in line
    ensures Line(p, line) == p
  {
    if p.current.Some? { IndexOfFirst(line, ':'); }
  }

  /** Inside a block a line sets what stands before its first colon to what stands after it,
      both trimmed, over any earlier value; a blank name and `__proto__` set nothing. */
  lemma FieldLineSets(p: Parser, b: Block, key: string, value: string)
    requires p.current == Some(b) && ':' !in key
    requires StartOf(key + ":" + value) == None && !("=== END ===" <= key + ":" + value)
    ensures Line(p, key + ":" + value)
         == if Trim(key) in {"", "__proto__"} then p
            else p.(current := Some(Block(b.kind, b.fields[Trim(key) := Trim(value)])))
  {
    var line := key + [':'] + value;
    IndexOfIs(key, ':', value);
    assert line == key + ":" + value && line[..|key|] == key && line[|key| + 1..] == value;
  }

  lemma EntryParts(key: string, value: string)
    requires ':' !in key
    ensures var line := key + ": " + value;
      IndexOf(line, ':') == |key| && line[..|key|] == key && line[|key| + 1..] == " " + value
  {
    var line, rest := key + ": " + value, " " + value;
    assert line == key + [':'] + rest;
    IndexOfIs(key, ':', rest);
  }

  lemma EntryInBlock(b: Block, e: Entry)
    requires ':' !in e.key
    ensures InBlock(b, EntryLine(e)) == b.(fields := WithField(b.fields, Trim(e.key), Trim(e.value)))
  {
    EntryParts(e.key, e.value);
    TrimPadded(e.value);
  }

  lemma ValidEntrySurvives(p: Parser, e: Entry)
    requires p.current.Some? && ValidEntry(e)
    ensures Line(p, EntryLine(e))
         == p.(current := Some(p.current.value.(fields := p.current.value.fields[e.key := e.value])))
  {
    EntryInBlock(p.current.value, e);
    TrimOfTrimmed(e.key);
    TrimOfTrimmed(e.value);
  }

  /** In a block without fields, the line of a field leaves exactly that field
      behind if and only if the field is valid. */
  lemma EntrySurvivesIff(p: Parser, e: Entry)
    requires p.current.Some? && p.current.value.fields == map[]
    ensures Line(p, EntryLine(e)) == p.(current := Some(p.current.value.(fields := map[e.key := e.value])))
       <==> ValidEntry(e)
  {
    var line := EntryLine(e);
    var wanted := p.(current := Some(p.current.value.(fields := map[e.key := e.value])));
    if ValidEntry(e) {
      ValidEntrySurvives(p, e);
    } else if Line(p, line) == wanted {
      var colon := IndexOf(line, ':');
      assert e.key in InBlock(p.current.value, line).fields;
      OneField(Trim(line[..colon]), Trim(line[colon + 1..]), e.key, e.value);
      TrimIsTrimmed(line[..colon]);
      TrimIsTrimmed(line[colon + 1..]);
      IndexOfFirst(line, ':');
      TrimKeepsOut(line[..colon], ':');
    }
  }

  lemma OneField(k: string, v: string, k': string, v': string)
    requires map[k := v] == map[k' := v']
    ensures k == k' && v == v'
  {
    assert k in map[k' := v'];
    assert map[k := v][k] == map[k' := v'][k];
  }

  function FieldsOf(b: map<string, string>, es: seq<Entry>): map<string, string>
    decreases |es|
  {
    if es == [] then b else FieldsOf(b[es[0].key := es[0].value], es[1..])
  }

  /** What a program prints: blocks, and lines of its own between them. */
  datatype Item = Noise(line: string) | Printed(step: string, fields: seq<Entry>)

  function ItemText(i: Item): string {
    match i
    case Noise(line) => line + "\n"
    case Printed(step, fields) => Text(BlockLines(step, fields))
  }

  predicate Oneline(e: Entry) { '\n' !in e.key && '\n' !in e.value }

  predicate ValidEntries(es: seq<Entry>)
    decreases |es|
  {
    es == [] || (ValidEntry(es[0]) && Oneline(es[0]) && ValidEntries(es[1..]))
  }

  predicate ValidItem(i: Item) {
    match i
    case Noise(line) => '\n' !in line && StartOf(line) == None
    case Printed(step, fields) => ValidStep(step) && ValidEntries(fields)
  }

  predicate ValidItems(items: seq<Item>)
    decreases |items|
  {
    items == [] || (ValidItem(items[0]) && ValidItems(items[1..]))
  }

  function Output(items: seq<Item>): string
    decreases |items|
  {
    if items == [] then "" else ItemText(items[0]) + Output(items[1..])
  }

  function ItemBlocks(i: Item): seq<Block> {
    match i
    case Noise(_) => []
    case Printed(step, fields) => [Block(step, FieldsOf(map[], fields))]
  }

  function BlocksOf(items: seq<Item>): seq<Block>
    decreases |items|
  {
    if items == [] then [] else ItemBlocks(items[0]) + BlocksOf(items[1..])
  }

  lemma {:induction false} FeedEntries(p: Parser, es: seq<Entry>, rest: seq<string>)
    requires p.buf == "" && p.current.Some?
    requires ValidEntries(es)
    ensures Feed(p, Text(EntryLines(es) + rest))
         == Feed(p.(current := Some(p.current.value.(fields := FieldsOf(p.current.value.fields, es)))), Text(rest))
    decreases |es|
  {
    if es == [] {
      assert EntryLines(es) + rest == rest;
    } else {
      var e, line := es[0], EntryLine(es[0]);
      var after := Line(p, line);
      assert (EntryLines(es) + rest)[1..] == EntryLines(es[1..]) + rest;
      assert Oneline(e) && '\n' !in line;
      ValidEntrySurvives(p, e);
      FeedLine(p, line, Text(EntryLines(es[1..]) + rest));
      FeedEntries(after, es[1..], rest);
    }
  }

  lemma FeedBlock(p: Parser, step: string, es: seq<Entry>)
    requires p.buf == "" && p.current == None && ValidItem(Printed(step, es))
    ensures Feed(p, Text(BlockLines(step, es))) == p.(blocks := p.blocks + [Block(step, FieldsOf(map[], es))])
  {
    var head, lines := HEAD + step + TAIL, EntryLines(es) + [END];
    assert BlockLines(step, es) == [head] + lines && ([head] + lines)[1..] == lines;
    HeadReadsBack(step);
    assert '\n' !in head by { assert IsSpace('\n'); }
    FeedLine(p, head, Text(lines));
    var opened' := p.(current := Some(Block(step, map[])));
    FeedEntries(opened', es, [END]);
    var full := p.(current := Some(Block(step, FieldsOf(map[], es))));
    assert Text([END]) == END + "\n" + "" by { assert [END][1..] == []; }
    FeedLine(full, END, "");
    assert StartOf(END) == None by { assert END[4] != HEAD[4]; }
  }

  lemma FeedNoise(p: Parser, line: string)
    requires p.buf == "" && p.current == None && ValidItem(Noise(line))
    ensures Feed(p, line + "\n") == p
  {
    assert line + "\n" == line + "\n" + "";
    FeedLine(p, line, "");
  }

  lemma FeedItem(p: Parser, i: Item)
    requires p.buf == "" && p.current == None && ValidItem(i)
    ensures Feed(p, ItemText(i)) == p.(blocks := p.blocks + ItemBlocks(i))
  {
    match i
    case Noise(line) =>
      FeedNoise(p, line);
      assert p.blocks + [] == p.blocks;
    case Printed(step, fields) => FeedBlock(p, step, fields);
  }

  lemma FeedItemThen(p: Parser, i: Item, rest: string)
    requires p.buf == "" && p.current == None && ValidItem(i)
    ensures Feed(p, ItemText(i) + rest) == Feed(p.(blocks := p.blocks + ItemBlocks(i)), rest)
  {
    FeedCat(p, ItemText(i), rest);
    FeedItem(p, i);
  }

  /** Everything printed is parsed back: the blocks in order, each with its step
      and fields, nothing from the noise, and nothing left over. */
  lemma {:induction false} OutputReadsBack(p: Parser, items: seq<Item>)
    requires p.buf == "" && p.current == None && ValidItems(items)
    ensures Feed(p, Output(items)) == p.(blocks := p.blocks + BlocksOf(items))
    decreases |items|
  {
    if items == [] {
      assert p.blocks + [] == p.blocks;
    } else {
      var first, rest := items[0], items[1..];
      FeedItemThen(p, first, Output(rest));
      OutputReadsBack(p.(blocks := p.blocks + ItemBlocks(first)), rest);
      Associates(p.blocks, ItemBlocks(first), BlocksOf(rest));
    }
  }

  lemma Associates(a: seq<Block>, b: seq<Block>, c: seq<Block>)
    ensures a + b + c == a + (b + c)
  {
  }

  /** With distinct names, the block holds exactly the record's fields. */
  lemma {:induction false} FieldsExact(b: map<string, string>, es: seq<Entry>, k: string)
    requires forall i, j :: 0 <= i < j < |es| ==> es[i].key != es[j].key
    ensures forall i :: 0 <= i < |es| ==> es[i].key in FieldsOf(b, es) && FieldsOf(b, es)[es[i].key] == es[i].value
    ensures (forall i :: 0 <= i < |es| ==> es[i].key != k) ==>
      (k in FieldsOf(b, es) <==> k in b) && (k in b ==> FieldsOf(b, es)[k] == b[k])
    decreases |es|
  {
    if es == [] {
    } else {
      var b', rest := b[es[0].key := es[0].value], es[1..];
      assert forall i :: 0 <= i < |rest| ==> rest[i] == es[i + 1];
      FieldsExact(b', rest, k);
      FieldsExact(b', rest, es[0].key);
    }
  }
}
