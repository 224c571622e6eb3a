/** Queues of the state adapter (src/state-sqlite.ts): over any run that uses a
    key as a queue, dequeues and depth queries are answered first in, first out. */
module StateQueues {
  import opened Options
  import opened StateTables
  import opened StateStore

  ghost function Untimed(q: seq<string>): (l: seq<Entry>)
    ensures |l| == |q| && forall i :: 0 <= i < |q| ==> l[i] == Entry(q[i], None)
  {
    seq(|q|, i requires 0 <= i < |q| => Entry(q[i], None))
  }

  predicate OfKey(op: Op, k: string) {
    ListCall(op) && op.k == k
  }

  /** A call that uses `k` as a queue of at most `max` entries, or something else. */
  predicate AsQueue(op: Op, k: string, max: nat) {
    OfKey(op, k) ==> !op.OpList? && (op.OpAppend? ==> op.max == max && op.ttl == None)
  }

  predicate QueueUse(cs: seq<Timed>, k: string, max: nat) {
    forall i :: 0 <= i < |cs| ==> AsQueue(cs[i].op, k, max)
  }

  /** The newest `max` entries after `v` joins. */
  function Joined(q: seq<string>, v: string, max: nat): (r: seq<string>)
    ensures max > 0 && |q| <= max ==> |r| <= max
  {
    if |q| + 1 <= max then q + [v] else (q + [v])[|q| + 1 - max..]
  }

  /** The queue after one call. */
  function Next(q: seq<string>, op: Op, k: string, max: nat): seq<string> {
    if !OfKey(op, k) then q
    else if op.OpAppend? then Joined(q, op.v, max)
    else if op.OpDequeue? && q != [] then q[1..]
    else q
  }

  /** A first-in first-out queue that keeps the newest `max` entries. */
  function FifoAnswers(q: seq<string>, cs: seq<Timed>, k: string, max: nat): seq<Res>
    decreases |cs|
  {
    if cs == [] then []
    else
      var op := cs[0].op;
      var rest := FifoAnswers(Next(q, op, k, max), cs[1..], k, max);
      if !OfKey(op, k) || op.OpAppend? then rest
      else [QueueAnswer(q, op)] + rest
  }

  /** The answers of the tables to the dequeues and depth queries of one key. */
  function QueueAnswers(t: Tables, cs: seq<Timed>, k: string): seq<Res>
    decreases |cs|
  {
    if cs == [] then []
    else
      var r := OnTables(t, cs[0]);
      var rest := QueueAnswers(r.0, cs[1..], k);
      if !OfKey(cs[0].op, k) || cs[0].op.OpAppend? then rest else [r.1] + rest
  }

  /** The rows hold exactly the queue, under consecutive indices and without deadlines. */
  ghost predicate IsQueue(rows: seq<ListRow>, q: seq<string>) {
    |rows| == |q|
    && forall i :: 0 <= i < |rows| ==> rows[i] == ListRow(rows[0].idx + i, q[i], None) && rows[0].idx >= 0
  }

  ghost predicate Queued(t: Tables, k: string, q: seq<string>) {
    IsQueue(Rows(t, k), q)
  }

  lemma {:induction false} NumberedAt(l: seq<Entry>, lo: int, i: nat)
    requires i < |l|
    ensures Numbered(l, lo)[i] == ListRow(lo + i, l[i].value, l[i].until)
    decreases |l|
  {
    if i == 0 {
    } else {
      NumberedAt(l[1..], lo + 1, i - 1);
    }
  }

  /** The rows of a queue are those of a list without deadlines, whatever the clock says. */
  lemma QueueAgrees(rows: seq<ListRow>, q: seq<string>, now: int)
    ensures IsQueue(rows, q) <==> RowsAgree(rows, Untimed(q), now)
  {
    var l := Untimed(q);
    assert l[0..] == l;
    if |rows| == |q| {
      var numbered := Numbered(l, First(rows));
      forall i | 0 <= i < |q| ensures numbered[i] == ListRow(First(rows) + i, q[i], None) {
        NumberedAt(l, First(rows), i);
      }
      assert IsQueue(rows, q) <==> rows == numbered && First(rows) >= 0;
    } else if |rows| < |q| {
      assert Alive(l[0].until, now);
    }
  }

  lemma CleanupKeepsQueue(t: Tables, k: string, q: seq<string>, now: int)
    requires Queued(t, k, q)
    ensures Queued(Cleanup(t, now), k, q)
  {
    QueueAgrees(Rows(t, k), q, now);
    CleanKeepsSuffix(Rows(t, k), Untimed(q), now);
    CleanedRows(t, k, now);
    QueueAgrees(Rows(Cleanup(t, now), k), q, now);
  }

  lemma OtherCallSameRows(t: Tables, c: Timed, k: string)
    requires !OfKey(c.op, k) && !c.op.OpGet? && !c.op.OpCleanup?
    ensures Rows(OnTables(t, c).0, k) == Rows(t, k)
  {
  }

  lemma OtherCallKeepsQueue(t: Tables, c: Timed, k: string, q: seq<string>)
    requires Queued(t, k, q) && !OfKey(c.op, k)
    ensures Queued(OnTables(t, c).0, k, q)
  {
    if c.op.OpCleanup? || c.op.OpGet? {
      CleanupKeepsQueue(t, k, q, c.now);
      assert Rows(OnTables(t, c).0, k) == Rows(Cleanup(t, c.now), k);
    } else {
      OtherCallSameRows(t, c, k);
    }
  }

  lemma UntimedJoined(q: seq<string>, v: string, max: nat)
    requires max > 0
    ensures Newest(Untimed(q) + [Entry(v, None)], max) == Untimed(Joined(q, v, max))
  {
  }

  lemma EnqueueKeepsQueue(t: Tables, c: Timed, k: string, q: seq<string>, max: nat)
    requires Queued(t, k, q) && max > 0 && c.op.OpAppend? && c.op == OpAppend(k, c.op.v, max, None)
    ensures Queued(OnTables(t, c).0, k, Joined(q, c.op.v, max))
  {
    var e, rows := Entry(c.op.v, None), Rows(t, k);
    var rows' := Appended(rows, e, max);
    AppendIsAppended(t, k, c.op.v, max, None, c.now);
    QueueAgrees(rows, q, 0);
    AppendAgrees(rows, Untimed(q), e, max, 0);
    UntimedJoined(q, c.op.v, max);
    QueueAgrees(rows', Joined(q, c.op.v, max), 0);
    assert Rows(OnTables(t, c).0, k) == rows';
  }

  lemma DequeueKeepsQueue(t: Tables, c: Timed, k: string, q: seq<string>)
    requires Queued(t, k, q) && c.op == OpDequeue(k)
    ensures OnTables(t, c).1 == Value(if q == [] then None else Some(q[0]))
    ensures Queued(OnTables(t, c).0, k, if q == [] then q else q[1..])
  {
  }

  lemma CallKeepsQueue(t: Tables, c: Timed, k: string, q: seq<string>, max: nat)
    requires Queued(t, k, q) && max > 0 && AsQueue(c.op, k, max)
    ensures Queued(OnTables(t, c).0, k, Next(q, c.op, k, max))
  {
    if !OfKey(c.op, k) { OtherCallKeepsQueue(t, c, k, q); }
    else if c.op.OpAppend? { EnqueueKeepsQueue(t, c, k, q, max); }
    else if c.op.OpDequeue? { DequeueKeepsQueue(t, c, k, q); }
  }

  /** What a dequeue or a depth query of the queue answers. */
  function QueueAnswer(q: seq<string>, op: Op): Res {
    if op.OpDequeue? then Value(if q == [] then None else Some(q[0])) else Count(|q|)
  }

  /** Whatever happens to other keys and whenever cleanups run, a queue answers
      first in, first out, over its newest `max` entries. */
  lemma {:induction false} QueueIsFifo(t: Tables, cs: seq<Timed>, k: string, max: nat, q: seq<string>)
    requires max > 0 && QueueUse(cs, k, max) && Queued(t, k, q)
    ensures QueueAnswers(t, cs, k) == FifoAnswers(q, cs, k, max)
    decreases |cs|
  {
    if cs == [] {
    } else {
      var c := cs[0];
      assert AsQueue(c.op, k, max);
      assert forall i :: 0 <= i < |cs| - 1 ==> cs[1..][i] == cs[i + 1];
      CallKeepsQueue(t, c, k, q, max);
      if OfKey(c.op, k) && c.op.OpDequeue? { DequeueKeepsQueue(t, c, k, q); }
      QueueIsFifo(OnTables(t, c).0, cs[1..], k, max, Next(q, c.op, k, max));
    }
  }

  lemma {:induction false} DepthBounded(q: seq<string>, cs: seq<Timed>, k: string, max: nat, i: nat)
    requires max > 0 && |q| <= max && i < |FifoAnswers(q, cs, k, max)| && FifoAnswers(q, cs, k, max)[i].Count?
    ensures FifoAnswers(q, cs, k, max)[i].n <= max
    decreases |cs|
  {
    var op := cs[0].op;
    var answers := !OfKey(op, k) || op.OpAppend?;
    if answers || i > 0 {
      DepthBounded(Next(q, op, k, max), cs[1..], k, max, if answers then i else i - 1);
    }
  }

  /** From an empty database: the queue is that queue, and its depth never exceeds the bound. */
  lemma QueueFromEmpty(cs: seq<Timed>, k: string, max: nat, i: nat)
    requires max > 0 && QueueUse(cs, k, max)
    ensures QueueAnswers(EMPTY_TABLES, cs, k) == FifoAnswers([], cs, k, max)
    ensures i < |QueueAnswers(EMPTY_TABLES, cs, k)| && QueueAnswers(EMPTY_TABLES, cs, k)[i].Count?
         ==> QueueAnswers(EMPTY_TABLES, cs, k)[i].n <= max
  {
    QueueIsFifo(EMPTY_TABLES, cs, k, max, []);
    if i < |FifoAnswers([], cs, k, max)| && FifoAnswers([], cs, k, max)[i].Count? {
      DepthBounded([], cs, k, max, i);
    }
  }

  /** The queue after a run of calls. */
  function NextAll(q: seq<string>, cs: seq<Timed>, k: string, max: nat): seq<string>
    decreases |cs|
  {
    if cs == [] then q else NextAll(Next(q, cs[0].op, k, max), cs[1..], k, max)
  }

  lemma {:induction false} RunKeepsQueue(t: Tables, cs: seq<Timed>, k: string, q: seq<string>, max: nat)
    requires Queued(t, k, q) && max > 0 && QueueUse(cs, k, max)
    ensures Queued(After(t, cs), k, NextAll(q, cs, k, max))
    decreases |cs|
  {
    if cs == [] {
    } else {
      assert AsQueue(cs[0].op, k, max) && forall i :: 0 <= i < |cs| - 1 ==> cs[1..][i] == cs[i + 1];
      CallKeepsQueue(t, cs[0], k, q, max);
      RunKeepsQueue(OnTables(t, cs[0]).0, cs[1..], k, Next(q, cs[0].op, k, max), max);
    }
  }

  lemma {:induction false} UntouchedQueue(q: seq<string>, cs: seq<Timed>, k: string, max: nat)
    requires forall i :: 0 <= i < |cs| ==> !OfKey(cs[i].op, k)
    ensures NextAll(q, cs, k, max) == q
    decreases |cs|
  {
    if cs == [] {
    } else {
      assert !OfKey(cs[0].op, k) && forall i :: 0 <= i < |cs| - 1 ==> cs[1..][i] == cs[i + 1];
      UntouchedQueue(q, cs[1..], k, max);
    }
  }

  /** The depth `enqueue` returns is the queue's length after its entry joined and after
      whatever was called meanwhile; it is the length right after the entry if no call
      in between was on the same queue. */
  lemma EnqueueDepth(t: Tables, k: string, entry: string, now: int, cs: seq<Timed>, q: seq<string>, max: nat)
    requires Queued(t, k, q) && max > 0 && QueueUse(cs, k, max)
    ensures var depth := Depth(After(Append(t, k, entry, max, None, now), cs), k);
      depth == |NextAll(Joined(q, entry, max), cs, k, max)|
      && ((forall i :: 0 <= i < |cs| ==> !OfKey(cs[i].op, k)) ==> depth == |Joined(q, entry, max)|)
  {
    var appended := Append(t, k, entry, max, None, now);
    EnqueueKeepsQueue(t, Timed(OpAppend(k, entry, max, None), now, now), k, q, max);
    RunKeepsQueue(appended, cs, k, Joined(q, entry, max), max);
    if forall i :: 0 <= i < |cs| ==> !OfKey(cs[i].op, k) { UntouchedQueue(Joined(q, entry, max), cs, k, max); }
  }
}
