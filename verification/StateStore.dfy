/** What the state adapter promises: a store whose entries lapse at their
    deadline by themselves. The tables, with cleanups run at any moment, answer
    every call as this store does, which never cleans up. */
module StateStore {
  import opened Options
  import opened StateTables

  datatype Entry = Entry(value: string, until: Option<int>)

  datatype Store = Store(
    kv: map<string, Entry>,
    locks: map<string, LockRow>,
    lists: map<string, seq<Entry>>)

  predicate Alive(until: Option<int>, now: int) {
    until.None? || until.value >= now
  }

  /** The newest `max` entries; 0 means no bound. */
  function Newest(l: seq<Entry>, max: nat): (r: seq<Entry>)
    ensures max > 0 ==> |r| <= max
  {
    if max == 0 || |l| <= max then l else l[|l| - max..]
  }

  function ListOf(s: Store, k: string): seq<Entry> {
    if k in s.lists then s.lists[k] else []
  }

  function Unlapsed(l: seq<Entry>, now: int): seq<string> {
    if l == [] then []
    else if l[0].until.None? || l[0].until.value > now then [l[0].value] + Unlapsed(l[1..], now)
    else Unlapsed(l[1..], now)
  }

  /** When an entry with this lifetime lapses: no lifetime, or none to speak of, means never. */
  function Until(ttl: Option<int>, now: int): Option<int> {
    match ttl
    case None => None
    case Some(ms) => if ms == 0 then None else Some(now + ms)
  }

  // ---- Calls, on the tables and on the store ----

  datatype Op =
    | OpGet(k: string)
    | OpSet(k: string, v: string, ttl: Option<int>)
    | OpSetNew(k: string, v: string, ttl: Option<int>)
    | OpDelete(k: string)
    | OpAcquire(k: string, token: string, ms: int)
    | OpRelease(k: string, token: string)
    | OpExtend(k: string, token: string, ms: int)
    | OpForce(k: string)
    | OpAppend(k: string, v: string, max: nat, ttl: Option<int>)
    | OpList(k: string)
    | OpDequeue(k: string)
    | OpDepth(k: string)
    | OpCleanup

  /** A call and the clock readings it makes. */
  datatype Timed = Timed(op: Op, now: int, later: int)

  datatype Res = Done | Value(value: Option<string>) | Flag(ok: bool) | Items(items: seq<string>) | Count(n: nat)

  function OnTables(t: Tables, c: Timed): (Tables, Res) {
    match c.op
    case OpGet(k) => var r := Get(t, k, c.now, c.later); (r.0, Value(r.1))
    case OpSet(k, v, ttl) => (Set(t, k, v, ttl, c.now), Done)
    case OpSetNew(k, v, ttl) => var r := SetIfNotExists(t, k, v, ttl, c.now); (r.0, Flag(r.1))
    case OpDelete(k) => (Delete(t, k), Done)
    case OpAcquire(k, token, ms) => var r := Acquire(t, k, token, ms, c.now); (r.0, Flag(r.1))
    case OpRelease(k, token) => (Release(t, k, token), Done)
    case OpExtend(k, token, ms) => var r := Extend(t, k, token, ms, c.now); (r.0, Flag(r.1))
    case OpForce(k) => (ForceRelease(t, k), Done)
    case OpAppend(k, v, max, ttl) => (Append(t, k, v, max, ttl, c.now), Done)
    case OpList(k) => (t, Items(GetList(t, k, c.now)))
    case OpDequeue(k) => var r := Dequeue(t, k); (r.0, Value(r.1))
    case OpDepth(k) => (t, Count(Depth(t, k)))
    case OpCleanup => (Cleanup(t, c.now), Done)
  }

  /** The tables after a run of calls. */
  function After(t: Tables, cs: seq<Timed>): Tables
    decreases |cs|
  {
    if cs == [] then t else After(OnTables(t, cs[0]).0, cs[1..])
  }

  function OnStore(s: Store, c: Timed): (Store, Res) {
    match c.op
    case OpGet(k) =>
      (s, Value(if k in s.kv && Alive(s.kv[k].until, c.later) then Some(s.kv[k].value) else None))
    case OpSet(k, v, ttl) => (s.(kv := s.kv[k := Entry(v, Until(ttl, c.now))]), Done)
    case OpSetNew(k, v, ttl) =>
      if k in s.kv && Alive(s.kv[k].until, c.now) then (s, Flag(false))
      else (s.(kv := s.kv[k := Entry(v, Until(ttl, c.now))]), Flag(true))
    case OpDelete(k) => (s.(kv := s.kv - {k}), Done)
    case OpAcquire(k, token, ms) =>
      if k in s.locks && s.locks[k].expires >= c.now then (s, Flag(false))
      else (s.(locks := s.locks[k := LockRow(token, c.now + ms)]), Flag(true))
    case OpRelease(k, token) =>
      (if k in s.locks && s.locks[k].token == token then s.(locks := s.locks - {k}) else s, Done)
    case OpExtend(k, token, ms) =>
      if k in s.locks && s.locks[k].token == token && s.locks[k].expires >= c.now
      then (s.(locks := s.locks[k := LockRow(token, c.now + ms)]), Flag(true))
      else (s, Flag(false))
    case OpForce(k) => (s.(locks := s.locks - {k}), Done)
    case OpAppend(k, v, max, ttl) =>
      (s.(lists := s.lists[k := Newest(ListOf(s, k) + [Entry(v, Until(ttl, c.now))], max)]), Done)
    case OpList(k) => (s, Items(Unlapsed(ListOf(s, k), c.now)))
    case OpDequeue(k) =>
      var l := ListOf(s, k);
      if l == [] then (s, Value(None)) else (s.(lists := s.lists[k := l[1..]]), Value(Some(l[0].value)))
    case OpDepth(k) => (s, Count(|ListOf(s, k)|))
    case OpCleanup => (s, Done)
  }

  // ---- What the calls must respect ----

  /** The end of time, for entries without a deadline. */
  predicate NotBefore(a: Option<int>, b: Option<int>) {
    b.None? || (a.Some? && a.value <= b.value)
  }

  /** No deadline is the number 0; list deadlines never decrease; entries of a
      queue have none; a lease is not extended after it lapsed. */
  predicate Proper(s: Store, c: Timed) {
    c.now <= c.later
    && match c.op
       case OpSet(_, _, ttl) => Until(ttl, c.now) != Some(0)
       case OpSetNew(_, _, ttl) => Until(ttl, c.now) != Some(0)
       case OpExtend(k, token, _) =>
         !(k in s.locks && s.locks[k].token == token && s.locks[k].expires < c.now)
       case OpAppend(k, _, _, ttl) =>
         var l := ListOf(s, k);
         l == [] || NotBefore(l[|l| - 1].until, Until(ttl, c.now))
       case OpDequeue(k) => forall i :: 0 <= i < |ListOf(s, k)| ==> ListOf(s, k)[i].until == None
       case OpDepth(k) => forall i :: 0 <= i < |ListOf(s, k)| ==> ListOf(s, k)[i].until == None
       case _ => true
  }

  // ---- The tables hold the live part of the store ----

  ghost predicate KvAgree(t: map<string, KvRow>, s: map<string, Entry>, now: int) {
    (forall k :: k in t ==> k in s && s[k] == Entry(t[k].value, t[k].expires) && t[k].expires != Some(0))
    && (forall k :: k in s && Alive(s[k].until, now) ==> k in t)
  }

  ghost predicate LocksAgree(t: map<string, LockRow>, s: map<string, LockRow>, now: int) {
    (forall k :: k in t ==> k in s && s[k] == t[k])
    && (forall k :: k in s && s[k].expires >= now ==> k in t)
  }

  /** The rows of a list whose oldest entry has index `lo`. */
  ghost function Numbered(l: seq<Entry>, lo: int): (rows: seq<ListRow>)
    ensures |rows| == |l|
    decreases |l|
  {
    if l == [] then [] else [ListRow(lo, l[0].value, l[0].until)] + Numbered(l[1..], lo + 1)
  }

  ghost function First(rows: seq<ListRow>): int {
    if rows == [] then 0 else rows[0].idx
  }

  /** Indices are contiguous; what the tables no longer hold is a lapsed prefix. */
  ghost predicate RowsAgree(rows: seq<ListRow>, l: seq<Entry>, now: int) {
    |rows| <= |l|
    && rows == Numbered(l[|l| - |rows|..], First(rows))
    && First(rows) >= 0
    && Lapsed(l, |l| - |rows|, now)
  }

  ghost predicate Lapsed(l: seq<Entry>, d: nat, now: int)
    requires d <= |l|
  {
    forall i :: 0 <= i < d ==> !Alive(l[i].until, now)
  }

  ghost predicate Ordered(l: seq<Entry>) {
    forall i, j :: 0 <= i <= j < |l| ==> NotBefore(l[i].until, l[j].until)
  }

  ghost predicate ListsAgree(t: Tables, s: Store, now: int) {
    forall k :: RowsAgree(Rows(t, k), ListOf(s, k), now) && Ordered(ListOf(s, k))
  }

  ghost predicate Agree(t: Tables, s: Store, now: int) {
    KvAgree(t.kv, s.kv, now) && LocksAgree(t.locks, s.locks, now) && ListsAgree(t, s, now)
  }

  lemma AgreeLater(t: Tables, s: Store, now: int, later: int)
    requires Agree(t, s, now) && now <= later
    ensures Agree(t, s, later)
  {
    forall k ensures RowsAgree(Rows(t, k), ListOf(s, k), later) {
      assert RowsAgree(Rows(t, k), ListOf(s, k), now);
    }
  }

  // ---- Lists ----

  lemma {:induction false} NumberedSnoc(l: seq<Entry>, lo: int, e: Entry)
    ensures Numbered(l + [e], lo) == Numbered(l, lo) + [ListRow(lo + |l|, e.value, e.until)]
    ensures l != [] ==> NextIdx(Numbered(l, lo)) == lo + |l|
    decreases |l|
  {
    if l == [] {
      assert l + [e] == [e];
    } else {
      assert (l + [e])[1..] == l[1..] + [e];
      NumberedSnoc(l[1..], lo + 1, e);
      if |l| > 1 { assert Numbered(l, lo)[|l| - 1] == Numbered(l[1..], lo + 1)[|l| - 2]; }
    }
  }

  lemma Establish(rows: seq<ListRow>, l: seq<Entry>, d: nat, lo: nat, now: int)
    requires d <= |l| && rows == Numbered(l[d..], lo) && Lapsed(l, d, now)
    ensures RowsAgree(rows, l, now)
  {
    if rows == [] { assert rows == Numbered(l[d..], 0); }
  }

  lemma OrderedTail(l: seq<Entry>, d: nat)
    requires Ordered(l) && d <= |l|
    ensures Ordered(l[d..])
  {
    forall i, j | 0 <= i <= j < |l| - d ensures NotBefore(l[d..][i].until, l[d..][j].until) {
      assert NotBefore(l[d + i].until, l[d + j].until);
    }
  }

  lemma {:induction false} CleanNothing(l: seq<Entry>, lo: int, now: int)
    requires Ordered(l) && (l == [] || !Expired(l[0].until, now))
    ensures CleanRows(Numbered(l, lo), now) == Numbered(l, lo)
    decreases |l|
  {
    if l == [] {
    } else {
      OrderedTail(l, 1);
      if |l| > 1 { assert NotBefore(l[0].until, l[1].until); }
      CleanNothing(l[1..], lo + 1, now);
      assert Numbered(l, lo)[1..] == Numbered(l[1..], lo + 1);
    }
  }

  /** With ordered deadlines a cleanup removes a prefix. */
  lemma {:induction false} CleanPrefix(l: seq<Entry>, lo: int, now: int) returns (n: nat)
    requires Ordered(l)
    ensures n <= |l| && CleanRows(Numbered(l, lo), now) == Numbered(l[n..], lo + n) && Lapsed(l, n, now)
    decreases |l|
  {
    if l == [] || !Expired(l[0].until, now) {
      CleanNothing(l, lo, now);
      n := 0;
      assert l[0..] == l;
    } else {
      OrderedTail(l, 1);
      var m := CleanPrefix(l[1..], lo + 1, now);
      n := m + 1;
      assert Numbered(l, lo)[1..] == Numbered(l[1..], lo + 1);
      assert l[1..][m..] == l[n..];
      forall i | 0 <= i < n ensures !Alive(l[i].until, now) {
        if i > 0 { assert l[i] == l[1..][i - 1]; }
      }
    }
  }

  lemma CleanKeepsSuffix(rows: seq<ListRow>, l: seq<Entry>, now: int)
    requires RowsAgree(rows, l, now) && Ordered(l)
    ensures RowsAgree(CleanRows(rows, now), l, now)
  {
    var d, lo := |l| - |rows|, First(rows);
    OrderedTail(l, d);
    var n := CleanPrefix(l[d..], lo, now);
    assert l[d..][n..] == l[d + n..];
    forall i | 0 <= i < d + n ensures !Alive(l[i].until, now) {
      if i >= d { assert l[i] == l[d..][i - d]; }
    }
    Establish(CleanRows(rows, now), l, d + n, lo + n, now);
  }

  lemma {:induction false} DropUpToNumbered(l: seq<Entry>, lo: int, n: nat)
    requires n <= |l|
    ensures DropUpTo(Numbered(l, lo), lo + n - 1) == Numbered(l[n..], lo + n)
    decreases |l|
  {
    if l == [] {
    } else {
      assert Numbered(l, lo)[1..] == Numbered(l[1..], lo + 1);
      if n == 0 {
        DropUpToNone(l, lo, lo - 1);
      } else {
        DropUpToNumbered(l[1..], lo + 1, n - 1);
        assert l[1..][n - 1..] == l[n..];
      }
    }
  }

  lemma {:induction false} DropUpToNone(l: seq<Entry>, lo: int, cutoff: int)
    requires cutoff < lo
    ensures DropUpTo(Numbered(l, lo), cutoff) == Numbered(l, lo)
    decreases |l|
  {
    if l == [] {
    } else {
      assert Numbered(l, lo)[1..] == Numbered(l[1..], lo + 1);
      DropUpToNone(l[1..], lo + 1, cutoff);
    }
  }

  /** Trimming by index keeps the newest rows. */
  lemma TrimNumbered(l: seq<Entry>, lo: nat, max: nat)
    requires l != []
    ensures var rows := Numbered(l, lo); var cutoff := lo + |l| - 1 - max;
      (if max != 0 && cutoff >= 0 then DropUpTo(rows, cutoff) else rows)
      == if max == 0 || |l| <= max then rows else Numbered(l[|l| - max..], lo + |l| - max)
  {
    if |l| > max > 0 {
      DropUpToNumbered(l, lo, |l| - max);
    } else if max != 0 {
      DropUpToNone(l, lo, lo + |l| - 1 - max);
    }
  }

  /** Forgetting lapsed entries of the store costs the tables nothing. */
  lemma ForgetLapsed(rows: seq<ListRow>, l: seq<Entry>, d: nat, lo: nat, cut: nat, now: int)
    requires cut <= d <= |l| && rows == Numbered(l[d..], lo) && Lapsed(l, d, now)
    ensures RowsAgree(rows, l[cut..], now)
  {
    assert l[cut..][d - cut..] == l[d..];
    forall i | 0 <= i < d - cut ensures !Alive(l[cut..][i].until, now) { assert l[cut..][i] == l[cut + i]; }
    Establish(rows, l[cut..], d - cut, lo, now);
  }

  lemma AllShown(l: seq<Entry>, lo: nat, now: int)
    ensures RowsAgree(Numbered(l, lo), l, now)
  {
    assert l[0..] == l;
    Establish(Numbered(l, lo), l, 0, lo, now);
  }

  /** What `appendToList` does to the rows of its key. */
  ghost function Appended(rows: seq<ListRow>, e: Entry, max: nat): seq<ListRow> {
    var next := NextIdx(rows);
    var rows' := rows + [ListRow(next, e.value, e.until)];
    if max != 0 && next - max >= 0 then DropUpTo(rows', next - max) else rows'
  }

  lemma AppendedNumbered(l: seq<Entry>, lo: nat, e: Entry, max: nat)
    requires l == [] ==> lo == 0
    ensures var shown := l + [e];
      Appended(Numbered(l, lo), e, max)
      == if max == 0 || |shown| <= max then Numbered(shown, lo)
         else Numbered(shown[|shown| - max..], lo + |shown| - max)
  {
    NumberedSnoc(l, lo, e);
    TrimNumbered(l + [e], lo, max);
  }

  lemma ShownAfterAppend(l: seq<Entry>, d: nat, e: Entry, now: int)
    requires d <= |l| && Lapsed(l, d, now)
    ensures (l + [e])[d..] == l[d..] + [e] && Lapsed(l + [e], d, now)
  {
    forall i | 0 <= i < d ensures !Alive((l + [e])[i].until, now) { assert (l + [e])[i] == l[i]; }
  }

  lemma KeepCase(l: seq<Entry>, d: nat, lo: nat, max: nat, now: int)
    requires d <= |l| && Lapsed(l, d, now) && (max == 0 || |l| - d <= max)
    ensures RowsAgree(Numbered(l[d..], lo), Newest(l, max), now)
  {
    if max == 0 || |l| <= max {
      Establish(Numbered(l[d..], lo), l, d, lo, now);
    } else {
      ForgetLapsed(Numbered(l[d..], lo), l, d, lo, |l| - max, now);
    }
  }

  lemma TailOfTail(l: seq<Entry>, d: nat, n: nat)
    requires d + n <= |l|
    ensures l[d..][n..] == l[d + n..]
  {
  }

  lemma TrimmedAgrees(after: seq<ListRow>, all: seq<Entry>, d: nat, lo: nat, max: nat, now: int)
    requires d <= |all| && Lapsed(all, d, now)
    requires max == 0 || |all[d..]| <= max ==> after == Numbered(all[d..], lo)
    requires max != 0 && |all[d..]| > max
         ==> after == Numbered(all[d..][|all[d..]| - max..], lo + |all[d..]| - max)
    ensures RowsAgree(after, Newest(all, max), now)
  {
    var n := |all| - d;
    if max == 0 || n <= max {
      KeepCase(all, d, lo, max, now);
    } else {
      TrimCase(after, all, d, lo + n - max, max, now);
    }
  }

  lemma TrimCase(after: seq<ListRow>, all: seq<Entry>, d: nat, lo: nat, max: nat, now: int)
    requires d <= |all| && 0 < max < |all| - d
    requires after == Numbered(all[d..][|all| - d - max..], lo)
    ensures RowsAgree(after, Newest(all, max), now)
  {
    var newest := Newest(all, max);
    assert newest == all[|all| - max..];
    assert all[d..][|all| - d - max..] == newest by { TailOfTail(all, d, |all| - d - max); }
    assert after == Numbered(newest, lo);
    AllShown(newest, lo, now);
  }

  /** Appending and trimming by index is appending and keeping the newest. */
  lemma AppendAgrees(rows: seq<ListRow>, l: seq<Entry>, e: Entry, max: nat, now: int)
    requires RowsAgree(rows, l, now)
    ensures RowsAgree(Appended(rows, e, max), Newest(l + [e], max), now)
  {
    var d, lo, after := |l| - |rows|, First(rows), Appended(rows, e, max);
    AppendedNumbered(l[d..], lo, e, max);
    ShownAfterAppend(l, d, e, now);
    TrimmedAgrees(after, l + [e], d, lo, max, now);
  }

  lemma OrderedAppend(l: seq<Entry>, e: Entry, max: nat)
    requires Ordered(l) && (l == [] || NotBefore(l[|l| - 1].until, e.until))
    ensures Ordered(Newest(l + [e], max))
  {
    var l' := l + [e];
    forall i, j | 0 <= i <= j < |l'| ensures NotBefore(l'[i].until, l'[j].until) {
      if j == |l| && i < |l| { assert NotBefore(l[i].until, l[|l| - 1].until); }
    }
  }

  lemma {:induction false} VisibleNumbered(l: seq<Entry>, lo: int, now: int)
    ensures Visible(Numbered(l, lo), now) == Unlapsed(l, now)
    decreases |l|
  {
    if l == [] {
    } else {
      assert Numbered(l, lo)[1..] == Numbered(l[1..], lo + 1);
      VisibleNumbered(l[1..], lo + 1, now);
    }
  }

  lemma {:induction false} LapsedHidden(l: seq<Entry>, d: nat, now: int)
    requires d <= |l| && Lapsed(l, d, now)
    ensures Unlapsed(l, now) == Unlapsed(l[d..], now)
    decreases d
  {
    if d == 0 {
      assert l[0..] == l;
    } else {
      assert l[1..][d - 1..] == l[d..];
      forall i | 0 <= i < d - 1 ensures !Alive(l[1..][i].until, now) { assert l[1..][i] == l[i + 1]; }
      LapsedHidden(l[1..], d - 1, now);
    }
  }

  lemma VisibleAgrees(rows: seq<ListRow>, l: seq<Entry>, now: int)
    requires RowsAgree(rows, l, now)
    ensures Visible(rows, now) == Unlapsed(l, now)
  {
    var d := |l| - |rows|;
    VisibleNumbered(l[d..], First(rows), now);
    LapsedHidden(l, d, now);
  }

  lemma DequeueAgrees(rows: seq<ListRow>, l: seq<Entry>, now: int)
    requires RowsAgree(rows, l, now)
    requires forall i :: 0 <= i < |l| ==> l[i].until == None
    ensures |rows| == |l|
    ensures rows != [] ==> rows[0].value == l[0].value && RowsAgree(rows[1..], l[1..], now)
  {
    assert |l| > |rows| ==> Alive(l[0].until, now);
    assert l[0..] == l;
    if rows != [] {
      assert l[1..][0..] == l[1..];
      assert rows[1..] == Numbered(l[1..], First(rows) + 1);
      Establish(rows[1..], l[1..], 0, First(rows) + 1, now);
    }
  }

  // ---- One call ----

  lemma ListsUntouched(t: Tables, t': Tables, s: Store, s': Store, now: int)
    requires ListsAgree(t, s, now) && t'.lists == t.lists && s'.lists == s.lists
    ensures ListsAgree(t', s', now)
  {
    forall k ensures RowsAgree(Rows(t', k), ListOf(s', k), now) && Ordered(ListOf(s', k)) {
      assert RowsAgree(Rows(t, k), ListOf(s, k), now);
    }
  }

  lemma CleanupAgrees(t: Tables, s: Store, now: int)
    requires Agree(t, s, now)
    ensures Agree(Cleanup(t, now), s, now)
  {
    var t' := Cleanup(t, now);
    forall k ensures RowsAgree(Rows(t', k), ListOf(s, k), now) && Ordered(ListOf(s, k)) {
      assert RowsAgree(Rows(t, k), ListOf(s, k), now) && Ordered(ListOf(s, k));
      CleanKeepsSuffix(Rows(t, k), ListOf(s, k), now);
    }
  }

  lemma KvCallAgrees(t: Tables, s: Store, c: Timed)
    requires KvAgree(t.kv, s.kv, c.now) && Proper(s, c)
    requires c.op.OpSet? || c.op.OpSetNew? || c.op.OpDelete?
    ensures OnTables(t, c).1 == OnStore(s, c).1
    ensures KvAgree(OnTables(t, c).0.kv, OnStore(s, c).0.kv, c.now)
    ensures OnTables(t, c).0 == t.(kv := OnTables(t, c).0.kv) && OnStore(s, c).0 == s.(kv := OnStore(s, c).0.kv)
  {
  }

  lemma LockCallAgrees(t: Tables, s: Store, c: Timed)
    requires LocksAgree(t.locks, s.locks, c.now) && Proper(s, c)
    requires c.op.OpAcquire? || c.op.OpRelease? || c.op.OpExtend? || c.op.OpForce?
    ensures OnTables(t, c).1 == OnStore(s, c).1
    ensures LocksAgree(OnTables(t, c).0.locks, OnStore(s, c).0.locks, c.now)
    ensures OnTables(t, c).0 == t.(locks := OnTables(t, c).0.locks)
    ensures OnStore(s, c).0 == s.(locks := OnStore(s, c).0.locks)
  {
  }

  lemma GetAnswer(t: Tables, s: Store, k: string, now: int, later: int)
    requires KvAgree(Cleanup(t, now).kv, s.kv, later)
    ensures Get(t, k, now, later).1 == if k in s.kv && Alive(s.kv[k].until, later) then Some(s.kv[k].value) else None
    ensures KvAgree(Get(t, k, now, later).0.kv, s.kv, later)
  {
  }

  lemma GetAgrees(t: Tables, s: Store, c: Timed)
    requires Agree(t, s, c.now) && Proper(s, c) && c.op.OpGet?
    ensures OnTables(t, c).1 == OnStore(s, c).1
    ensures Agree(OnTables(t, c).0, OnStore(s, c).0, c.later)
  {
    CleanupAgrees(t, s, c.now);
    AgreeLater(Cleanup(t, c.now), s, c.now, c.later);
    GetAnswer(t, s, c.op.k, c.now, c.later);
    ListsUntouched(Cleanup(t, c.now), OnTables(t, c).0, s, s, c.later);
  }

  lemma PutList(t: Tables, rows: seq<ListRow>, s: Store, l: seq<Entry>, k: string, now: int)
    requires Agree(t, s, now) && RowsAgree(rows, l, now) && Ordered(l)
    ensures Agree(t.(lists := t.lists[k := rows]), s.(lists := s.lists[k := l]), now)
  {
    var t', s' := t.(lists := t.lists[k := rows]), s.(lists := s.lists[k := l]);
    forall j ensures RowsAgree(Rows(t', j), ListOf(s', j), now) && Ordered(ListOf(s', j)) {
      assert RowsAgree(Rows(t, j), ListOf(s, j), now) && Ordered(ListOf(s, j));
    }
  }

  lemma AppendIsAppended(t: Tables, k: string, v: string, max: nat, ttl: Option<int>, now: int)
    ensures Append(t, k, v, max, ttl, now)
         == t.(lists := t.lists[k := Appended(Rows(t, k), Entry(v, Deadline(ttl, now)), max)])
  {
  }

  /** The tables and the store agree on when an entry lapses. */
  lemma SameDeadline(ttl: Option<int>, now: int)
    ensures Deadline(ttl, now) == Until(ttl, now)
  {
  }

  lemma AppendedListAgrees(rows: seq<ListRow>, l: seq<Entry>, e: Entry, max: nat, now: int)
    requires RowsAgree(rows, l, now) && Ordered(l) && (l == [] || NotBefore(l[|l| - 1].until, e.until))
    ensures RowsAgree(Appended(rows, e, max), Newest(l + [e], max), now) && Ordered(Newest(l + [e], max))
  {
    OrderedAppend(l, e, max);
    AppendAgrees(rows, l, e, max, now);
  }

  lemma AppendCallAgrees(t: Tables, s: Store, c: Timed)
    requires Agree(t, s, c.now) && Proper(s, c) && c.op.OpAppend?
    ensures Agree(OnTables(t, c).0, OnStore(s, c).0, c.now)
  {
    var OpAppend(k, v, max, ttl) := c.op;
    var e, rows, l := Entry(v, Until(ttl, c.now)), Rows(t, k), ListOf(s, k);
    SameDeadline(ttl, c.now);
    assert RowsAgree(rows, l, c.now) && Ordered(l);
    AppendedListAgrees(rows, l, e, max, c.now);
    AppendIsAppended(t, k, v, max, ttl, c.now);
    PutList(t, Appended(rows, e, max), s, Newest(l + [e], max), k, c.now);
  }

  lemma DequeueCallAgrees(t: Tables, s: Store, c: Timed)
    requires Agree(t, s, c.now) && Proper(s, c) && c.op.OpDequeue?
    ensures OnTables(t, c).1 == OnStore(s, c).1
    ensures Agree(OnTables(t, c).0, OnStore(s, c).0, c.now)
  {
    var k := c.op.k;
    assert RowsAgree(Rows(t, k), ListOf(s, k), c.now) && Ordered(ListOf(s, k));
    DequeueAgrees(Rows(t, k), ListOf(s, k), c.now);
    if ListOf(s, k) != [] {
      OrderedTail(ListOf(s, k), 1);
      PutList(t, Rows(t, k)[1..], s, ListOf(s, k)[1..], k, c.now);
    }
  }

  lemma ListCallAgrees(t: Tables, s: Store, c: Timed)
    requires Agree(t, s, c.now) && Proper(s, c)
    requires c.op.OpAppend? || c.op.OpList? || c.op.OpDequeue? || c.op.OpDepth?
    ensures OnTables(t, c).1 == OnStore(s, c).1
    ensures Agree(OnTables(t, c).0, OnStore(s, c).0, c.now)
  {
    var k := c.op.k;
    assert RowsAgree(Rows(t, k), ListOf(s, k), c.now);
    if c.op.OpAppend? { AppendCallAgrees(t, s, c); }
    else if c.op.OpDequeue? { DequeueCallAgrees(t, s, c); }
    else if c.op.OpDepth? { DequeueAgrees(Rows(t, k), ListOf(s, k), c.now); }
    else { VisibleAgrees(Rows(t, k), ListOf(s, k), c.now); }
  }

  lemma KvOnly(t: Tables, kv: map<string, KvRow>, s: Store, kv': map<string, Entry>, now: int)
    requires Agree(t, s, now) && KvAgree(kv, kv', now)
    ensures Agree(t.(kv := kv), s.(kv := kv'), now)
  {
    ListsUntouched(t, t.(kv := kv), s, s.(kv := kv'), now);
  }

  lemma LocksOnly(t: Tables, locks: map<string, LockRow>, s: Store, locks': map<string, LockRow>, now: int)
    requires Agree(t, s, now) && LocksAgree(locks, locks', now)
    ensures Agree(t.(locks := locks), s.(locks := locks'), now)
  {
    ListsUntouched(t, t.(locks := locks), s, s.(locks := locks'), now);
  }

  predicate KvCall(op: Op) { op.OpSet? || op.OpSetNew? || op.OpDelete? }

  predicate ListCall(op: Op) { op.OpAppend? || op.OpList? || op.OpDequeue? || op.OpDepth? }

  predicate LockCall(op: Op) { op.OpAcquire? || op.OpRelease? || op.OpExtend? || op.OpForce? }

  lemma WriteAgrees(t: Tables, s: Store, c: Timed)
    requires Agree(t, s, c.now) && Proper(s, c) && (KvCall(c.op) || ListCall(c.op) || LockCall(c.op))
    ensures OnTables(t, c).1 == OnStore(s, c).1
    ensures Agree(OnTables(t, c).0, OnStore(s, c).0, c.now)
  {
    if ListCall(c.op) {
      ListCallAgrees(t, s, c);
    } else {
      var t', s' := OnTables(t, c).0, OnStore(s, c).0;
      if KvCall(c.op) {
        KvCallAgrees(t, s, c);
        KvOnly(t, t'.kv, s, s'.kv, c.now);
      } else {
        LockCallAgrees(t, s, c);
        LocksOnly(t, t'.locks, s, s'.locks, c.now);
      }
    }
  }

  lemma CleanupCallAgrees(t: Tables, s: Store, c: Timed)
    requires Agree(t, s, c.now) && Proper(s, c) && c.op.OpCleanup?
    ensures OnTables(t, c).1 == OnStore(s, c).1
    ensures Agree(OnTables(t, c).0, OnStore(s, c).0, c.later)
  {
    CleanupAgrees(t, s, c.now);
    AgreeLater(Cleanup(t, c.now), s, c.now, c.later);
  }

  /** Every proper call gets the store's answer and keeps the agreement. */
  lemma CallAgrees(t: Tables, s: Store, c: Timed)
    requires Agree(t, s, c.now) && Proper(s, c)
    ensures OnTables(t, c).1 == OnStore(s, c).1
    ensures Agree(OnTables(t, c).0, OnStore(s, c).0, c.later)
  {
    if c.op.OpGet? {
      GetAgrees(t, s, c);
    } else if c.op.OpCleanup? {
      CleanupCallAgrees(t, s, c);
    } else {
      WriteAgrees(t, s, c);
      AgreeLater(OnTables(t, c).0, OnStore(s, c).0, c.now, c.later);
    }
  }

  // ---- Lifetimes, in plain numbers ----

  /** A value with a lifetime is there up to and including its last millisecond. */
  lemma ValueLives(t: Tables, k: string, v: string, ms: int, now: int, later: int)
    requires 0 < ms && 0 <= now <= later
    ensures Get(Set(t, k, v, Some(ms), now), k, later, later).1 == if later <= now + ms then Some(v) else None
    ensures Get(Set(t, k, v, None, now), k, later, later).1 == Some(v)
    ensures Get(Set(t, k, v, Some(0), now), k, later, later).1 == Some(v)
  {
  }

  /** A key that holds nothing unexpired takes the new value and its lifetime; one that does
      keeps what it has. */
  lemma NewValueLives(t: Tables, k: string, v: string, ttl: Option<int>, now: int, later: int)
    requires 0 < now <= later && (ttl.Some? ==> ttl.value > 0)
    ensures var (t', inserted) := SetIfNotExists(t, k, v, ttl, now);
      (inserted <==> k !in t.kv || (t.kv[k].expires.Some? && 0 != t.kv[k].expires.value < now))
      && (inserted ==>
            Get(t', k, later, later).1 == if ttl == None || later <= now + ttl.value then Some(v) else None)
      && (!inserted ==> t' == t)
  {
  }

  /** An appended entry is listed before its last millisecond, and for good without a lifetime. */
  lemma AppendedLives(t: Tables, k: string, v: string, ttl: Option<int>, now: int, later: int)
    requires 0 <= now <= later && (ttl.Some? ==> ttl.value > 0)
    ensures GetList(Append(t, k, v, 0, ttl, now), k, later)
         == GetList(t, k, later) + (if ttl == None || later < now + ttl.value then [v] else [])
  {
    VisibleCat(Rows(t, k), [ListRow(NextIdx(Rows(t, k)), v, Deadline(ttl, now))], later);
  }

  lemma {:induction false} VisibleCat(a: seq<ListRow>, b: seq<ListRow>, now: int)
    ensures Visible(a + b, now) == Visible(a, now) + Visible(b, now)
    decreases |a|
  {
    if a == [] {
      assert a + b == b;
    } else {
      assert (a + b)[0] == a[0] && (a + b)[1..] == a[1..] + b;
      VisibleCat(a[1..], b, now);
    }
  }

  // ---- Whole runs ----

  /** The answers a run gives; a cleanup gives none. */
  function TableAnswers(t: Tables, cs: seq<Timed>): seq<Res>
    decreases |cs|
  {
    if cs == [] then []
    else
      var r := OnTables(t, cs[0]);
      (if cs[0].op.OpCleanup? then [] else [r.1]) + TableAnswers(r.0, cs[1..])
  }

  function StoreAnswers(s: Store, cs: seq<Timed>): seq<Res>
    decreases |cs|
  {
    if cs == [] then []
    else
      var r := OnStore(s, cs[0]);
      (if cs[0].op.OpCleanup? then [] else [r.1]) + StoreAnswers(r.0, cs[1..])
  }

  ghost predicate ProperRun(s: Store, cs: seq<Timed>, since: int)
    decreases |cs|
  {
    cs == []
    || (since <= cs[0].now && Proper(s, cs[0]) && ProperRun(OnStore(s, cs[0]).0, cs[1..], cs[0].later))
  }

  /** Over every proper run, cleanups anywhere, the tables answer as the store does. */
  lemma {:induction false} TablesRefineStore(t: Tables, s: Store, cs: seq<Timed>, since: int)
    requires Agree(t, s, since) && ProperRun(s, cs, since)
    ensures TableAnswers(t, cs) == StoreAnswers(s, cs)
    decreases |cs|
  {
    if cs == [] {
    } else {
      AgreeLater(t, s, since, cs[0].now);
      CallAgrees(t, s, cs[0]);
      TablesRefineStore(OnTables(t, cs[0]).0, OnStore(s, cs[0]).0, cs[1..], cs[0].later);
    }
  }

  function WithoutCleanups(cs: seq<Timed>): seq<Timed> {
    if cs == [] then []
    else (if cs[0].op.OpCleanup? then [] else [cs[0]]) + WithoutCleanups(cs[1..])
  }

  lemma {:induction false} CleanupsSilent(s: Store, cs: seq<Timed>)
    ensures StoreAnswers(s, cs) == StoreAnswers(s, WithoutCleanups(cs))
    decreases |cs|
  {
    if cs == [] {
    } else {
      CleanupsSilent(OnStore(s, cs[0]).0, cs[1..]);
      var rest := WithoutCleanups(cs[1..]);
      if cs[0].op.OpCleanup? {
        assert WithoutCleanups(cs) == rest;
      } else {
        assert WithoutCleanups(cs) == [cs[0]] + rest && ([cs[0]] + rest)[1..] == rest;
      }
    }
  }

  const EMPTY_TABLES := Tables(map[], {}, map[], map[])
  const EMPTY_STORE := Store(map[], map[], map[])

  /** Two runs that make the same calls and clean up at different moments get the same answers. */
  lemma CleanupInvisible(cs: seq<Timed>, ds: seq<Timed>, since: int)
    requires WithoutCleanups(cs) == WithoutCleanups(ds)
    requires ProperRun(EMPTY_STORE, cs, since) && ProperRun(EMPTY_STORE, ds, since)
    ensures TableAnswers(EMPTY_TABLES, cs) == TableAnswers(EMPTY_TABLES, ds)
  {
    TablesRefineStore(EMPTY_TABLES, EMPTY_STORE, cs, since);
    TablesRefineStore(EMPTY_TABLES, EMPTY_STORE, ds, since);
    CleanupsSilent(EMPTY_STORE, cs);
    CleanupsSilent(EMPTY_STORE, ds);
  }

  // ---- Where a cleanup does show ----

  /** An extension is answered differently after a cleanup exactly when the lease had lapsed. */
  lemma ExtendSeesCleanupIff(t: Tables, k: string, token: string, ms: int, now: int)
    ensures Extend(Cleanup(t, now), k, token, ms, now).1 != Extend(t, k, token, ms, now).1
       <==> Holds(t, k, token) && t.locks[k].expires < now
  {
  }

  /** `setIfNotExists` is answered differently exactly when the stored deadline is a past 0. */
  lemma SetNewSeesCleanupIff(t: Tables, k: string, v: string, ttl: Option<int>, now: int)
    ensures SetIfNotExists(Cleanup(t, now), k, v, ttl, now).1 != SetIfNotExists(t, k, v, ttl, now).1
       <==> k in t.kv && t.kv[k].expires == Some(0) && now > 0
  {
  }

  lemma OnCons(r: ListRow, rest: seq<ListRow>, n: int)
    ensures CleanRows([r] + rest, n) == if Expired(r.expires, n) then CleanRows(rest, n) else [r] + CleanRows(rest, n)
    ensures DropUpTo([r] + rest, n) == if r.idx <= n then DropUpTo(rest, n) else [r] + DropUpTo(rest, n)
    ensures Visible([r] + rest, n)
         == if r.expires.None? || r.expires.value > n then [r.value] + Visible(rest, n) else Visible(rest, n)
  {
    assert ([r] + rest)[1..] == rest;
  }

  lemma OnPair(a: ListRow, b: ListRow, n: int)
    ensures CleanRows([a, b], n)
         == (if Expired(a.expires, n) then [] else [a]) + (if Expired(b.expires, n) then [] else [b])
    ensures DropUpTo([a, b], n) == (if a.idx <= n then [] else [a]) + (if b.idx <= n then [] else [b])
    ensures Visible([a, b], n)
         == (if a.expires.None? || a.expires.value > n then [a.value] else [])
          + (if b.expires.None? || b.expires.value > n then [b.value] else [])
  {
    OnCons(a, [b], n);
    OnCons(b, [], n);
    assert [a, b] == [a] + [b] && [b] == [b] + [];
  }

  /** With a decreasing deadline a cleanup frees an index, and a bounded list keeps another entry. */
  lemma UnorderedListSeesCleanup(k: string)
    ensures var x := Append(Append(EMPTY_TABLES, k, "x", 0, None, 0), k, "y", 0, Some(5), 0);
      GetList(Append(x, k, "z", 2, None, 10), k, 10) == ["z"]
      && GetList(Append(Cleanup(x, 10), k, "z", 2, None, 10), k, 10) == ["x", "z"]
  {
    var x := Append(Append(EMPTY_TABLES, k, "x", 0, None, 0), k, "y", 0, Some(5), 0);
    var x0, y1, z2, z1 := ListRow(0, "x", None), ListRow(1, "y", Some(5)), ListRow(2, "z", None), ListRow(1, "z", None);
    assert Rows(x, k) == [x0, y1];
    assert Rows(Append(x, k, "z", 2, None, 10), k) == [y1, z2] by {
      assert [x0, y1] + [z2] == [x0] + [y1, z2];
      OnCons(x0, [y1, z2], 0);
      OnPair(y1, z2, 0);
    }
    OnPair(y1, z2, 10);
    assert Rows(Cleanup(x, 10), k) == [x0] by { OnPair(x0, y1, 10); }
    assert Rows(Append(Cleanup(x, 10), k, "z", 2, None, 10), k) == [x0, z1];
    OnPair(x0, z1, 10);
  }

  // ---- When a cleanup shows in a list ----

  /** Indices rise and start at 0 or later, as appending and trimming leave them. */
  ghost predicate Rising(rows: seq<ListRow>) {
    (forall i, j :: 0 <= i < j < |rows| ==> rows[i].idx < rows[j].idx)
    && forall i :: 0 <= i < |rows| ==> rows[i].idx >= 0
  }

  predicate Shown(r: ListRow, later: int) {
    r.expires.None? || r.expires.value > later
  }

  /** The shown values of the rows above an index. */
  function Above(rows: seq<ListRow>, cut: int, later: int): seq<string>
    decreases |rows|
  {
    if rows == [] then []
    else if rows[0].idx > cut && Shown(rows[0], later) then [rows[0].value] + Above(rows[1..], cut, later)
    else Above(rows[1..], cut, later)
  }

  /** Up to which index an append whose new index is `next` trims. */
  function Cut(next: int, max: nat): int {
    if max != 0 && next - max >= 0 then next - max else -1
  }

  lemma RisingTail(rows: seq<ListRow>)
    requires Rising(rows) && rows != []
    ensures Rising(rows[1..])
  {
    assert forall i :: 0 <= i < |rows| - 1 ==> rows[1..][i] == rows[i + 1];
  }

  lemma {:induction false} TrimmedShows(rows: seq<ListRow>, new': ListRow, cut: int, later: int)
    requires new'.idx > cut
    ensures Visible(DropUpTo(rows + [new'], cut), later) == Above(rows, cut, later) + Visible([new'], later)
    decreases |rows|
  {
    if rows == [] {
      assert rows + [new'] == [new'] + [];
      OnCons(new', [], cut);
    } else {
      var rest := rows[1..];
      assert rows + [new'] == [rows[0]] + (rest + [new']);
      OnCons(rows[0], rest + [new'], cut);
      OnCons(rows[0], DropUpTo(rest + [new'], cut), later);
      TrimmedShows(rest, new', cut, later);
    }
  }

  lemma {:induction false} NothingBelow(rows: seq<ListRow>, cut: int)
    requires cut < 0 && Rising(rows)
    ensures DropUpTo(rows, cut) == rows
    decreases |rows|
  {
    if rows == [] {
    } else {
      RisingTail(rows);
      NothingBelow(rows[1..], cut);
    }
  }

  lemma AppendedShows(t: Tables, k: string, v: string, max: nat, ttl: Option<int>, at: int, later: int)
    requires Rising(Rows(t, k))
    ensures var next := NextIdx(Rows(t, k));
      GetList(Append(t, k, v, max, ttl, at), k, later)
      == Above(Rows(t, k), Cut(next, max), later) + Visible([ListRow(next, v, Deadline(ttl, at))], later)
  {
    var rows := Rows(t, k);
    var next := NextIdx(rows);
    var new' := ListRow(next, v, Deadline(ttl, at));
    TrimmedShows(rows, new', Cut(next, max), later);
    if Cut(next, max) < 0 {
      assert Rising(rows + [new']);
      NothingBelow(rows + [new'], -1);
    }
  }

  /** A cleanup takes no row that is shown at any later time. */
  lemma {:induction false} CleanShowsSame(rows: seq<ListRow>, now: int, cut: int, later: int)
    requires now <= later
    ensures Above(CleanRows(rows, now), cut, later) == Above(rows, cut, later)
    decreases |rows|
  {
    if rows == [] {
    } else {
      CleanShowsSame(rows[1..], now, cut, later);
      if !Expired(rows[0].expires, now) {
        assert ([rows[0]] + CleanRows(rows[1..], now))[1..] == CleanRows(rows[1..], now);
      }
    }
  }

  lemma {:induction false} CleanMember(rows: seq<ListRow>, now: int, r: ListRow)
    ensures r in CleanRows(rows, now) <==> r in rows && !Expired(r.expires, now)
    decreases |rows|
  {
    if rows == [] {
    } else {
      CleanMember(rows[1..], now, r);
      assert rows == [rows[0]] + rows[1..];
    }
  }

  lemma {:induction false} CleanRising(rows: seq<ListRow>, now: int)
    requires Rising(rows)
    ensures Rising(CleanRows(rows, now))
    decreases |rows|
  {
    if rows == [] {
    } else {
      var rest := CleanRows(rows[1..], now);
      RisingTail(rows);
      CleanRising(rows[1..], now);
      forall i | 0 <= i < |rest| ensures rows[0].idx < rest[i].idx {
        CleanMember(rows[1..], now, rest[i]);
        var j :| 0 <= j < |rows| - 1 && rows[1..][j] == rest[i];
      }
      if !Expired(rows[0].expires, now) { RisingCons(rows[0], rest); }
    }
  }

  lemma RisingCons(r: ListRow, rest: seq<ListRow>)
    requires r.idx >= 0 && Rising(rest) && forall i :: 0 <= i < |rest| ==> r.idx < rest[i].idx
    ensures Rising([r] + rest)
  {
  }

  /** A smaller cut shows at least as much, and more if a shown row lies between. */
  lemma {:induction false} LowerCut(rows: seq<ListRow>, cut: int, cut': int, later: int)
    requires cut' <= cut
    ensures |Above(rows, cut', later)| >= |Above(rows, cut, later)|
    ensures (exists r :: r in rows && cut' < r.idx <= cut && Shown(r, later)) ==>
      |Above(rows, cut', later)| > |Above(rows, cut, later)|
    decreases |rows|
  {
    if rows == [] {
    } else {
      LowerCut(rows[1..], cut, cut', later);
      assert rows == [rows[0]] + rows[1..];
    }
  }

  lemma {:induction false} NoneShown(rows: seq<ListRow>, cut: int, later: int)
    requires forall r :: r in rows ==> !Shown(r, later)
    ensures Above(rows, cut, later) == []
    decreases |rows|
  {
    if rows == [] {
    } else {
      assert rows[0] in rows && forall r :: r in rows[1..] ==> r in rows;
      NoneShown(rows[1..], cut, later);
    }
  }

  /** The last row has lapsed at the cleanup and an earlier one is still shown when the list is read. */
  ghost predicate HidesLapsedEnd(rows: seq<ListRow>, now: int, later: int) {
    rows != [] && Expired(rows[|rows| - 1].expires, now) && exists r :: r in rows && Shown(r, later)
  }

  /** What `getList` answers after a bounded append. */
  function ListAfterAppend(t: Tables, k: string, v: string, max: nat, ttl: Option<int>, at: int, later: int): seq<string> {
    GetList(Append(t, k, v, max, ttl, at), k, later)
  }

  lemma CleanedRows(t: Tables, k: string, now: int)
    ensures Rows(Cleanup(t, now), k) == CleanRows(Rows(t, k), now)
  {
  }

  /** The answer with and without the cleanup: the same rows, under two cuts. */
  lemma BothAnswers(t: Tables, k: string, now: int, v: string, max: nat, ttl: Option<int>, at: int, later: int)
    requires Rising(Rows(t, k)) && now <= later
    ensures var rows := Rows(t, k); var own := Visible([ListRow(0, v, Deadline(ttl, at))], later);
      ListAfterAppend(t, k, v, max, ttl, at, later) == Above(rows, Cut(NextIdx(rows), max), later) + own
      && ListAfterAppend(Cleanup(t, now), k, v, max, ttl, at, later)
         == Above(rows, Cut(NextIdx(CleanRows(rows, now)), max), later) + own
  {
    var rows := Rows(t, k);
    var next, next' := NextIdx(rows), NextIdx(CleanRows(rows, now));
    CleanedRows(t, k, now);
    CleanRising(rows, now);
    AppendedShows(t, k, v, max, ttl, at, later);
    AppendedShows(Cleanup(t, now), k, v, max, ttl, at, later);
    CleanShowsSame(rows, now, Cut(next', max), later);
    OneShows(next, 0, v, Deadline(ttl, at), later);
    OneShows(next', 0, v, Deadline(ttl, at), later);
  }

  lemma SameAbove(rows: seq<ListRow>, now: int, max: nat, later: int)
    requires now <= later && !HidesLapsedEnd(rows, now, later)
    ensures Above(rows, Cut(NextIdx(CleanRows(rows, now)), max), later) == Above(rows, Cut(NextIdx(rows), max), later)
  {
    if rows != [] && Expired(rows[|rows| - 1].expires, now) {
      NoneShown(rows, Cut(NextIdx(rows), max), later);
      NoneShown(rows, Cut(NextIdx(CleanRows(rows, now)), max), later);
    } else if rows != [] {
      SameLast(rows, now);
    }
  }

  lemma OneShows(i: int, j: int, v: string, until: Option<int>, later: int)
    ensures Visible([ListRow(i, v, until)], later) == Visible([ListRow(j, v, until)], later)
  {
    assert [ListRow(i, v, until)][1..] == [] && [ListRow(j, v, until)][1..] == [];
  }

  lemma {:induction false} SameLast(rows: seq<ListRow>, now: int)
    requires rows != [] && !Expired(rows[|rows| - 1].expires, now)
    ensures CleanRows(rows, now) != [] && NextIdx(CleanRows(rows, now)) == NextIdx(rows)
    decreases |rows|
  {
    if |rows| > 1 {
      var rest := CleanRows(rows[1..], now);
      SameLast(rows[1..], now);
      assert ([rows[0]] + rest)[|rest|] == rest[|rest| - 1];
    } else {
      assert rows[1..] == [];
    }
  }

  lemma OtherAbove(rows: seq<ListRow>, now: int, later: int) returns (max: nat)
    requires Rising(rows) && now <= later && HidesLapsedEnd(rows, now, later)
    ensures |Above(rows, Cut(NextIdx(CleanRows(rows, now)), max), later)| > |Above(rows, Cut(NextIdx(rows), max), later)|
  {
    var r :| r in rows && Shown(r, later);
    IdxBelowNext(rows, r);
    LastLower(rows, now);
    var next, next' := NextIdx(rows), NextIdx(CleanRows(rows, now));
    max := next - r.idx;
    MoreBelow(rows, r, next, next', max, later);
  }

  lemma IdxBelowNext(rows: seq<ListRow>, r: ListRow)
    requires Rising(rows) && r in rows
    ensures 0 <= r.idx < NextIdx(rows)
  {
    var i :| 0 <= i < |rows| && rows[i] == r;
  }

  lemma MoreBelow(rows: seq<ListRow>, r: ListRow, next: int, next': int, max: nat, later: int)
    requires r in rows && Shown(r, later) && 0 <= r.idx < next && 0 <= next' < next && max == next - r.idx
    ensures |Above(rows, Cut(next', max), later)| > |Above(rows, Cut(next, max), later)|
  {
    LowerCut(rows, Cut(next, max), Cut(next', max), later);
  }

  lemma LastLower(rows: seq<ListRow>, now: int)
    requires Rising(rows) && rows != [] && Expired(rows[|rows| - 1].expires, now)
    ensures 0 <= NextIdx(CleanRows(rows, now)) < NextIdx(rows)
  {
    var clean := CleanRows(rows, now);
    if clean != [] {
      var end := clean[|clean| - 1];
      CleanMember(rows, now, end);
      var j :| 0 <= j < |rows| && rows[j] == end;
    }
  }

  /** A cleanup changes what a list shows after an append with some bound exactly when its
      last row has lapsed while an earlier one is still shown. */
  lemma ListSeesCleanupIff(t: Tables, k: string, now: int, v: string, ttl: Option<int>, at: int, later: int)
    requires Rising(Rows(t, k)) && now <= later
    ensures (exists max: nat ::
               ListAfterAppend(Cleanup(t, now), k, v, max, ttl, at, later)
               != ListAfterAppend(t, k, v, max, ttl, at, later))
       <==> HidesLapsedEnd(Rows(t, k), now, later)
  {
    var rows := Rows(t, k);
    if HidesLapsedEnd(rows, now, later) {
      var max := OtherAbove(rows, now, later);
      BothAnswers(t, k, now, v, max, ttl, at, later);
    } else {
      forall max: nat
        ensures ListAfterAppend(Cleanup(t, now), k, v, max, ttl, at, later)
             == ListAfterAppend(t, k, v, max, ttl, at, later)
      {
        BothAnswers(t, k, now, v, max, ttl, at, later);
        SameAbove(rows, now, max, later);
      }
    }
  }

  lemma {:induction false} DropRising(rows: seq<ListRow>, cutoff: int)
    requires Rising(rows)
    ensures Rising(DropUpTo(rows, cutoff))
    decreases |rows|
  {
    if rows == [] {
    } else {
      RisingTail(rows);
      if rows[0].idx <= cutoff {
        DropRising(rows[1..], cutoff);
      } else {
        DropNone(rows, cutoff);
      }
    }
  }

  lemma {:induction false} DropNone(rows: seq<ListRow>, cutoff: int)
    requires Rising(rows) && (rows == [] || rows[0].idx > cutoff)
    ensures DropUpTo(rows, cutoff) == rows
    decreases |rows|
  {
    if rows == [] {
    } else {
      RisingTail(rows);
      DropNone(rows[1..], cutoff);
    }
  }

  lemma AppendRising(rows: seq<ListRow>, v: string, until: Option<int>)
    requires Rising(rows)
    ensures Rising(rows + [ListRow(NextIdx(rows), v, until)])
  {
  }

  lemma AppendKeepsRising(t: Tables, c: Timed, k: string)
    requires Rising(Rows(t, k)) && c.op.OpAppend?
    ensures Rising(Rows(OnTables(t, c).0, k))
  {
    var OpAppend(key, v, max, ttl) := c.op;
    assert OnTables(t, c).0 == Append(t, key, v, max, ttl, c.now);
    if key == k {
      var rows, until := Rows(t, k), Deadline(ttl, c.now);
      AppendRising(rows, v, until);
      DropRising(rows + [ListRow(NextIdx(rows), v, until)], NextIdx(rows) - max);
    }
  }

  lemma CallKeepsRising(t: Tables, c: Timed, k: string)
    requires Rising(Rows(t, k))
    ensures Rising(Rows(OnTables(t, c).0, k))
  {
    var rows := Rows(t, k);
    if c.op.OpGet? || c.op.OpCleanup? {
      CleanedRows(t, k, c.now);
      CleanRising(rows, c.now);
      assert Rows(OnTables(t, c).0, k) == Rows(Cleanup(t, c.now), k);
    } else if c.op.OpAppend? {
      AppendKeepsRising(t, c, k);
    } else if c.op.OpDequeue? && c.op.k == k && rows != [] {
      RisingTail(rows);
    } else {
      assert Rows(OnTables(t, c).0, k) == rows;
    }
  }

  /** Indices rise in every list of every run. */
  lemma {:induction false} RunKeepsRising(t: Tables, cs: seq<Timed>, k: string)
    requires Rising(Rows(t, k))
    ensures Rising(Rows(After(t, cs), k))
    decreases |cs|
  {
    if cs == [] {
    } else {
      CallKeepsRising(t, cs[0], k);
      RunKeepsRising(OnTables(t, cs[0]).0, cs[1..], k);
    }
  }

  /** The condition, after any run from an empty database. */
  lemma RunSeesCleanupIff(cs: seq<Timed>, k: string, now: int, v: string, ttl: Option<int>, at: int, later: int)
    requires now <= later
    ensures var t := After(EMPTY_TABLES, cs);
      (exists max: nat ::
         ListAfterAppend(Cleanup(t, now), k, v, max, ttl, at, later) != ListAfterAppend(t, k, v, max, ttl, at, later))
      <==> HidesLapsedEnd(Rows(t, k), now, later)
  {
    RunKeepsRising(EMPTY_TABLES, cs, k);
    ListSeesCleanupIff(After(EMPTY_TABLES, cs), k, now, v, ttl, at, later);
  }
}
