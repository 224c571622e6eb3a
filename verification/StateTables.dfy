/** The SQLite-backed state adapter (src/state-sqlite.ts): its four tables, its
    statements as functions on them, and the adapter whose methods run them.

    Values are the stored JSON texts. The rows of one list are kept in index
    order, as their primary key keeps them. An operation reads the clock once,
    except `get`, whose cleanup and own check may see two readings. */
module StateTables {
  import opened Options

  datatype KvRow = KvRow(value: string, expires: Option<int>)

  datatype LockRow = LockRow(token: string, expires: int)

  datatype ListRow = ListRow(idx: int, value: string, expires: Option<int>)

  datatype Tables = Tables(
    kv: map<string, KvRow>,
    subs: set<string>,
    locks: map<string, LockRow>,
    lists: map<string, seq<ListRow>>)

  /** `ttl ? now + ttl : null`: an absent or zero lifetime means none. */
  function Deadline(ttl: Option<int>, now: int): Option<int> {
    if ttl.None? || ttl.value == 0 then None else Some(now + ttl.value)
  }

  /** The comparison of the SQL statements: `expires_at IS NOT NULL AND expires_at < now`. */
  predicate Expired(expires: Option<int>, now: int) {
    expires.Some? && expires.value < now
  }

  /** The comparison of the TypeScript code, where a stored 0 counts as absent. */
  predicate ExpiredTruthy(expires: Option<int>, now: int) {
    expires.Some? && expires.value != 0 && expires.value < now
  }

  // ---- Statements ----

  function CleanRows(rows: seq<ListRow>, now: int): seq<ListRow> {
    if rows == [] then []
    else if Expired(rows[0].expires, now) then CleanRows(rows[1..], now)
    else [rows[0]] + CleanRows(rows[1..], now)
  }

  function Cleanup(t: Tables, now: int): Tables {
    Tables(
      map k | k in t.kv && !Expired(t.kv[k].expires, now) :: t.kv[k],
      t.subs,
      map k | k in t.locks && !(t.locks[k].expires < now) :: t.locks[k],
      map k | k in t.lists :: CleanRows(t.lists[k], now))
  }

  function Get(t: Tables, k: string, now: int, later: int): (Tables, Option<string>) {
    var c := Cleanup(t, now);
    if k !in c.kv then (c, None)
    else if ExpiredTruthy(c.kv[k].expires, later) then (c.(kv := c.kv - {k}), None)
    else (c, Some(c.kv[k].value))
  }

  function Set(t: Tables, k: string, v: string, ttl: Option<int>, now: int): Tables {
    t.(kv := t.kv[k := KvRow(v, Deadline(ttl, now))])
  }

  function SetIfNotExists(t: Tables, k: string, v: string, ttl: Option<int>, now: int): (Tables, bool) {
    var kv := if k in t.kv && ExpiredTruthy(t.kv[k].expires, now) then t.kv - {k} else t.kv;
    if k in kv then (t.(kv := kv), false)
    else (t.(kv := kv[k := KvRow(v, Deadline(ttl, now))]), true)
  }

  function Delete(t: Tables, k: string): Tables {
    t.(kv := t.kv - {k})
  }

  function Acquire(t: Tables, k: string, token: string, ttl: int, now: int): (Tables, bool) {
    var locks := if k in t.locks && t.locks[k].expires < now then t.locks - {k} else t.locks;
    if k in locks then (t.(locks := locks), false)
    else (t.(locks := locks[k := LockRow(token, now + ttl)]), true)
  }

  predicate Holds(t: Tables, k: string, token: string) {
    k in t.locks && t.locks[k].token == token
  }

  function Release(t: Tables, k: string, token: string): Tables {
    if Holds(t, k, token) then t.(locks := t.locks - {k}) else t
  }

  function Extend(t: Tables, k: string, token: string, ttl: int, now: int): (Tables, bool) {
    if Holds(t, k, token) then (t.(locks := t.locks[k := LockRow(token, now + ttl)]), true) else (t, false)
  }

  function ForceRelease(t: Tables, k: string): Tables {
    t.(locks := t.locks - {k})
  }

  function Rows(t: Tables, k: string): seq<ListRow> {
    if k in t.lists then t.lists[k] else []
  }

  function NextIdx(rows: seq<ListRow>): int {
    if rows == [] then 0 else rows[|rows| - 1].idx + 1
  }

  /** DELETE ... WHERE idx <= cutoff */
  function DropUpTo(rows: seq<ListRow>, cutoff: int): seq<ListRow> {
    if rows == [] then []
    else if rows[0].idx <= cutoff then DropUpTo(rows[1..], cutoff)
    else [rows[0]] + DropUpTo(rows[1..], cutoff)
  }

  /** A `maxLength` of 0 or undefined bounds nothing. */
  function Append(t: Tables, k: string, v: string, maxLength: int, ttl: Option<int>, now: int): Tables {
    var next := NextIdx(Rows(t, k));
    var rows := Rows(t, k) + [ListRow(next, v, Deadline(ttl, now))];
    var cutoff := next - maxLength;
    t.(lists := t.lists[k := if maxLength != 0 && cutoff >= 0 then DropUpTo(rows, cutoff) else rows])
  }

  function Visible(rows: seq<ListRow>, now: int): seq<string> {
    if rows == [] then []
    else if rows[0].expires.None? || rows[0].expires.value > now then [rows[0].value] + Visible(rows[1..], now)
    else Visible(rows[1..], now)
  }

  function GetList(t: Tables, k: string, now: int): seq<string> {
    Visible(Rows(t, k), now)
  }

  function Dequeue(t: Tables, k: string): (Tables, Option<string>) {
    var rows := Rows(t, k);
    if rows == [] then (t, None) else (t.(lists := t.lists[k := rows[1..]]), Some(rows[0].value))
  }

  function Depth(t: Tables, k: string): nat {
    |Rows(t, k)|
  }

  // ---- What a cleanup and a read remove ----

  /** A cleanup keeps exactly the rows without a deadline before now, and every subscription. */
  lemma CleanupIs(t: Tables, now: int, k: string)
    ensures var c := Cleanup(t, now);
      c.subs == t.subs
      && (k in c.kv <==> k in t.kv && forall until :: t.kv[k].expires == Some(until) ==> until >= now)
      && (k in c.kv ==> c.kv[k] == t.kv[k])
      && (k in c.locks <==> k in t.locks && t.locks[k].expires >= now)
      && (k in c.locks ==> c.locks[k] == t.locks[k])
      && Rows(c, k) == CleanRows(Rows(t, k), now)
  {
    if k in t.kv && t.kv[k].expires.Some? { assert t.kv[k].expires == Some(t.kv[k].expires.value); }
  }

  lemma {:induction false} CleanRowsCat(a: seq<ListRow>, b: seq<ListRow>, now: int)
    ensures CleanRows(a + b, now) == CleanRows(a, now) + CleanRows(b, now)
    decreases |a|
  {
    if a == [] {
      assert a + b == b;
    } else {
      assert (a + b)[0] == a[0] && (a + b)[1..] == a[1..] + b;
      CleanRowsCat(a[1..], b, now);
    }
  }

  lemma CleanOneRow(r: ListRow, now: int)
    ensures CleanRows([r], now) == if r.expires.Some? && r.expires.value < now then [] else [r]
  {
    assert [r][1..] == [];
  }

  /** A read that finds nothing leaves no row behind, and one that finds something no less
      than a cleanup does. */
  lemma GetLeaves(t: Tables, k: string, now: int, later: int)
    ensures var (t', value) := Get(t, k, now, later);
      (value == None ==> t' == Cleanup(t, now).(kv := Cleanup(t, now).kv - {k}))
      && (value.Some? ==> t' == Cleanup(t, now) && k in t'.kv && t'.kv[k].value == value.value)
  {
    if Get(t, k, now, later).1 == None {
      assert k !in Cleanup(t, now).kv ==> Cleanup(t, now).kv - {k} == Cleanup(t, now).kv;
    }
  }

  // ---- Namespaces ----

  /** What an adapter instance puts before every key; an empty name counts as none. */
  function Prefix(namespace: Option<string>): string {
    if namespace.None? || namespace.value == "" then "" else namespace.value + ":"
  }

  function K(namespace: Option<string>, key: string): string {
    Prefix(namespace) + key
  }

  lemma KInjective(namespace: Option<string>, a: string, b: string)
    requires K(namespace, a) == K(namespace, b)
    ensures a == b
  {
    var n := |Prefix(namespace)|;
    assert K(namespace, a)[n..] == a && K(namespace, b)[n..] == b;
  }

  lemma SharedKeyNests(x: Option<string>, a: string, y: Option<string>, b: string)
    requires K(x, a) == K(y, b)
    ensures Prefix(x) <= Prefix(y) || Prefix(y) <= Prefix(x)
  {
    var k, p, q := K(x, a), Prefix(x), Prefix(y);
    assert p == k[..|p|] && q == k[..|q|];
    if |p| <= |q| { assert k[..|p|] == k[..|q|][..|p|]; } else { assert k[..|q|] == k[..|p|][..|q|]; }
  }

  /** Two instances can ever meet in a key exactly when one prefix begins with the other. */
  lemma CollideIff(x: Option<string>, y: Option<string>)
    ensures (exists a, b :: K(x, a) == K(y, b)) <==> Prefix(x) <= Prefix(y) || Prefix(y) <= Prefix(x)
  {
    var p, q := Prefix(x), Prefix(y);
    if p <= q {
      assert K(x, q[|p|..]) == q == K(y, "");
    } else if q <= p {
      assert K(y, p[|q|..]) == p == K(x, "");
    } else {
      forall a, b ensures K(x, a) != K(y, b) {
        if K(x, a) == K(y, b) { SharedKeyNests(x, a, y, b); }
      }
    }
  }

  lemma NestedNames(x: string, y: string)
    requires x != "" && y != "" && ':' !in y && Prefix(Some(x)) <= Prefix(Some(y))
    ensures x == y
  {
    var p, q := Prefix(Some(x)), Prefix(Some(y));
    assert p[|x|] == ':' == q[|x|];
    assert forall i :: 0 <= i < |y| ==> q[i] == y[i] && y[i] in y;
    assert p[..|x|] == x && q[..|y|] == y;
  }

  /** Named instances whose names have no colon never share a key. */
  lemma NamedInstancesDisjoint(x: string, y: string, a: string, b: string)
    requires x != "" && y != "" && x != y && ':' !in x && ':' !in y
    ensures K(Some(x), a) != K(Some(y), b)
  {
    if K(Some(x), a) == K(Some(y), b) {
      SharedKeyNests(Some(x), a, Some(y), b);
      if Prefix(Some(x)) <= Prefix(Some(y)) { NestedNames(x, y); } else { NestedNames(y, x); }
    }
  }

  /** The default instance meets a named one exactly in the keys that begin with its name and a colon. */
  lemma DefaultCollision(x: string, a: string, b: string)
    requires x != ""
    ensures K(None, a) == K(Some(x), b) <==> a == x + ":" + b
    ensures K(None, a) == K(Some(""), a) == a
  {
  }

  // ---- The adapter ----

  class ChatTables {
    var kv: map<string, KvRow>
    var subs: set<string>
    var locks: map<string, LockRow>
    var lists: map<string, seq<ListRow>>

    ghost function Now(): Tables
      reads this
    {
      Tables(kv, subs, locks, lists)
    }
  }

  /** The caller's copy of a lease; `extendLock` keeps its expiry up to date. */
  class Lock {
    const threadId: string
    const token: string
    var expiresAt: int

    constructor (threadId: string, token: string, expiresAt: int)
      ensures this.threadId == threadId && this.token == token && this.expiresAt == expiresAt
    {
      this.threadId, this.token, this.expiresAt := threadId, token, expiresAt;
    }
  }

  class SqliteStateAdapter {
    const namespace: Option<string>
    const db: ChatTables

    constructor (namespace: Option<string>, db: ChatTables)
      ensures this.namespace == namespace && this.db == db
    {
      this.namespace, this.db := namespace, db;
    }

    method CleanupNow(now: int)
      modifies db
      ensures db.Now() == Cleanup(old(db.Now()), now)
    {
      db.kv := map k | k in db.kv && !Expired(db.kv[k].expires, now) :: db.kv[k];
      db.locks := map k | k in db.locks && !(db.locks[k].expires < now) :: db.locks[k];
      db.lists := map k | k in db.lists :: CleanRows(db.lists[k], now);
    }

    method GetValue(key: string, now: int, later: int) returns (value: Option<string>)
      modifies db
      ensures (db.Now(), value) == Get(old(db.Now()), K(namespace, key), now, later)
    {
      CleanupNow(now);
      var k := K(namespace, key);
      if k !in db.kv {
        return None;
      }
      var row := db.kv[k];
      if ExpiredTruthy(row.expires, later) {
        db.kv := db.kv - {k};
        return None;
      }
      value := Some(row.value);
    }

    method SetValue(key: string, value: string, ttl: Option<int>, now: int)
      modifies db
      ensures db.Now() == Set(old(db.Now()), K(namespace, key), value, ttl, now)
    {
      db.kv := db.kv[K(namespace, key) := KvRow(value, Deadline(ttl, now))];
    }

    method SetValueIfNotExists(key: string, value: string, ttl: Option<int>, now: int) returns (inserted: bool)
      modifies db
      ensures (db.Now(), inserted) == SetIfNotExists(old(db.Now()), K(namespace, key), value, ttl, now)
    {
      var k := K(namespace, key);
      if k in db.kv && ExpiredTruthy(db.kv[k].expires, now) {
        db.kv := db.kv - {k};
      }
      inserted := k !in db.kv;
      if inserted {
        db.kv := db.kv[k := KvRow(value, Deadline(ttl, now))];
      }
    }

    method DeleteValue(key: string)
      modifies db
      ensures db.Now() == Delete(old(db.Now()), K(namespace, key))
    {
      db.kv := db.kv - {K(namespace, key)};
    }

    method Subscribe(threadId: string)
      modifies db
      ensures db.Now() == old(db.Now()).(subs := old(db.subs) + {K(namespace, threadId)})
    {
      db.subs := db.subs + {K(namespace, threadId)};
    }

    method Unsubscribe(threadId: string)
      modifies db
      ensures db.Now() == old(db.Now()).(subs := old(db.subs) - {K(namespace, threadId)})
    {
      db.subs := db.subs - {K(namespace, threadId)};
    }

    method IsSubscribed(threadId: string) returns (subscribed: bool)
      ensures subscribed <==> K(namespace, threadId) in db.subs
    {
      subscribed := K(namespace, threadId) in db.subs;
    }

    method AcquireLock(threadId: string, token: string, ttl: int, now: int) returns (lock: Lock?)
      modifies db
      ensures (db.Now(), lock != null) == Acquire(old(db.Now()), K(namespace, threadId), token, ttl, now)
      ensures lock != null ==>
        fresh(lock) && lock.threadId == threadId && lock.token == token && lock.expiresAt == now + ttl
    {
      var k := K(namespace, threadId);
      if k in db.locks && db.locks[k].expires < now {
        db.locks := db.locks - {k};
      }
      if k in db.locks {
        return null;
      }
      db.locks := db.locks[k := LockRow(token, now + ttl)];
      lock := new Lock(threadId, token, now + ttl);
    }

    method ReleaseLock(lock: Lock)
      modifies db
      ensures db.Now() == Release(old(db.Now()), K(namespace, lock.threadId), lock.token)
    {
      var k := K(namespace, lock.threadId);
      if k in db.locks && db.locks[k].token == lock.token {
        db.locks := db.locks - {k};
      }
    }

    /** The caller's copy moves with the row, or not at all. */
    method ExtendLock(lock: Lock, ttl: int, now: int) returns (ok: bool)
      modifies db, lock
      ensures (db.Now(), ok) == Extend(old(db.Now()), K(namespace, lock.threadId), lock.token, ttl, now)
      ensures lock.expiresAt == if ok then now + ttl else old(lock.expiresAt)
    {
      var k := K(namespace, lock.threadId);
      ok := k in db.locks && db.locks[k].token == lock.token;
      if ok {
        db.locks := db.locks[k := LockRow(lock.token, now + ttl)];
        lock.expiresAt := now + ttl;
      }
    }

    method ForceReleaseLock(threadId: string)
      modifies db
      ensures db.Now() == ForceRelease(old(db.Now()), K(namespace, threadId))
    {
      db.locks := db.locks - {K(namespace, threadId)};
    }

    method AppendToList(key: string, value: string, maxLength: int, ttl: Option<int>, now: int)
      modifies db
      ensures db.Now() == Append(old(db.Now()), K(namespace, key), value, maxLength, ttl, now)
    {
      var k := K(namespace, key);
      var rows := if k in db.lists then db.lists[k] else [];
      var next := if rows == [] then 0 else rows[|rows| - 1].idx + 1;
      rows := rows + [ListRow(next, value, Deadline(ttl, now))];
      if maxLength != 0 {
        var cutoff := next - maxLength;
        if cutoff >= 0 {
          rows := DropUpTo(rows, cutoff);
        }
      }
      db.lists := db.lists[k := rows];
    }

    /** Two awaited calls: `meanwhile` is what others do to the tables between the append and the count. */
    method Enqueue(threadId: string, entry: string, maxSize: int, now: int, meanwhile: Tables -> Tables)
      returns (depth: nat)
      modifies db
      ensures db.Now() == meanwhile(Append(old(db.Now()), K(namespace, "queue:" + threadId), entry, maxSize, None, now))
      ensures depth == Depth(db.Now(), K(namespace, "queue:" + threadId))
    {
      AppendToList("queue:" + threadId, entry, maxSize, None, now);
      var others := meanwhile(Tables(db.kv, db.subs, db.locks, db.lists));
      db.kv, db.subs, db.locks, db.lists := others.kv, others.subs, others.locks, others.lists;
      depth := QueueDepth(threadId);
    }

    method DequeueEntry(threadId: string) returns (entry: Option<string>)
      modifies db
      ensures (db.Now(), entry) == Dequeue(old(db.Now()), K(namespace, "queue:" + threadId))
    {
      var k := K(namespace, "queue:" + threadId);
      var rows := if k in db.lists then db.lists[k] else [];
      if rows == [] {
        return None;
      }
      db.lists := db.lists[k := rows[1..]];
      entry := Some(rows[0].value);
    }

    method QueueDepth(threadId: string) returns (depth: nat)
      ensures depth == Depth(db.Now(), K(namespace, "queue:" + threadId))
    {
      var k := K(namespace, "queue:" + threadId);
      depth := if k in db.lists then |db.lists[k]| else 0;
    }
  }
}
