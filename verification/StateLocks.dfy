/** Lock safety of the state adapter (src/state-sqlite.ts) over whole runs: any
    calls by any number of holders, cleanups included, at nondecreasing times. */
module StateLocks {
  import opened StateTables
  import opened StateStore

  // ---- One call ----

  /** A lock is granted exactly when no unexpired row stands, whoever holds it. */
  lemma AcquireExact(t: Tables, k: string, token: string, ms: int, now: int)
    ensures var r := Acquire(t, k, token, ms, now);
      (r.1 <==> !(k in t.locks && t.locks[k].expires >= now))
      && (r.1 ==> r.0 == t.(locks := t.locks[k := LockRow(token, now + ms)]))
      && (!r.1 ==> r.0 == t)
  {
    var r := Acquire(t, k, token, ms, now);
    if r.1 {
      assert (t.locks - {k})[k := LockRow(token, now + ms)] == t.locks[k := LockRow(token, now + ms)];
    }
  }

  /** A stale token can neither release nor extend. */
  lemma StaleTokenInert(t: Tables, k: string, token: string, ms: int, now: int)
    requires !Holds(t, k, token)
    ensures Release(t, k, token) == t && Extend(t, k, token, ms, now) == (t, false)
  {
  }

  // ---- Runs ----

  /** No call of the run grants `k` to anyone. */
  ghost predicate NoGrant(t: Tables, cs: seq<Timed>, k: string)
    decreases |cs|
  {
    cs == []
    || ((cs[0].op.OpAcquire? && cs[0].op.k == k ==> OnTables(t, cs[0]).1 == Flag(false))
        && NoGrant(OnTables(t, cs[0]).0, cs[1..], k))
  }

  /** Every extension of `k` under `token` succeeds. */
  ghost predicate AllExtended(t: Tables, cs: seq<Timed>, k: string, token: string)
    decreases |cs|
  {
    cs == []
    || ((cs[0].op.OpExtend? && cs[0].op.k == k && cs[0].op.token == token ==> OnTables(t, cs[0]).1 == Flag(true))
        && AllExtended(OnTables(t, cs[0]).0, cs[1..], k, token))
  }

  predicate Gives(op: Op, k: string, token: string) {
    op == OpRelease(k, token) || op == OpForce(k)
  }

  /** Until when the lease runs after `c`. */
  function LeaseAfter(c: Timed, k: string, token: string, until: int): int {
    if c.op.OpExtend? && c.op.k == k && c.op.token == token then c.now + c.op.ms else until
  }

  /** Every call comes before the lease of `token` lapses, and none gives it up. */
  predicate WithinLease(cs: seq<Timed>, k: string, token: string, until: int)
    decreases |cs|
  {
    cs == []
    || (cs[0].now <= until && !Gives(cs[0].op, k, token)
        && WithinLease(cs[1..], k, token, LeaseAfter(cs[0], k, token, until)))
  }

  lemma CallWithinLease(t: Tables, c: Timed, k: string, token: string, until: int)
    requires k in t.locks && t.locks[k] == LockRow(token, until) && c.now <= until && !Gives(c.op, k, token)
    ensures var t' := OnTables(t, c).0;
      k in t'.locks && t'.locks[k] == LockRow(token, LeaseAfter(c, k, token, until))
    ensures c.op.OpAcquire? && c.op.k == k ==> OnTables(t, c).1 == Flag(false)
    ensures c.op.OpExtend? && c.op.k == k && c.op.token == token ==> OnTables(t, c).1 == Flag(true)
  {
  }

  /** Mutual exclusion: while a lease runs nobody else is granted the lock, its
      holder can always extend it, and it is still there at the end. */
  lemma {:induction false} LeaseExcludes(t: Tables, cs: seq<Timed>, k: string, token: string, until: int)
    requires k in t.locks && t.locks[k] == LockRow(token, until)
    requires WithinLease(cs, k, token, until)
    ensures NoGrant(t, cs, k) && AllExtended(t, cs, k, token) && Holds(After(t, cs), k, token)
    decreases |cs|
  {
    if cs == [] {
    } else {
      CallWithinLease(t, cs[0], k, token, until);
      LeaseExcludes(OnTables(t, cs[0]).0, cs[1..], k, token, LeaseAfter(cs[0], k, token, until));
    }
  }

  /** Tokens are random and never drawn twice. */
  predicate NotDrawn(cs: seq<Timed>, token: string) {
    forall i :: 0 <= i < |cs| && cs[i].op.OpAcquire? ==> cs[i].op.token != token
  }

  lemma CallKeepsLost(t: Tables, c: Timed, k: string, token: string)
    requires !Holds(t, k, token) && (c.op.OpAcquire? ==> c.op.token != token)
    ensures !Holds(OnTables(t, c).0, k, token)
  {
  }

  lemma {:induction false} LostForGood(t: Tables, cs: seq<Timed>, k: string, token: string)
    requires !Holds(t, k, token) && NotDrawn(cs, token)
    ensures !Holds(After(t, cs), k, token)
    decreases |cs|
  {
    if cs == [] {
    } else {
      CallKeepsLost(t, cs[0], k, token);
      assert forall i :: 0 <= i < |cs| - 1 ==> cs[1..][i] == cs[i + 1];
      LostForGood(OnTables(t, cs[0]).0, cs[1..], k, token);
    }
  }

  /** The run without what a token tries on a lock: its releases and its extensions. */
  function WithoutToken(cs: seq<Timed>, k: string, token: string): seq<Timed>
    decreases |cs|
  {
    if cs == [] then []
    else if (cs[0].op.OpRelease? || cs[0].op.OpExtend?) && cs[0].op.k == k && cs[0].op.token == token
    then WithoutToken(cs[1..], k, token)
    else [cs[0]] + WithoutToken(cs[1..], k, token)
  }

  /** Over any run, whatever a stale token still tries leaves no trace. */
  lemma {:induction false} StaleCallsLeaveNoTrace(t: Tables, cs: seq<Timed>, k: string, token: string)
    requires !Holds(t, k, token) && NotDrawn(cs, token)
    ensures After(t, cs) == After(t, WithoutToken(cs, k, token))
    decreases |cs|
  {
    if cs == [] {
    } else {
      var c, rest := cs[0], cs[1..];
      CallKeepsLost(t, c, k, token);
      assert forall i :: 0 <= i < |rest| ==> rest[i] == cs[i + 1];
      StaleCallsLeaveNoTrace(OnTables(t, c).0, rest, k, token);
      if (c.op.OpRelease? || c.op.OpExtend?) && c.op.k == k && c.op.token == token {
        StaleTokenInert(t, k, token, if c.op.OpExtend? then c.op.ms else 0, c.now);
      } else {
        assert ([c] + WithoutToken(rest, k, token))[1..] == WithoutToken(rest, k, token);
      }
    }
  }

  lemma GrantReplaces(t: Tables, c: Timed, k: string, token: string)
    requires c.op.OpAcquire? && c.op.k == k && c.op.token != token && OnTables(t, c).1 == Flag(true)
    ensures !Holds(OnTables(t, c).0, k, token)
  {
  }

  lemma {:induction false} HeldSoNoGrant(t: Tables, cs: seq<Timed>, k: string, token: string)
    requires NotDrawn(cs, token) && Holds(After(t, cs), k, token)
    ensures NoGrant(t, cs, k)
    decreases |cs|
  {
    if cs == [] {
    } else {
      var c, t' := cs[0], OnTables(t, cs[0]).0;
      assert forall i :: 0 <= i < |cs| - 1 ==> cs[1..][i] == cs[i + 1];
      if !Holds(t', k, token) { LostForGood(t', cs[1..], k, token); }
      if c.op.OpAcquire? && c.op.k == k && OnTables(t, c).1 == Flag(true) { GrantReplaces(t, c, k, token); }
      HeldSoNoGrant(t', cs[1..], k, token);
    }
  }

  /** After a grant and any calls since, a successful extension proves that
      nobody has been granted the lock in between - even past its expiry. */
  lemma ExtendProvesHeld(t: Tables, k: string, token: string, ms: int, now: int, cs: seq<Timed>, ms': int, now': int)
    requires Acquire(t, k, token, ms, now).1 && NotDrawn(cs, token)
    requires Extend(After(Acquire(t, k, token, ms, now).0, cs), k, token, ms', now').1
    ensures NoGrant(Acquire(t, k, token, ms, now).0, cs, k)
  {
    HeldSoNoGrant(Acquire(t, k, token, ms, now).0, cs, k, token);
  }
}
