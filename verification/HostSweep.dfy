/** The periodic sweep of one session (src/host-sweep.ts, src/db/session-db.ts,
    src/modules/fallback/sweep.ts): stuck detection, retry with backoff, the
    response guarantee and the order of a tick. Times are in milliseconds. */
module HostSweep {
  import opened Options
  import opened Arithmetic
  import Runner = ContainerRunner

  type Id = string

  const ABSOLUTE_CEILING_MS: int := 30 * 60 * 1000
  const CLAIM_STUCK_MS: int := 60 * 1000
  const MAX_TRIES: nat := 5
  const BACKOFF_BASE_MS: nat := 5000

  /** A timestamp column after `parseSqliteUtc`. */
  datatype Stamp = Unparseable | At(ms: int)

  datatype AckStatus = Processing | AckCompleted | AckFailed | ScriptError

  /** A row of `processing_ack`; a claim is a row still processing. */
  datatype Ack = Ack(id: Id, status: AckStatus, changed: Stamp)

  function Claims(acks: seq<Ack>): (r: seq<Ack>)
    ensures forall a :: a in r <==> a in acks && a.status == Processing
  {
    if acks == [] then []
    else (if acks[0].status == Processing then [acks[0]] else []) + Claims(acks[1..])
  }

  // ---- Stuck detection ----

  datatype Tool = Tool(name: string, declaredTimeout: Option<int>)

  datatype Decision =
    | Healthy
    | KillCeiling(heartbeatAge: int, ceiling: int)
    | KillClaim(id: Id, claimAge: int, tolerance: int)

  function BashTimeout(tool: Option<Tool>): Option<int> {
    if tool.None? || tool.value.name != "Bash" then None else tool.value.declaredTimeout
  }

  function Declared(tool: Option<Tool>): int {
    if BashTimeout(tool).Some? then BashTimeout(tool).value else 0
  }

  /** `heartbeat` is 0 when the file is absent. */
  predicate OverCeiling(now: int, heartbeat: int, tool: Option<Tool>) {
    heartbeat != 0 && now - heartbeat > Max(ABSOLUTE_CEILING_MS, Declared(tool))
  }

  predicate Stuck(now: int, heartbeat: int, tool: Option<Tool>, claim: Ack) {
    claim.changed.At?
    && now - claim.changed.ms > Max(CLAIM_STUCK_MS, Declared(tool))
    && heartbeat <= claim.changed.ms
  }

  predicate FirstStuck(now: int, heartbeat: int, tool: Option<Tool>, claims: seq<Ack>, i: nat) {
    i < |claims| && Stuck(now, heartbeat, tool, claims[i])
    && forall j :: 0 <= j < i ==> !Stuck(now, heartbeat, tool, claims[j])
  }

  lemma FirstStuckOnce(now: int, heartbeat: int, tool: Option<Tool>, claims: seq<Ack>, i: nat, j: nat)
    requires FirstStuck(now, heartbeat, tool, claims, i) && FirstStuck(now, heartbeat, tool, claims, j)
    ensures i == j
  {
  }

  method DecideStuckAction(now: int, heartbeat: int, tool: Option<Tool>, claims: seq<Ack>) returns (d: Decision)
    ensures d.KillCeiling? <==> OverCeiling(now, heartbeat, tool)
    ensures d.KillCeiling? ==>
      d.heartbeatAge == now - heartbeat > d.ceiling == Max(ABSOLUTE_CEILING_MS, Declared(tool))
    ensures d.KillClaim? ==> exists i :: 0 <= i < |claims| && FirstStuck(now, heartbeat, tool, claims, i)
                               && d.id == claims[i].id && d.claimAge == now - claims[i].changed.ms > d.tolerance
    ensures d.KillClaim? ==> d.tolerance == Max(CLAIM_STUCK_MS, Declared(tool))
    ensures d.Healthy? <==> !Kills(now, heartbeat, tool, claims)
  {
    var declared := BashTimeout(tool);
    var extra := if declared.Some? then declared.value else 0;
    if heartbeat != 0 {
      var age, ceiling := now - heartbeat, Max(ABSOLUTE_CEILING_MS, extra);
      if age > ceiling {
        return KillCeiling(age, ceiling);
      }
    }
    var tolerance := Max(CLAIM_STUCK_MS, extra);
    for i := 0 to |claims|
      invariant forall j :: 0 <= j < i ==> !Stuck(now, heartbeat, tool, claims[j])
    {
      if claims[i].changed.At? {
        var claimedAt := claims[i].changed.ms;
        if now - claimedAt > tolerance && heartbeat <= claimedAt {
          assert FirstStuck(now, heartbeat, tool, claims, i);
          return KillClaim(claims[i].id, now - claimedAt, tolerance);
        }
      }
    }
    d := Healthy;
  }

  ghost predicate Kills(now: int, heartbeat: int, tool: Option<Tool>, claims: seq<Ack>) {
    OverCeiling(now, heartbeat, tool) || exists i :: 0 <= i < |claims| && Stuck(now, heartbeat, tool, claims[i])
  }

  /** The ceiling in plain numbers: a heartbeat older than half an hour, and than the
      timeout that a running Bash command declared. */
  lemma CeilingIs(now: int, heartbeat: int, tool: Option<Tool>)
    ensures OverCeiling(now, heartbeat, tool)
       <==> heartbeat != 0 && now - heartbeat > 1_800_000
            && forall ms :: tool == Some(Tool("Bash", Some(ms))) ==> now - heartbeat > ms
  {
    if tool.Some? && tool.value.name == "Bash" && tool.value.declaredTimeout.Some? {
      assert tool == Some(Tool("Bash", Some(tool.value.declaredTimeout.value)));
    }
  }

  /** A stuck claim in plain numbers: older than a minute and than that timeout, and no
      sign of life since. */
  lemma StuckClaimIs(now: int, heartbeat: int, tool: Option<Tool>, claim: Ack)
    ensures Stuck(now, heartbeat, tool, claim)
       <==> exists at :: claim.changed == At(at) && heartbeat <= at && now - at > 60_000
                         && forall ms :: tool == Some(Tool("Bash", Some(ms))) ==> now - at > ms
  {
    if tool.Some? && tool.value.name == "Bash" && tool.value.declaredTimeout.Some? {
      assert tool == Some(Tool("Bash", Some(tool.value.declaredTimeout.value)));
    }
  }

  /** A kill stays a kill as time passes, a longer declared timeout never causes
      one, and neither does a newer heartbeat once there is one. */
  lemma KillsMonotone(now: int, now': int, heartbeat: int, heartbeat': int, tool: Option<Tool>, tool': Option<Tool>,
                      claims: seq<Ack>)
    requires now <= now' && Declared(tool) >= Declared(tool')
    requires heartbeat == heartbeat' || 0 < heartbeat' <= heartbeat
    requires Kills(now, heartbeat, tool, claims)
    ensures Kills(now', heartbeat', tool', claims)
  {
    if !OverCeiling(now, heartbeat, tool) {
      var i :| 0 <= i < |claims| && Stuck(now, heartbeat, tool, claims[i]);
      assert Stuck(now', heartbeat', tool', claims[i]);
    }
  }

  /** The absent heartbeat is the exception: the first, already old, touch can kill. */
  lemma FirstOldHeartbeatCanKill(now: int, heartbeat: int)
    ensures !Kills(now, 0, None, [])
    ensures heartbeat > 0 && now > heartbeat + ABSOLUTE_CEILING_MS ==> Kills(now, heartbeat, None, [])
  {
  }

  // ---- Retry with backoff ----

  datatype Status = Pending | Paused | Working | Completed | Failed | Cancelled

  /** No writer ever takes a row out of these. */
  predicate Closed(status: Status) {
    status in {Completed, Failed, Cancelled}
  }

  /** `stamp` is when the message was written. */
  datatype Row = Row(status: Status, tries: nat, processAfter: Option<Stamp>, trigger: bool, stamp: Stamp)

  type Rows = map<Id, Row>

  function Pow2(n: nat): nat {
    if n == 0 then 1 else 2 * Pow2(n - 1)
  }

  /** The delay after the try numbered `tries`, in whole seconds. */
  function BackoffSec(tries: nat): nat {
    BACKOFF_BASE_MS * Pow2(tries) / 1000
  }

  lemma BackoffExact(tries: nat)
    ensures BackoffSec(tries) == 5 * Pow2(tries)
  {
  }

  /** What a reset did to one message; the code only logs it. `at` is when the
      row was written, `asOf` the time the sweep decided by. */
  datatype Act =
    | Retried(id: Id, at: int, delaySec: nat)
    | GaveUp(id: Id, asOf: int)

  predicate Deferred(row: Row, now: int) {
    row.processAfter.Some? && row.processAfter.value.At? && row.processAfter.value.ms > now
  }

  predicate Retryable(rows: Rows, id: Id, now: int) {
    id in rows && rows[id].status == Pending && !Deferred(rows[id], now)
  }

  function ResetOne(rows: Rows, id: Id, now: int, wrote: int): (Rows, seq<Act>) {
    if !Retryable(rows, id, now) then (rows, [])
    else
      var row := rows[id];
      if row.tries >= MAX_TRIES then (rows[id := row.(status := Failed)], [GaveUp(id, now)])
      else
        (rows[id := row.(tries := row.tries + 1,
                         processAfter := Some(At(wrote + 1000 * BackoffSec(row.tries))))],
         [Retried(id, wrote, BackoffSec(row.tries))])
  }

  /** The first `n` claims; `lag(i)` is how long after `now` the i-th row is written. */
  function ResetFirst(rows: Rows, claims: seq<Ack>, now: int, lag: nat -> nat, n: nat): (Rows, seq<Act>)
    requires n <= |claims|
  {
    if n == 0 then (rows, [])
    else
      var before := ResetFirst(rows, claims, now, lag, n - 1);
      var step := ResetOne(before.0, claims[n - 1].id, now, now + lag(n - 1));
      (step.0, before.1 + step.1)
  }

  datatype Sweep = Sweep(rows: Rows, acks: seq<Ack>, acts: seq<Act>)

  function DropClaims(acks: seq<Ack>): (r: seq<Ack>)
    ensures forall a :: a in r <==> a in acks && a.status != Processing
  {
    if acks == [] then []
    else (if acks[0].status == Processing then [] else [acks[0]]) + DropClaims(acks[1..])
  }

  /** `writable`: the outbound database could be opened for writing. */
  function Reset(s: Sweep, now: int, lag: nat -> nat, writable: bool): Sweep {
    var claims := Claims(s.acks);
    var r := ResetFirst(s.rows, claims, now, lag, |claims|);
    Sweep(r.0, if writable then DropClaims(s.acks) else s.acks, s.acts + r.1)
  }

  function SyncOne(rows: Rows, ack: Ack): Rows {
    if ack.status == Processing || ack.id !in rows || rows[ack.id].status in {Completed, Failed} then rows
    else rows[ack.id := rows[ack.id].(status := if ack.status == ScriptError then Failed else Completed)]
  }

  function SyncFirst(rows: Rows, acks: seq<Ack>, n: nat): Rows
    requires n <= |acks|
  {
    if n == 0 then rows else SyncOne(SyncFirst(rows, acks, n - 1), acks[n - 1])
  }

  class SessionSweep {
    var rows: Rows
    var acks: seq<Ack>
    ghost var acts: seq<Act>

    ghost function Now(): Sweep
      reads this
    {
      Sweep(rows, acks, acts)
    }

    method ResetStuckProcessingRows(now: int, lag: nat -> nat, writable: bool)
      modifies this
      ensures Now() == Reset(old(Now()), now, lag, writable)
    {
      var claims := Claims(acks);
      ghost var done: seq<Act> := [];
      for i := 0 to |claims|
        invariant unchanged(`acks) && unchanged(`acts)
        invariant (rows, done) == ResetFirst(old(rows), claims, now, lag, i)
      {
        var id := claims[i].id;
        done := done + ResetOne(rows, id, now, now + lag(i)).1;
        if Retryable(rows, id, now) {
          var row := rows[id];
          if row.tries >= MAX_TRIES {
            rows := rows[id := row.(status := Failed)];
          } else {
            var processAfter := now + lag(i) + 1000 * BackoffSec(row.tries);
            rows := rows[id := row.(tries := row.tries + 1, processAfter := Some(At(processAfter)))];
          }
        }
      }
      acts := acts + done;
      if writable {
        acks := DropClaims(acks);
      }
    }

    /** The steps of `sweepSession` up to the recurrence hook, with what others do at each await. */
    method SweepSession(o: Outside) returns (trace: seq<TickAct>)
      modifies this
      ensures (Now(), trace) == Tick(old(Now()), o)
    {
      if o.outDb {
        SyncProcessingAcks();
      }
      var justWoke := WorkDue(rows, o.now) && !o.running;
      trace := [];
      if justWoke {
        trace := [Woke];
        Meanwhile(o.duringWake);
      }
      var alive := if justWoke then o.wokeUp else o.running;
      Meanwhile(o.beforeHook);
      assert Now() == AtHook(old(Now()), o);
      var killed := SweepFallbackSession(o);
      Meanwhile(o.afterHook);
      if killed {
        trace := trace + [HookKill];
      }
      assert Now() == Hooked(old(Now()), o) && trace == Early(old(Now()), o);
      var late: seq<TickAct> := [];
      if alive && o.outDb && !justWoke {
        var decision := DecideStuckAction(o.slaNow, o.heartbeat, o.tool, Claims(acks));
        if decision != Healthy {
          late := [SlaKill, CleanedUp];
          ResetStuckProcessingRows(o.resetNow, o.lag, o.writable);
        }
      }
      if !alive && o.outDb {
        late := [CleanedUp];
        ResetStuckProcessingRows(o.resetNow, o.lag, o.writable);
      }
      assert late == Late(old(Now()), o);
      trace := trace + late;
    }

    /** The response guarantee: fail or hand over the overdue messages and kill the container. */
    method SweepFallbackSession(o: Outside) returns (killed: bool)
      modifies this`rows, this`acks
      ensures Now() == AfterHook(old(Now()), o)
      ensures killed <==> HookKills(old(Now()), o)
    {
      var breached := Breached(rows, o);
      ghost var first := Now();
      if breached == {} || o.fallback in {Unreadable, NoSession} {
        Meanwhile(o.inHook);
        killed := false;
      } else if o.fallback == Active {
        OneOther(first, Settled(breached, Failed));
        Do(Settled(breached, Failed));
        Meanwhile(o.inHook);
        killed := true;
      } else if o.fallback == NoBackup {
        Meanwhile(o.inHook);
        OneOther(InHook(first, o), Settled(breached, Failed));
        Do(Settled(breached, Failed));
        killed := true;
      } else {
        OneOther(first, Reopened(breached));
        Do(Reopened(breached));
        Meanwhile(o.inHook);
        killed := o.switchId !in rows;
        OneOther(InHook(first, o), Inserted(o.switchId, SwitchRow(o)));
        Do(Inserted(o.switchId, SwitchRow(o)));
      }
    }

    method Do(e: Other)
      modifies this`rows, this`acks
      ensures Now() == After(old(Now()), e)
    {
      match e
      case AcksWritten(written) => acks := written;
      case Inserted(id, row) =>
        if id !in rows {
          rows := rows[id := row.(tries := 0)];
        }
      case Moved(ids, status) =>
        if !Closed(status) {
          rows := map id | id in rows ::
            if id in ids && !Closed(rows[id].status) then rows[id].(status := status) else rows[id];
        }
      case Reopened(ids) =>
        rows := map id | id in rows ::
          if id in ids && rows[id].status == Working then rows[id].(status := Pending) else rows[id];
      case Settled(ids, status) =>
        if Closed(status) {
          rows := map id | id in rows :: if id in ids then rows[id].(status := status) else rows[id];
        }
      case ProcessAfterSet(ids, at) =>
        rows := map id | id in rows ::
          if id in ids && !Closed(rows[id].status) then rows[id].(processAfter := at) else rows[id];
      case Deleted(ids) => rows := rows - ids;
    }

    method Meanwhile(es: seq<Other>)
      modifies this`rows, this`acks
      ensures Now() == Others(old(Now()), es)
    {
      for i := 0 to |es|
        invariant unchanged(`acts)
        invariant Others(Now(), es[i..]) == Others(old(Now()), es)
      {
        assert es[i..][0] == es[i] && es[i..][1..] == es[i + 1..];
        Do(es[i]);
      }
    }

    method SyncProcessingAcks()
      modifies this`rows
      ensures rows == SyncFirst(old(rows), acks, |acks|)
    {
      for i := 0 to |acks|
        invariant rows == SyncFirst(old(rows), acks, i)
      {
        var Ack(id, status, _) := acks[i];
        if status != Processing && id in rows && rows[id].status !in {Completed, Failed} {
          rows := rows[id := rows[id].(status := if status == ScriptError then Failed else Completed)];
        }
      }
    }
  }

  // ---- What others do between two stretches of a tick ----

  /** The container owns `processing_ack`; the host's other writers insert rows,
      move them among the open statuses, settle them from any status, reschedule
      open ones and delete them. */
  datatype Other =
    | AcksWritten(acks: seq<Ack>)
    | Inserted(id: Id, row: Row)
    | Moved(ids: set<Id>, status: Status)
    | Reopened(ids: set<Id>)
    | Settled(ids: set<Id>, status: Status)
    | ProcessAfterSet(ids: set<Id>, at: Option<Stamp>)
    | Deleted(ids: set<Id>)

  /** An inserted row starts without tries; an id that is still there is refused. */
  function After(s: Sweep, e: Other): Sweep {
    match e
    case AcksWritten(acks) => s.(acks := acks)
    case Inserted(id, row) => if id in s.rows then s else s.(rows := s.rows[id := row.(tries := 0)])
    case Moved(ids, status) =>
      if Closed(status) then s
      else
        s.(rows := map id | id in s.rows ::
             if id in ids && !Closed(s.rows[id].status) then s.rows[id].(status := status) else s.rows[id])
    case Reopened(ids) =>
      s.(rows := map id | id in s.rows ::
           if id in ids && s.rows[id].status == Working then s.rows[id].(status := Pending) else s.rows[id])
    case Settled(ids, status) =>
      if !Closed(status) then s
      else s.(rows := map id | id in s.rows :: if id in ids then s.rows[id].(status := status) else s.rows[id])
    case ProcessAfterSet(ids, at) =>
      s.(rows := map id | id in s.rows ::
           if id in ids && !Closed(s.rows[id].status) then s.rows[id].(processAfter := at) else s.rows[id])
    case Deleted(ids) => s.(rows := s.rows - ids)
  }

  function Others(s: Sweep, es: seq<Other>): Sweep
    decreases |es|
  {
    if es == [] then s else Others(After(s, es[0]), es[1..])
  }

  // ---- The response guarantee ----

  const RESPONSE_GUARANTEE_MS: int := 10 * 60_000

  /** The install's fallback state as the hook finds it: unreadable, on the backup
      already, or on the native provider with no backup configured, with one, or
      with the session's own row gone. */
  datatype Fallback = Unreadable | Active | NoBackup | Backup | NoSession

  function Guarantee(o: Outside): int {
    Max(RESPONSE_GUARANTEE_MS, (if o.outDb then Declared(o.hookTool) else 0) + 60_000)
  }

  /** Its age alone counts: neither a deferral nor a schedule excuses a message. */
  predicate Overdue(row: Row, o: Outside) {
    row.trigger && row.status in {Pending, Working} && row.stamp.At? && o.hookNow - row.stamp.ms > Guarantee(o)
  }

  function Breached(rows: Rows, o: Outside): set<Id> {
    set id | id in rows && Overdue(rows[id], o)
  }

  /** The message that tells the backup provider what happened. */
  function SwitchRow(o: Outside): Row {
    Row(Pending, 0, None, true, At(o.switchAt))
  }

  /** Up to the hook's own await, and after it. */
  function HookFirst(rows: Rows, o: Outside): seq<Other> {
    if Breached(rows, o) == {} then []
    else
      match o.fallback
      case Active => [Settled(Breached(rows, o), Failed)]
      case Backup => [Reopened(Breached(rows, o))]
      case _ => []
  }

  function HookSecond(rows: Rows, o: Outside): seq<Other> {
    if Breached(rows, o) == {} then []
    else
      match o.fallback
      case NoBackup => [Settled(Breached(rows, o), Failed)]
      case Backup => [Inserted(o.switchId, SwitchRow(o))]
      case _ => []
  }

  function InHook(s: Sweep, o: Outside): Sweep {
    Others(Others(s, HookFirst(s.rows, o)), o.inHook)
  }

  function AfterHook(s: Sweep, o: Outside): Sweep {
    Others(InHook(s, o), HookSecond(s.rows, o))
  }

  /** Does the hook call `killContainer`? A switch message that is refused throws before the kill. */
  predicate HookKills(s: Sweep, o: Outside) {
    Breached(s.rows, o) != {}
    && (o.fallback in {Active, NoBackup} || (o.fallback == Backup && o.switchId !in InHook(s, o).rows))
  }

  // ---- One tick ----

  /** What a tick finds outside the two tables, in the order it looks: the clock,
      whether the container runs, what others do during the awaited wake and
      whether the container runs after it, the same around the fallback hook, and
      what the limits and the cleanup find. */
  datatype Outside = Outside(
    outDb: bool, now: int, running: bool, duringWake: seq<Other>, wokeUp: bool,
    beforeHook: seq<Other>, hookNow: int, hookTool: Option<Tool>, fallback: Fallback, inHook: seq<Other>,
    switchId: Id, switchAt: int, afterHook: seq<Other>,
    slaNow: int, heartbeat: int, tool: Option<Tool>, resetNow: int, lag: nat -> nat, writable: bool)

  /** The calls of `wakeContainer`, of `killContainer` by the hook and by the limits, and of the cleanup. */
  datatype TickAct = Woke | HookKill | SlaKill | CleanedUp

  predicate DueRow(row: Row, now: int) {
    row.status == Pending && row.trigger
    && (row.processAfter.None? || (row.processAfter.value.At? && row.processAfter.value.ms / 1000 <= now / 1000))
  }

  predicate WorkDue(rows: Rows, now: int) {
    exists id | id in rows :: DueRow(rows[id], now)
  }

  function Synced(s: Sweep, o: Outside): Sweep {
    if o.outDb then s.(rows := SyncFirst(s.rows, s.acks, |s.acks|)) else s
  }

  predicate Wakes(s: Sweep, o: Outside) {
    WorkDue(Synced(s, o).rows, o.now) && !o.running
  }

  /** Decided before the hook runs, and not looked up again. */
  predicate Alive(s: Sweep, o: Outside) {
    if Wakes(s, o) then o.wokeUp else o.running
  }

  function AtHook(s: Sweep, o: Outside): Sweep {
    Others(if Wakes(s, o) then Others(Synced(s, o), o.duringWake) else Synced(s, o), o.beforeHook)
  }

  function Hooked(s: Sweep, o: Outside): Sweep {
    Others(AfterHook(AtHook(s, o), o), o.afterHook)
  }

  ghost predicate OverLimit(s: Sweep, o: Outside) {
    Kills(o.slaNow, o.heartbeat, o.tool, Claims(Hooked(s, o).acks))
  }

  /** Sync, wake, fallback hook, then either enforce the limits of a container that
      was alive before the hook or clean up after a dead one. */
  ghost function Tick(s: Sweep, o: Outside): (Sweep, seq<TickAct>) {
    var late := Late(s, o);
    (if late == [] then Hooked(s, o) else Reset(Hooked(s, o), o.resetNow, o.lag, o.writable), Early(s, o) + late)
  }

  function Early(s: Sweep, o: Outside): seq<TickAct> {
    (if Wakes(s, o) then [Woke] else []) + (if HookKills(AtHook(s, o), o) then [HookKill] else [])
  }

  ghost function Late(s: Sweep, o: Outside): seq<TickAct> {
    if o.outDb && !Alive(s, o) then [CleanedUp]
    else if o.outDb && !Wakes(s, o) && OverLimit(s, o) then [SlaKill, CleanedUp]
    else []
  }

  // ---- One reset ----

  /** What one reset does to a row whose first claim it writes at `wrote`, if it has one:
      the sixth time the message fails, before that it is put off by 5 * 2^tries seconds. */
  ghost predicate RowAfter(row: Row, row': Row, wrote: Option<int>, now: int) {
    if wrote == None || row.status != Pending || Deferred(row, now) then row' == row
    else if row.tries >= 5 then row' == row.(status := Failed)
    else row' == row.(tries := row.tries + 1, processAfter := Some(At(wrote.value + 5000 * Pow2(row.tries))))
  }

  /** When the first of the first `n` claims of `id` is written. */
  ghost function FirstWrite(claims: seq<Ack>, now: int, lag: nat -> nat, n: nat, id: Id): (at: Option<int>)
    requires n <= |claims|
    ensures at.Some? <==> exists i :: 0 <= i < n && claims[i].id == id
    ensures at.Some? ==> exists i: nat :: i < n && claims[i].id == id && at.value == now + lag(i)
  {
    if n == 0 then None
    else
      var earlier := FirstWrite(claims, now, lag, n - 1, id);
      if earlier == None && claims[n - 1].id == id then Some(now + lag(n - 1)) else earlier
  }

  lemma Pow2Positive(n: nat)
    ensures Pow2(n) >= 1
  {
  }

  lemma ResetOneRow(rows: Rows, target: Id, now: int, wrote: int, id: Id)
    requires id in rows && now <= wrote
    ensures var rows' := ResetOne(rows, target, now, wrote).0;
      rows'.Keys == rows.Keys && RowAfter(rows[id], rows'[id], if target == id then Some(wrote) else None, now)
  {
    if id == target { BackoffExact(rows[id].tries); }
  }

  /** What one claim moved, the next claim for it leaves alone. */
  lemma RowAfterTwice(row: Row, mid: Row, row': Row, before: Option<int>, again: Option<int>, now: int)
    requires RowAfter(row, mid, before, now) && RowAfter(mid, row', again, now)
    requires before.Some? ==> before.value >= now
    ensures RowAfter(row, row', if before.Some? then before else again, now)
  {
    Pow2Positive(row.tries);
  }

  lemma ResetStep(row: Row, mid: Rows, before: Option<int>, target: Id, now: int, wrote: int, id: Id)
    requires id in mid && RowAfter(row, mid[id], before, now) && now <= wrote
    requires before.Some? ==> now <= before.value
    ensures var rows' := ResetOne(mid, target, now, wrote).0;
      rows'.Keys == mid.Keys
      && RowAfter(row, rows'[id], if before == None && target == id then Some(wrote) else before, now)
  {
    ResetOneRow(mid, target, now, wrote, id);
    var rows' := ResetOne(mid, target, now, wrote).0;
    RowAfterTwice(row, mid[id], rows'[id], before, if target == id then Some(wrote) else None, now);
  }

  lemma {:induction false} ResetFirstRow(rows: Rows, claims: seq<Ack>, now: int, lag: nat -> nat, n: nat, id: Id)
    requires n <= |claims| && id in rows
    ensures var rows' := ResetFirst(rows, claims, now, lag, n).0;
      rows'.Keys == rows.Keys && RowAfter(rows[id], rows'[id], FirstWrite(claims, now, lag, n, id), now)
    decreases n
  {
    if n == 0 {
    } else {
      ResetFirstRow(rows, claims, now, lag, n - 1, id);
      var mid, before := ResetFirst(rows, claims, now, lag, n - 1).0, FirstWrite(claims, now, lag, n - 1, id);
      ResetStep(rows[id], mid, before, claims[n - 1].id, now, now + lag(n - 1), id);
    }
  }

  /** A reset moves every claimed, due, pending message by exactly one step - even if its
      claim is listed twice - touches no other, and drops the claims if it can write. */
  lemma ResetMovesOnce(s: Sweep, now: int, lag: nat -> nat, writable: bool, id: Id)
    requires id in s.rows
    ensures var s' := Reset(s, now, lag, writable); var claims := Claims(s.acks);
      s'.rows.Keys == s.rows.Keys
      && RowAfter(s.rows[id], s'.rows[id], FirstWrite(claims, now, lag, |claims|, id), now)
      && s'.acks == if writable then DropClaims(s.acks) else s.acks
  {
    var claims := Claims(s.acks);
    ResetFirstRow(s.rows, claims, now, lag, |claims|, id);
  }

  lemma Grouped(a: seq<Ack>, b: seq<Ack>, c: seq<Ack>)
    ensures a + b + c == a + (b + c)
  {
  }

  /** Claims are taken out row by row, in order. */
  lemma {:induction false} ClaimsCat(a: seq<Ack>, b: seq<Ack>)
    ensures Claims(a + b) == Claims(a) + Claims(b)
    decreases |a|
  {
    if a == [] {
      assert a + b == b;
    } else {
      assert (a + b)[0] == a[0] && (a + b)[1..] == a[1..] + b;
      ClaimsCat(a[1..], b);
      Grouped(Claims([a[0]]), Claims(a[1..]), Claims(b));
      OneClaim(a[0]);
    }
  }

  lemma {:induction false} DropsCat(a: seq<Ack>, b: seq<Ack>)
    ensures DropClaims(a + b) == DropClaims(a) + DropClaims(b)
    decreases |a|
  {
    if a == [] {
      assert a + b == b;
    } else {
      assert (a + b)[0] == a[0] && (a + b)[1..] == a[1..] + b;
      DropsCat(a[1..], b);
      Grouped(DropClaims([a[0]]), DropClaims(a[1..]), DropClaims(b));
      OneClaim(a[0]);
    }
  }

  lemma OneClaim(a: Ack)
    ensures Claims([a]) == if a.status == Processing then [a] else []
    ensures DropClaims([a]) == if a.status == Processing then [] else [a]
  {
    assert [a][1..] == [];
  }

  /** The verdict of the first finished ack of `id` among the first `n`. */
  ghost function FirstVerdict(acks: seq<Ack>, n: nat, id: Id): (v: Option<AckStatus>)
    requires n <= |acks|
    ensures v == None <==> forall i :: 0 <= i < n && acks[i].id == id ==> acks[i].status == Processing
    ensures v.Some? ==> v.value != Processing && exists i :: 0 <= i < n && acks[i].id == id && acks[i].status == v.value
  {
    if n == 0 then None
    else
      var earlier := FirstVerdict(acks, n - 1, id);
      var Ack(own, status, _) := acks[n - 1];
      if earlier == None && own == id && status != Processing then Some(status) else earlier
  }

  /** The sync settles a message by its first finished ack, as failed exactly for a crashed
      script, and changes nothing else and nothing that was completed or failed before. */
  lemma {:induction false} SyncRow(rows: Rows, acks: seq<Ack>, n: nat, id: Id)
    requires n <= |acks| && id in rows
    ensures var rows' := SyncFirst(rows, acks, n); var verdict := FirstVerdict(acks, n, id);
      rows'.Keys == rows.Keys
      && rows'[id] == if verdict == None || rows[id].status in {Completed, Failed} then rows[id]
                      else rows[id].(status := if verdict == Some(ScriptError) then Failed else Completed)
    decreases n
  {
    if n == 0 {
    } else {
      SyncRow(rows, acks, n - 1, id);
    }
  }

  lemma {:induction false} NoClaimLeft(acks: seq<Ack>)
    ensures Claims(DropClaims(acks)) == []
  {
    if acks == [] {
    } else {
      NoClaimLeft(acks[1..]);
      var rest := DropClaims(acks[1..]);
      assert DropClaims(acks) == if acks[0].status == Processing then rest else [acks[0]] + rest;
      assert ([acks[0]] + rest)[1..] == rest;
    }
  }

  /** After a reset that could write, no claim is left to kill for. */
  lemma ResetLeavesNoClaim(s: Sweep, now: int, lag: nat -> nat, later: int, heartbeat: int, tool: Option<Tool>)
    ensures var s' := Reset(s, now, lag, true);
      Claims(s'.acks) == []
      && (Kills(later, heartbeat, tool, Claims(s'.acks)) <==> OverCeiling(later, heartbeat, tool))
  {
    NoClaimLeft(s.acks);
  }

  // ---- What a tick keeps ----

  /** The limits never kill in a tick that wakes; a kill by the limits is followed by its
      cleanup, which is one reset at the end; and a cleanup happens exactly after such a
      kill or when the container was seen dead before the hook. */
  lemma TickOrder(s: Sweep, o: Outside)
    ensures var (s', acts) := Tick(s, o);
      (SlaKill in acts ==> Woke !in acts && o.running && acts == Early(s, o) + [SlaKill, CleanedUp])
      && (CleanedUp in acts <==> o.outDb && (SlaKill in acts || !(if Woke in acts then o.wokeUp else o.running)))
      && (CleanedUp in acts && o.writable ==> Claims(s'.acks) == [])
      && s' == if CleanedUp in acts then Reset(Hooked(s, o), o.resetNow, o.lag, o.writable) else Hooked(s, o)
  {
    ActsAre(s, o);
    NoClaimLeft(Hooked(s, o).acks);
  }

  /** The limits are enforced exactly on a container that ran before the tick, in a tick
      that wakes nothing: by its heartbeat and by the claims as the hook left them. */
  lemma SlaKillIff(s: Sweep, o: Outside)
    ensures var acts := Tick(s, o).1;
      SlaKill in acts
      <==> o.outDb && o.running && Woke !in acts && Kills(o.slaNow, o.heartbeat, o.tool, Claims(Hooked(s, o).acks))
  {
    ActsAre(s, o);
  }

  /** A tick wakes exactly when nothing runs and, after the sync, some open trigger message
      is neither deferred nor scheduled past the current second. */
  lemma WokenIff(s: Sweep, o: Outside)
    ensures Woke in Tick(s, o).1
       <==> !o.running
            && exists id :: id in Synced(s, o).rows && Synced(s, o).rows[id].status == Pending
                            && Synced(s, o).rows[id].trigger
                            && forall until :: Synced(s, o).rows[id].processAfter == Some(until) ==>
                                 until.At? && until.ms / 1000 <= o.now / 1000
  {
    ActsAre(s, o);
    var rows := Synced(s, o).rows;
    if WorkDue(rows, o.now) {
      var id :| id in rows && DueRow(rows[id], o.now);
      assert rows[id].status == Pending;
    }
    if id :| id in rows && rows[id].status == Pending && rows[id].trigger
             && forall until :: rows[id].processAfter == Some(until) ==> until.At? && until.ms / 1000 <= o.now / 1000 {
      if rows[id].processAfter.Some? { assert rows[id].processAfter == Some(rows[id].processAfter.value); }
      assert DueRow(rows[id], o.now);
    }
  }

  /** What the tick's sync leaves: without an outbound database nothing is synced. */
  lemma SyncedIs(s: Sweep, o: Outside)
    ensures Synced(s, o).acks == s.acks && Synced(s, o).acts == s.acts
    ensures Synced(s, o).rows == if o.outDb then SyncFirst(s.rows, s.acks, |s.acks|) else s.rows
  {
  }

  lemma ActsAre(s: Sweep, o: Outside)
    ensures var acts := Tick(s, o).1;
      (Woke in acts <==> Wakes(s, o)) && (HookKill in acts <==> HookKills(AtHook(s, o), o))
      && (SlaKill in acts <==> Late(s, o) == [SlaKill, CleanedUp]) && (CleanedUp in acts <==> Late(s, o) != [])
  {
    InCat(Early(s, o), Late(s, o));
    InCat(if Wakes(s, o) then [Woke] else [], if HookKills(AtHook(s, o), o) then [HookKill] else []);
  }

  lemma InCat(a: seq<TickAct>, b: seq<TickAct>)
    ensures forall x :: x in a + b <==> x in a || x in b
  {
  }

  /** The guarantee in plain numbers: ten minutes, or a minute more than a Bash command of
      the container has declared, whichever is longer, since the message was written. */
  lemma OverdueIs(row: Row, o: Outside)
    ensures Overdue(row, o)
       <==> row.trigger && row.status in {Pending, Working}
            && exists at :: row.stamp == At(at) && o.hookNow - at > 600_000
                            && forall ms :: o.outDb && o.hookTool == Some(Tool("Bash", Some(ms))) ==>
                                 o.hookNow - at > ms + 60_000
  {
    if o.hookTool.Some? && o.hookTool.value.name == "Bash" && o.hookTool.value.declaredTimeout.Some? {
      assert o.hookTool == Some(Tool("Bash", Some(o.hookTool.value.declaredTimeout.value)));
    }
  }

  /** The hook asks for a kill exactly when, as it looks, some trigger message is older than
      the guarantee, the fallback state can be read, the session has its row, and the
      switch message, if one is written, is accepted. */
  lemma HookKillIff(s: Sweep, o: Outside)
    ensures HookKill in Tick(s, o).1
       <==> (exists id :: id in AtHook(s, o).rows && Overdue(AtHook(s, o).rows[id], o))
            && o.fallback !in {Unreadable, NoSession}
            && (o.fallback == Backup ==> o.switchId !in InHook(AtHook(s, o), o).rows)
  {
    ActsAre(s, o);
    var rows := AtHook(s, o).rows;
    if id :| id in rows && Overdue(rows[id], o) { assert id in Breached(rows, o); }
    if id :| id in Breached(rows, o) { assert Overdue(rows[id], o); }
  }

  /** A tick that wakes asks for a kill exactly then. If the wake has failed and nobody
      else's has succeeded since, `killContainer` finds no container to kill. */
  lemma WakingTickKillsIff(s: Sweep, o: Outside)
    requires Woke in Tick(s, o).1
    ensures var acts := Tick(s, o).1;
      HookKill in acts || SlaKill in acts
      <==> (exists id :: id in AtHook(s, o).rows && Overdue(AtHook(s, o).rows[id], o))
           && o.fallback !in {Unreadable, NoSession}
           && (o.fallback == Backup ==> o.switchId !in InHook(AtHook(s, o), o).rows)
  {
    HookKillIff(s, o);
    SlaKillIff(s, o);
  }

  /** What the hook does to the messages, if nobody else writes meanwhile: the overdue ones
      fail, or those already taken are handed to the backup with a message that tells it so. */
  lemma HookLeaves(s: Sweep, o: Outside, id: Id)
    requires o.inHook == []
    ensures var rows, rows' := s.rows, AfterHook(s, o).rows;
      var switched := o.fallback == Backup && Breached(rows, o) != {};
      AfterHook(s, o).acks == s.acks
      && (id in rows' <==> id in rows || (switched && id == o.switchId))
      && (id in rows ==>
            rows'[id] == if Overdue(rows[id], o) && o.fallback in {Active, NoBackup} then rows[id].(status := Failed)
                         else if Overdue(rows[id], o) && o.fallback == Backup then rows[id].(status := Pending)
                         else rows[id])
      && (id !in rows && switched && id == o.switchId ==> rows'[id] == Row(Pending, 0, None, true, At(o.switchAt)))
  {
    var first, second := HookFirst(s.rows, o), HookSecond(s.rows, o);
    if first != [] { OneOther(s, first[0]); }
    if second != [] { OneOther(InHook(s, o), second[0]); }
    assert InHook(s, o) == Others(s, first);
    assert id in s.rows && Overdue(s.rows[id], o) <==> id in Breached(s.rows, o);
    match o.fallback {
      case Active => assert AfterHook(s, o) == if first == [] then s else After(s, first[0]);
      case Backup => assert AfterHook(s, o) == if first == [] then s else After(After(s, first[0]), second[0]);
      case NoBackup => assert AfterHook(s, o) == if second == [] then s else After(s, second[0]);
      case _ => assert AfterHook(s, o) == s;
    }
  }

  /** What is done before the hook's own await and what after it. */
  lemma HookOrder(s: Sweep, o: Outside)
    requires Breached(s.rows, o) != {}
    ensures var late := Breached(s.rows, o);
      AfterHook(s, o)
      == match o.fallback
         case Active => Others(After(s, Settled(late, Failed)), o.inHook)
         case NoBackup => After(Others(s, o.inHook), Settled(late, Failed))
         case Backup => After(Others(After(s, Reopened(late)), o.inHook), Inserted(o.switchId, SwitchRow(o)))
         case _ => Others(s, o.inHook)
  {
    var first, second := HookFirst(s.rows, o), HookSecond(s.rows, o);
    if first != [] { OneOther(s, first[0]); }
    if second != [] { OneOther(InHook(s, o), second[0]); }
  }

  /** A tick that neither wakes, nor finds anything overdue, nor cleans up leaves the sync
      and what others did. */
  lemma IdleTick(s: Sweep, o: Outside)
    requires Woke !in Tick(s, o).1 && CleanedUp !in Tick(s, o).1 && Breached(AtHook(s, o).rows, o) == {}
    ensures Tick(s, o).0 == Others(Synced(s, o), o.beforeHook + o.inHook + o.afterHook)
  {
    ActsAre(s, o);
    OthersCat(Synced(s, o), o.beforeHook, o.inHook);
    OthersCat(Synced(s, o), o.beforeHook + o.inHook, o.afterHook);
  }

  /** Such a kill of a container the tick just woke gets no cleanup in that tick. */
  lemma HookKillUncleaned(s: Sweep, o: Outside)
    requires Woke in Tick(s, o).1 && o.wokeUp
    ensures CleanedUp !in Tick(s, o).1 && Tick(s, o).0 == Hooked(s, o)
  {
    ActsAre(s, o);
  }

  /** An overdue message that is due: with fallback active, or without a backup, the tick
      wakes a container, kills it, and fails the message. */
  lemma WokenThenKilled(s: Sweep, o: Outside, id: Id)
    requires o.outDb && s.acks == [] && !o.running && o.wokeUp && o.fallback in {Active, NoBackup}
    requires o.duringWake == [] && o.beforeHook == [] && o.inHook == [] && o.afterHook == []
    requires id in s.rows && DueRow(s.rows[id], o.now) && Overdue(s.rows[id], o)
    ensures Tick(s, o).1 == [Woke, HookKill]
    ensures id in Tick(s, o).0.rows && Tick(s, o).0.rows[id] == s.rows[id].(status := Failed)
  {
    ActsAre(s, o);
    assert Synced(s, o) == s && AtHook(s, o) == s;
    var breached := Breached(s.rows, o);
    assert id in breached && DueRow(Synced(s, o).rows[id], o.now);
    OneOther(s, Settled(breached, Failed));
  }

  lemma OneOther(s: Sweep, e: Other)
    ensures Others(s, [e]) == After(s, e) && Others(s, []) == s
  {
    assert [e][1..] == [];
  }

  /** A message scheduled for any later time breaches the guarantee all the same once it is old enough. */
  lemma ScheduledMessageBreaches(rows: Rows, o: Outside, id: Id, at: int)
    requires id in rows && rows[id].trigger && rows[id].status == Pending && rows[id].processAfter == Some(At(at))
    requires rows[id].stamp.At? && o.hookNow - rows[id].stamp.ms > Guarantee(o)
    ensures id in Breached(rows, o)
    ensures at / 1000 > o.now / 1000 ==> !DueRow(rows[id], o.now)
  {
  }

  /** A wake that succeeds costs no message a try. If no message was overdue, what the
      tick leaves is the sync and what others did. */
  lemma SuccessfulWakeResetsNothing(s: Sweep, o: Outside)
    requires Woke in Tick(s, o).1 && o.wokeUp
    ensures Tick(s, o).0.acts == s.acts
    ensures Breached(AtHook(s, o).rows, o) == {} ==>
      Tick(s, o).0 == Others(Synced(s, o), o.duringWake + o.beforeHook + o.inHook + o.afterHook)
  {
    ActsAre(s, o);
    var s1 := Synced(s, o);
    OthersKeep(s1, o.duringWake);
    OthersKeep(Others(s1, o.duringWake), o.beforeHook);
    HookKeeps(AtHook(s, o), o);
    OthersKeep(AfterHook(AtHook(s, o), o), o.afterHook);
    OthersCat(s1, o.duringWake, o.beforeHook);
    OthersCat(s1, o.duringWake + o.beforeHook, o.inHook);
    OthersCat(s1, o.duringWake + o.beforeHook + o.inHook, o.afterHook);
  }

  lemma {:induction false} OthersCat(s: Sweep, a: seq<Other>, b: seq<Other>)
    ensures Others(s, a + b) == Others(Others(s, a), b)
    decreases |a|
  {
    if a == [] {
      assert a + b == b;
    } else {
      assert (a + b)[0] == a[0] && (a + b)[1..] == a[1..] + b;
      OthersCat(After(s, a[0]), a[1..], b);
    }
  }

  lemma {:induction false} OthersKeep(s: Sweep, es: seq<Other>)
    ensures Others(s, es).acts == s.acts
    decreases |es|
  {
    if es == [] {
    } else {
      OthersKeep(After(s, es[0]), es[1..]);
    }
  }

  lemma HookKeeps(s: Sweep, o: Outside)
    ensures AfterHook(s, o).acts == s.acts
  {
    OthersKeep(s, HookFirst(s.rows, o));
    OthersKeep(Others(s, HookFirst(s.rows, o)), o.inHook);
    OthersKeep(InHook(s, o), HookSecond(s.rows, o));
  }

  /** The limits do not kill a container launched by the runner for its predecessor's heartbeat,
      and not within a minute of its launch while its claims are its own. Without a heartbeat
      file the sweep reads 0. */
  lemma FreshContainerSpared(r: Runner.State, since: nat, q: Runner.Id, heartbeat: int, now: int, tool: Option<Tool>,
                             claims: seq<Ack>)
    requires Runner.Reachable(r, since) && q in r.procs
    requires heartbeat == if r.procs[q].session in r.heartbeat then r.heartbeat[r.procs[q].session] else 0
    ensures OverCeiling(now, heartbeat, tool) ==> now - r.procs[q].launchedAt > ABSOLUTE_CEILING_MS
    ensures Kills(now, heartbeat, tool, claims)
         && (forall a :: a in claims && a.changed.At? ==> a.changed.ms >= r.procs[q].launchedAt)
         ==> now - r.procs[q].launchedAt > CLAIM_STUCK_MS
  {
    Runner.HeartbeatIsOwn(r, since, q);
  }

  // ---- Whole runs: ticks one after the other, and others between them ----

  /** `end` is when the tick's last write is done. */
  datatype Step = TickStep(o: Outside, end: int) | Between(e: Other)

  const SWEEP_INTERVAL_MS: int := 60_000

  ghost function AfterStep(s: Sweep, step: Step): Sweep {
    match step
    case TickStep(o, _) => Tick(s, o).0
    case Between(e) => After(s, e)
  }

  ghost function Steps(s: Sweep, steps: seq<Step>): Sweep
    decreases |steps|
  {
    if steps == [] then s else Steps(AfterStep(s, steps[0]), steps[1..])
  }

  /** No message is inserted under the id of one that was already reset. */
  predicate NewId(acts: seq<Act>, e: Other) {
    e.Inserted? ==> Retries(acts, e.id) == 0 && GiveUps(acts, e.id) == 0
  }

  predicate NewIds(acts: seq<Act>, es: seq<Other>) {
    forall i :: 0 <= i < |es| ==> NewId(acts, es[i])
  }

  predicate NewIdsIn(acts: seq<Act>, o: Outside) {
    NewIds(acts, o.duringWake) && NewIds(acts, o.beforeHook) && NewIds(acts, o.inHook) && NewIds(acts, o.afterHook)
    && NewId(acts, Inserted(o.switchId, SwitchRow(o)))
  }

  /** Every row is written between `now` and `end`. */
  ghost predicate WrittenBy(now: int, lag: nat -> nat, end: int) {
    now <= end && forall i: nat :: now + lag(i) <= end
  }

  /** The clock does not go back within a tick. */
  ghost predicate Timely(o: Outside, end: int) {
    o.now <= o.resetNow && WrittenBy(o.resetNow, o.lag, end)
  }

  /** The next tick of a session starts an interval after the last one ended. */
  ghost predicate Ticking(s: Sweep, steps: seq<Step>, ready: int)
    decreases |steps|
  {
    if steps == [] then true
    else
      match steps[0]
      case TickStep(o, end) =>
        ready <= o.now && Timely(o, end) && NewIdsIn(s.acts, o)
        && Ticking(Tick(s, o).0, steps[1..], end + SWEEP_INTERVAL_MS)
      case Between(e) => NewId(s.acts, e) && Ticking(After(s, e), steps[1..], ready)
  }

  function Retries(acts: seq<Act>, id: Id): nat {
    if acts == [] then 0
    else Retries(acts[..|acts| - 1], id) + var a := acts[|acts| - 1]; if a.Retried? && a.id == id then 1 else 0
  }

  function GiveUps(acts: seq<Act>, id: Id): nat {
    if acts == [] then 0
    else GiveUps(acts[..|acts| - 1], id) + var a := acts[|acts| - 1]; if a.GaveUp? && a.id == id then 1 else 0
  }

  function TotalDelaySec(acts: seq<Act>, id: Id): nat {
    if acts == [] then 0
    else TotalDelaySec(acts[..|acts| - 1], id)
         + var a := acts[|acts| - 1]; if a.Retried? && a.id == id then a.delaySec else 0
  }

  /** When the message was first reset. */
  function FirstRetry(acts: seq<Act>, id: Id): Option<int> {
    if acts == [] then None
    else
      var earlier := FirstRetry(acts[..|acts| - 1], id);
      var a := acts[|acts| - 1];
      if earlier.None? && a.Retried? && a.id == id then Some(a.at) else earlier
  }

  /** The history of one message, against its row if it is still there. */
  ghost predicate Account(rows: Rows, acts: seq<Act>, id: Id) {
    var n := Retries(acts, id);
    n <= MAX_TRIES && TotalDelaySec(acts, id) == 5 * (Pow2(n) - 1)
    && GiveUps(acts, id) <= 1
    && (GiveUps(acts, id) == 1 ==> n == MAX_TRIES)
    && (id in rows ==> rows[id].tries == n && (GiveUps(acts, id) == 1 ==> Closed(rows[id].status)))
  }

  /** Resets of one message are an interval apart. */
  ghost predicate Paced(acts: seq<Act>, id: Id, ready: int) {
    FirstRetry(acts, id).Some? ==> FirstRetry(acts, id).value + SWEEP_INTERVAL_MS * Retries(acts, id) <= ready
  }

  ghost predicate LateEnough(acts: seq<Act>, i: nat)
    requires i < |acts| && acts[i].GaveUp?
  {
    var first := FirstRetry(acts[..i], acts[i].id);
    first.Some? && acts[i].asOf >= first.value + 300_000
  }

  ghost predicate GiveUpsLate(acts: seq<Act>) {
    forall i :: 0 <= i < |acts| && acts[i].GaveUp? ==> LateEnough(acts, i)
  }

  ghost predicate Inv(s: Sweep, ready: int) {
    (forall id :: Account(s.rows, s.acts, id)) && (forall id :: Paced(s.acts, id, ready)) && GiveUpsLate(s.acts)
  }

  lemma ActAppended(acts: seq<Act>, a: Act, id: Id)
    ensures var all := acts + [a];
      Retries(all, id) == Retries(acts, id) + (if a.Retried? && a.id == id then 1 else 0)
      && GiveUps(all, id) == GiveUps(acts, id) + (if a.GaveUp? && a.id == id then 1 else 0)
      && TotalDelaySec(all, id) == TotalDelaySec(acts, id) + (if a.Retried? && a.id == id then a.delaySec else 0)
      && FirstRetry(all, id) == if FirstRetry(acts, id).None? && a.Retried? && a.id == id then Some(a.at)
                                else FirstRetry(acts, id)
  {
    assert (acts + [a])[..|acts|] == acts;
  }

  lemma {:induction false} NoRetryNoFirst(acts: seq<Act>, id: Id)
    ensures FirstRetry(acts, id).Some? <==> Retries(acts, id) > 0
    decreases |acts|
  {
    if acts == [] {
    } else {
      NoRetryNoFirst(acts[..|acts| - 1], id);
    }
  }

  lemma LateStays(acts: seq<Act>, a: Act)
    requires GiveUpsLate(acts)
    requires a.GaveUp? ==> FirstRetry(acts, a.id).Some? && a.asOf >= FirstRetry(acts, a.id).value + 300_000
    ensures GiveUpsLate(acts + [a])
  {
    var all := acts + [a];
    forall i | 0 <= i < |all| && all[i].GaveUp? ensures LateEnough(all, i) {
      assert all[..i] == acts[..i];
      if i == |acts| { assert acts[..i] == acts; } else { assert LateEnough(acts, i); }
    }
  }

  lemma Pow2Of5()
    ensures Pow2(5) == 32
  {
    assert Pow2(2) == 4 && Pow2(3) == 8 && Pow2(4) == 16;
  }

  /** Within one reset: not moved since before `now`, or moved and deferred. */
  ghost predicate Midway(rows: Rows, acts: seq<Act>, id: Id, now: int, end: int) {
    Paced(acts, id, now) || (id in rows && Deferred(rows[id], now) && Paced(acts, id, end + SWEEP_INTERVAL_MS))
  }

  lemma GiveUpKeeps(rows: Rows, acts: seq<Act>, id: Id, now: int, end: int)
    requires Account(rows, acts, id) && Midway(rows, acts, id, now, end)
    requires Retryable(rows, id, now) && rows[id].tries >= MAX_TRIES
    ensures var rows', after := rows[id := rows[id].(status := Failed)], acts + [GaveUp(id, now)];
      Account(rows', after, id) && Midway(rows', after, id, now, end)
  {
    ActAppended(acts, GaveUp(id, now), id);
  }

  lemma RetryKeepsAccount(rows: Rows, acts: seq<Act>, id: Id, now: int, wrote: int)
    requires Account(rows, acts, id) && Retryable(rows, id, now) && rows[id].tries < MAX_TRIES
    ensures var step := ResetOne(rows, id, now, wrote); Account(step.0, acts + step.1, id)
  {
    ActAppended(acts, ResetOne(rows, id, now, wrote).1[0], id);
    BackoffExact(rows[id].tries);
  }

  lemma RetryKeepsPace(rows: Rows, acts: seq<Act>, id: Id, now: int, wrote: int, end: int)
    requires Midway(rows, acts, id, now, end) && now <= wrote <= end
    requires Retryable(rows, id, now) && rows[id].tries < MAX_TRIES
    ensures var step := ResetOne(rows, id, now, wrote); Midway(step.0, acts + step.1, id, now, end)
  {
    ActAppended(acts, ResetOne(rows, id, now, wrote).1[0], id);
    NoRetryNoFirst(acts, id);
    Pow2Positive(rows[id].tries);
    BackoffExact(rows[id].tries);
  }

  lemma ResetOneKeeps(rows: Rows, acts: seq<Act>, target: Id, now: int, wrote: int, end: int, id: Id)
    requires Account(rows, acts, id) && Midway(rows, acts, id, now, end) && now <= wrote <= end
    ensures var step := ResetOne(rows, target, now, wrote);
      Account(step.0, acts + step.1, id) && Midway(step.0, acts + step.1, id, now, end)
  {
    if !Retryable(rows, target, now) {
      assert acts + [] == acts;
    } else if id == target {
      if rows[id].tries >= MAX_TRIES {
        GiveUpKeeps(rows, acts, id, now, end);
      } else {
        RetryKeepsAccount(rows, acts, id, now, wrote);
        RetryKeepsPace(rows, acts, id, now, wrote, end);
      }
    } else {
      ActAppended(acts, ResetOne(rows, target, now, wrote).1[0], id);
    }
  }

  ghost predicate MidInv(rows: Rows, acts: seq<Act>, now: int, end: int) {
    (forall id :: Account(rows, acts, id) && Midway(rows, acts, id, now, end)) && GiveUpsLate(acts)
  }

  lemma ResetOneInv(rows: Rows, acts: seq<Act>, target: Id, now: int, wrote: int, end: int)
    requires MidInv(rows, acts, now, end) && now <= wrote <= end
    ensures var step := ResetOne(rows, target, now, wrote); MidInv(step.0, acts + step.1, now, end)
  {
    var step := ResetOne(rows, target, now, wrote);
    forall id ensures Account(step.0, acts + step.1, id) && Midway(step.0, acts + step.1, id, now, end) {
      ResetOneKeeps(rows, acts, target, now, wrote, end, id);
    }
    if step.1 == [] {
      assert acts + step.1 == acts;
    } else {
      assert Account(rows, acts, target) && Midway(rows, acts, target, now, end);
      NoRetryNoFirst(acts, target);
      LateStays(acts, step.1[0]);
    }
  }

  lemma {:induction false} ResetFirstInv(
      rows: Rows, acts: seq<Act>, claims: seq<Ack>, now: int, lag: nat -> nat, end: int, n: nat)
    requires MidInv(rows, acts, now, end) && n <= |claims| && WrittenBy(now, lag, end)
    ensures var r := ResetFirst(rows, claims, now, lag, n); MidInv(r.0, acts + r.1, now, end)
    decreases n
  {
    if n == 0 {
      assert acts + [] == acts;
    } else {
      ResetFirstInv(rows, acts, claims, now, lag, end, n - 1);
      var (rows', done) := ResetFirst(rows, claims, now, lag, n - 1);
      var step := ResetOne(rows', claims[n - 1].id, now, now + lag(n - 1));
      ResetOneInv(rows', acts + done, claims[n - 1].id, now, now + lag(n - 1), end);
      Regroup(acts, done, step.1);
    }
  }

  lemma Regroup(a: seq<Act>, b: seq<Act>, c: seq<Act>)
    ensures a + (b + c) == a + b + c
  {
  }

  lemma ResetKeepsInv(s: Sweep, now: int, lag: nat -> nat, writable: bool, ready: int, end: int)
    requires Inv(s, ready) && ready <= now && WrittenBy(now, lag, end)
    ensures Inv(Reset(s, now, lag, writable), end + SWEEP_INTERVAL_MS)
  {
    var claims, s' := Claims(s.acks), Reset(s, now, lag, writable);
    forall id ensures Account(s.rows, s.acts, id) && Midway(s.rows, s.acts, id, now, end) {
      assert Paced(s.acts, id, ready);
    }
    ResetFirstInv(s.rows, s.acts, claims, now, lag, end, |claims|);
    var later := end + SWEEP_INTERVAL_MS;
    forall id ensures Paced(s'.acts, id, later) {
      assert Midway(s'.rows, s'.acts, id, now, end);
    }
  }

  lemma {:induction false} SyncKeepsInv(s: Sweep, ready: int, n: nat)
    requires Inv(s, ready) && n <= |s.acks|
    ensures Inv(s.(rows := SyncFirst(s.rows, s.acks, n)), ready)
    decreases n
  {
    if n == 0 {
    } else {
      SyncKeepsInv(s, ready, n - 1);
      var mid, rows' := SyncFirst(s.rows, s.acks, n - 1), SyncFirst(s.rows, s.acks, n);
      assert rows' == SyncOne(mid, s.acks[n - 1]);
      forall id ensures Account(rows', s.acts, id) { assert Account(mid, s.acts, id); }
    }
  }

  lemma OtherKeepsInv(s: Sweep, e: Other, ready: int)
    requires Inv(s, ready) && NewId(s.acts, e)
    ensures Inv(After(s, e), ready) && After(s, e).acts == s.acts
  {
    forall id ensures Account(After(s, e).rows, s.acts, id) { assert Account(s.rows, s.acts, id); }
  }

  lemma {:induction false} OthersKeepInv(s: Sweep, es: seq<Other>, ready: int)
    requires Inv(s, ready) && NewIds(s.acts, es)
    ensures Inv(Others(s, es), ready) && Others(s, es).acts == s.acts
    decreases |es|
  {
    if es == [] {
    } else {
      assert NewId(s.acts, es[0]) && forall i :: 0 <= i < |es| - 1 ==> es[1..][i] == es[i + 1];
      OtherKeepsInv(s, es[0], ready);
      OthersKeepInv(After(s, es[0]), es[1..], ready);
    }
  }

  lemma HookedInv(s: Sweep, o: Outside, ready: int)
    requires Inv(s, ready) && NewIdsIn(s.acts, o)
    ensures Inv(Hooked(s, o), ready)
  {
    if o.outDb { SyncKeepsInv(s, ready, |s.acks|); }
    var synced := Synced(s, o);
    OthersKeepInv(synced, o.duringWake, ready);
    OthersKeepInv(if Wakes(s, o) then Others(synced, o.duringWake) else synced, o.beforeHook, ready);
    var at := AtHook(s, o);
    OthersKeepInv(at, HookFirst(at.rows, o), ready);
    OthersKeepInv(Others(at, HookFirst(at.rows, o)), o.inHook, ready);
    OthersKeepInv(InHook(at, o), HookSecond(at.rows, o), ready);
    OthersKeepInv(AfterHook(at, o), o.afterHook, ready);
  }

  lemma InvLater(s: Sweep, ready: int, later: int)
    requires Inv(s, ready) && ready <= later
    ensures Inv(s, later)
  {
    forall id ensures Paced(s.acts, id, later) { assert Paced(s.acts, id, ready); }
  }

  lemma TickKeepsInv(s: Sweep, o: Outside, ready: int, end: int)
    requires Inv(s, ready) && ready <= o.now && Timely(o, end) && NewIdsIn(s.acts, o)
    ensures Inv(Tick(s, o).0, end + SWEEP_INTERVAL_MS)
  {
    HookedInv(s, o, ready);
    ResetKeepsInv(Hooked(s, o), o.resetNow, o.lag, o.writable, ready, end);
    InvLater(Hooked(s, o), ready, end + SWEEP_INTERVAL_MS);
  }

  lemma {:induction false} StepsKeepInv(s: Sweep, steps: seq<Step>, ready: int) returns (later: int)
    requires Inv(s, ready) && Ticking(s, steps, ready)
    ensures Inv(Steps(s, steps), later)
    decreases |steps|
  {
    if steps == [] {
      later := ready;
    } else {
      match steps[0] {
        case TickStep(o, end) =>
          TickKeepsInv(s, o, ready, end);
          later := StepsKeepInv(Tick(s, o).0, steps[1..], end + SWEEP_INTERVAL_MS);
        case Between(e) =>
          OtherKeepsInv(s, e, ready);
          later := StepsKeepInv(After(s, e), steps[1..], ready);
      }
    }
  }

  /** A session as it is first swept. */
  function FreshSession(acks: seq<Ack>): Sweep {
    Sweep(map[], acks, [])
  }

  /** Over any run of ticks, whatever others do at the awaits and in between: a message
      is reset at most five times, its tries count those resets, the delays add up to
      5 * (2^resets - 1) seconds - never more than 155 - and it is given up at most once,
      after all five, and never pending again. */
  lemma RetryBudget(acks: seq<Ack>, steps: seq<Step>, ready: int, id: Id)
    requires Ticking(FreshSession(acks), steps, ready)
    ensures var s := Steps(FreshSession(acks), steps); var n := Retries(s.acts, id);
      n <= 5 && (id in s.rows ==> s.rows[id].tries == n)
      && TotalDelaySec(s.acts, id) == 5 * (Pow2(n) - 1) <= 155
      && GiveUps(s.acts, id) <= 1
      && (GiveUps(s.acts, id) == 1 ==> n == 5 && (id in s.rows ==> Closed(s.rows[id].status)))
  {
    var s := Steps(FreshSession(acks), steps);
    var later := StepsKeepInv(FreshSession(acks), steps, ready);
    assert Account(s.rows, s.acts, id);
    Pow2Of5();
    Pow2Monotone(Retries(s.acts, id), 5);
  }

  lemma {:induction false} Pow2Monotone(m: nat, n: nat)
    requires m <= n
    ensures Pow2(m) <= Pow2(n)
    decreases n
  {
    if m < n { Pow2Monotone(m, n - 1); }
  }

  /** The interval between ticks alone keeps a message for five minutes after its first
      reset before it is given up, even if its deferral is rewritten meanwhile. */
  lemma GivenUpLate(acks: seq<Ack>, steps: seq<Step>, ready: int, i: nat)
    requires Ticking(FreshSession(acks), steps, ready)
    requires var acts := Steps(FreshSession(acks), steps).acts; i < |acts| && acts[i].GaveUp?
    ensures var acts := Steps(FreshSession(acks), steps).acts; var first := FirstRetry(acts[..i], acts[i].id);
      first.Some? && acts[i].asOf - first.value >= 300_000
  {
    var later := StepsKeepInv(FreshSession(acks), steps, ready);
    assert LateEnough(Steps(FreshSession(acks), steps).acts, i);
  }

  // ---- A deferral holds until it elapses ----

  predicate Undeleted(e: Other, id: Id) {
    e.Deleted? ==> id !in e.ids
  }

  predicate LeavesAlone(e: Other, id: Id) {
    Undeleted(e, id) && (e.ProcessAfterSet? ==> id !in e.ids)
  }

  predicate AllUndeleted(es: seq<Other>, id: Id) {
    forall i :: 0 <= i < |es| ==> Undeleted(es[i], id)
  }

  predicate AllLeaveAlone(es: seq<Other>, id: Id) {
    forall i :: 0 <= i < |es| ==> LeavesAlone(es[i], id)
  }

  predicate TickUndeleted(o: Outside, id: Id) {
    AllUndeleted(o.duringWake, id) && AllUndeleted(o.beforeHook, id) && AllUndeleted(o.inHook, id)
    && AllUndeleted(o.afterHook, id)
  }

  predicate TickLeavesAlone(o: Outside, id: Id) {
    AllLeaveAlone(o.duringWake, id) && AllLeaveAlone(o.beforeHook, id) && AllLeaveAlone(o.inHook, id)
    && AllLeaveAlone(o.afterHook, id)
  }

  predicate StepLeavesAlone(step: Step, id: Id) {
    match step
    case TickStep(o, _) => TickLeavesAlone(o, id)
    case Between(e) => LeavesAlone(e, id)
  }

  predicate SameTries(rows: Rows, rows': Rows, id: Id) {
    id in rows && id in rows' && rows'[id].tries == rows[id].tries
  }

  predicate SameSchedule(rows: Rows, rows': Rows, id: Id) {
    SameTries(rows, rows', id) && rows'[id].processAfter == rows[id].processAfter
  }

  lemma {:induction false} OthersKeepTries(s: Sweep, es: seq<Other>, id: Id)
    requires id in s.rows && AllUndeleted(es, id)
    ensures SameTries(s.rows, Others(s, es).rows, id)
    decreases |es|
  {
    if es == [] {
    } else {
      assert Undeleted(es[0], id) && forall i :: 0 <= i < |es| - 1 ==> es[1..][i] == es[i + 1];
      OthersKeepTries(After(s, es[0]), es[1..], id);
    }
  }

  lemma {:induction false} OthersKeepSchedule(s: Sweep, es: seq<Other>, id: Id)
    requires id in s.rows && AllLeaveAlone(es, id)
    ensures SameSchedule(s.rows, Others(s, es).rows, id)
    decreases |es|
  {
    if es == [] {
    } else {
      assert LeavesAlone(es[0], id) && forall i :: 0 <= i < |es| - 1 ==> es[1..][i] == es[i + 1];
      OthersKeepSchedule(After(s, es[0]), es[1..], id);
    }
  }

  lemma {:induction false} SyncKeepsRow(rows: Rows, acks: seq<Ack>, n: nat, id: Id)
    requires n <= |acks| && id in rows
    ensures id in SyncFirst(rows, acks, n)
    ensures var row' := SyncFirst(rows, acks, n)[id]; row' == rows[id].(status := row'.status)
    decreases n
  {
    if n == 0 {
    } else {
      SyncKeepsRow(rows, acks, n - 1, id);
    }
  }

  lemma HookedKeepsTries(s: Sweep, o: Outside, id: Id)
    requires id in s.rows && TickUndeleted(o, id)
    ensures SameTries(s.rows, Hooked(s, o).rows, id)
  {
    SyncKeepsRow(s.rows, s.acks, |s.acks|, id);
    var synced := Synced(s, o);
    OthersKeepTries(synced, o.duringWake, id);
    OthersKeepTries(if Wakes(s, o) then Others(synced, o.duringWake) else synced, o.beforeHook, id);
    var at := AtHook(s, o);
    OthersKeepTries(at, HookFirst(at.rows, o), id);
    OthersKeepTries(Others(at, HookFirst(at.rows, o)), o.inHook, id);
    OthersKeepTries(InHook(at, o), HookSecond(at.rows, o), id);
    OthersKeepTries(AfterHook(at, o), o.afterHook, id);
  }

  lemma HookedKeepsSchedule(s: Sweep, o: Outside, id: Id)
    requires id in s.rows && TickLeavesAlone(o, id)
    ensures SameSchedule(s.rows, Hooked(s, o).rows, id)
  {
    SyncKeepsRow(s.rows, s.acks, |s.acks|, id);
    var synced := Synced(s, o);
    OthersKeepSchedule(synced, o.duringWake, id);
    OthersKeepSchedule(if Wakes(s, o) then Others(synced, o.duringWake) else synced, o.beforeHook, id);
    var at := AtHook(s, o);
    OthersKeepSchedule(at, HookFirst(at.rows, o), id);
    OthersKeepSchedule(Others(at, HookFirst(at.rows, o)), o.inHook, id);
    OthersKeepSchedule(InHook(at, o), HookSecond(at.rows, o), id);
    OthersKeepSchedule(AfterHook(at, o), o.afterHook, id);
  }

  /** However a tick ends, it adds at most one try to a message that is not deleted during
      it, whatever else is done to the message meanwhile. */
  lemma TickAddsOneTry(s: Sweep, o: Outside, id: Id)
    requires id in s.rows && TickUndeleted(o, id)
    ensures id in Tick(s, o).0.rows
    ensures s.rows[id].tries <= Tick(s, o).0.rows[id].tries <= s.rows[id].tries + 1
  {
    HookedKeepsTries(s, o, id);
    ResetMovesOnce(Hooked(s, o), o.resetNow, o.lag, o.writable, id);
  }

  /** A deferred message gains no try from any run of ticks whose resets decide before it
      elapses, unless someone reschedules or deletes it. */
  lemma {:induction false} DeferralHolds(s: Sweep, steps: seq<Step>, id: Id, until: int)
    requires id in s.rows && s.rows[id].processAfter == Some(At(until))
    requires forall i :: 0 <= i < |steps| ==>
               StepLeavesAlone(steps[i], id) && (steps[i].TickStep? ==> steps[i].o.resetNow < until)
    ensures SameSchedule(s.rows, Steps(s, steps).rows, id)
    decreases |steps|
  {
    if steps == [] {
    } else {
      var step, s' := steps[0], AfterStep(s, steps[0]);
      assert StepLeavesAlone(step, id) && forall i :: 0 <= i < |steps| - 1 ==> steps[1..][i] == steps[i + 1];
      match step {
        case TickStep(o, _) =>
          HookedKeepsSchedule(s, o, id);
          ResetMovesOnce(Hooked(s, o), o.resetNow, o.lag, o.writable, id);
        case Between(e) =>
          OthersKeepSchedule(s, [e], id);
          OneOther(s, e);
      }
      DeferralHolds(s', steps[1..], id, until);
    }
  }

  /** What a reset deferred is due again exactly from the second its delay ends in. */
  lemma DueAgainIff(s: Sweep, now: int, lag: nat -> nat, writable: bool, id: Id, later: int)
    requires id in s.rows && Retryable(s.rows, id, now) && s.rows[id].tries < MAX_TRIES && s.rows[id].trigger
    requires exists a :: a in s.acks && a.status == Processing && a.id == id
    ensures var s' := Reset(s, now, lag, writable);
      id in s'.rows && s'.rows[id].processAfter.Some? && s'.rows[id].processAfter.value.At?
      && var until := s'.rows[id].processAfter.value.ms;
         until >= now + 5000 * Pow2(s.rows[id].tries)
         && (DueRow(s'.rows[id], later) <==> until / 1000 <= later / 1000)
         && (Retryable(s'.rows, id, later) <==> until <= later)
  {
    ResetMovesOnce(s, now, lag, writable, id);
  }
}
