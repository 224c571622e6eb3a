/** Container bookkeeping (src/container-runner.ts, src/container-restart.ts).

    One spawn attempt and the process it may start share an id. A step is one
    stretch of code that runs without interruption: a call of `wakeContainer` or
    `killContainer`, the end of a spawn's setup, the settling of its promise, or
    the exit event of a process with all its listeners. An exit handler that throws
    and an 'error' event without a handler end the host (src/log.ts:57-60), and
    with it the run. */
module ContainerRunner {
  import opened Options

  type SessionId = string
  type Id = nat

  /** The setup may still be under way, or over and its promise not yet settled. */
  datatype Phase = Setup | Launched | Broken

  datatype Spawn = Spawn(session: SessionId, phase: Phase)

  /** Listeners of the 'close' event, in the order they were added. */
  datatype Listener = Cleanup | WakeOnExit

  datatype Proc = Proc(session: SessionId, launchedAt: nat, listeners: seq<Listener>)

  /** What a caller of `wakeContainer` receives. */
  datatype Answer = AlreadyRunning | Promise(id: Id)

  datatype State = State(
    active: map<SessionId, Id>,
    wakes: map<SessionId, Id>,
    spawns: map<Id, Spawn>,
    procs: map<Id, Proc>,
    results: map<Id, bool>,
    heartbeat: map<SessionId, nat>,
    next: Id,
    kills: seq<Id>)

  const START := State(map[], map[], map[], map[], map[], map[], 0, [])

  // ---- The steps ----

  function Wake(s: State, sid: SessionId): (State, Answer) {
    if sid in s.active then (s, AlreadyRunning)
    else if sid in s.wakes then (s, Promise(s.wakes[sid]))
    else
      (s.(spawns := s.spawns[s.next := Spawn(sid, Setup)],
          wakes := s.wakes[sid := s.next],
          next := s.next + 1),
       Promise(s.next))
  }

  predicate InSetup(s: State, p: Id) {
    p in s.spawns && s.spawns[p].phase == Setup
  }

  /** The heartbeat file is removed, then the process starts and is listed. */
  function Started(s: State, p: Id, now: nat, phase: Phase, listeners: seq<Listener>): State
    requires InSetup(s, p)
  {
    var sid := s.spawns[p].session;
    s.(spawns := s.spawns[p := Spawn(sid, phase)],
       heartbeat := s.heartbeat - {sid},
       procs := s.procs[p := Proc(sid, now, listeners)],
       active := s.active[sid := p])
  }

  function Launch(s: State, p: Id, now: nat): State
    requires InSetup(s, p)
  {
    Started(s, p, now, Launched, [Cleanup])
  }

  /** `markContainerRunning` throws: the process is listed, but gets no exit handlers. */
  function LaunchUnmarked(s: State, p: Id, now: nat): State
    requires InSetup(s, p)
  {
    Started(s, p, now, Broken, [])
  }

  function Break(s: State, p: Id): State
    requires InSetup(s, p)
  {
    s.(spawns := s.spawns[p := Spawn(s.spawns[p].session, Broken)])
  }

  /** The promise settles and its `finally` drops the entry of `wakePromises`. */
  function SettleWake(s: State, p: Id): State
    requires p in s.spawns && s.spawns[p].phase != Setup
  {
    s.(results := s.results[p := s.spawns[p].phase == Launched],
       wakes := s.wakes - {s.spawns[p].session},
       spawns := s.spawns - {p})
  }

  /** The process its entry names is told to stop; `kills` lists those in order. A listener
      added to a process that is already gone never runs. */
  function Kill(s: State, sid: SessionId, onExit: bool): State {
    if sid !in s.active then s
    else
      var q := s.active[sid];
      s.(kills := s.kills + [q],
         procs := if q in s.procs && onExit
                  then s.procs[q := s.procs[q].(listeners := s.procs[q].listeners + [WakeOnExit])] else s.procs)
  }

  /** `known`: the session row still exists when the callback looks it up. */
  function Fire(s: State, sid: SessionId, listener: Listener, known: bool): State {
    match listener
    case Cleanup => s.(active := s.active - {sid})
    case WakeOnExit => if known then Wake(s, sid).0 else s
  }

  function FireAll(s: State, sid: SessionId, listeners: seq<Listener>, known: bool): State
    decreases |listeners|
  {
    if listeners == [] then s
    else FireAll(Fire(s, sid, listeners[0], known), sid, listeners[1..], known)
  }

  function Close(s: State, q: Id, known: bool): State
    requires q in s.procs
  {
    FireAll(s.(procs := s.procs - {q}), s.procs[q].session, s.procs[q].listeners, known)
  }

  /** The 'error' event reaches its own handler only. */
  function Error(s: State, q: Id): State
    requires q in s.procs
  {
    s.(procs := s.procs - {q}, active := s.active - {s.procs[q].session})
  }

  function Touch(s: State, q: Id, now: nat): State
    requires q in s.procs
  {
    s.(heartbeat := s.heartbeat[s.procs[q].session := now])
  }

  // ---- The module's maps, updated in place ----

  class Runner {
    var active: map<SessionId, Id>
    var wakes: map<SessionId, Id>
    var spawns: map<Id, Spawn>
    var procs: map<Id, Proc>
    var results: map<Id, bool>
    var heartbeat: map<SessionId, nat>
    var next: Id
    var kills: seq<Id>

    ghost function Now(): State
      reads this
    {
      State(active, wakes, spawns, procs, results, heartbeat, next, kills)
    }

    constructor ()
      ensures Now() == START
    {
      active, wakes, spawns, procs, results, heartbeat, next := map[], map[], map[], map[], map[], map[], 0;
      kills := [];
    }

    method WakeContainer(sid: SessionId) returns (answer: Answer)
      modifies this
      ensures (Now(), answer) == Wake(old(Now()), sid)
    {
      if sid in active {
        return AlreadyRunning;
      }
      if sid in wakes {
        return Promise(wakes[sid]);
      }
      var p := next;
      next := next + 1;
      spawns := spawns[p := Spawn(sid, Setup)];
      wakes := wakes[sid := p];
      answer := Promise(p);
    }

    /** `marked`: `markContainerRunning` does not throw. */
    method SpawnReady(p: Id, now: nat, marked: bool)
      requires InSetup(Now(), p)
      modifies this
      ensures Now() == if marked then Launch(old(Now()), p, now) else LaunchUnmarked(old(Now()), p, now)
    {
      var sid := spawns[p].session;
      heartbeat := heartbeat - {sid};
      procs := procs[p := Proc(sid, now, [])];
      active := active[sid := p];
      if !marked {
        spawns := spawns[p := Spawn(sid, Broken)];
        return;
      }
      procs := procs[p := Proc(sid, now, [Cleanup])];
      spawns := spawns[p := Spawn(sid, Launched)];
    }

    method SpawnThrew(p: Id)
      requires InSetup(Now(), p)
      modifies this
      ensures Now() == Break(old(Now()), p)
    {
      spawns := spawns[p := Spawn(spawns[p].session, Broken)];
    }

    method PromiseSettled(p: Id)
      requires p in spawns && spawns[p].phase != Setup
      modifies this
      ensures Now() == SettleWake(old(Now()), p)
    {
      results := results[p := spawns[p].phase == Launched];
      wakes := wakes - {spawns[p].session};
      spawns := spawns - {p};
    }

    method KillContainer(sid: SessionId, onExit: bool)
      modifies this
      ensures Now() == Kill(old(Now()), sid, onExit)
    {
      if sid !in active {
        return;
      }
      var q := active[sid];
      kills := kills + [q];
      if onExit && q in procs {
        procs := procs[q := procs[q].(listeners := procs[q].listeners + [WakeOnExit])];
      }
    }

    method Closed(q: Id, known: bool)
      requires q in procs
      modifies this
      ensures Now() == Close(old(Now()), q, known)
    {
      var Proc(sid, _, listeners) := procs[q];
      procs := procs - {q};
      var i := 0;
      while i < |listeners|
        invariant 0 <= i <= |listeners|
        invariant FireAll(Now(), sid, listeners[i..], known) == Close(old(Now()), q, known)
      {
        assert listeners[i..][1..] == listeners[i + 1..];
        if listeners[i] == Cleanup {
          active := active - {sid};
        } else if known {
          var _ := WakeContainer(sid);
        }
        i := i + 1;
      }
    }

    method Errored(q: Id)
      requires q in procs
      modifies this
      ensures Now() == Error(old(Now()), q)
    {
      active := active - {procs[q].session};
      procs := procs - {q};
    }

    /** `restartAgentGroupContainers`: kill every session of the group that is listed as
        running, and wake it on exit if a wake message was given or messages are due.
        The database of a session in `broken` throws, which ends the restart. */
    method RestartGroup(sessions: seq<SessionId>, wakeMessage: bool, pending: set<SessionId>, broken: set<SessionId>)
      returns (count: Option<nat>)
      modifies this
      ensures var targets := Running(old(active), sessions); var reached := Reached(targets, broken);
        Now() == Restart(old(Now()), targets[..reached], wakeMessage, pending)
        && count == if reached == |targets| then Some(|targets|) else None
    {
      var targets := Running(active, sessions);
      ghost var reached := Reached(targets, broken);
      for i := 0 to |targets|
        invariant i <= reached
        invariant Restart(old(Now()), targets[..reached], wakeMessage, pending)
               == Restart(Now(), targets[i..reached], wakeMessage, pending)
      {
        if targets[i] in broken {
          return None;
        }
        assert targets[i..reached][1..] == targets[i + 1..reached];
        KillContainer(targets[i], wakeMessage || targets[i] in pending);
      }
      count := Some(|targets|);
    }
  }

  /** How many targets come before the first broken one. */
  function Reached(targets: seq<SessionId>, broken: set<SessionId>): (n: nat)
    ensures n <= |targets|
    ensures forall i :: 0 <= i < n ==> targets[i] !in broken
    ensures n < |targets| ==> targets[n] in broken
    decreases |targets|
  {
    if targets == [] || targets[0] in broken then 0 else 1 + Reached(targets[1..], broken)
  }

  function Running(active: map<SessionId, Id>, sessions: seq<SessionId>): seq<SessionId> {
    if sessions == [] then []
    else if sessions[0] in active then [sessions[0]] + Running(active, sessions[1..])
    else Running(active, sessions[1..])
  }

  function Restart(s: State, targets: seq<SessionId>, wakeMessage: bool, pending: set<SessionId>): State
    decreases |targets|
  {
    if targets == [] then s
    else Restart(Kill(s, targets[0], wakeMessage || targets[0] in pending), targets[1..], wakeMessage, pending)
  }

  // ---- Runs ----

  datatype Event =
    | WakeCall(sid: SessionId)
    | SpawnOk(p: Id)
    | SpawnError(p: Id)
    | SpawnUnmarked(p: Id, sid: SessionId)
    | WakeSettled(p: Id)
    | KillCall(sid: SessionId, onExit: bool)
    | ProcClose(q: Id, known: bool)
    | ProcError(q: Id)
    | Beat(q: Id)

  /** Promise callbacks run before the event loop turns to the next exit event. */
  predicate Quiet(s: State) {
    forall p :: p in s.spawns ==> s.spawns[p].phase == Setup
  }

  predicate Handled(proc: Proc) {
    Cleanup in proc.listeners
  }

  /** A process gives exactly one exit event, 'close' or 'error', after which it is gone. */
  predicate Enabled(s: State, e: Event) {
    match e
    case WakeCall(_) => true
    case KillCall(_, _) => true
    case SpawnOk(p) => InSetup(s, p)
    case SpawnError(p) => InSetup(s, p)
    case SpawnUnmarked(p, sid) => InSetup(s, p) && s.spawns[p].session == sid
    case WakeSettled(p) => p in s.spawns && s.spawns[p].phase != Setup
    case ProcClose(q, _) => q in s.procs && Quiet(s)
    case ProcError(q) => q in s.procs && Quiet(s) && Handled(s.procs[q])
    case Beat(q) => q in s.procs
  }

  function Apply(s: State, e: Event, now: nat): State
    requires Enabled(s, e)
  {
    match e
    case WakeCall(sid) => Wake(s, sid).0
    case KillCall(sid, onExit) => Kill(s, sid, onExit)
    case SpawnOk(p) => Launch(s, p, now)
    case SpawnError(p) => Break(s, p)
    case SpawnUnmarked(p, _) => LaunchUnmarked(s, p, now)
    case WakeSettled(p) => SettleWake(s, p)
    case ProcClose(q, known) => Close(s, q, known)
    case ProcError(q) => Error(s, q)
    case Beat(q) => Touch(s, q, now)
  }

  /** Timed events, at times that never go back. */
  ghost predicate Run(s: State, es: seq<(Event, nat)>, since: nat, s': State, now: nat)
    decreases |es|
  {
    if es == [] then s' == s && now == since
    else
      since <= es[0].1 && Enabled(s, es[0].0)
      && Run(Apply(s, es[0].0, es[0].1), es[1..], es[0].1, s', now)
  }

  // ---- What every interleaving keeps ----

  /** `wakePromises` lists exactly the spawns whose promise has not settled. */
  ghost predicate WakesAgree(s: State) {
    forall sid, p :: sid in s.wakes && s.wakes[sid] == p <==> p in s.spawns && s.spawns[p].session == sid
  }

  /** `activeContainers` lists every live process; an entry without one names no other session's. */
  ghost predicate ProcsListed(s: State) {
    (forall q :: q in s.procs ==> s.procs[q].session in s.active && s.active[s.procs[q].session] == q)
    && (forall sid :: sid in s.active && s.active[sid] in s.procs ==> s.procs[s.active[sid]].session == sid)
  }

  /** The entry of `sid` names `q`, and no handler is left that would ever drop it. */
  ghost predicate Stuck(s: State, sid: SessionId, q: Id) {
    sid in s.active && s.active[sid] == q && (q in s.procs ==> !Handled(s.procs[q]))
  }

  ghost predicate SetupsExclude(s: State) {
    (forall p :: InSetup(s, p) ==> s.spawns[p].session !in s.active && p !in s.procs)
    && (forall p :: p in s.spawns && s.spawns[p].phase == Broken && s.spawns[p].session in s.active
          ==> Stuck(s, s.spawns[p].session, p))
  }

  ghost predicate IdsUsed(s: State) {
    (forall p :: p in s.spawns ==> p < s.next && p !in s.results)
    && (forall p :: p in s.procs || p in s.results ==> p < s.next)
    && (forall sid :: sid in s.active ==> s.active[sid] < s.next && !InSetup(s, s.active[sid]))
  }

  /** The exit handler, if it was attached, is the first listener and the only one of its kind. */
  ghost predicate CleanupFirst(s: State) {
    forall q :: q in s.procs && Handled(s.procs[q]) ==>
      s.procs[q].listeners[0] == Cleanup && Cleanup !in s.procs[q].listeners[1..]
  }

  ghost predicate HeartbeatsFresh(s: State, now: nat) {
    (forall q :: q in s.procs ==> s.procs[q].launchedAt <= now)
    && (forall q :: q in s.procs && s.procs[q].session in s.heartbeat
          ==> s.procs[q].launchedAt <= s.heartbeat[s.procs[q].session])
  }

  ghost predicate Inv(s: State, now: nat) {
    WakesAgree(s) && ProcsListed(s) && SetupsExclude(s) && IdsUsed(s) && CleanupFirst(s) && HeartbeatsFresh(s, now)
  }

  lemma WakesOnly(s: State, sid: SessionId, listeners: seq<Listener>, known: bool)
    requires Cleanup !in listeners
    ensures FireAll(s, sid, listeners, known) == if known && WakeOnExit in listeners then Wake(s, sid).0 else s
    decreases |listeners|
  {
    if listeners == [] {
    } else {
      assert listeners[0] != Cleanup by { assert listeners[0] in listeners; }
      assert listeners[0] == WakeOnExit;
      WakesOnly(Fire(s, sid, WakeOnExit, known), sid, listeners[1..], known);
    }
  }

  /** The process is gone and its entry stays. */
  function Vanish(s: State, q: Id): State {
    s.(procs := s.procs - {q})
  }

  /** The exit handler runs first; however many callbacks follow, one wake results.
      Without an exit handler the entry stays and the callbacks start nothing. */
  lemma CloseIs(s: State, q: Id, known: bool, now: nat)
    requires Inv(s, now) && q in s.procs
    ensures var Proc(sid, _, listeners) := s.procs[q];
      Close(s, q, known)
      == if !Handled(s.procs[q]) then Vanish(s, q)
         else if known && WakeOnExit in listeners then Wake(Error(s, q), sid).0
         else Error(s, q)
  {
    var Proc(sid, _, listeners) := s.procs[q];
    if Handled(s.procs[q]) {
      assert listeners == [Cleanup] + listeners[1..];
      WakesOnly(Error(s, q), sid, listeners[1..], known);
    } else {
      WakesOnly(Vanish(s, q), sid, listeners, known);
    }
  }

  /** A spawn under a fresh id joins the two maps that list it. */
  lemma FreshWakeAgrees(s: State, sid: SessionId, s': State)
    requires WakesAgree(s) && s.next !in s.spawns && sid !in s.wakes
    requires s'.wakes == s.wakes[sid := s.next] && s'.spawns == s.spawns[s.next := Spawn(sid, Setup)]
    ensures WakesAgree(s')
  {
    forall x, p
      ensures x in s'.wakes && s'.wakes[x] == p <==> p in s'.spawns && s'.spawns[p].session == x
    {
      assert x in s.wakes && s.wakes[x] == p <==> p in s.spawns && s.spawns[p].session == x;
    }
  }

  lemma WakeKeepsInv(s: State, sid: SessionId, now: nat)
    requires Inv(s, now)
    ensures Inv(Wake(s, sid).0, now)
  {
    var s' := Wake(s, sid).0;
    if sid !in s.active && sid !in s.wakes {
      FreshWakeAgrees(s, sid, s');
      assert s'.procs == s.procs && s'.active == s.active && s'.results == s.results && s'.heartbeat == s.heartbeat;
    }
  }

  lemma ErrorKeepsInv(s: State, q: Id, now: nat)
    requires Inv(s, now) && q in s.procs && Quiet(s)
    ensures Inv(Error(s, q), now)
  {
    assert s.active[s.procs[q].session] == q;
  }

  lemma VanishKeepsInv(s: State, q: Id, now: nat)
    requires Inv(s, now) && q in s.procs && Quiet(s)
    ensures Inv(Vanish(s, q), now)
  {
  }

  lemma StartedListed(s: State, p: Id, now: nat, phase: Phase, listeners: seq<Listener>)
    requires ProcsListed(s) && IdsUsed(s) && SetupsExclude(s) && InSetup(s, p)
    ensures ProcsListed(Started(s, p, now, phase, listeners))
  {
  }

  lemma StartedExcludes(s: State, p: Id, now: nat, phase: Phase, listeners: seq<Listener>)
    requires WakesAgree(s) && SetupsExclude(s) && InSetup(s, p)
    requires phase == Launched || (phase == Broken && listeners == [])
    ensures SetupsExclude(Started(s, p, now, phase, listeners))
  {
    forall r | r in s.spawns && s.spawns[r].session == s.spawns[p].session ensures r == p {
      assert s.wakes[s.spawns[r].session] == r && s.wakes[s.spawns[r].session] == p;
    }
  }

  lemma StartedUsed(s: State, p: Id, now: nat, phase: Phase, listeners: seq<Listener>)
    requires IdsUsed(s) && InSetup(s, p) && phase != Setup
    ensures IdsUsed(Started(s, p, now, phase, listeners))
  {
  }

  lemma StartedAgrees(s: State, p: Id, now: nat, phase: Phase, listeners: seq<Listener>)
    requires WakesAgree(s) && InSetup(s, p)
    ensures WakesAgree(Started(s, p, now, phase, listeners))
  {
    assert s.wakes[s.spawns[p].session] == p;
  }

  lemma StartedFresh(s: State, p: Id, since: nat, now: nat, phase: Phase, listeners: seq<Listener>)
    requires ProcsListed(s) && SetupsExclude(s) && InSetup(s, p) && HeartbeatsFresh(s, since) && since <= now
    ensures HeartbeatsFresh(Started(s, p, now, phase, listeners), now)
  {
  }

  lemma StartedKeepsInv(s: State, p: Id, since: nat, now: nat, phase: Phase, listeners: seq<Listener>)
    requires Inv(s, since) && InSetup(s, p) && since <= now
    requires (phase == Launched && listeners == [Cleanup]) || (phase == Broken && listeners == [])
    ensures Inv(Started(s, p, now, phase, listeners), now)
  {
    StartedAgrees(s, p, now, phase, listeners);
    StartedListed(s, p, now, phase, listeners);
    StartedExcludes(s, p, now, phase, listeners);
    StartedUsed(s, p, now, phase, listeners);
    StartedFresh(s, p, since, now, phase, listeners);
  }

  lemma SettleKeepsInv(s: State, p: Id, now: nat)
    requires Inv(s, now) && p in s.spawns && s.spawns[p].phase != Setup
    ensures Inv(SettleWake(s, p), now)
  {
    SettleAgrees(s, p);
  }

  lemma SettleAgrees(s: State, p: Id)
    requires WakesAgree(s) && p in s.spawns && s.spawns[p].phase != Setup
    ensures WakesAgree(SettleWake(s, p))
  {
    var s', sid := SettleWake(s, p), s.spawns[p].session;
    assert s.wakes[sid] == p;
    forall x, r ensures x in s'.wakes && s'.wakes[x] == r <==> r in s'.spawns && s'.spawns[r].session == x {
      assert x in s.wakes && s.wakes[x] == r <==> r in s.spawns && s.spawns[r].session == x;
    }
  }

  /** More wakes on exit for live processes change nothing that the invariant speaks of. */
  ghost predicate OnlyListeners(s: State, s': State) {
    s' == s.(procs := s'.procs, kills := s'.kills) && s'.procs.Keys == s.procs.Keys
    && forall q :: q in s.procs ==>
         s'.procs[q] == s.procs[q].(listeners := s'.procs[q].listeners)
         && (Handled(s'.procs[q]) <==> Handled(s.procs[q]))
  }

  lemma ListenersExclude(s: State, s': State)
    requires OnlyListeners(s, s') && SetupsExclude(s)
    ensures SetupsExclude(s')
  {
  }

  lemma ListenersListed(s: State, s': State)
    requires OnlyListeners(s, s') && ProcsListed(s)
    ensures ProcsListed(s')
  {
  }

  lemma ListenersKeepInv(s: State, s': State, now: nat)
    requires OnlyListeners(s, s') && Inv(s, now) && CleanupFirst(s')
    ensures Inv(s', now)
  {
    ListenersExclude(s, s');
    ListenersListed(s, s');
  }

  lemma KillListeners(s: State, sid: SessionId, onExit: bool)
    requires CleanupFirst(s)
    ensures OnlyListeners(s, Kill(s, sid, onExit)) && CleanupFirst(Kill(s, sid, onExit))
  {
    if sid in s.active && s.active[sid] in s.procs && onExit {
      var listeners := s.procs[s.active[sid]].listeners;
      assert Cleanup in listeners + [WakeOnExit] <==> Cleanup in listeners;
      if Cleanup in listeners { assert (listeners + [WakeOnExit])[1..] == listeners[1..] + [WakeOnExit]; }
    }
  }

  lemma KillKeepsInv(s: State, sid: SessionId, onExit: bool, now: nat)
    requires Inv(s, now)
    ensures Inv(Kill(s, sid, onExit), now)
  {
    KillListeners(s, sid, onExit);
    ListenersKeepInv(s, Kill(s, sid, onExit), now);
  }

  lemma TouchKeepsInv(s: State, q: Id, since: nat, now: nat)
    requires Inv(s, since) && q in s.procs && since <= now
    ensures Inv(Touch(s, q, now), now)
  {
  }

  lemma BreakKeepsInv(s: State, p: Id, now: nat)
    requires Inv(s, now) && InSetup(s, p)
    ensures Inv(Break(s, p), now)
  {
  }

  lemma CloseKeepsInv(s: State, q: Id, known: bool, now: nat)
    requires Inv(s, now) && q in s.procs && Quiet(s)
    ensures Inv(Close(s, q, known), now)
  {
    CloseIs(s, q, known, now);
    if Handled(s.procs[q]) {
      ErrorKeepsInv(s, q, now);
      WakeKeepsInv(Error(s, q), s.procs[q].session, now);
    } else {
      VanishKeepsInv(s, q, now);
    }
  }

  lemma StepKeepsInv(s: State, e: Event, since: nat, now: nat)
    requires Inv(s, since) && Enabled(s, e) && since <= now
    ensures Inv(Apply(s, e, now), now)
  {
    match e
    case WakeCall(sid) => WakeKeepsInv(s, sid, since);
    case KillCall(sid, onExit) => KillKeepsInv(s, sid, onExit, since);
    case SpawnOk(p) => StartedKeepsInv(s, p, since, now, Launched, [Cleanup]);
    case SpawnError(p) => BreakKeepsInv(s, p, since);
    case SpawnUnmarked(p, _) => StartedKeepsInv(s, p, since, now, Broken, []);
    case WakeSettled(p) => SettleKeepsInv(s, p, since);
    case ProcClose(q, known) => CloseKeepsInv(s, q, known, since);
    case ProcError(q) => ErrorKeepsInv(s, q, since);
    case Beat(q) => TouchKeepsInv(s, q, since, now);
  }

  lemma {:induction false} RunKeepsInv(s: State, es: seq<(Event, nat)>, since: nat, s': State, now: nat)
    requires Inv(s, since) && Run(s, es, since, s', now)
    ensures Inv(s', now)
    decreases |es|
  {
    if es == [] {
    } else {
      StepKeepsInv(s, es[0].0, since, es[0].1);
      RunKeepsInv(Apply(s, es[0].0, es[0].1), es[1..], es[0].1, s', now);
    }
  }

  ghost predicate Reachable(s: State, now: nat) {
    exists es :: Run(START, es, 0, s, now)
  }

  lemma ReachableInv(s: State, now: nat)
    requires Reachable(s, now)
    ensures Inv(s, now)
  {
    var es :| Run(START, es, 0, s, now);
    RunKeepsInv(START, es, 0, s, now);
  }

  /** A container of `sid`: being set up, or live. */
  datatype Claim = BeingSpawned(p: Id) | Live(q: Id)

  ghost predicate Claims(s: State, sid: SessionId, c: Claim) {
    match c
    case BeingSpawned(p) => InSetup(s, p) && s.spawns[p].session == sid
    case Live(q) => q in s.procs && s.procs[q].session == sid
  }

  lemma OneClaim(s: State, now: nat, sid: SessionId, c: Claim, d: Claim)
    requires Inv(s, now) && Claims(s, sid, c) && Claims(s, sid, d)
    ensures c == d
    ensures sid in s.active <==> c.Live?
  {
    match c {
      case BeingSpawned(p) => assert s.wakes[sid] == p;
      case Live(q) => assert s.active[sid] == q;
    }
    match d {
      case BeingSpawned(p) => assert s.wakes[sid] == p;
      case Live(q) => assert s.active[sid] == q;
    }
  }

  /** In every interleaving a session has at most one container live or being spawned. */
  lemma OneContainerPerSession(s: State, now: nat, sid: SessionId, c: Claim, d: Claim)
    requires Reachable(s, now) && Claims(s, sid, c) && Claims(s, sid, d)
    ensures c == d
  {
    ReachableInv(s, now);
    OneClaim(s, now, sid, c, d);
  }

  /** While a spawn is being set up every wake of its session joins it. */
  lemma WakesJoin(s: State, now: nat, p: Id)
    requires Reachable(s, now) && InSetup(s, p)
    ensures Wake(s, s.spawns[p].session) == (s, Promise(p))
  {
    ReachableInv(s, now);
    assert s.wakes[s.spawns[p].session] == p;
  }

  // ---- A process that is listed without its handlers ----

  /** The processes that were started and listed, but not marked as running. */
  ghost function LostIn(es: seq<(Event, nat)>): set<(SessionId, Id)> {
    if es == [] then {}
    else (if es[0].0.SpawnUnmarked? then {(es[0].0.sid, es[0].0.p)} else {}) + LostIn(es[1..])
  }

  ghost predicate StuckAre(s: State, lost: set<(SessionId, Id)>) {
    forall sid, q: Id :: Stuck(s, sid, q) <==> (sid, q) in lost
  }

  lemma StartedSticks(
      s: State, p: Id, now: nat, phase: Phase, listeners: seq<Listener>, sid: SessionId, q: Id)
    requires SetupsExclude(s) && IdsUsed(s) && InSetup(s, p)
    ensures Stuck(Started(s, p, now, phase, listeners), sid, q)
       <==> Stuck(s, sid, q) || (sid == s.spawns[p].session && q == p && Cleanup !in listeners)
  {
  }

  lemma KillSticks(s: State, x: SessionId, onExit: bool, sid: SessionId, q: Id)
    ensures Stuck(Kill(s, x, onExit), sid, q) <==> Stuck(s, sid, q)
  {
  }

  lemma CloseSticks(s: State, r: Id, known: bool, now: nat, sid: SessionId, q: Id)
    requires Inv(s, now) && r in s.procs
    ensures Stuck(Close(s, r, known), sid, q) <==> Stuck(s, sid, q)
    ensures Handled(s.procs[r]) ==> (Stuck(Error(s, r), sid, q) <==> Stuck(s, sid, q))
  {
    CloseIs(s, r, known, now);
  }

  lemma StepSticks(s: State, e: Event, since: nat, now: nat, sid: SessionId, q: Id)
    requires Inv(s, since) && Enabled(s, e) && since <= now
    ensures Stuck(Apply(s, e, now), sid, q) <==> Stuck(s, sid, q) || e == SpawnUnmarked(q, sid)
  {
    match e
    case WakeCall(_) =>
    case KillCall(x, onExit) => KillSticks(s, x, onExit, sid, q);
    case SpawnOk(p) => StartedSticks(s, p, now, Launched, [Cleanup], sid, q);
    case SpawnError(_) =>
    case SpawnUnmarked(p, _) => StartedSticks(s, p, now, Broken, [], sid, q);
    case WakeSettled(_) =>
    case ProcClose(r, known) => CloseSticks(s, r, known, since, sid, q);
    case ProcError(r) => CloseSticks(s, r, true, since, sid, q);
    case Beat(_) =>
  }

  lemma {:induction false} RunSticks(
      s: State, es: seq<(Event, nat)>, since: nat, s': State, now: nat, lost: set<(SessionId, Id)>)
    requires Inv(s, since) && Run(s, es, since, s', now) && StuckAre(s, lost)
    ensures StuckAre(s', lost + LostIn(es))
    decreases |es|
  {
    if es == [] {
      assert lost + LostIn(es) == lost;
    } else {
      var (e, at) := es[0];
      var more := if e.SpawnUnmarked? then lost + {(e.sid, e.p)} else lost;
      StepKeepsInv(s, e, since, at);
      forall sid, q: Id ensures Stuck(Apply(s, e, at), sid, q) <==> (sid, q) in more {
        StepSticks(s, e, since, at, sid, q);
      }
      RunSticks(Apply(s, e, at), es[1..], at, s', now, more);
      assert more + LostIn(es[1..]) == lost + LostIn(es);
    }
  }

  lemma StuckIs(es: seq<(Event, nat)>, s: State, now: nat)
    requires Run(START, es, 0, s, now)
    ensures Inv(s, now) && StuckAre(s, LostIn(es))
  {
    RunKeepsInv(START, es, 0, s, now);
    RunSticks(START, es, 0, s, now, {});
    assert {} + LostIn(es) == LostIn(es);
  }

  /** `isContainerRunning` is true exactly while a container of the session is live, or
      once a process of it was listed without being marked. */
  lemma RunningIff(es: seq<(Event, nat)>, s: State, now: nat, sid: SessionId)
    requires Run(START, es, 0, s, now)
    ensures sid in s.active
       <==> (exists q :: Claims(s, sid, Live(q))) || (exists q :: (sid, q) in LostIn(es))
  {
    StuckIs(es, s, now);
    if sid in s.active {
      assert Stuck(s, sid, s.active[sid]) || Claims(s, sid, Live(s.active[sid]));
    }
    if q :| (sid, q) in LostIn(es) {
      assert Stuck(s, sid, q);
    } else if q :| Claims(s, sid, Live(q)) {
      OneClaim(s, now, sid, Live(q), Live(q));
    }
  }

  /** From then on every wake answers that the container is running, whether it is or
      not, and the session never gets another one. */
  lemma LostForGood(es: seq<(Event, nat)>, s: State, now: nat, sid: SessionId, q: Id)
    requires Run(START, es, 0, s, now) && (sid, q) in LostIn(es)
    ensures Wake(s, sid) == (s, AlreadyRunning)
    ensures forall c :: Claims(s, sid, c) ==> c == Live(q)
  {
    StuckIs(es, s, now);
    assert Stuck(s, sid, q);
  }

  // ---- The outcome of a joined wake ----

  ghost function LaunchedIn(es: seq<(Event, nat)>): set<Id> {
    if es == [] then {}
    else (if es[0].0.SpawnOk? then {es[0].0.p} else {}) + LaunchedIn(es[1..])
  }

  ghost predicate OutcomesMatch(s: State, launched: set<Id>) {
    (forall p :: p in s.spawns ==> (s.spawns[p].phase == Launched <==> p in launched))
    && (forall p :: p in s.results ==> (s.results[p] <==> p in launched))
    && (forall p :: p in launched ==> p < s.next)
  }

  lemma WakeMatches(s: State, sid: SessionId, now: nat, launched: set<Id>)
    requires Inv(s, now) && OutcomesMatch(s, launched)
    ensures OutcomesMatch(Wake(s, sid).0, launched)
  {
  }

  lemma LaunchMatches(s: State, p: Id, now: nat, launched: set<Id>)
    requires InSetup(s, p) && IdsUsed(s) && OutcomesMatch(s, launched)
    ensures OutcomesMatch(Launch(s, p, now), launched + {p})
  {
  }

  lemma SettleMatches(s: State, p: Id, launched: set<Id>)
    requires p in s.spawns && s.spawns[p].phase != Setup && OutcomesMatch(s, launched)
    ensures OutcomesMatch(SettleWake(s, p), launched)
  {
  }

  lemma CloseMatches(s: State, q: Id, known: bool, now: nat, launched: set<Id>)
    requires Inv(s, now) && q in s.procs && Quiet(s) && OutcomesMatch(s, launched)
    ensures OutcomesMatch(Close(s, q, known), launched)
  {
    CloseIs(s, q, known, now);
    if Handled(s.procs[q]) {
      ErrorKeepsInv(s, q, now);
      WakeMatches(Error(s, q), s.procs[q].session, now, launched);
    }
  }

  lemma StepMatches(s: State, e: Event, since: nat, now: nat, launched: set<Id>)
    requires Inv(s, since) && Enabled(s, e) && since <= now && OutcomesMatch(s, launched)
    ensures OutcomesMatch(Apply(s, e, now), if e.SpawnOk? then launched + {e.p} else launched)
  {
    match e
    case WakeCall(sid) => WakeMatches(s, sid, since, launched);
    case KillCall(sid, onExit) =>
    case SpawnOk(p) => LaunchMatches(s, p, now, launched);
    case SpawnError(p) =>
    case SpawnUnmarked(p, _) =>
    case WakeSettled(p) => SettleMatches(s, p, launched);
    case ProcClose(q, known) => CloseMatches(s, q, known, since, launched);
    case ProcError(q) =>
    case Beat(q) =>
  }

  lemma {:induction false} RunMatches(
      s: State, es: seq<(Event, nat)>, since: nat, s': State, now: nat, launched: set<Id>)
    requires Inv(s, since) && Run(s, es, since, s', now) && OutcomesMatch(s, launched)
    ensures OutcomesMatch(s', launched + LaunchedIn(es))
    decreases |es|
  {
    if es == [] {
      assert launched + LaunchedIn(es) == launched;
    } else {
      var (e, at) := es[0];
      var more := if e.SpawnOk? then launched + {e.p} else launched;
      StepKeepsInv(s, e, since, at);
      StepMatches(s, e, since, at, launched);
      RunMatches(Apply(s, e, at), es[1..], at, s', now, more);
      assert more + LaunchedIn(es[1..]) == launched + LaunchedIn(es);
    }
  }

  /** Every caller that holds promise `p` gets one answer: true exactly when the setup came
      to its end, with the process listed, marked and watched. */
  lemma WakeOutcome(es: seq<(Event, nat)>, s: State, now: nat, p: Id)
    requires Run(START, es, 0, s, now) && p in s.results
    ensures s.results[p] <==> p in LaunchedIn(es)
  {
    RunMatches(START, es, 0, s, now, {});
    assert {} + LaunchedIn(es) == LaunchedIn(es);
  }

  /** After a failed spawn the next wake starts a new attempt, unless the process was
      already listed: then no wake ever does. */
  lemma FailedSpawnWakeable(es: seq<(Event, nat)>, s: State, now: nat, p: Id)
    requires Run(START, es, 0, s, now) && p in s.spawns && s.spawns[p].phase == Broken
    ensures var after := SettleWake(s, p); var sid := s.spawns[p].session;
      !after.results[p]
      && if (sid, p) in LostIn(es) then Wake(after, sid) == (after, AlreadyRunning)
         else Wake(after, sid).1 == Promise(s.next) && InSetup(Wake(after, sid).0, s.next)
  {
    StuckIs(es, s, now);
    assert Stuck(s, s.spawns[p].session, p) <==> (s.spawns[p].session, p) in LostIn(es);
  }

  // ---- Restart ----

  /** What a live process keeps: its session, its listeners, and whether it is watched. */
  ghost predicate Continues(before: Proc, after: Proc) {
    after.session == before.session && before.listeners <= after.listeners && (Handled(after) <==> Handled(before))
  }

  /** Ids are never used twice: a live process was live before or in its setup, and a
      setup was under way before or is new. */
  ghost predicate Evolves(s: State, s': State) {
    s.next <= s'.next
    && (forall q :: q in s'.procs ==> InSetup(s, q) || (q in s.procs && Continues(s.procs[q], s'.procs[q])))
    && (forall q: Id :: InSetup(s', q) ==> InSetup(s, q) || q >= s.next)
  }

  lemma StartedEvolves(s: State, p: Id, now: nat, phase: Phase, listeners: seq<Listener>)
    requires InSetup(s, p) && phase != Setup
    ensures Evolves(s, Started(s, p, now, phase, listeners))
  {
  }

  lemma KillEvolves(s: State, sid: SessionId, onExit: bool)
    ensures Evolves(s, Kill(s, sid, onExit))
  {
  }

  lemma CloseEvolves(s: State, q: Id, known: bool, now: nat)
    requires Inv(s, now) && q in s.procs
    ensures Evolves(s, Close(s, q, known)) && q !in Close(s, q, known).procs
  {
    CloseIs(s, q, known, now);
  }

  lemma StepEvolves(s: State, e: Event, since: nat, now: nat)
    requires Inv(s, since) && Enabled(s, e) && since <= now
    ensures Evolves(s, Apply(s, e, now))
  {
    match e
    case WakeCall(_) =>
    case KillCall(sid, onExit) => KillEvolves(s, sid, onExit);
    case SpawnOk(p) => StartedEvolves(s, p, now, Launched, [Cleanup]);
    case SpawnError(_) =>
    case SpawnUnmarked(p, _) => StartedEvolves(s, p, now, Broken, []);
    case WakeSettled(_) =>
    case ProcClose(q, known) => CloseEvolves(s, q, known, since);
    case ProcError(_) =>
    case Beat(_) =>
  }

  lemma {:induction false} DeadStaysDead(s: State, es: seq<(Event, nat)>, since: nat, s': State, now: nat, q: Id)
    requires Inv(s, since) && Run(s, es, since, s', now)
    requires q < s.next && q !in s.procs && !InSetup(s, q)
    ensures q !in s'.procs
    decreases |es|
  {
    if es == [] {
    } else {
      StepKeepsInv(s, es[0].0, since, es[0].1);
      StepEvolves(s, es[0].0, since, es[0].1);
      DeadStaysDead(Apply(s, es[0].0, es[0].1), es[1..], es[0].1, s', now, q);
    }
  }

  lemma {:induction false} RunContinues(s: State, es: seq<(Event, nat)>, since: nat, s': State, now: nat, q: Id)
    requires Inv(s, since) && Run(s, es, since, s', now) && q in s.procs && q in s'.procs
    ensures Continues(s.procs[q], s'.procs[q])
    decreases |es|
  {
    if es == [] {
    } else {
      var next, at := Apply(s, es[0].0, es[0].1), es[0].1;
      StepKeepsInv(s, es[0].0, since, at);
      StepEvolves(s, es[0].0, since, at);
      if q !in next.procs { DeadStaysDead(next, es[1..], at, s', now, q); }
      RunContinues(next, es[1..], at, s', now, q);
    }
  }

  lemma WakeNamesSpawn(s: State, sid: SessionId)
    requires WakesAgree(s) && sid in s.wakes
    ensures s.wakes[sid] in s.spawns && s.spawns[s.wakes[sid]].session == sid
  {
  }

  lemma LiveNotWaking(s: State, sid: SessionId, now: nat)
    requires Inv(s, now) && Quiet(s) && sid in s.active
    ensures sid !in s.wakes
  {
    if sid in s.wakes { WakeNamesSpawn(s, sid); }
  }

  /** The session of `s`, set up afresh under the next id. */
  ghost predicate Respawning(s: State, sid: SessionId, p: Id) {
    p in s.spawns && s.spawns[p] == Spawn(sid, Setup) && sid in s.wakes && s.wakes[sid] == p && sid !in s.active
  }

  lemma CloseRespawns(s: State, q: Id, now: nat)
    requires Inv(s, now) && Quiet(s) && q in s.procs && Handled(s.procs[q]) && WakeOnExit in s.procs[q].listeners
    ensures Respawning(Close(s, q, true), s.procs[q].session, s.next)
  {
    var sid := s.procs[q].session;
    assert sid in s.active && s.active[sid] == q;
    LiveNotWaking(s, sid, now);
    CloseIs(s, q, true, now);
  }

  /** Kill with a wake on exit, then anything at all until the process closes: the callback
      finds the dead entry gone and starts one fresh spawn - if the process is watched. */
  lemma RestartRespawns(s: State, since: nat, sid: SessionId, q: Id, es: seq<(Event, nat)>, s': State, now: nat)
    requires Reachable(s, since) && Claims(s, sid, Live(q))
    requires Run(Kill(s, sid, true), es, since, s', now)
    requires q in s'.procs && Quiet(s')
    ensures if Handled(s.procs[q]) then Respawning(Close(s', q, true), sid, s'.next)
            else Close(s', q, true) == Vanish(s', q)
  {
    var killed := Kill(s, sid, true);
    ReachableInv(s, since);
    KillKeepsInv(s, sid, true, since);
    assert WakeOnExit in killed.procs[q].listeners && Continues(s.procs[q], killed.procs[q]);
    RunContinues(killed, es, since, s', now, q);
    RunKeepsInv(killed, es, since, s', now);
    CloseIs(s', q, true, now);
    if Handled(s.procs[q]) { CloseRespawns(s', q, now); }
  }

  // ---- What a restart of a group does ----

  function KillEvents(targets: seq<SessionId>, wakeMessage: bool, pending: set<SessionId>, at: nat): seq<(Event, nat)>
    decreases |targets|
  {
    if targets == [] then []
    else
      [(KillCall(targets[0], wakeMessage || targets[0] in pending), at)]
      + KillEvents(targets[1..], wakeMessage, pending, at)
  }

  /** It is a run of kills, so everything proved of runs holds across it. */
  lemma {:induction false} RestartIsKills(
      s: State, targets: seq<SessionId>, wakeMessage: bool, pending: set<SessionId>, at: nat)
    ensures Run(s, KillEvents(targets, wakeMessage, pending, at), at, Restart(s, targets, wakeMessage, pending), at)
    decreases |targets|
  {
    if targets == [] {
    } else {
      var onExit := wakeMessage || targets[0] in pending;
      var rest := KillEvents(targets[1..], wakeMessage, pending, at);
      assert ([(KillCall(targets[0], onExit), at)] + rest)[1..] == rest;
      RestartIsKills(Kill(s, targets[0], onExit), targets[1..], wakeMessage, pending, at);
    }
  }

  lemma {:induction false} RunningIs(active: map<SessionId, Id>, sessions: seq<SessionId>, x: SessionId)
    ensures x in Running(active, sessions) <==> x in sessions && x in active
    decreases |sessions|
  {
    if sessions == [] {
    } else {
      RunningIs(active, sessions[1..], x);
      assert sessions == [sessions[0]] + sessions[1..];
    }
  }

  /** The process with the wake on exit its session asks for. */
  function Marked(p: Proc, wake: bool): Proc {
    if wake then p.(listeners := p.listeners + [WakeOnExit]) else p
  }

  /** The processes that the entries of these sessions name, in order. */
  ghost function Entries(active: map<SessionId, Id>, targets: seq<SessionId>): seq<Id> {
    if targets == [] then []
    else (if targets[0] in active then [active[targets[0]]] else []) + Entries(active, targets[1..])
  }

  lemma EntriesFirst(active: map<SessionId, Id>, targets: seq<SessionId>)
    requires targets != []
    ensures Entries(active, targets) == Entries(active, [targets[0]]) + Entries(active, targets[1..])
  {
    assert [targets[0]][1..] == [];
  }

  lemma KillMarks(s: State, sid: SessionId, onExit: bool, now: nat)
    requires Inv(s, now)
    ensures var s' := Kill(s, sid, onExit);
      s' == s.(procs := s'.procs, kills := s'.kills) && s'.procs.Keys == s.procs.Keys
      && s'.kills == s.kills + Entries(s.active, [sid])
      && forall q :: q in s.procs ==> s'.procs[q] == Marked(s.procs[q], s.procs[q].session == sid && onExit)
  {
    forall q | q in s.procs ensures s.procs[q].session == sid <==> sid in s.active && s.active[sid] == q {
      assert sid in s.active && s.active[sid] == q <==> q in s.procs && s.procs[q].session == sid;
    }
  }

  predicate Wanted(sid: SessionId, targets: seq<SessionId>, wakeMessage: bool, pending: set<SessionId>) {
    sid in targets && (wakeMessage || sid in pending)
  }

  predicate AllDistinct(targets: seq<SessionId>) {
    forall i, j :: 0 <= i < j < |targets| ==> targets[i] != targets[j]
  }

  lemma TargetsSplit(targets: seq<SessionId>, x: SessionId)
    requires targets != [] && AllDistinct(targets)
    ensures x in targets <==> x == targets[0] || x in targets[1..]
    ensures targets[0] !in targets[1..]
    ensures AllDistinct(targets[1..])
  {
    assert targets == [targets[0]] + targets[1..];
    assert forall i :: 0 <= i < |targets| - 1 ==> targets[1..][i] == targets[i + 1];
  }

  /** Marking for the first target and then for the rest is marking for all. */
  lemma MarkedTwice(p: Proc, targets: seq<SessionId>, wakeMessage: bool, pending: set<SessionId>)
    requires targets != [] && AllDistinct(targets)
    ensures var once := Marked(p, p.session == targets[0] && (wakeMessage || p.session in pending));
      Marked(once, Wanted(p.session, targets[1..], wakeMessage, pending))
      == Marked(p, Wanted(p.session, targets, wakeMessage, pending))
  {
    TargetsSplit(targets, p.session);
  }

  /** What `after` holds is `before`, with every target told to stop once, in order, and
      exactly the wanted ones marked once. */
  ghost predicate MarksExactly(
      before: State, after: State, targets: seq<SessionId>, wakeMessage: bool, pending: set<SessionId>)
  {
    after == before.(procs := after.procs, kills := before.kills + Entries(before.active, targets))
    && after.procs.Keys == before.procs.Keys
    && forall q :: q in before.procs ==>
         after.procs[q] == Marked(before.procs[q], Wanted(before.procs[q].session, targets, wakeMessage, pending))
  }

  lemma MarksCompose(
      s: State, mid: State, s': State, targets: seq<SessionId>, wakeMessage: bool, pending: set<SessionId>)
    requires targets != [] && AllDistinct(targets)
    requires mid == s.(procs := mid.procs, kills := s.kills + Entries(s.active, [targets[0]]))
    requires mid.procs.Keys == s.procs.Keys
    requires forall q :: q in s.procs ==>
      mid.procs[q] == Marked(s.procs[q], s.procs[q].session == targets[0] && (wakeMessage || targets[0] in pending))
    requires MarksExactly(mid, s', targets[1..], wakeMessage, pending)
    ensures MarksExactly(s, s', targets, wakeMessage, pending)
  {
    EntriesFirst(s.active, targets);
    forall q | q in s.procs
      ensures s'.procs[q] == Marked(s.procs[q], Wanted(s.procs[q].session, targets, wakeMessage, pending))
    {
      MarkedTwice(s.procs[q], targets, wakeMessage, pending);
    }
  }

  /** Exactly the processes of targets that have a reason to come back get the wake on
      exit, once each, and nothing else changes. */
  lemma {:induction false} RestartMarksExactly(
      s: State, targets: seq<SessionId>, wakeMessage: bool, pending: set<SessionId>, now: nat)
    requires Inv(s, now) && AllDistinct(targets)
    ensures MarksExactly(s, Restart(s, targets, wakeMessage, pending), targets, wakeMessage, pending)
    decreases |targets|
  {
    if targets == [] {
    } else {
      var sid, rest := targets[0], targets[1..];
      var mid := Kill(s, sid, wakeMessage || sid in pending);
      KillMarks(s, sid, wakeMessage || sid in pending, now);
      KillKeepsInv(s, sid, wakeMessage || sid in pending, now);
      TargetsSplit(targets, sid);
      RestartMarksExactly(mid, rest, wakeMessage, pending, now);
      MarksCompose(s, mid, Restart(mid, rest, wakeMessage, pending), targets, wakeMessage, pending);
    }
  }

  lemma {:induction false} RunningCat(active: map<SessionId, Id>, a: seq<SessionId>, b: seq<SessionId>)
    ensures Running(active, a + b) == Running(active, a) + Running(active, b)
    decreases |a|
  {
    if a == [] {
      assert a + b == b;
    } else {
      assert (a + b)[0] == a[0] && (a + b)[1..] == a[1..] + b;
      RunningCat(active, a[1..], b);
    }
  }

  lemma {:induction false} RunningDistinct(active: map<SessionId, Id>, sessions: seq<SessionId>)
    requires AllDistinct(sessions)
    ensures AllDistinct(Running(active, sessions))
    decreases |sessions|
  {
    if sessions == [] {
    } else {
      var rest := Running(active, sessions[1..]);
      TargetsSplit(sessions, sessions[0]);
      RunningDistinct(active, sessions[1..]);
      RunningIs(active, sessions[1..], sessions[0]);
      assert forall i :: 0 <= i < |rest| ==> rest[i] in rest;
    }
  }

  lemma {:induction false} DistinctCount(xs: seq<SessionId>)
    requires AllDistinct(xs)
    ensures |set x | x in xs| == |xs|
    decreases |xs|
  {
    if xs == [] {
    } else {
      var all, rest := (set x | x in xs), (set x | x in xs[1..]);
      TargetsSplit(xs, xs[0]);
      DistinctCount(xs[1..]);
      forall x ensures x in all <==> x in rest + {xs[0]} { TargetsSplit(xs, x); }
      assert all == rest + {xs[0]};
    }
  }

  lemma TargetsCount(active: map<SessionId, Id>, sessions: seq<SessionId>)
    requires AllDistinct(sessions)
    ensures |Running(active, sessions)| == |set x | x in sessions && x in active|
  {
    var targets := Running(active, sessions);
    RunningDistinct(active, sessions);
    DistinctCount(targets);
    forall x ensures x in targets <==> x in sessions && x in active { RunningIs(active, sessions, x); }
    assert (set x | x in targets) == (set x | x in sessions && x in active);
  }

  /** The restart of a group, if nothing throws: each listed session of it is told to stop
      exactly once, in order, those with a reason to come back wake on exit once, and the
      count is the number of listed sessions. */
  lemma GroupRestarts(s: State, now: nat, sessions: seq<SessionId>, wakeMessage: bool, pending: set<SessionId>)
    requires Reachable(s, now) && AllDistinct(sessions)
    ensures var targets := Running(s.active, sessions);
      MarksExactly(s, Restart(s, targets[..Reached(targets, {})], wakeMessage, pending), targets, wakeMessage, pending)
      && AllDistinct(targets) && (forall x :: x in targets <==> x in sessions && x in s.active)
      && |targets| == |set x | x in sessions && x in s.active|
  {
    var targets := Running(s.active, sessions);
    ReachableInv(s, now);
    RunningDistinct(s.active, sessions);
    RestartMarksExactly(s, targets, wakeMessage, pending, now);
    assert targets[..Reached(targets, {})] == targets;
    forall x ensures x in targets <==> x in sessions && x in s.active { RunningIs(s.active, sessions, x); }
    TargetsCount(s.active, sessions);
  }

  // ---- Why one exit event per process matters ----

  /** The exit handlers drop the entry by session, not by process. */
  function HandlerAgain(s: State, sid: SessionId): State {
    s.(active := s.active - {sid})
  }

  ghost predicate TwoLive(s: State, sid: SessionId) {
    exists q, r :: q != r && Claims(s, sid, Live(q)) && Claims(s, sid, Live(r))
  }

  ghost predicate CanDouble(s: State, now: nat, sid: SessionId) {
    exists es, s', later :: Run(s, es, now, s', later) && TwoLive(s', sid)
  }

  lemma {:induction false} RunAppend(
      s: State, es: seq<(Event, nat)>, since: nat, mid: State, now: nat, fs: seq<(Event, nat)>, s': State, later: nat)
    requires Run(s, es, since, mid, now) && Run(mid, fs, now, s', later)
    ensures Run(s, es + fs, since, s', later)
    decreases |es|
  {
    if es == [] {
      assert es + fs == fs;
    } else {
      assert (es + fs)[0] == es[0] && (es + fs)[1..] == es[1..] + fs;
      RunAppend(Apply(s, es[0].0, es[0].1), es[1..], es[0].1, mid, now, fs, s', later);
    }
  }

  /** A wake whose spawn succeeds at once. */
  lemma SecondContainer(s: State, now: nat, sid: SessionId) returns (es: seq<(Event, nat)>)
    requires sid !in s.active && sid !in s.wakes
    ensures Run(s, es, now, Launch(Wake(s, sid).0, s.next, now), now)
  {
    var woken := Wake(s, sid).0;
    es := [(WakeCall(sid), now), (SpawnOk(s.next), now)];
    assert es[1..][1..] == [] && es[1..] == [(SpawnOk(s.next), now)];
    assert Run(Launch(woken, s.next, now), [], now, Launch(woken, s.next, now), now);
    assert Run(woken, es[1..], now, Launch(woken, s.next, now), now);
  }

  lemma AgainKeepsInv(s: State, sid: SessionId, now: nat)
    requires Inv(s, now) && Quiet(s) && !exists q :: Claims(s, sid, Live(q))
    ensures Inv(HandlerAgain(s, sid), now)
  {
    assert forall q :: q in s.procs && s.procs[q].session == sid ==> Claims(s, sid, Live(q));
  }

  /** A second exit event of a dead process can lead to two live containers of its session
      exactly when the session has been brought up again by then. */
  lemma SecondExitDoublesIff(s: State, now: nat, sid: SessionId)
    requires Reachable(s, now) && Quiet(s)
    ensures CanDouble(HandlerAgain(s, sid), now, sid) <==> exists q :: Claims(s, sid, Live(q))
  {
    ReachableInv(s, now);
    var again := HandlerAgain(s, sid);
    if q :| Claims(s, sid, Live(q)) {
      LiveNotWaking(s, sid, now);
      var es := SecondContainer(again, now, sid);
      var doubled := Launch(Wake(again, sid).0, s.next, now);
      assert Claims(doubled, sid, Live(q)) && Claims(doubled, sid, Live(s.next));
      assert TwoLive(doubled, sid);
    } else if CanDouble(again, now, sid) {
      var es, s', later :| Run(again, es, now, s', later) && TwoLive(s', sid);
      var q, r :| q != r && Claims(s', sid, Live(q)) && Claims(s', sid, Live(r));
      AgainKeepsInv(s, sid, now);
      RunKeepsInv(again, es, now, s', later);
      OneClaim(s', later, sid, Live(q), Live(r));
    }
  }

  lemma OneStep(s: State, e: Event)
    requires Enabled(s, e)
    ensures Run(s, [(e, 0)], 0, Apply(s, e, 0), 0)
  {
    assert Run(Apply(s, e, 0), [], 0, Apply(s, e, 0), 0);
  }

  /** A wake of an idle session brings up one live container. */
  lemma BringUp(s: State, sid: SessionId) returns (es: seq<(Event, nat)>, s': State)
    requires sid !in s.active && s.wakes == map[] && s.spawns == map[]
    ensures Run(s, es, 0, s', 0)
    ensures s'.wakes == map[] && s'.spawns == map[] && s'.next == s.next + 1
    ensures s'.active == s.active[sid := s.next]
    ensures s'.procs == s.procs[s.next := Proc(sid, 0, [Cleanup])]
  {
    var p := s.next;
    var a := Wake(s, sid).0;
    var b := Launch(a, p, 0);
    s' := SettleWake(b, p);
    OneStep(s, WakeCall(sid));
    OneStep(a, SpawnOk(p));
    OneStep(b, WakeSettled(p));
    RunAppend(s, [(WakeCall(sid), 0)], 0, a, 0, [(SpawnOk(p), 0)], b, 0);
    es := [(WakeCall(sid), 0)] + [(SpawnOk(p), 0)] + [(WakeSettled(p), 0)];
    RunAppend(s, [(WakeCall(sid), 0)] + [(SpawnOk(p), 0)], 0, b, 0, [(WakeSettled(p), 0)], s', 0);
  }

  /** A wake, an exit, and a wake again. */
  lemma BroughtUpTwice(sid: SessionId) returns (es: seq<(Event, nat)>, s: State)
    ensures Run(START, es, 0, s, 0)
    ensures s.wakes == map[] && s.spawns == map[] && s.next == 2
    ensures s.procs == map[1 := Proc(sid, 0, [Cleanup])]
  {
    var first, a := BringUp(START, sid);
    var b := Error(a, 0);
    OneStep(a, ProcError(0));
    RunAppend(START, first, 0, a, 0, [(ProcError(0), 0)], b, 0);
    assert b.procs == map[] && b.active == map[];
    var second;
    second, s := BringUp(b, sid);
    es := first + [(ProcError(0), 0)] + second;
    RunAppend(START, first + [(ProcError(0), 0)], 0, b, 0, second, s, 0);
  }

  /** If a dead process could emit a second exit event after its session was
      woken again, that session would end up with two live containers. */
  lemma SecondExitDuplicates(sid: SessionId) returns (s1: State, es: seq<(Event, nat)>, s2: State)
    ensures Reachable(s1, 0) && 0 !in s1.procs
    ensures Run(HandlerAgain(s1, sid), es, 0, s2, 0)
    ensures Claims(s2, sid, Live(1)) && Claims(s2, sid, Live(2))
  {
    var from;
    from, s1 := BroughtUpTwice(sid);
    es, s2 := BringUp(HandlerAgain(s1, sid), sid);
  }

  // ---- The heartbeat of a live container is its own ----

  /** A live container's heartbeat file, if there is one, was touched after its launch. */
  lemma HeartbeatIsOwn(s: State, now: nat, q: Id)
    requires Reachable(s, now) && q in s.procs
    ensures s.procs[q].launchedAt <= now
    ensures s.procs[q].session in s.heartbeat ==> s.procs[q].launchedAt <= s.heartbeat[s.procs[q].session]
  {
    ReachableInv(s, now);
  }
}
