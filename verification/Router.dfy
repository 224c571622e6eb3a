/** Fan-out of one inbound message to the agents wired to its chat, and the
    sessions that grow from it (src/router.ts, src/session-manager.ts,
    src/db/sessions.ts). A session's existence is the subscription state of a
    `mention-sticky` wiring, so whether an agent engages depends on everything
    routed before.

    Between `evaluateEngage` and `resolveSession` nothing is awaited, so one
    wiring's turn is one step; messages routed concurrently interleave as turns.
    What the gates, the pattern and the command filter answer is given. */
module Router {
  import opened Options

  datatype EngageMode = Pattern | Mention | MentionSticky | Unrecognized

  datatype SessionMode = Shared | PerThread | AgentShared

  /** Where `deliverToAgent` throws, if it does: before the session row is written, after it,
      or after the message is stored, where the session's time stamp is still to be written
      and a wake still looks the session up. */
  datatype Fault = NoFault | BeforeRow | AfterRow | AfterStore

  /** `threads` is what the channel declares for this kind of chat; `supportsThreads` and
      `canSubscribe` are the live adapter's. */
  datatype Chat = Chat(id: string, isGroup: bool, threads: bool, supportsThreads: bool, canSubscribe: bool)

  datatype Event = Event(thread: Option<string>, mention: bool)

  datatype Wiring = Wiring(
    agent: string, engage: EngageMode, mode: SessionMode, accumulate: bool, threads: Option<bool>)

  /** A wiring and what the world answers about it for one message. */
  datatype Wired = Wired(
    w: Wiring, known: bool, pattern: bool, access: bool, scope: bool, filtered: bool, fault: Fault)

  datatype Session = Session(id: nat, agent: string, mg: Option<string>, thread: Option<string>)

  // ---- Session lookup ----

  predicate Keyed(s: Session, agent: string, mg: Option<string>, thread: Option<string>) {
    s.agent == agent && s.mg == mg && s.thread == thread
  }

  /** The row with this key, if there is one. */
  function Find(ss: seq<Session>, agent: string, mg: Option<string>, thread: Option<string>): (r: Option<Session>)
    ensures r.Some? <==> exists s :: s in ss && Keyed(s, agent, mg, thread)
    ensures r.Some? ==> r.value in ss && Keyed(r.value, agent, mg, thread)
    decreases |ss|
  {
    if ss == [] then None
    else if Keyed(ss[0], agent, mg, thread) then Some(ss[0])
    else Find(ss[1..], agent, mg, thread)
  }

  /** The lookup compares with NULL when the thread id is absent or empty. */
  function Lookup(thread: Option<string>): Option<string> {
    if thread == Some("") then None else thread
  }

  const TASK_THREAD := "system:tasks"

  predicate IsSystem(s: Session) {
    s.mg == None && s.thread.Some? && "system:" <= s.thread.value
  }

  /** The newest session of the agent that is not a system one. */
  function FindByAgent(ss: seq<Session>, agent: string): (r: Option<Session>)
    ensures r.Some? <==> exists s :: s in ss && s.agent == agent && !IsSystem(s)
    ensures r.Some? ==> r.value in ss && r.value.agent == agent && !IsSystem(r.value)
    decreases |ss|
  {
    if ss == [] then None
    else
      var last := ss[|ss| - 1];
      if last.agent == agent && !IsSystem(last) then Some(last) else FindByAgent(ss[..|ss| - 1], agent)
  }

  predicate Named(mg: Option<string>) {
    mg.Some? && mg.value != ""
  }

  function Existing(ss: seq<Session>, agent: string, mg: Option<string>, thread: Option<string>, mode: SessionMode)
    : Option<Session>
  {
    if mode == AgentShared then FindByAgent(ss, agent)
    else if Named(mg) then Find(ss, agent, mg, Lookup(if mode == Shared then None else thread))
    else None
  }

  /** The row `resolveSession` would insert. */
  function NewRow(ss: seq<Session>, agent: string, mg: Option<string>, thread: Option<string>, mode: SessionMode): Session {
    Session(|ss|, agent, mg, if mode == PerThread then thread else None)
  }

  function Resolve(ss: seq<Session>, agent: string, mg: Option<string>, thread: Option<string>, mode: SessionMode)
    : (seq<Session>, Session)
  {
    var found := Existing(ss, agent, mg, thread, mode);
    if found.Some? then (ss, found.value)
    else var row := NewRow(ss, agent, mg, thread, mode); (ss + [row], row)
  }

  function TaskKey(series: string): Option<string> {
    Some(TASK_THREAD + ":" + series)
  }

  function ResolveTask(ss: seq<Session>, agent: string, series: string): (seq<Session>, Session) {
    var found := Find(ss, agent, None, TaskKey(series));
    if found.Some? then (ss, found.value)
    else var row := Session(|ss|, agent, None, TaskKey(series)); (ss + [row], row)
  }

  // ---- One wiring's turn ----

  predicate ThreadsOn(w: Wiring, c: Chat) {
    (if w.threads.Some? then w.threads.value else c.threads) && c.supportsThreads
  }

  function EffectiveThread(w: Wiring, c: Chat, e: Event): Option<string> {
    if ThreadsOn(w, c) then e.thread else None
  }

  function EffectiveMode(w: Wiring, c: Chat): SessionMode {
    if ThreadsOn(w, c) && w.mode != AgentShared && c.isGroup then PerThread else w.mode
  }

  predicate Engages(ss: seq<Session>, c: Chat, e: Event, a: Wired) {
    match a.w.engage
    case Pattern => a.pattern
    case Mention => e.mention
    case MentionSticky =>
      e.mention || (c.isGroup && Find(ss, a.w.agent, Some(c.id), Lookup(EffectiveThread(a.w, c, e))).Some?)
    case Unrecognized => false
  }

  datatype Plan = Skip | Wake | Keep

  function Decide(ss: seq<Session>, c: Chat, e: Event, a: Wired): Plan {
    if !a.known then Skip
    else
      var engages := Engages(ss, c, e, a);
      var accessOk := engages && a.access;
      var scopeOk := engages && a.scope;
      if engages && accessOk && scopeOk then Wake
      else if a.w.accumulate && !(engages && (!accessOk || !scopeOk)) then Keep
      else Skip
  }

  function Resolved(ss: seq<Session>, c: Chat, e: Event, a: Wired): (seq<Session>, Session) {
    Resolve(ss, a.w.agent, Some(c.id), EffectiveThread(a.w, c, e), EffectiveMode(a.w, c))
  }

  function AfterTurn(ss: seq<Session>, c: Chat, e: Event, a: Wired): seq<Session> {
    if Decide(ss, c, e, a) == Skip || a.fault == BeforeRow then ss else Resolved(ss, c, e, a).0
  }

  /** A message written to a session, and whether it triggers the agent. */
  datatype Stored = Stored(session: nat, trigger: bool)

  /** What one message has done so far. */
  datatype Fan = Fan(
    sessions: seq<Session>, stored: seq<Stored>, engaged: nat, accumulated: nat, subscribed: seq<string>)

  predicate Subscribes(c: Chat, e: Event, a: Wired) {
    a.w.engage == MentionSticky && c.canSubscribe && EffectiveThread(a.w, c, e).Some? && c.isGroup
  }

  /** Does the turn throw? A filtered message is not stored, so nothing comes after that. */
  predicate Throws(a: Wired) {
    a.fault in {BeforeRow, AfterRow} || (a.fault == AfterStore && !a.filtered)
  }

  function Turned(f: Fan, c: Chat, e: Event, a: Wired): Fan {
    var plan := Decide(f.sessions, c, e, a);
    if plan == Skip then f
    else if a.fault == BeforeRow then f
    else
      var (ss, s) := Resolved(f.sessions, c, e, a);
      if a.fault == AfterRow then f.(sessions := ss)
      else
        var stored := if a.filtered then f.stored else f.stored + [Stored(s.id, plan == Wake)];
        if Throws(a) then f.(sessions := ss, stored := stored)
        else if plan == Keep then f.(sessions := ss, stored := stored, accumulated := f.accumulated + 1)
        else
          var subs := if f.subscribed == [] && Subscribes(c, e, a)
                      then [EffectiveThread(a.w, c, e).value] else f.subscribed;
          Fan(ss, stored, f.engaged + 1, f.accumulated, subs)
  }

  function FanOut(f: Fan, c: Chat, e: Event, agents: seq<Wired>): Fan
    decreases |agents|
  {
    if agents == [] then f else FanOut(Turned(f, c, e, agents[0]), c, e, agents[1..])
  }

  // ---- The router ----

  datatype Drop = NoAgentWired | NoAgentEngaged

  class RouterHost {
    var sessions: seq<Session>
    var stored: seq<Stored>
    var drops: seq<Drop>
    var subscribes: seq<string>
    var escalations: nat
    var chatsCreated: nat

    constructor ()
      ensures sessions == [] && stored == [] && drops == [] && subscribes == []
      ensures escalations == 0 && chatsCreated == 0
    {
      sessions, stored, drops, subscribes, escalations, chatsCreated := [], [], [], [], 0, 0;
    }

    method ResolveSession(agent: string, mg: Option<string>, thread: Option<string>, mode: SessionMode)
      returns (session: Session, created: bool)
      modifies `sessions
      ensures (sessions, session) == Resolve(old(sessions), agent, mg, thread, mode)
      ensures created <==> sessions != old(sessions)
    {
      if mode == AgentShared {
        var existing := FindByAgent(sessions, agent);
        if existing.Some? {
          return existing.value, false;
        }
      } else if Named(mg) {
        var lookup := if mode == Shared then None else thread;
        var existing := Find(sessions, agent, mg, Lookup(lookup));
        if existing.Some? {
          return existing.value, false;
        }
      }
      session := Session(|sessions|, agent, mg, if mode == PerThread then thread else None);
      sessions := sessions + [session];
      created := true;
    }

    method DeliverToAgent(c: Chat, e: Event, a: Wired, thread: Option<string>, threadsOn: bool, wake: bool)
      returns (threw: bool)
      requires threadsOn == ThreadsOn(a.w, c) && thread == EffectiveThread(a.w, c, e)
      modifies `sessions, `stored
      ensures threw <==> Throws(a)
      ensures sessions == if a.fault == BeforeRow then old(sessions) else Resolved(old(sessions), c, e, a).0
      ensures stored == if a.fault in {BeforeRow, AfterRow} || a.filtered then old(stored)
                        else old(stored) + [Stored(Resolved(old(sessions), c, e, a).1.id, wake)]
    {
      var mode := a.w.mode;
      if threadsOn && mode != AgentShared && c.isGroup {
        mode := PerThread;
      }
      if a.fault == BeforeRow {
        return true;
      }
      var session, _ := ResolveSession(a.w.agent, Some(c.id), thread, mode);
      if a.fault == AfterRow {
        return true;
      }
      if !a.filtered {
        stored := stored + [Stored(session.id, wake)];
        if a.fault == AfterStore {
          return true;
        }
      }
      threw := false;
    }

    method FanOutMessage(c: Chat, e: Event, agents: seq<Wired>) returns (engaged: nat, accumulated: nat)
      modifies `sessions, `stored, `subscribes
      ensures var f := FanOut(Fan(old(sessions), old(stored), 0, 0, []), c, e, agents);
        sessions == f.sessions && stored == f.stored && engaged == f.engaged && accumulated == f.accumulated
        && subscribes == old(subscribes) + f.subscribed
    {
      ghost var was := Fan(sessions, stored, 0, 0, []);
      ghost var calls: seq<string> := [];
      var subscribed := false;
      engaged, accumulated := 0, 0;
      for i := 0 to |agents|
        invariant subscribed <==> calls != []
        invariant subscribes == old(subscribes) + calls
        invariant FanOut(Fan(sessions, stored, engaged, accumulated, calls), c, e, agents[i..])
               == FanOut(was, c, e, agents)
      {
        var a := agents[i];
        ghost var now := Fan(sessions, stored, engaged, accumulated, calls);
        assert agents[i..][0] == a && agents[i..][1..] == agents[i + 1..];
        if a.known {
          var threadsOn := ThreadsOn(a.w, c);
          var thread := if threadsOn then e.thread else None;
          var engages := Engages(sessions, c, e, a);
          var accessOk := engages && a.access;
          var scopeOk := engages && a.scope;
          if engages && accessOk && scopeOk {
            var threw := DeliverToAgent(c, e, a, thread, threadsOn, true);
            if !threw {
              engaged := engaged + 1;
              if !subscribed && a.w.engage == MentionSticky && c.canSubscribe && thread.Some? && c.isGroup {
                subscribed := true;
                subscribes := subscribes + [thread.value];
                calls := [thread.value];
              }
            }
          } else if a.w.accumulate && !(engages && (!accessOk || !scopeOk)) {
            var threw := DeliverToAgent(c, e, a, thread, threadsOn, false);
            if !threw {
              accumulated := accumulated + 1;
            }
          }
        }
        assert Fan(sessions, stored, engaged, accumulated, calls) == Turned(now, c, e, a);
      }
    }

    /** `found` is the chat's row and whether its owner denied it; `agents` are its
        wirings; `gate` says whether a channel-request gate is registered. */
    method RouteInbound(found: Option<(Chat, bool)>, e: Event, agents: seq<Wired>, gate: bool)
      modifies this
      ensures found == None || agents == [] ==>
        var recorded := e.mention && !(found.Some? && found.value.1);
        sessions == old(sessions) && stored == old(stored) && subscribes == old(subscribes)
        && drops == old(drops) + (if recorded then [NoAgentWired] else [])
        && escalations == old(escalations) + (if recorded && gate then 1 else 0)
        && chatsCreated == old(chatsCreated) + (if found == None && e.mention then 1 else 0)
      ensures found.Some? && agents != [] ==>
        var f := FanOut(Fan(old(sessions), old(stored), 0, 0, []), found.value.0, e, agents);
        sessions == f.sessions && stored == f.stored && subscribes == old(subscribes) + f.subscribed
        && drops == old(drops) + (if f.engaged + f.accumulated == 0 then [NoAgentEngaged] else [])
        && escalations == old(escalations) && chatsCreated == old(chatsCreated)
    {
      if found == None {
        if !e.mention {
          return;
        }
        chatsCreated := chatsCreated + 1;
      }
      if found == None || agents == [] {
        if !e.mention || (found.Some? && found.value.1) {
          return;
        }
        drops := drops + [NoAgentWired];
        if gate {
          escalations := escalations + 1;
        }
        return;
      }
      var engaged, accumulated := FanOutMessage(found.value.0, e, agents);
      if engaged + accumulated == 0 {
        drops := drops + [NoAgentEngaged];
      }
    }
  }

  // ---- Runs: turns of any messages, interleaved, and task sessions coming up ----

  datatype Step = Turn(c: Chat, e: Event, a: Wired) | TaskDue(agent: string, series: string)

  function AfterStep(ss: seq<Session>, s: Step): seq<Session> {
    match s
    case Turn(c, e, a) => AfterTurn(ss, c, e, a)
    case TaskDue(agent, series) => ResolveTask(ss, agent, series).0
  }

  function Play(ss: seq<Session>, steps: seq<Step>): seq<Session>
    decreases |steps|
  {
    if steps == [] then ss else Play(AfterStep(ss, steps[0]), steps[1..])
  }

  function TurnsOf(c: Chat, e: Event, agents: seq<Wired>): (r: seq<Step>)
    ensures |r| == |agents|
  {
    if agents == [] then [] else [Turn(c, e, agents[0])] + TurnsOf(c, e, agents[1..])
  }

  /** Fanning a message out is its wirings' turns one after the other. */
  lemma {:induction false} FanOutIsTurns(f: Fan, c: Chat, e: Event, agents: seq<Wired>)
    ensures FanOut(f, c, e, agents).sessions == Play(f.sessions, TurnsOf(c, e, agents))
    decreases |agents|
  {
    if agents == [] {
    } else {
      FanOutIsTurns(Turned(f, c, e, agents[0]), c, e, agents[1..]);
      assert TurnsOf(c, e, agents)[1..] == TurnsOf(c, e, agents[1..]);
    }
  }

  // ---- The decision and the session, from the settings themselves ----

  /** A message wakes the agent when it engages and passes both gates, and is kept silently
      when it does not engage under `accumulate`. A refused one is neither. */
  lemma DecideIs(ss: seq<Session>, c: Chat, e: Event, a: Wired)
    ensures Decide(ss, c, e, a) == Wake <==> a.known && Engages(ss, c, e, a) && a.access && a.scope
    ensures Decide(ss, c, e, a) == Keep <==> a.known && !Engages(ss, c, e, a) && a.w.accumulate
  {
  }

  /** The modes that need no history. An unrecognized one never engages. */
  lemma EngagesIs(ss: seq<Session>, c: Chat, e: Event, a: Wired)
    ensures a.w.engage == Pattern ==> (Engages(ss, c, e, a) <==> a.pattern)
    ensures a.w.engage == Mention ==> (Engages(ss, c, e, a) <==> e.mention)
    ensures a.w.engage == MentionSticky && (e.mention || !c.isGroup) ==> (Engages(ss, c, e, a) <==> e.mention)
    ensures a.w.engage == Unrecognized ==> !Engages(ss, c, e, a)
  {
  }

  /** The wiring's own setting decides whether threads count, else the channel's, and only on
      a platform that has them; then in a group each thread has its session, elsewhere only
      under `per-thread`. */
  lemma SessionKeyIs(ss: seq<Session>, c: Chat, e: Event, a: Wired)
    requires a.w.mode != AgentShared && c.id != "" && e.thread != Some("")
    ensures var s := Resolved(ss, c, e, a).1;
      s.agent == a.w.agent && s.mg == Some(c.id)
      && s.thread == if c.supportsThreads && (a.w.threads == Some(true) || (a.w.threads == None && c.threads))
                        && (c.isGroup || a.w.mode == PerThread)
                     then e.thread else None
  {
  }

  lemma {:induction false} FindInFront(ss: seq<Session>, more: seq<Session>, agent: string, mg: Option<string>,
                                       thread: Option<string>)
    requires Find(ss, agent, mg, thread).Some?
    ensures Find(ss + more, agent, mg, thread) == Find(ss, agent, mg, thread)
    decreases |ss|
  {
    assert (ss + more)[0] == ss[0] && (ss + more)[1..] == ss[1..] + more;
    if !Keyed(ss[0], agent, mg, thread) { FindInFront(ss[1..], more, agent, mg, thread); }
  }

  /** Rows are only ever added. */
  lemma {:induction false} PlayGrows(ss: seq<Session>, steps: seq<Step>)
    ensures ss <= Play(ss, steps)
    decreases |steps|
  {
    if steps == [] {
    } else {
      PlayGrows(AfterStep(ss, steps[0]), steps[1..]);
    }
  }

  lemma {:induction false} AppendedFound(ss: seq<Session>, row: Session)
    requires Find(ss, row.agent, row.mg, row.thread) == None
    ensures Find(ss + [row], row.agent, row.mg, row.thread) == Some(row)
    decreases |ss|
  {
    if ss == [] {
      assert ss + [row] == [row];
    } else {
      assert (ss + [row])[0] == ss[0] && (ss + [row])[1..] == ss[1..] + [row];
      assert !Keyed(ss[0], row.agent, row.mg, row.thread);
      AppendedFound(ss[1..], row);
    }
  }

  /** A wiring without threads - by its own setting, by the channel's, or by the platform -
      has one session, whatever threads its messages come in and whatever happens between. */
  lemma WithoutThreadsOneSession(ss: seq<Session>, c: Chat, e: Event, a: Wired, steps: seq<Step>, e': Event)
    requires a.w.mode != AgentShared && c.id != ""
    requires a.w.threads == Some(false) || (a.w.threads == None && !c.threads) || !c.supportsThreads
    ensures var (ss', s) := Resolved(ss, c, e, a);
      s.thread == None && Resolved(Play(ss', steps), c, e', a) == (Play(ss', steps), s)
  {
    var (ss', s) := Resolved(ss, c, e, a);
    if Find(ss, a.w.agent, Some(c.id), None) == None { AppendedFound(ss, s); }
    PlayGrows(ss', steps);
    assert Play(ss', steps) == ss' + Play(ss', steps)[|ss'|..];
    FindInFront(ss', Play(ss', steps)[|ss'|..], a.w.agent, Some(c.id), None);
  }

  /** A group wiring with threads has a session for each. */
  lemma ThreadsApart(ss: seq<Session>, c: Chat, e: Event, a: Wired, steps: seq<Step>, e': Event)
    requires a.w.mode != AgentShared && c.id != "" && c.isGroup && c.supportsThreads
    requires a.w.threads == Some(true) || (a.w.threads == None && c.threads)
    requires e.thread.Some? && e'.thread.Some? && e.thread.value != "" && e'.thread.value != ""
    ensures var (ss', s) := Resolved(ss, c, e, a); var s' := Resolved(Play(ss', steps), c, e', a).1;
      s.thread == e.thread && s'.thread == e'.thread && (e.thread != e'.thread ==> s != s')
  {
    SessionKeyIs(ss, c, e, a);
    SessionKeyIs(Play(Resolved(ss, c, e, a).0, steps), c, e', a);
  }

  /** After one mention was let in, a plain message engages a sticky wiring of the group
      exactly in the same thread, or in any if the wiring has no threads. */
  lemma StickyFollowsThread(c: Chat, e: Event, a: Wired, e': Event)
    requires a.w.engage == MentionSticky && a.w.mode != AgentShared && c.isGroup && c.id != ""
    requires e.mention && !e'.mention && e.thread != Some("") && e'.thread != Some("")
    requires a.known && a.access && a.scope && a.fault != BeforeRow
    ensures Engages(AfterTurn([], c, e, a), c, e', a)
       <==> (c.supportsThreads && (a.w.threads == Some(true) || (a.w.threads == None && c.threads)) ==>
               e'.thread == e.thread)
  {
    SessionKeyIs([], c, e, a);
    assert AfterTurn([], c, e, a) == [Resolved([], c, e, a).1];
    assert [Resolved([], c, e, a).1][1..] == [];
  }

  /** What one wiring adds to a message: its session, at most one stored row, one count. */
  lemma TurnIs(f: Fan, c: Chat, e: Event, a: Wired)
    ensures var f', plan := Turned(f, c, e, a), Decide(f.sessions, c, e, a);
      var (ss, s) := Resolved(f.sessions, c, e, a);
      f'.sessions == (if plan != Skip && a.fault != BeforeRow then ss else f.sessions)
      && f'.stored == (if plan != Skip && a.fault in {NoFault, AfterStore} && !a.filtered
                       then f.stored + [Stored(s.id, plan == Wake)] else f.stored)
      && (a.fault == NoFault || (a.fault == AfterStore && a.filtered) ==>
            f'.engaged == f.engaged + (if plan == Wake then 1 else 0)
            && f'.accumulated == f.accumulated + (if plan == Keep then 1 else 0))
      && (!(a.fault == NoFault || (a.fault == AfterStore && a.filtered)) ==>
            f'.engaged == f.engaged && f'.accumulated == f.accumulated && f'.subscribed == f.subscribed)
  {
  }

  /** The first turn that subscribes: a sticky wiring of a group, woken without a throw, whose
      thread counts, over an adapter that can. */
  lemma SubscribedIs(f: Fan, c: Chat, e: Event, a: Wired)
    requires f.subscribed == [] && (a.fault == NoFault || (a.fault == AfterStore && a.filtered))
    ensures Turned(f, c, e, a).subscribed
         == if Decide(f.sessions, c, e, a) == Wake && a.w.engage == MentionSticky && c.isGroup && c.canSubscribe
               && c.supportsThreads && (a.w.threads == Some(true) || (a.w.threads == None && c.threads))
               && e.thread.Some?
            then [e.thread.value] else []
  {
  }

  lemma SystemIs(s: Session)
    ensures IsSystem(s) <==> s.mg == None && exists rest :: s.thread == Some("system:" + rest)
  {
    if IsSystem(s) {
      var text := s.thread.value;
      assert text == text[..7] + text[7..] && text[..7] == "system:";
      assert s.thread == Some("system:" + text[7..]);
    }
  }

  /** A task's session is found again, is no other series' and no chat's, and no agent-shared
      wiring ever gets it. */
  lemma TaskSessionIs(ss: seq<Session>, agent: string, series: string, steps: seq<Step>, other: string)
    ensures var (ss', s) := ResolveTask(ss, agent, series);
      s.agent == agent && s.mg == None && s.thread == Some("system:tasks:" + series) && IsSystem(s)
      && ResolveTask(Play(ss', steps), agent, series) == (Play(ss', steps), s)
      && (other != series ==> ResolveTask(Play(ss', steps), agent, other).1 != s)
  {
    var (ss', s) := ResolveTask(ss, agent, series);
    assert TASK_THREAD + ":" + series == "system:tasks:" + series;
    assert "system:" <= "system:tasks:" + series;
    if Find(ss, agent, None, TaskKey(series)) == None { AppendedFound(ss, s); }
    PlayGrows(ss', steps);
    assert Play(ss', steps) == ss' + Play(ss', steps)[|ss'|..];
    FindInFront(ss', Play(ss', steps)[|ss'|..], agent, None, TaskKey(series));
    if other != series {
      var p := TASK_THREAD + ":";
      assert (p + other)[|p|..] == other && (p + series)[|p|..] == series;
    }
  }

  // ---- Sticky engagement is history ----

  ghost predicate Has(ss: seq<Session>, agent: string, mg: string, thread: Option<string>) {
    exists s :: s in ss && Keyed(s, agent, Some(mg), thread)
  }

  /** Would this message trigger the agent in a chat where nothing happened yet? */
  predicate Wants(e: Event, a: Wired) {
    match a.w.engage
    case Pattern => a.pattern
    case Mention => e.mention
    case MentionSticky => e.mention
    case Unrecognized => false
  }

  /** It triggers and passes both gates, or it does not trigger and is accumulated. */
  predicate Lets(e: Event, a: Wired) {
    a.known && a.fault != BeforeRow && (if Wants(e, a) then a.access && a.scope else a.w.accumulate)
  }

  /** The thread id a session of this wiring gets. */
  function ThreadKey(w: Wiring, c: Chat, e: Event): Option<string> {
    if EffectiveMode(w, c) == PerThread then EffectiveThread(w, c, e) else None
  }

  ghost predicate Opens(s: Step, agent: string, mg: string, thread: Option<string>) {
    s.Turn? && s.a.w.agent == agent && s.c.id == mg && Lets(s.e, s.a)
    && Lookup(ThreadKey(s.a.w, s.c, s.e)) == thread == ThreadKey(s.a.w, s.c, s.e)
  }

  /** The agent's wirings in this chat are not `agent-shared`. */
  predicate OwnSessions(s: Step, agent: string, mg: string) {
    s.Turn? && s.a.w.agent == agent && s.c.id == mg ==> s.a.w.mode != AgentShared && mg != ""
  }

  lemma AddedRow(ss: seq<Session>, row: Session, agent: string, mg: string, thread: Option<string>)
    ensures Has(ss + [row], agent, mg, thread)
       <==> Has(ss, agent, mg, thread) || Keyed(row, agent, Some(mg), thread)
  {
    if Keyed(row, agent, Some(mg), thread) { assert row in ss + [row]; }
    forall s | s in ss && Keyed(s, agent, Some(mg), thread) ensures s in ss + [row] {}
  }

  /** A chat's session is looked up under the key it would be stored under. */
  lemma ResolvedHas(ss: seq<Session>, c: Chat, e: Event, a: Wired, thread: Option<string>)
    requires thread != Some("") && a.w.mode != AgentShared && c.id != ""
    ensures var key := ThreadKey(a.w, c, e);
      Has(Resolved(ss, c, e, a).0, a.w.agent, c.id, thread)
      <==> Has(ss, a.w.agent, c.id, thread) || Lookup(key) == thread == key
  {
    var row := NewRow(ss, a.w.agent, Some(c.id), EffectiveThread(a.w, c, e), EffectiveMode(a.w, c));
    AddedRow(ss, row, a.w.agent, c.id, thread);
  }

  lemma OtherRow(ss: seq<Session>, c: Chat, e: Event, a: Wired, agent: string, mg: string, thread: Option<string>)
    requires a.w.agent != agent || c.id != mg
    ensures Has(Resolved(ss, c, e, a).0, agent, mg, thread) <==> Has(ss, agent, mg, thread)
  {
    var row := NewRow(ss, a.w.agent, Some(c.id), EffectiveThread(a.w, c, e), EffectiveMode(a.w, c));
    AddedRow(ss, row, agent, mg, thread);
  }

  /** A turn is decided as in an empty chat, unless the wiring is sticky and its session exists. */
  lemma DecidedByHistory(ss: seq<Session>, c: Chat, e: Event, a: Wired)
    ensures Engages(ss, c, e, a)
       <==> (Wants(e, a)
             || (a.w.engage == MentionSticky && c.isGroup
                 && Has(ss, a.w.agent, c.id, Lookup(EffectiveThread(a.w, c, e)))))
    ensures !Engages(ss, c, e, a) || Wants(e, a) ==> (Decide(ss, c, e, a) != Skip && a.fault != BeforeRow <==> Lets(e, a))
  {
  }

  lemma TurnHas(ss: seq<Session>, c: Chat, e: Event, a: Wired, thread: Option<string>)
    requires thread != Some("") && a.w.mode != AgentShared && c.id != ""
    ensures Has(AfterTurn(ss, c, e, a), a.w.agent, c.id, thread)
       <==> Has(ss, a.w.agent, c.id, thread) || Opens(Turn(c, e, a), a.w.agent, c.id, thread)
  {
    DecidedByHistory(ss, c, e, a);
    ResolvedHas(ss, c, e, a, thread);
  }

  lemma StepHas(ss: seq<Session>, s: Step, agent: string, mg: string, thread: Option<string>)
    requires thread != Some("") && OwnSessions(s, agent, mg)
    ensures Has(AfterStep(ss, s), agent, mg, thread) <==> Has(ss, agent, mg, thread) || Opens(s, agent, mg, thread)
  {
    match s
    case Turn(c, e, a) =>
      if a.w.agent == agent && c.id == mg { TurnHas(ss, c, e, a, thread); } else { OtherRow(ss, c, e, a, agent, mg, thread); }
    case TaskDue(owner, series) =>
      AddedRow(ss, Session(|ss|, owner, None, TaskKey(series)), agent, mg, thread);
  }

  /** From no sessions at all, a session for (agent, chat, thread) exists exactly
      when an earlier message was let in under that key. */
  lemma {:induction false} SessionIsHistory(
      ss: seq<Session>, steps: seq<Step>, agent: string, mg: string, thread: Option<string>)
    requires thread != Some("")
    requires forall i :: 0 <= i < |steps| ==> OwnSessions(steps[i], agent, mg)
    ensures Has(Play(ss, steps), agent, mg, thread)
       <==> Has(ss, agent, mg, thread) || exists i :: 0 <= i < |steps| && Opens(steps[i], agent, mg, thread)
    decreases |steps|
  {
    if steps == [] {
    } else {
      var rest := steps[1..];
      StepHas(ss, steps[0], agent, mg, thread);
      assert forall i :: 0 <= i < |rest| ==> rest[i] == steps[i + 1];
      SessionIsHistory(AfterStep(ss, steps[0]), rest, agent, mg, thread);
      if i :| 0 <= i < |steps| && Opens(steps[i], agent, mg, thread) {
        if i > 0 { assert Opens(rest[i - 1], agent, mg, thread); }
      }
    }
  }

  /** An unmentioned message engages a sticky wiring of a group chat exactly when
      an earlier message of the same key was let in - whoever else was routed,
      however the turns interleaved. An empty thread id is looked up as none. */
  lemma StickyIffEarlier(steps: seq<Step>, c: Chat, e: Event, a: Wired)
    requires a.w.engage == MentionSticky && c.isGroup && !e.mention
    requires forall i :: 0 <= i < |steps| ==> OwnSessions(steps[i], a.w.agent, c.id)
    ensures var thread := Lookup(EffectiveThread(a.w, c, e));
      Engages(Play([], steps), c, e, a)
      <==> exists i :: 0 <= i < |steps| && Opens(steps[i], a.w.agent, c.id, thread)
  {
    var ss, thread := Play([], steps), Lookup(EffectiveThread(a.w, c, e));
    SessionIsHistory([], steps, a.w.agent, c.id, thread);
    DecidedByHistory(ss, c, e, a);
  }

  /** A message of this agent in this chat under this key that got as far as the session row. */
  predicate SameKey(s: Step, agent: string, mg: string, thread: Option<string>) {
    s.Turn? && s.a.w.agent == agent && s.c.id == mg && s.a.known && s.a.fault != BeforeRow
    && ThreadKey(s.a.w, s.c, s.e) == thread
  }

  predicate StickyWirings(steps: seq<Step>, agent: string, mg: string, accumulate: bool) {
    forall i :: 0 <= i < |steps| && steps[i].Turn? && steps[i].a.w.agent == agent && steps[i].c.id == mg ==>
      steps[i].a.w.engage == MentionSticky && steps[i].a.w.accumulate == accumulate
      && steps[i].a.w.mode != AgentShared && mg != ""
  }

  /** Under `drop`: an unmentioned message engages exactly when an earlier mention
      of the same key passed both gates. */
  lemma DropEngagesIffMentioned(steps: seq<Step>, c: Chat, e: Event, a: Wired)
    requires a.w.engage == MentionSticky && c.isGroup && !e.mention
    requires StickyWirings(steps, a.w.agent, c.id, false)
    ensures var thread := Lookup(EffectiveThread(a.w, c, e));
      Engages(Play([], steps), c, e, a)
      <==> exists i :: 0 <= i < |steps| && SameKey(steps[i], a.w.agent, c.id, thread)
                       && steps[i].e.mention && steps[i].a.access && steps[i].a.scope
  {
    var thread := Lookup(EffectiveThread(a.w, c, e));
    StickyIffEarlier(steps, c, e, a);
    forall i | 0 <= i < |steps|
      ensures Opens(steps[i], a.w.agent, c.id, thread)
         <==> SameKey(steps[i], a.w.agent, c.id, thread) && steps[i].e.mention && steps[i].a.access && steps[i].a.scope
    {}
  }

  /** Under `accumulate`: exactly when any earlier message of the same key came in
      that was not a mention refused by a gate. */
  lemma AccumulateEngagesIff(steps: seq<Step>, c: Chat, e: Event, a: Wired)
    requires a.w.engage == MentionSticky && c.isGroup && !e.mention
    requires StickyWirings(steps, a.w.agent, c.id, true)
    ensures var thread := Lookup(EffectiveThread(a.w, c, e));
      Engages(Play([], steps), c, e, a)
      <==> exists i :: 0 <= i < |steps| && SameKey(steps[i], a.w.agent, c.id, thread)
                       && !(steps[i].e.mention && !(steps[i].a.access && steps[i].a.scope))
  {
    var thread := Lookup(EffectiveThread(a.w, c, e));
    StickyIffEarlier(steps, c, e, a);
    forall i | 0 <= i < |steps|
      ensures Opens(steps[i], a.w.agent, c.id, thread)
         <==> SameKey(steps[i], a.w.agent, c.id, thread)
              && !(steps[i].e.mention && !(steps[i].a.access && steps[i].a.scope))
    {}
  }

  /** Two plain messages suffice: the first is stored and opens the session, the second engages. */
  lemma AccumulateOpensUnmentioned(c: Chat, e: Event, a: Wired)
    requires a.w.engage == MentionSticky && a.w.accumulate && a.w.mode != AgentShared && a.known && a.fault == NoFault
    requires c.isGroup && c.id != "" && !e.mention && EffectiveThread(a.w, c, e) != Some("")
    ensures !Engages([], c, e, a) && Decide([], c, e, a) == Keep
    ensures Engages(AfterTurn([], c, e, a), c, e, a)
  {
    DecidedByHistory([], c, e, a);
    TurnHas([], c, e, a, EffectiveThread(a.w, c, e));
    assert Opens(Turn(c, e, a), a.w.agent, c.id, EffectiveThread(a.w, c, e));
  }

  /** A sender the gates refuse leaves nothing behind, whatever the policy. */
  lemma RefusedLeavesNothing(f: Fan, c: Chat, e: Event, a: Wired)
    requires Engages(f.sessions, c, e, a) && !(a.access && a.scope)
    ensures Turned(f, c, e, a) == f
  {
  }

  /** A sender the gates refuse everywhere triggers no agent and subscribes nothing, however
      many wirings the message meets; at most it is kept as silent context. */
  lemma {:induction false} RefusedSenderTriggersNothing(f: Fan, c: Chat, e: Event, agents: seq<Wired>)
    requires forall i :: 0 <= i < |agents| ==> !(agents[i].access && agents[i].scope)
    ensures var out := FanOut(f, c, e, agents);
      out.engaged == f.engaged && out.subscribed == f.subscribed && f.stored <= out.stored
      && forall i :: |f.stored| <= i < |out.stored| ==> !out.stored[i].trigger
    decreases |agents|
  {
    if agents == [] {
    } else {
      var rest := agents[1..];
      assert forall i :: 0 <= i < |rest| ==> rest[i] == agents[i + 1];
      assert !(agents[0].access && agents[0].scope);
      RefusedSenderTriggersNothing(Turned(f, c, e, agents[0]), c, e, rest);
    }
  }

  // ---- At most one session per key ----

  ghost predicate UniqueKeys(ss: seq<Session>) {
    forall i, j :: 0 <= i < j < |ss| ==> !Keyed(ss[j], ss[i].agent, ss[i].mg, ss[i].thread)
  }

  ghost predicate HasRow(ss: seq<Session>, agent: string, mg: Option<string>, thread: Option<string>) {
    exists s :: s in ss && Keyed(s, agent, mg, thread)
  }

  lemma UniqueAppend(ss: seq<Session>, row: Session)
    requires UniqueKeys(ss)
    ensures UniqueKeys(ss + [row]) <==> !HasRow(ss, row.agent, row.mg, row.thread)
  {
    var all := ss + [row];
    if HasRow(ss, row.agent, row.mg, row.thread) {
      var i :| 0 <= i < |ss| && Keyed(ss[i], row.agent, row.mg, row.thread);
      assert Keyed(all[|ss|], all[i].agent, all[i].mg, all[i].thread);
    } else {
      forall i, j | 0 <= i < j < |all| ensures !Keyed(all[j], all[i].agent, all[i].mg, all[i].thread) {
        if j == |ss| { assert all[i] in ss; }
      }
    }
  }

  /** `resolveSession` makes a second session for a key exactly when the caller names no
      chat, or passes an empty thread id whose session exists while the chat has none without a thread. */
  lemma ResolveUniqueIff(ss: seq<Session>, agent: string, mg: Option<string>, thread: Option<string>, mode: SessionMode)
    requires UniqueKeys(ss)
    ensures UniqueKeys(Resolve(ss, agent, mg, thread, mode).0)
       <==> !(mode != AgentShared
              && if mg != None && mg != Some("")
                 then mode == PerThread && thread == Some("") && HasRow(ss, agent, mg, thread) && !HasRow(ss, agent, mg, None)
                 else HasRow(ss, agent, mg, if mode == PerThread then thread else None))
  {
    UniqueAppend(ss, NewRow(ss, agent, mg, thread, mode));
  }

  lemma TaskUnique(ss: seq<Session>, agent: string, series: string)
    requires UniqueKeys(ss)
    ensures UniqueKeys(ResolveTask(ss, agent, series).0)
  {
    UniqueAppend(ss, Session(|ss|, agent, None, TaskKey(series)));
  }

  predicate NoEmptyThread(s: Step) {
    s.Turn? ==> s.c.id != "" && s.e.thread != Some("")
  }

  /** While no platform sends an empty thread id, there is at most one session per key. */
  lemma {:induction false} OneSessionPerKey(ss: seq<Session>, steps: seq<Step>)
    requires UniqueKeys(ss) && forall i :: 0 <= i < |steps| ==> NoEmptyThread(steps[i])
    ensures UniqueKeys(Play(ss, steps))
    decreases |steps|
  {
    if steps == [] {
    } else {
      var s, rest := steps[0], steps[1..];
      assert NoEmptyThread(s) && forall i :: 0 <= i < |rest| ==> rest[i] == steps[i + 1];
      match s {
        case Turn(c, e, a) =>
          ResolveUniqueIff(ss, a.w.agent, Some(c.id), EffectiveThread(a.w, c, e), EffectiveMode(a.w, c));
        case TaskDue(agent, series) => TaskUnique(ss, agent, series);
      }
      OneSessionPerKey(AfterStep(ss, s), rest);
    }
  }

  /** An empty thread id: every mention makes another session, and no follow-up ever engages. */
  lemma EmptyThreadForgets(c: Chat, a: Wired, ss: seq<Session>)
    requires c.isGroup && c.id != "" && ThreadsOn(a.w, c) && a.known && a.access && a.scope && a.fault == NoFault
    requires a.w.engage == MentionSticky && a.w.mode != AgentShared && !HasRow(ss, a.w.agent, Some(c.id), None)
    ensures var after := AfterTurn(ss, c, Event(Some(""), true), a);
      |after| == |ss| + 1 && !HasRow(after, a.w.agent, Some(c.id), None)
      && !Engages(after, c, Event(Some(""), false), a)
  {
    var e := Event(Some(""), true);
    var row := NewRow(ss, a.w.agent, Some(c.id), Some(""), PerThread);
    assert AfterTurn(ss, c, e, a) == ss + [row];
    AddedRow(ss, row, a.w.agent, c.id, None);
  }

  // ---- Where a message goes ----

  /** Rows are numbered by their place, so an id names one row. */
  ghost predicate Numbered(ss: seq<Session>) {
    forall i :: 0 <= i < |ss| ==> ss[i].id == i
  }

  lemma {:induction false} PlayNumbered(ss: seq<Session>, steps: seq<Step>)
    requires Numbered(ss)
    ensures Numbered(Play(ss, steps))
    decreases |steps|
  {
    if steps == [] {
    } else {
      PlayNumbered(AfterStep(ss, steps[0]), steps[1..]);
    }
  }

  lemma ResolvedNumbered(ss: seq<Session>, c: Chat, e: Event, a: Wired)
    requires Numbered(ss)
    ensures Numbered(Resolved(ss, c, e, a).0)
  {
  }

  lemma {:induction false} NewestOwn(ss: seq<Session>, agent: string)
    requires FindByAgent(ss, agent).Some? && Numbered(ss)
    ensures forall s :: s in ss && s.agent == agent && !IsSystem(s) ==> s.id <= FindByAgent(ss, agent).value.id
    decreases |ss|
  {
    var front, last := ss[..|ss| - 1], ss[|ss| - 1];
    assert ss == front + [last];
    if last.agent != agent || IsSystem(last) {
      NewestOwn(front, agent);
    } else {
      forall s | s in ss ensures s.id <= last.id {
        var i :| 0 <= i < |ss| && ss[i] == s;
      }
    }
  }

  /** An `agent-shared` wiring gets the agent's newest session that is not a task's, or a
      new one if the agent has none. */
  lemma SharedTakesNewest(ss: seq<Session>, agent: string, mg: Option<string>, thread: Option<string>)
    requires Numbered(ss)
    ensures var (ss', s) := Resolve(ss, agent, mg, thread, AgentShared);
      s.agent == agent && !IsSystem(s)
      && (forall r :: r in ss && r.agent == agent && !IsSystem(r) ==> r.id <= s.id)
      && (ss' == ss <==> exists r :: r in ss && r.agent == agent && !IsSystem(r))
      && (ss' != ss ==> s == Session(|ss|, agent, mg, None) && ss' == ss + [s])
  {
    if FindByAgent(ss, agent).Some? { NewestOwn(ss, agent); }
    assert FindByAgent(ss, agent).None? ==> Resolve(ss, agent, mg, thread, AgentShared).0 != ss;
  }

  /** The session a wiring gets is a row of its agent, of its chat and thread unless the
      wiring is agent-shared, and never a task's. */
  lemma ResolvedBelongs(ss: seq<Session>, c: Chat, e: Event, a: Wired)
    requires Numbered(ss) && c.id != ""
    ensures var (ss', s) := Resolved(ss, c, e, a);
      s.id < |ss'| && ss'[s.id] == s && s.agent == a.w.agent && !IsSystem(s)
      && (a.w.mode != AgentShared ==> s.mg == Some(c.id) && Lookup(s.thread) == Lookup(ThreadKey(a.w, c, e)))
  {
    var (ss', s) := Resolved(ss, c, e, a);
    ResolvedNumbered(ss, c, e, a);
    assert s in ss';
    var i :| 0 <= i < |ss'| && ss'[i] == s;
  }

  /** After any run: a message that is taken lands, once, in a session of its own agent -
      of its own chat and thread unless the wiring is agent-shared, and never in a
      task's - and triggers the agent exactly when it engaged and passed both gates. */
  lemma StoredWhereItBelongs(steps: seq<Step>, f: Fan, c: Chat, e: Event, a: Wired)
    requires f.sessions == Play([], steps) && c.id != ""
    requires Decide(f.sessions, c, e, a) != Skip && a.fault in {NoFault, AfterStore} && !a.filtered
    ensures var f' := Turned(f, c, e, a);
      |f'.stored| == |f.stored| + 1 && f.stored <= f'.stored
      && var last := f'.stored[|f.stored|];
         last.session < |f'.sessions|
         && (last.trigger <==> Engages(f.sessions, c, e, a) && a.access && a.scope)
         && var s := f'.sessions[last.session];
            s.id == last.session && s.agent == a.w.agent && !IsSystem(s)
            && (a.w.mode != AgentShared ==>
                  s.mg == Some(c.id) && Lookup(s.thread) == Lookup(ThreadKey(a.w, c, e)))
  {
    PlayNumbered([], steps);
    ResolvedBelongs(f.sessions, c, e, a);
  }

  predicate Takes(ss: seq<Session>, c: Chat, e: Event, a: Wired) {
    Decide(ss, c, e, a) != Skip && !Throws(a)
  }

  /** A turn that stored its message, to wake the agent or to keep it silently, and then threw. */
  predicate Strands(ss: seq<Session>, c: Chat, e: Event, a: Wired) {
    Decide(ss, c, e, a) != Skip && !a.filtered && a.fault == AfterStore
  }

  /** Some wiring, deciding on the sessions left by those before it, strands the message. */
  predicate AnyStrands(ss: seq<Session>, c: Chat, e: Event, agents: seq<Wired>)
    decreases |agents|
  {
    agents != []
    && (Strands(ss, c, e, agents[0]) || AnyStrands(AfterTurn(ss, c, e, agents[0]), c, e, agents[1..]))
  }

  /** How many wirings take the message, each deciding on the sessions left by those before it. */
  function Takers(ss: seq<Session>, c: Chat, e: Event, agents: seq<Wired>): nat
    decreases |agents|
  {
    if agents == [] then 0
    else (if Takes(ss, c, e, agents[0]) then 1 else 0) + Takers(AfterTurn(ss, c, e, agents[0]), c, e, agents[1..])
  }

  /** The two counters, zero together exactly when the message is recorded as dropped, count the takers. */
  lemma {:induction false} CountersCountTakers(f: Fan, c: Chat, e: Event, agents: seq<Wired>)
    ensures var out := FanOut(f, c, e, agents);
      out.engaged + out.accumulated == f.engaged + f.accumulated + Takers(f.sessions, c, e, agents)
    decreases |agents|
  {
    if agents == [] {
    } else {
      CountersCountTakers(Turned(f, c, e, agents[0]), c, e, agents[1..]);
    }
  }

  lemma {:induction false} StoredGrows(f: Fan, c: Chat, e: Event, agents: seq<Wired>)
    ensures f.stored <= FanOut(f, c, e, agents).stored
    decreases |agents|
  {
    if agents == [] {
    } else {
      StoredGrows(Turned(f, c, e, agents[0]), c, e, agents[1..]);
    }
  }

  /** When no wiring takes the message, it is stored all the same exactly if one strands it. */
  lemma {:induction false} StrandedIff(f: Fan, c: Chat, e: Event, agents: seq<Wired>)
    requires Takers(f.sessions, c, e, agents) == 0
    ensures FanOut(f, c, e, agents).stored != f.stored <==> AnyStrands(f.sessions, c, e, agents)
    decreases |agents|
  {
    if agents == [] {
    } else {
      var f', rest := Turned(f, c, e, agents[0]), agents[1..];
      StrandedIff(f', c, e, rest);
      StoredGrows(f', c, e, rest);
    }
  }

  /** A message of a wired chat is stored and yet recorded as dropped exactly when no wiring
      took it and some wiring threw after storing it. */
  lemma StoredYetDroppedIff(ss: seq<Session>, stored: seq<Stored>, c: Chat, e: Event, agents: seq<Wired>)
    ensures var f := FanOut(Fan(ss, stored, 0, 0, []), c, e, agents);
      f.engaged + f.accumulated == 0 && f.stored != stored
      <==> Takers(ss, c, e, agents) == 0 && AnyStrands(ss, c, e, agents)
  {
    CountersCountTakers(Fan(ss, stored, 0, 0, []), c, e, agents);
    if Takers(ss, c, e, agents) == 0 { StrandedIff(Fan(ss, stored, 0, 0, []), c, e, agents); }
  }

  // ---- Subscriptions and isolation ----

  /** Some wiring engages, without throwing, and may subscribe. */
  predicate AnySubscriber(ss: seq<Session>, c: Chat, e: Event, agents: seq<Wired>)
    decreases |agents|
  {
    agents != []
    && ((!Throws(agents[0]) && Decide(ss, c, e, agents[0]) == Wake && Subscribes(c, e, agents[0]))
        || AnySubscriber(AfterTurn(ss, c, e, agents[0]), c, e, agents[1..]))
  }

  /** However many wirings may subscribe, the thread of the message is subscribed once, and only if one may. */
  lemma {:induction false} SubscribesOnce(f: Fan, c: Chat, e: Event, agents: seq<Wired>)
    ensures f.subscribed == [] && AnySubscriber(f.sessions, c, e, agents) ==>
      e.thread.Some? && FanOut(f, c, e, agents).subscribed == [e.thread.value]
    ensures f.subscribed != [] || !AnySubscriber(f.sessions, c, e, agents) ==>
      FanOut(f, c, e, agents).subscribed == f.subscribed
    decreases |agents|
  {
    if agents == [] {
    } else {
      SubscribesOnce(Turned(f, c, e, agents[0]), c, e, agents[1..]);
    }
  }

  /** What one agent's turn does or throws changes nothing in how another agent's turn is decided. */
  lemma TurnsIndependent(ss: seq<Session>, c: Chat, e: Event, a: Wired, c': Chat, e': Event, b: Wired)
    requires a.w.agent != b.w.agent
    ensures Decide(AfterTurn(ss, c, e, a), c', e', b) == Decide(ss, c', e', b)
  {
    DecidedByHistory(ss, c', e', b);
    DecidedByHistory(AfterTurn(ss, c, e, a), c', e', b);
    OtherRow(ss, c, e, a, b.w.agent, c'.id, Lookup(EffectiveThread(b.w, c', e')));
  }
}
