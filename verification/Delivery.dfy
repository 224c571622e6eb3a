/** Outbound delivery (src/delivery.ts): drains that interleave at each `await`.

    `deliverSessionMessages` may be called at any moment by any number of
    callers: the active poll, the sweep poll, and modules that push at once. A
    call runs without interruption up to its first awaited send (`Begin`); each
    time an awaited send settles, the drain runs on to its next send or to its
    end (`Settle`). Everything between two such steps belongs to other callers. */
module Delivery {
  import opened Options

  type SessionId = string
  type MessageId = string
  type TaskId = nat

  /** One message of one session: the unit of delivery. */
  type Key = (SessionId, MessageId)

  const MAX_DELIVERY_ATTEMPTS: nat := 3

  datatype Status = Delivered | Failed

  /** A drain parked on its send of `queue[0]`. */
  datatype Drain = Drain(session: SessionId, queue: seq<MessageId>)

  /** `log` is the history of settled sends, oldest first; the code has no such variable. */
  datatype Outcome = Outcome(key: Key, sent: bool)

  datatype State = State(
    inflight: set<SessionId>,
    attempts: map<MessageId, nat>,
    delivered: map<Key, Status>,
    drains: map<TaskId, Drain>,
    log: seq<Outcome>)

  /** A fresh process: the tables survive a restart, the counters do not. */
  function Init(delivered: map<Key, Status>): State {
    State({}, map[], delivered, map[], [])
  }

  // ---- The steps ----

  /** INSERT OR IGNORE into the `delivered` table. */
  function Mark(delivered: map<Key, Status>, key: Key, status: Status): map<Key, Status> {
    if key in delivered then delivered else delivered[key := status]
  }

  function Undelivered(delivered: map<Key, Status>, session: SessionId, due: seq<MessageId>): (r: seq<MessageId>)
    ensures forall m :: m in r <==> m in due && (session, m) !in delivered
  {
    if due == [] then []
    else if (session, due[0]) in delivered then Undelivered(delivered, session, due[1..])
    else [due[0]] + Undelivered(delivered, session, due[1..])
  }

  /** Looking at one more row. */
  lemma UndeliveredFrom(
      delivered: map<Key, Status>, session: SessionId, due: seq<MessageId>, i: nat, queue: seq<MessageId>)
    requires i < |due|
    ensures var more := if (session, due[i]) in delivered then queue else queue + [due[i]];
      queue + Undelivered(delivered, session, due[i..]) == more + Undelivered(delivered, session, due[i + 1..])
  {
    assert due[i..][0] == due[i] && due[i..][1..] == due[i + 1..];
  }

  /** `due` is None when the agent group or a database is missing. */
  function Begin(s: State, task: TaskId, session: SessionId, due: Option<seq<MessageId>>): State {
    var queue := if due.None? then [] else Undelivered(s.delivered, session, due.value);
    if session in s.inflight || queue == [] then s
    else s.(inflight := s.inflight + {session}, drains := s.drains[task := Drain(session, queue)])
  }

  function AttemptsOf(s: State, m: MessageId): nat {
    if m in s.attempts then s.attempts[m] else 0
  }

  function Settle(s: State, task: TaskId, sent: bool): State
    requires task in s.drains && s.drains[task].queue != []
  {
    var Drain(session, queue) := s.drains[task];
    var m := queue[0];
    var tries := AttemptsOf(s, m) + 1;
    var giveUp := tries >= MAX_DELIVERY_ATTEMPTS;
    State(
      if |queue| == 1 then s.inflight - {session} else s.inflight,
      if sent || giveUp then s.attempts - {m} else s.attempts[m := tries],
      if sent then Mark(s.delivered, (session, m), Delivered)
      else if giveUp then Mark(s.delivered, (session, m), Failed)
      else s.delivered,
      if |queue| == 1 then s.drains - {task} else s.drains[task := Drain(session, queue[1..])],
      s.log + [Outcome((session, m), sent)])
  }

  // ---- The module's variables, updated in place ----

  class DeliveryHost {
    var inflight: set<SessionId>
    var attempts: map<MessageId, nat>
    var delivered: map<Key, Status>
    var drains: map<TaskId, Drain>
    ghost var log: seq<Outcome>

    ghost function Now(): State
      reads this
    {
      State(inflight, attempts, delivered, drains, log)
    }

    constructor (table: map<Key, Status>)
      ensures Now() == Init(table)
    {
      inflight, attempts, delivered, drains, log := {}, map[], table, map[], [];
    }

    /** From the call of `deliverSessionMessages` to its first awaited send, or to its return. */
    method DeliverSessionMessages(task: TaskId, session: SessionId, due: Option<seq<MessageId>>)
      requires task !in drains
      modifies this
      ensures Now() == Begin(old(Now()), task, session, due)
    {
      if session in inflight {
        return;
      }
      inflight := inflight + {session};
      var queue: seq<MessageId> := [];
      if due.Some? {
        queue := Filter(session, due.value);
      }
      if queue == [] {
        inflight := inflight - {session};
      } else {
        drains := drains[task := Drain(session, queue)];
      }
    }

    /** The rows of the query that the `delivered` table does not list. */
    method Filter(session: SessionId, due: seq<MessageId>) returns (queue: seq<MessageId>)
      ensures queue == Undelivered(delivered, session, due)
    {
      queue := [];
      for i := 0 to |due|
        invariant Undelivered(delivered, session, due) == queue + Undelivered(delivered, session, due[i..])
      {
        UndeliveredFrom(delivered, session, due, i, queue);
        if (session, due[i]) !in delivered {
          queue := queue + [due[i]];
        }
      }
    }

    /** From the settling of the awaited send to the next one, or to the end of the drain. */
    method SendSettled(task: TaskId, sent: bool)
      requires task in drains && drains[task].queue != []
      modifies this
      ensures Now() == Settle(old(Now()), task, sent)
    {
      var Drain(session, queue) := drains[task];
      var m := queue[0];
      if sent {
        delivered := Mark(delivered, (session, m), Delivered);
        attempts := attempts - {m};
      } else {
        var tries := (if m in attempts then attempts[m] else 0) + 1;
        attempts := attempts[m := tries];
        if tries >= MAX_DELIVERY_ATTEMPTS {
          delivered := Mark(delivered, (session, m), Failed);
          attempts := attempts - {m};
        }
      }
      log := log + [Outcome((session, m), sent)];
      if |queue| == 1 {
        drains := drains - {task};
        inflight := inflight - {session};
      } else {
        drains := drains[task := Drain(session, queue[1..])];
      }
    }
  }

  // ---- What one step does ----

  lemma {:induction false} UndeliveredCat(delivered: map<Key, Status>, session: SessionId, a: seq<MessageId>,
                                          b: seq<MessageId>)
    ensures Undelivered(delivered, session, a + b)
         == Undelivered(delivered, session, a) + Undelivered(delivered, session, b)
    decreases |a|
  {
    if a == [] {
      assert a + b == b;
    } else {
      assert (a + b)[0] == a[0] && (a + b)[1..] == a[1..] + b;
      UndeliveredCat(delivered, session, a[1..], b);
    }
  }

  /** Row by row, in the order of the query: a row joins the queue exactly when it is not settled. */
  lemma UndeliveredSplit(delivered: map<Key, Status>, session: SessionId, due: seq<MessageId>, i: nat)
    requires i < |due|
    ensures Undelivered(delivered, session, due)
         == Undelivered(delivered, session, due[..i])
            + (if (session, due[i]) in delivered then [] else [due[i]])
            + Undelivered(delivered, session, due[i + 1..])
  {
    var a, m, b := due[..i], due[i], due[i + 1..];
    assert due == a + [m] + b;
    UndeliveredCat(delivered, session, a + [m], b);
    UndeliveredCat(delivered, session, a, [m]);
    UndeliveredOne(delivered, session, m);
  }

  lemma UndeliveredOne(delivered: map<Key, Status>, session: SessionId, m: MessageId)
    ensures Undelivered(delivered, session, [m]) == if (session, m) in delivered then [] else [m]
  {
    assert [m][1..] == [];
    assert Undelivered(delivered, session, []) == [];
  }

  /** A call starts a drain exactly when the session is not being drained and some due row is
      not settled; it drains all of those, and touches nothing else. */
  lemma BeginIs(s: State, task: TaskId, session: SessionId, due: Option<seq<MessageId>>)
    requires task !in s.drains
    ensures var s' := Begin(s, task, session, due);
      s' == s.(inflight := s'.inflight, drains := s'.drains)
      && if session !in s.inflight && due.Some? && exists m :: m in due.value && (session, m) !in s.delivered
         then s'.inflight == s.inflight + {session}
              && s'.drains == s.drains[task := Drain(session, Undelivered(s.delivered, session, due.value))]
         else s' == s
  {
    if due.Some? && Undelivered(s.delivered, session, due.value) != [] {
      assert Undelivered(s.delivered, session, due.value)[0] in Undelivered(s.delivered, session, due.value);
    }
  }

  /** What settling a send does to the counters and verdicts: success marks and forgets, the
      first two failures count, the third gives up and forgets; nothing else is touched. */
  lemma SettleIs(s: State, task: TaskId, sent: bool)
    requires task in s.drains && s.drains[task].queue != []
    ensures var s', m := Settle(s, task, sent), s.drains[task].queue[0]; var key := (s.drains[task].session, m);
      s'.log == s.log + [Outcome(key, sent)]
      && AttemptsOf(s', m) == (if sent || AttemptsOf(s, m) >= 2 then 0 else AttemptsOf(s, m) + 1)
      && (forall n :: n != m ==> AttemptsOf(s', n) == AttemptsOf(s, n))
      && (key !in s.delivered ==>
            s'.delivered == if sent then s.delivered[key := Delivered]
                            else if AttemptsOf(s, m) >= 2 then s.delivered[key := Failed]
                            else s.delivered)
      && (key in s.delivered ==> s'.delivered == s.delivered)
  {
  }

  /** And to the drain: it goes on with the next message whatever became of this one, and
      ends, freeing its session, only after the last. */
  lemma DrainGoesOn(s: State, task: TaskId, sent: bool)
    requires task in s.drains && s.drains[task].queue != []
    ensures var s', Drain(session, queue) := Settle(s, task, sent), s.drains[task];
      if |queue| > 1
      then s'.drains == s.drains[task := Drain(session, queue[1..])] && s'.inflight == s.inflight
      else s'.drains == s.drains - {task} && s'.inflight == s.inflight - {session}
  {
  }

  // ---- Runs ----

  datatype Event =
    | Call(task: TaskId, session: SessionId, due: Option<seq<MessageId>>)
    | SendDone(task: TaskId, sent: bool)

  predicate Distinct(queue: seq<MessageId>) {
    forall i, j :: 0 <= i < j < |queue| ==> queue[i] != queue[j]
  }

  /** The ids each session ever holds in its outbound table. */
  type Outboxes = map<SessionId, set<MessageId>>

  /** A task is one call, so it is new; a query never returns one row twice. */
  predicate Enabled(out: Outboxes, s: State, e: Event) {
    match e
    case Call(task, session, due) =>
      task !in s.drains
      && (due.Some? ==> Distinct(due.value))
      && (due.Some? ==> forall m :: m in due.value ==> session in out && m in out[session])
    case SendDone(task, _) => task in s.drains && s.drains[task].queue != []
  }

  function Apply(s: State, e: Event): State
    requires e.SendDone? ==> e.task in s.drains && s.drains[e.task].queue != []
  {
    match e
    case Call(task, session, due) => Begin(s, task, session, due)
    case SendDone(task, sent) => Settle(s, task, sent)
  }

  /** `s'` is reached from `s` by the interleaving `es`. */
  ghost predicate Run(out: Outboxes, s: State, es: seq<Event>, s': State)
    decreases |es|
  {
    if es == [] then s' == s
    else Enabled(out, s, es[0]) && Run(out, Apply(s, es[0]), es[1..], s')
  }

  function Tries(log: seq<Outcome>, key: Key): nat {
    if log == [] then 0
    else Tries(log[..|log| - 1], key) + if log[|log| - 1].key == key then 1 else 0
  }

  function Sends(log: seq<Outcome>, key: Key): nat {
    if log == [] then 0
    else Sends(log[..|log| - 1], key) + if log[|log| - 1] == Outcome(key, true) then 1 else 0
  }

  /** A send of `key` has started and not settled. */
  ghost predicate Sending(s: State, key: Key) {
    exists task :: task in s.drains && s.drains[task].queue != []
                   && (s.drains[task].session, s.drains[task].queue[0]) == key
  }

  lemma LogAppend(log: seq<Outcome>, o: Outcome, key: Key)
    ensures Tries(log + [o], key) == Tries(log, key) + if o.key == key then 1 else 0
    ensures Sends(log + [o], key) == Sends(log, key) + if o == Outcome(key, true) then 1 else 0
  {
    assert (log + [o])[..|log|] == log;
  }

  // ---- What every interleaving keeps ----

  ghost predicate OneDrainPerSession(s: State) {
    (forall t, u :: t in s.drains && u in s.drains && s.drains[t].session == s.drains[u].session ==> t == u)
    && (forall x :: x in s.inflight <==> exists t :: t in s.drains && s.drains[t].session == x)
  }

  ghost predicate GoodQueue(out: Outboxes, s: State, d: Drain) {
    d.queue != [] && Distinct(d.queue) && d.session in out
    && forall m :: m in d.queue ==> m in out[d.session] && (d.session, m) !in s.delivered
  }

  /** A key is settled exactly once, in the way its sends went. */
  ghost predicate Accounted(init: map<Key, Status>, s: State, key: Key) {
    if key in init then key in s.delivered && s.delivered[key] == init[key] && Tries(s.log, key) == 0
    else if key !in s.delivered then Sends(s.log, key) == 0
    else if s.delivered[key].Delivered? then Sends(s.log, key) == 1
    else Sends(s.log, key) == 0 && Tries(s.log, key) > 0
  }

  ghost predicate Inv(out: Outboxes, init: map<Key, Status>, s: State) {
    OneDrainPerSession(s)
    && (forall t :: t in s.drains ==> GoodQueue(out, s, s.drains[t]))
    && (forall key: Key :: Accounted(init, s, key))
  }

  lemma UndeliveredDistinct(delivered: map<Key, Status>, session: SessionId, due: seq<MessageId>)
    requires Distinct(due)
    ensures Distinct(Undelivered(delivered, session, due))
  {
    if due == [] {
    } else {
      UndeliveredDistinct(delivered, session, due[1..]);
      assert due[0] !in due[1..];
    }
  }

  lemma BeginKeepsInv(out: Outboxes, init: map<Key, Status>, s: State, e: Event)
    requires Inv(out, init, s) && e.Call? && Enabled(out, s, e)
    ensures Inv(out, init, Apply(s, e))
  {
    var s' := Apply(s, e);
    if s' != s {
      UndeliveredDistinct(s.delivered, e.session, e.due.value);
      assert s'.drains[e.task].session == e.session;
      forall t | t in s'.drains ensures GoodQueue(out, s', s'.drains[t]) {
        assert t != e.task ==> GoodQueue(out, s, s.drains[t]);
      }
      forall t, u | t in s'.drains && u in s'.drains && s'.drains[t].session == s'.drains[u].session ensures t == u {
        assert t in s.drains ==> s.drains[t].session in s.inflight;
        assert u in s.drains ==> s.drains[u].session in s.inflight;
      }
      forall x ensures x in s'.inflight <==> exists t :: t in s'.drains && s'.drains[t].session == x {
        if x in s.inflight {
          var t :| t in s.drains && s.drains[t].session == x;
          assert s'.drains[t].session == x;
        }
      }
      forall key: Key ensures Accounted(init, s', key) {
        assert Accounted(init, s, key);
      }
    }
  }

  lemma SettleKeepsDrains(out: Outboxes, init: map<Key, Status>, s: State, task: TaskId, sent: bool)
    requires Inv(out, init, s) && task in s.drains && s.drains[task].queue != []
    ensures var s' := Settle(s, task, sent);
      OneDrainPerSession(s') && forall t :: t in s'.drains ==> GoodQueue(out, s', s'.drains[t])
  {
    var s' := Settle(s, task, sent);
    var Drain(session, queue) := s.drains[task];
    forall t | t in s'.drains ensures GoodQueue(out, s', s'.drains[t]) {
      assert GoodQueue(out, s, s.drains[t]);
      if t == task {
        assert queue[0] !in queue[1..];
      } else {
        assert s.drains[t].session != session;
      }
    }
    forall x ensures x in s'.inflight <==> exists t :: t in s'.drains && s'.drains[t].session == x {
      if x in s.inflight {
        var t :| t in s.drains && s.drains[t].session == x;
        if t in s'.drains { assert s'.drains[t].session == x; }
      }
    }
  }

  lemma SettleKeepsAccounts(out: Outboxes, init: map<Key, Status>, s: State, task: TaskId, sent: bool, key: Key)
    requires Inv(out, init, s) && task in s.drains && s.drains[task].queue != []
    ensures Accounted(init, Settle(s, task, sent), key)
  {
    var Drain(session, queue) := s.drains[task];
    assert GoodQueue(out, s, s.drains[task]);
    assert queue[0] in queue;
    assert Accounted(init, s, key) && Accounted(init, s, (session, queue[0]));
    LogAppend(s.log, Outcome((session, queue[0]), sent), key);
  }

  lemma StepKeepsInv(out: Outboxes, init: map<Key, Status>, s: State, e: Event)
    requires Inv(out, init, s) && Enabled(out, s, e)
    ensures Inv(out, init, Apply(s, e))
  {
    match e
    case Call(_, _, _) => BeginKeepsInv(out, init, s, e);
    case SendDone(task, sent) =>
      SettleKeepsDrains(out, init, s, task, sent);
      forall key: Key ensures Accounted(init, Apply(s, e), key) {
        SettleKeepsAccounts(out, init, s, task, sent, key);
      }
  }

  lemma {:induction false} RunKeepsInv(out: Outboxes, init: map<Key, Status>, s: State, es: seq<Event>, s': State)
    requires Inv(out, init, s) && Run(out, s, es, s')
    ensures Inv(out, init, s')
    decreases |es|
  {
    if es == [] {
    } else {
      StepKeepsInv(out, init, s, es[0]);
      RunKeepsInv(out, init, Apply(s, es[0]), es[1..], s');
    }
  }

  /** In every interleaving: one drain per session, no key being sent twice at
      once, at most one successful send of a key, and a key is marked delivered
      exactly when that send happened. No assumption on ids. */
  lemma SafeDelivery(out: Outboxes, init: map<Key, Status>, es: seq<Event>, s: State, key: Key)
    requires Run(out, Init(init), es, s)
    ensures OneDrainPerSession(s)
    ensures Sends(s.log, key) <= 1
    ensures key !in init ==> (Sends(s.log, key) == 1 <==> key in s.delivered && s.delivered[key] == Delivered)
    ensures key in init ==> Tries(s.log, key) == 0 && key in s.delivered && s.delivered[key] == init[key]
    ensures key in s.delivered ==> !Sending(s, key)
  {
    RunKeepsInv(out, init, Init(init), es, s);
    assert Accounted(init, s, key);
    SendsWithinTries(s.log, key);
    forall task | task in s.drains
      ensures (s.drains[task].session, s.drains[task].queue[0]) !in s.delivered
    {
      assert GoodQueue(out, s, s.drains[task]) && s.drains[task].queue[0] in s.drains[task].queue;
    }
  }

  lemma SendsWithinTries(log: seq<Outcome>, key: Key)
    ensures Sends(log, key) <= Tries(log, key)
  {
  }

  lemma StepKeepsSettled(out: Outboxes, init: map<Key, Status>, s: State, e: Event, key: Key)
    requires Inv(out, init, s) && Enabled(out, s, e) && key in s.delivered
    ensures var s' := Apply(s, e);
      key in s'.delivered && s'.delivered[key] == s.delivered[key] && Tries(s'.log, key) == Tries(s.log, key)
  {
    if e.SendDone? {
      var Drain(session, queue) := s.drains[e.task];
      assert GoodQueue(out, s, s.drains[e.task]) && queue[0] in queue;
      LogAppend(s.log, Outcome((session, queue[0]), e.sent), key);
    }
  }

  /** Once settled, a key keeps its verdict and is never attempted again. */
  lemma {:induction false} SettledForever(out: Outboxes, init: map<Key, Status>, s: State, es: seq<Event>, s': State,
                                          key: Key)
    requires Inv(out, init, s) && Run(out, s, es, s') && key in s.delivered
    ensures key in s'.delivered && s'.delivered[key] == s.delivered[key]
    ensures Tries(s'.log, key) == Tries(s.log, key)
    decreases |es|
  {
    if es == [] {
    } else {
      StepKeepsSettled(out, init, s, es[0], key);
      StepKeepsInv(out, init, s, es[0]);
      SettledForever(out, init, Apply(s, es[0]), es[1..], s', key);
    }
  }

  // ---- Every message of a drain gets its send ----

  /** No new call goes by the name of this one. */
  predicate NoSuchCall(es: seq<Event>, task: TaskId) {
    forall i :: 0 <= i < |es| && es[i].Call? ==> es[i].task != task
  }

  /** What the sends of one call came to, in order. */
  function Verdicts(es: seq<Event>, task: TaskId): seq<bool>
    decreases |es|
  {
    if es == [] then []
    else (if es[0].SendDone? && es[0].task == task then [es[0].sent] else []) + Verdicts(es[1..], task)
  }

  /** What the steps of one call add to the log. */
  ghost function Logged(out: Outboxes, s: State, es: seq<Event>, s': State, task: TaskId): seq<Outcome>
    requires Run(out, s, es, s')
    decreases |es|
  {
    if es == [] then []
    else
      var next := Apply(s, es[0]);
      (if es[0].SendDone? && es[0].task == task then next.log[|s.log|..] else [])
      + Logged(out, next, es[1..], s', task)
  }

  /** The outcomes of the first `|sent|` messages of a drain. */
  function Outcomes(d: Drain, sent: seq<bool>): (log: seq<Outcome>)
    requires |sent| <= |d.queue|
    ensures |log| == |sent|
    ensures forall i :: 0 <= i < |log| ==> log[i] == Outcome((d.session, d.queue[i]), sent[i])
  {
    seq(|sent|, i requires 0 <= i < |sent| => Outcome((d.session, d.queue[i]), sent[i]))
  }

  lemma OtherStepKeepsDrain(s: State, e: Event, task: TaskId)
    requires task in s.drains && e.task != task
    requires e.SendDone? ==> e.task in s.drains && s.drains[e.task].queue != []
    ensures task in Apply(s, e).drains && Apply(s, e).drains[task] == s.drains[task]
  {
  }

  lemma {:induction false} GoneHasNone(out: Outboxes, s: State, es: seq<Event>, s': State, task: TaskId)
    requires Run(out, s, es, s') && task !in s.drains && NoSuchCall(es, task)
    ensures Verdicts(es, task) == [] && Logged(out, s, es, s', task) == [] && task !in s'.drains
    decreases |es|
  {
    if es == [] {
    } else {
      assert es[0].Call? ==> es[0].task != task;
      assert forall i :: 0 <= i < |es| - 1 ==> es[1..][i] == es[i + 1];
      GoneHasNone(out, Apply(s, es[0]), es[1..], s', task);
    }
  }

  /** The drain sent the first messages of its queue, one outcome each, and it is there
      until the last of them is settled, and no longer. */
  ghost predicate SentInOrder(d: Drain, sent: seq<bool>, logged: seq<Outcome>, after: State, task: TaskId) {
    |sent| <= |d.queue| && logged == Outcomes(d, sent)
    && (task in after.drains <==> |sent| < |d.queue|)
    && (task in after.drains ==> after.drains[task] == Drain(d.session, d.queue[|sent|..]))
  }

  lemma OwnStep(s: State, task: TaskId, sent: bool)
    requires task in s.drains && s.drains[task].queue != []
    ensures var next, d := Settle(s, task, sent), s.drains[task];
      next.log[|s.log|..] == [Outcome((d.session, d.queue[0]), sent)]
      && (task in next.drains <==> |d.queue| > 1)
      && (|d.queue| > 1 ==> next.drains[task] == Drain(d.session, d.queue[1..]))
  {
    DrainGoesOn(s, task, sent);
    SettleIs(s, task, sent);
  }

  /** One send before the rest of the queue. */
  lemma SentFirst(d: Drain, first: bool, sent: seq<bool>, logged: seq<Outcome>, after: State, task: TaskId)
    requires d.queue != [] && SentInOrder(Drain(d.session, d.queue[1..]), sent, logged, after, task)
    ensures SentInOrder(d, [first] + sent, [Outcome((d.session, d.queue[0]), first)] + logged, after, task)
  {
    OutcomesCons(d, first, sent);
    assert d.queue[1..][|sent|..] == d.queue[|sent| + 1..];
  }

  lemma OutcomesCons(d: Drain, first: bool, sent: seq<bool>)
    requires |sent| < |d.queue|
    ensures Outcomes(d, [first] + sent)
         == [Outcome((d.session, d.queue[0]), first)] + Outcomes(Drain(d.session, d.queue[1..]), sent)
  {
  }

  /** In every interleaving, whatever the sends come to: a drain sends its messages in order,
      one outcome each, and is there until the last of them is settled, and no longer. */
  lemma {:induction false} DrainSendsAll(out: Outboxes, s: State, es: seq<Event>, s': State, task: TaskId)
    requires Run(out, s, es, s') && task in s.drains && s.drains[task].queue != [] && NoSuchCall(es, task)
    ensures SentInOrder(s.drains[task], Verdicts(es, task), Logged(out, s, es, s', task), s', task)
    decreases |es|
  {
    var d := s.drains[task];
    if es == [] {
      assert d.queue[0..] == d.queue;
    } else {
      var e, rest, next := es[0], es[1..], Apply(s, es[0]);
      assert e.Call? ==> e.task != task;
      assert forall i :: 0 <= i < |rest| ==> rest[i] == es[i + 1];
      if e.task != task {
        OtherStepKeepsDrain(s, e, task);
        DrainSendsAll(out, next, rest, s', task);
        assert Verdicts(es, task) == Verdicts(rest, task);
      } else {
        OwnStep(s, task, e.sent);
        if |d.queue| > 1 {
          DrainSendsAll(out, next, rest, s', task);
        } else {
          GoneHasNone(out, next, rest, s', task);
        }
        SentFirst(d, e.sent, Verdicts(rest, task), Logged(out, next, rest, s', task), s', task);
      }
    }
  }

  /** So when a drain is gone, the log holds exactly one outcome of it for every message that
      was due and not settled when it began, in their order. */
  lemma DrainedFully(out: Outboxes, s: State, task: TaskId, session: SessionId, due: seq<MessageId>,
                     es: seq<Event>, s': State)
    requires task !in s.drains && session !in s.inflight && Undelivered(s.delivered, session, due) != []
    requires Run(out, Begin(s, task, session, Some(due)), es, s') && NoSuchCall(es, task) && task !in s'.drains
    ensures var queue, sent := Undelivered(s.delivered, session, due), Verdicts(es, task);
      |sent| == |queue|
      && Logged(out, Begin(s, task, session, Some(due)), es, s', task) == Outcomes(Drain(session, queue), sent)
  {
    DrainSendsAll(out, Begin(s, task, session, Some(due)), es, s', task);
  }

  // ---- The attempt bound ----

  /** The counter is keyed by message id alone, so the bound depends on this. */
  ghost predicate IdsUnique(out: Outboxes) {
    forall x, y, m :: x in out && y in out && m in out[x] && m in out[y] ==> x == y
  }

  ghost predicate Counted(s: State, key: Key) {
    if key in s.delivered then Tries(s.log, key) <= MAX_DELIVERY_ATTEMPTS
      && (s.delivered[key].Failed? && Tries(s.log, key) > 0 ==> Tries(s.log, key) == MAX_DELIVERY_ATTEMPTS)
    else Tries(s.log, key) == AttemptsOf(s, key.1) < MAX_DELIVERY_ATTEMPTS
  }

  ghost predicate AllCounted(out: Outboxes, s: State) {
    forall key: Key :: key.0 in out && key.1 in out[key.0] ==> Counted(s, key)
  }

  lemma SettleKeepsCount(out: Outboxes, init: map<Key, Status>, s: State, task: TaskId, sent: bool, key: Key)
    requires IdsUnique(out) && Inv(out, init, s) && AllCounted(out, s)
    requires task in s.drains && s.drains[task].queue != []
    requires key.0 in out && key.1 in out[key.0]
    ensures Counted(Settle(s, task, sent), key)
  {
    var Drain(session, queue) := s.drains[task];
    assert GoodQueue(out, s, s.drains[task]) && queue[0] in queue;
    assert Counted(s, key) && Counted(s, (session, queue[0]));
    LogAppend(s.log, Outcome((session, queue[0]), sent), key);
  }

  lemma {:induction false} RunKeepsCount(out: Outboxes, init: map<Key, Status>, s: State, es: seq<Event>, s': State)
    requires IdsUnique(out) && Inv(out, init, s) && AllCounted(out, s) && Run(out, s, es, s')
    ensures AllCounted(out, s')
    decreases |es|
  {
    if es == [] {
    } else {
      var e := es[0];
      StepKeepsInv(out, init, s, e);
      if e.SendDone? {
        forall key: Key | key.0 in out && key.1 in out[key.0] ensures Counted(Apply(s, e), key) {
          SettleKeepsCount(out, init, s, e.task, e.sent, key);
        }
      } else {
        assert forall key: Key :: Counted(s, key) ==> Counted(Apply(s, e), key);
      }
      RunKeepsCount(out, init, Apply(s, e), es[1..], s');
    }
  }

  /** With ids unique across sessions, a key is attempted at most three times,
      counting a send still in progress; it is given up exactly after three
      failures, and three attempts always settle it. */
  lemma AttemptsBounded(out: Outboxes, init: map<Key, Status>, es: seq<Event>, s: State, key: Key)
    requires IdsUnique(out) && Run(out, Init(init), es, s)
    requires key.0 in out && key.1 in out[key.0]
    ensures Tries(s.log, key) + (if Sending(s, key) then 1 else 0) <= MAX_DELIVERY_ATTEMPTS
    ensures Tries(s.log, key) == MAX_DELIVERY_ATTEMPTS ==> key in s.delivered
    ensures key !in init && key in s.delivered && s.delivered[key] == Failed
         ==> Tries(s.log, key) == MAX_DELIVERY_ATTEMPTS && Sends(s.log, key) == 0
  {
    RunKeepsInv(out, init, Init(init), es, s);
    RunKeepsCount(out, init, Init(init), es, s);
    assert Counted(s, key) && Accounted(init, s, key);
    SafeDelivery(out, init, es, s, key);
  }

  // ---- Where ids repeat, the bound fails ----

  lemma {:induction false} RunAppend(out: Outboxes, s: State, es: seq<Event>, mid: State, fs: seq<Event>, s': State)
    requires Run(out, s, es, mid) && Run(out, mid, fs, s')
    ensures Run(out, s, es + fs, s')
    decreases |es|
  {
    if es == [] {
      assert es + fs == fs;
    } else {
      assert (es + fs)[0] == es[0] && (es + fs)[1..] == es[1..] + fs;
      RunAppend(out, Apply(s, es[0]), es[1..], mid, fs, s');
    }
  }

  /** One drain of one due message whose send fails. */
  lemma OneFailure(out: Outboxes, s: State, x: SessionId, m: MessageId) returns (es: seq<Event>, s': State)
    requires s.drains == map[] && s.inflight == {} && (x, m) !in s.delivered
    requires x in out && m in out[x]
    ensures Run(out, s, es, s') && s'.drains == map[] && s'.inflight == {}
    ensures s'.log == s.log + [Outcome((x, m), false)]
    ensures AttemptsOf(s, m) < 2 ==> s'.delivered == s.delivered && AttemptsOf(s', m) == AttemptsOf(s, m) + 1
    ensures AttemptsOf(s, m) >= 2 ==> s'.delivered == s.delivered[(x, m) := Failed] && AttemptsOf(s', m) == 0
  {
    var begun := Begin(s, 0, x, Some([m]));
    assert Undelivered(s.delivered, x, [m]) == [m] by { assert [m][1..] == []; }
    s' := Settle(begun, 0, false);
    es := [Call(0, x, Some([m])), SendDone(0, false)];
    assert Run(out, s', [], s');
    assert es[1..][1..] == [];
    assert Run(out, begun, es[1..], s');
    assert m in out[x];
  }

  /** Two sessions that share an id spoil each other's count: two failures in
      one, one in the other, and the first may fail again. */
  lemma SharedIdBreaksBound(out: Outboxes, x: SessionId, y: SessionId, m: MessageId)
    returns (es: seq<Event>, s: State)
    requires x in out && y in out && x != y && m in out[x] && m in out[y]
    ensures Run(out, Init(map[]), es, s) && Tries(s.log, (x, m)) > MAX_DELIVERY_ATTEMPTS
  {
    var s0 := Init(map[]);
    var e1, s1 := OneFailure(out, s0, x, m);
    var e2, s2 := OneFailure(out, s1, x, m);
    var e3, s3 := OneFailure(out, s2, y, m);
    var e4, s4 := OneFailure(out, s3, x, m);
    var e5, s5 := OneFailure(out, s4, x, m);
    RunAppend(out, s0, e1, s1, e2, s2);
    RunAppend(out, s0, e1 + e2, s2, e3, s3);
    RunAppend(out, s0, e1 + e2 + e3, s3, e4, s4);
    RunAppend(out, s0, e1 + e2 + e3 + e4, s4, e5, s5);
    es, s := e1 + e2 + e3 + e4 + e5, s5;
    LogAppend(s0.log, Outcome((x, m), false), (x, m));
    LogAppend(s1.log, Outcome((x, m), false), (x, m));
    LogAppend(s2.log, Outcome((y, m), false), (x, m));
    LogAppend(s3.log, Outcome((x, m), false), (x, m));
    LogAppend(s4.log, Outcome((x, m), false), (x, m));
  }

  /** No run from any fresh process attempts a message of these outboxes a fourth time. */
  ghost predicate BoundHolds(out: Outboxes) {
    forall init: map<Key, Status>, es: seq<Event>, s: State, key: Key ::
      Run(out, Init(init), es, s) && key.0 in out && key.1 in out[key.0]
      ==> Tries(s.log, key) <= MAX_DELIVERY_ATTEMPTS
  }

  /** The limit of three attempts is met in every run exactly when no message id
      occurs in two sessions. */
  lemma BoundIffIdsUnique(out: Outboxes)
    ensures BoundHolds(out) <==> IdsUnique(out)
  {
    if IdsUnique(out) {
      forall init: map<Key, Status>, es: seq<Event>, s: State, key: Key
        | Run(out, Init(init), es, s) && key.0 in out && key.1 in out[key.0]
        ensures Tries(s.log, key) <= MAX_DELIVERY_ATTEMPTS
      {
        AttemptsBounded(out, init, es, s, key);
      }
    } else {
      var x, y, m :| x in out && y in out && m in out[x] && m in out[y] && x != y;
      var es, s := SharedIdBreaksBound(out, x, y, m);
      assert (x, m).0 in out;
    }
  }
}
