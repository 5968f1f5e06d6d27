/** The live-implementation count (facade/migrations/0002_database_functions.py) as a transition
    system under READ COMMITTED.

    A store holds what is committed. A writer's statements stay in its own overlay, with the marks
    its triggers appended, until it commits; a drain runs its four statements against whatever is
    committed when each of them starts. Row locks are exclusive and last as long as the
    transaction that took them. */
module LiveCount {
  import opened Collections

  type AgentId = nat
  type ImplId = nat
  type ActionId = nat
  type MarkId = nat
  type TxId = nat

  datatype AgentKind = WEBHOOK | WEBSOCKET
  datatype Agent = Agent(kind: AgentKind, connected: bool)
  datatype Impl = Impl(action: ActionId, agent: AgentId)

  /** The committed rows. `log` is facade_actionlivenessdirty: mark id to action id. */
  datatype Store = Store(
    agents: map<AgentId, Agent>,
    impls: map<ImplId, Impl>,
    counts: map<ActionId, int>,
    log: map<MarkId, ActionId>)

  predicate Available(a: Agent) {
    a.kind == WEBHOOK || a.connected
  }

  /** The implementations COUNT joins for the action `x`. */
  function LiveImpls(s: Store, x: ActionId): set<ImplId> {
    set i | i in s.impls && s.impls[i].action == x && s.impls[i].agent in s.agents && Available(s.agents[s.impls[i].agent])
  }

  function Count(s: Store, x: ActionId): nat {
    |LiveImpls(s, x)|
  }

  /** Some implementation of `x` is on a webhook agent, connected or not, or on a connected one. */
  ghost predicate Assignable(s: Store, x: ActionId) {
    exists i :: && i in s.impls && s.impls[i].action == x && s.impls[i].agent in s.agents
                && (s.agents[s.impls[i].agent].kind == WEBHOOK || s.agents[s.impls[i].agent].connected)
  }

  /** A count is above 0 exactly for such an action. */
  lemma CountsAssignable(s: Store, x: ActionId)
    ensures Count(s, x) > 0 <==> Assignable(s, x)
  {
    if i :| i in LiveImpls(s, x) {
      assert LiveImpls(s, x) != {};
    }
    if Assignable(s, x) {
      var i :| i in s.impls && s.impls[i].action == x && s.impls[i].agent in s.agents
               && (s.agents[s.impls[i].agent].kind == WEBHOOK || s.agents[s.impls[i].agent].connected);
      assert i in LiveImpls(s, x);
    }
  }

  /** The agent's connection is another, everything else as it was. */
  predicate Reconnects(s: Store, s': Store, a: AgentId, connected: bool) {
    a in s.agents && s'.agents == s.agents[a := Agent(s.agents[a].kind, connected)] && s'.impls == s.impls
  }

  /** A webhook agent counts whether or not it is connected. */
  lemma WebhookConnectionIgnored(s: Store, s': Store, a: AgentId, connected: bool, x: ActionId)
    requires Reconnects(s, s', a, connected) && s.agents[a].kind == WEBHOOK
    ensures Count(s', x) == Count(s, x)
  {
    assert LiveImpls(s', x) == LiveImpls(s, x);
  }

  function OnAgent(s: Store, a: AgentId, x: ActionId): set<ImplId> {
    set i | i in s.impls && s.impls[i].action == x && s.impls[i].agent == a
  }

  /** A websocket agent that connects adds all its implementations of an action to its count. */
  lemma WebsocketConnects(s: Store, s': Store, a: AgentId, x: ActionId)
    requires Reconnects(s, s', a, true) && s.agents[a] == Agent(WEBSOCKET, false)
    ensures Count(s', x) == Count(s, x) + |OnAgent(s, a, x)|
  {
    assert LiveImpls(s', x) == LiveImpls(s, x) + OnAgent(s, a, x);
    assert LiveImpls(s, x) !! OnAgent(s, a, x);
  }

  /** The foreign keys of facade_implementation, checked when a transaction commits. */
  ghost predicate ForeignKeys(s: Store) {
    forall i :: i in s.impls ==> s.impls[i].action in s.counts && s.impls[i].agent in s.agents
  }

  // ---------------------------------------------------------------- writers

  /** A transaction's uncommitted rows (None: deleted), the actions its triggers marked, and the
      rows it holds. */
  datatype Writer = Writer(
    agents: map<AgentId, Option<Agent>>,
    impls: map<ImplId, Option<Impl>>,
    actions: map<ActionId, Option<int>>,
    marks: set<ActionId>,
    agentLocks: set<AgentId>,
    actionLocks: set<ActionId>)

  const IDLE := Writer(map[], map[], map[], {}, {}, {})

  /** What a transaction sees at `k`: its own row, else the committed one. */
  function Seen<K, V>(base: map<K, V>, over: map<K, Option<V>>, k: K): Option<V> {
    if k in over then over[k] else At(base, k)
  }

  function Overlaid<K, V>(base: map<K, V>, over: map<K, Option<V>>): map<K, V> {
    map k | k in base.Keys + over.Keys && Seen(base, over, k).Some? :: Seen(base, over, k).value
  }

  /** The committed rows once `w` commits, its marks under the ids of `added`. */
  function Merged(s: Store, w: Writer, added: map<MarkId, ActionId>): Store {
    Store(Overlaid(s.agents, w.agents), Overlaid(s.impls, w.impls), Overlaid(s.counts, w.actions), s.log + added)
  }

  /** What the statements of `w` read. */
  function View(s: Store, w: Writer): Store {
    Merged(s, w, map[])
  }

  // ---------------------------------------------------------------- triggers

  /** facade_action_guard_live_implementations: the value a write of the column leaves.
      `stored` is None for an INSERT; `refreshing` is the drain's transaction setting. */
  function Guarded(stored: Option<int>, refreshing: bool, wanted: int): int {
    match stored
    case None => 0
    case Some(kept) => if refreshing then wanted else kept
  }

  /** facade_agent_mark_live_implementations, with the trigger's WHEN clause: the agent's
      implementations as they are when the statement runs. */
  function AgentMarks(view: Store, a: AgentId, row: Agent): set<ActionId> {
    if a in view.agents && view.agents[a] == row then {}
    else set i | i in view.impls && view.impls[i].agent == a :: view.impls[i].action
  }

  function InsertedMarks(rows: map<ImplId, Impl>): set<ActionId> {
    set i | i in rows :: rows[i].action
  }

  function DeletedMarks(view: Store, ids: set<ImplId>): set<ActionId> {
    set i | i in ids && i in view.impls :: view.impls[i].action
  }

  /** Only an update that moved the implementation counts. */
  function UpdatedMarks(view: Store, rows: map<ImplId, Impl>): set<ActionId> {
    (set i | i in rows && i in view.impls && view.impls[i] != rows[i] :: view.impls[i].action)
    + (set i | i in rows && i in view.impls && view.impls[i] != rows[i] :: rows[i].action)
  }

  // ---------------------------------------------------------------- drains

  datatype Phase = Claimed | Locked | Recounted | PutBack

  /** A drain in flight: the marks it deleted, the actions it locked, the counts it wrote and the
      actions whose marks it put back, all uncommitted. */
  datatype Drain = Drain(
    phase: Phase,
    taken: map<MarkId, ActionId>,
    locked: set<ActionId>,
    recount: map<ActionId, int>,
    returned: set<ActionId>)
  {
    function Actions(): set<ActionId> {
      taken.Values
    }

    /** Whether this drain has yet to recount `x`, or to return its mark. */
    predicate Owes(x: ActionId) {
      match phase
      case Claimed => x in Actions()
      case Locked => x in Actions()
      case Recounted => x in Actions() && x !in locked
      case PutBack => x in returned
    }
  }

  datatype State = State(store: Store, writers: map<TxId, Writer>, drains: map<TxId, Drain>)

  function TakenIds(s: State): set<MarkId> {
    set d, m | d in s.drains && m in s.drains[d].taken :: m
  }

  // ---------------------------------------------------------------- steps

  /** What a writer executes. The implementation triggers fire once per statement, over all of its rows. */
  datatype Statement =
    | LockAgent(agent: AgentId)
    | LockAction(action: ActionId)
    | InsertAgent(agent: AgentId, row: Agent)
    | UpdateAgent(agent: AgentId, row: Agent)
    | DeleteAgent(agent: AgentId)
    | InsertImpls(rows: map<ImplId, Impl>)
    | UpdateImpls(rows: map<ImplId, Impl>)
    | DeleteImpls(ids: set<ImplId>)
    | InsertAction(action: ActionId, wanted: int)
    | WriteCount(action: ActionId, wanted: int)
    | DeleteAction(action: ActionId)

  datatype Event =
    | Begin(t: TxId)
    | Execute(t: TxId, statement: Statement)
    | Commit(t: TxId, added: map<MarkId, ActionId>)
    | Abort(t: TxId)
    | Claim(d: TxId, taken: map<MarkId, ActionId>, batch: nat)
    | LockClaimed(d: TxId)
    | Recount(d: TxId)
    | ReturnMarks(d: TxId)
    | CommitDrain(d: TxId, added: map<MarkId, ActionId>)
    | AbortDrain(d: TxId)

  /** No other transaction holds the agent's row. */
  predicate AgentFree(s: State, t: TxId, a: AgentId) {
    forall u | u in s.writers && u != t :: a !in s.writers[u].agentLocks
  }

  /** No other transaction holds the action's row. */
  predicate ActionFree(s: State, t: TxId, x: ActionId) {
    && (forall u | u in s.writers && u != t :: x !in s.writers[u].actionLocks)
    && (forall d | d in s.drains :: x !in s.drains[d].locked)
  }

  predicate ImplsFree(s: State, t: TxId, ids: set<ImplId>) {
    forall u | u in s.writers && u != t :: s.writers[u].impls.Keys !! ids
  }

  /** The row is held by a writer or by another drain: SKIP LOCKED passes over it. */
  predicate Held(s: State, d: TxId, x: ActionId) {
    || (exists u :: u in s.writers && x in s.writers[u].actionLocks)
    || (exists e :: e in s.drains && e != d && x in s.drains[e].locked)
  }

  /** The rows the statement writes are there (or not yet), and nobody else holds them. */
  predicate Executable(s: State, t: TxId, q: Statement)
    requires t in s.writers
  {
    var w := s.writers[t];
    var view := View(s.store, w);
    match q
    case LockAgent(a) => AgentFree(s, t, a)
    case LockAction(x) => ActionFree(s, t, x)
    case InsertAgent(a, _) => AgentFree(s, t, a) && a !in s.store.agents && a !in w.agents
    case UpdateAgent(a, _) => AgentFree(s, t, a) && a in view.agents
    case DeleteAgent(a) => AgentFree(s, t, a) && a in view.agents
    case InsertImpls(rows) => ImplsFree(s, t, rows.Keys) && rows.Keys !! view.impls.Keys
    case UpdateImpls(rows) => ImplsFree(s, t, rows.Keys) && rows.Keys <= view.impls.Keys
    case DeleteImpls(ids) => ImplsFree(s, t, ids) && ids <= view.impls.Keys
    case InsertAction(x, _) => ActionFree(s, t, x) && x !in s.store.counts && x !in w.actions
    case WriteCount(x, _) => ActionFree(s, t, x) && x in view.counts
    case DeleteAction(x) => ActionFree(s, t, x) && x in view.counts
  }

  predicate Enabled(s: State, e: Event) {
    match e
    case Begin(t) => t !in s.writers
    case Execute(t, q) => t in s.writers && Executable(s, t, q)
    case Commit(t, added) =>
      t in s.writers && added.Keys !! s.store.log.Keys && added.Values == s.writers[t].marks
      && ForeignKeysHold(Merged(s.store, s.writers[t], added))
    case Abort(t) => t in s.writers
    // Any unlocked marks, at most `batch`: more than ORDER BY id LIMIT batch allows.
    case Claim(d, taken, batch) =>
      d !in s.drains && 0 < |taken| <= batch && taken.Keys !! TakenIds(s)
      && (forall m | m in taken :: m in s.store.log && s.store.log[m] == taken[m])
    case LockClaimed(d) => d in s.drains && s.drains[d].phase == Claimed
    case Recount(d) => d in s.drains && s.drains[d].phase == Locked
    case ReturnMarks(d) => d in s.drains && s.drains[d].phase == Recounted
    case CommitDrain(d, added) =>
      d in s.drains && s.drains[d].phase == PutBack && added.Keys !! s.store.log.Keys
      && added.Values == s.drains[d].returned && |added| == |s.drains[d].returned|
    case AbortDrain(d) => d in s.drains
  }

  /** ForeignKeys as a test on finite rows. */
  predicate ForeignKeysHold(s: Store)
    ensures ForeignKeysHold(s) == ForeignKeys(s)
  {
    forall i | i in s.impls :: s.impls[i].action in s.counts && s.impls[i].agent in s.agents
  }

  /** With no other transaction open, a statement only needs the rows it changes to be there, and those it
      inserts not to have been. */
  lemma AloneIsExecutable(s: State, t: TxId, q: Statement)
    requires s.writers.Keys == {t} && s.drains == map[]
    ensures var w := s.writers[t];
      var view := View(s.store, w);
      Executable(s, t, q) <==>
        match q
        case UpdateAgent(a, _) => a in view.agents
        case DeleteAgent(a) => a in view.agents
        case WriteCount(x, _) => x in view.counts
        case DeleteAction(x) => x in view.counts
        case UpdateImpls(rows) => forall i :: i in rows ==> i in view.impls
        case DeleteImpls(ids) => forall i :: i in ids ==> i in view.impls
        case InsertAgent(a, _) => a !in view.agents && a !in s.store.agents.Keys + w.agents.Keys
        case InsertAction(x, _) => x !in view.counts && x !in s.store.counts.Keys + w.actions.Keys
        case InsertImpls(rows) => forall i :: i in rows ==> i !in view.impls
        case _ => true
  {}

  /** An open transaction can end at any time, and a drain's next statement waits for nothing. */
  lemma AlwaysEnabled(s: State, t: TxId)
    ensures t in s.writers ==> Enabled(s, Abort(t))
    ensures t in s.drains ==> Enabled(s, AbortDrain(t))
    ensures t in s.drains && s.drains[t].phase != PutBack ==>
      Enabled(s, LockClaimed(t)) || Enabled(s, Recount(t)) || Enabled(s, ReturnMarks(t))
  {}

  function WithWriter(s: State, t: TxId, w: Writer): State {
    s.(writers := s.writers[t := w])
  }

  function WithDrain(s: State, d: TxId, drain: Drain): State {
    s.(drains := s.drains[d := drain])
  }

  function Puts<K, V>(rows: map<K, V>): map<K, Option<V>> {
    map k | k in rows :: Some(rows[k])
  }

  function Gone<V>(ids: set<nat>): map<nat, Option<V>> {
    map k | k in ids :: None
  }

  /** The writer after one of its statements, its trigger included. */
  function Wrote(s: Store, w: Writer, q: Statement): Writer
    requires q.WriteCount? ==> q.action in View(s, w).counts
  {
    var view := View(s, w);
    match q
    case LockAgent(a) => w.(agentLocks := w.agentLocks + {a})
    case LockAction(x) => w.(actionLocks := w.actionLocks + {x})
    case InsertAgent(a, row) => w.(agents := w.agents[a := Some(row)], agentLocks := w.agentLocks + {a})
    case UpdateAgent(a, row) =>
      w.(agents := w.agents[a := Some(row)], agentLocks := w.agentLocks + {a}, marks := w.marks + AgentMarks(view, a, row))
    case DeleteAgent(a) => w.(agents := w.agents[a := None], agentLocks := w.agentLocks + {a})
    case InsertImpls(rows) => w.(impls := w.impls + Puts(rows), marks := w.marks + InsertedMarks(rows))
    case UpdateImpls(rows) => w.(impls := w.impls + Puts(rows), marks := w.marks + UpdatedMarks(view, rows))
    case DeleteImpls(ids) => w.(impls := w.impls + Gone(ids), marks := w.marks + DeletedMarks(view, ids))
    case InsertAction(x, wanted) =>
      w.(actions := w.actions[x := Some(Guarded(None, false, wanted))], actionLocks := w.actionLocks + {x})
    case WriteCount(x, wanted) =>
      w.(actions := w.actions[x := Some(Guarded(Some(view.counts[x]), false, wanted))], actionLocks := w.actionLocks + {x})
    case DeleteAction(x) => w.(actions := w.actions[x := None], actionLocks := w.actionLocks + {x})
  }

  /** The statement moves an implementation of `x`, from or to it, or makes an agent of one another. */
  ghost predicate Touches(view: Store, q: Statement, x: ActionId) {
    match q
    case UpdateAgent(a, row) => At(view.agents, a) != Some(row) && exists i :: i in view.impls && view.impls[i] == Impl(x, a)
    case InsertImpls(rows) => exists i :: i in rows && rows[i].action == x
    case UpdateImpls(rows) =>
      exists i :: i in rows && i in view.impls && view.impls[i] != rows[i] && (view.impls[i].action == x || rows[i].action == x)
    case DeleteImpls(ids) => exists i :: i in ids && i in view.impls && view.impls[i].action == x
    case _ => false
  }

  /** Its triggers mark exactly the actions it touches. */
  lemma MarksAreTouched(s: Store, w: Writer, q: Statement, x: ActionId)
    requires q.WriteCount? ==> q.action in View(s, w).counts
    ensures x in Wrote(s, w, q).marks <==> x in w.marks || Touches(View(s, w), q, x)
  {
    var view := View(s, w);
    if q.UpdateAgent? && Touches(view, q, x) {
      var i :| i in view.impls && view.impls[i] == Impl(x, q.agent);
      assert view.impls[i].agent == q.agent;
    }
    if q.UpdateAgent? && x in AgentMarks(view, q.agent, q.row) {
      var i :| i in view.impls && view.impls[i].agent == q.agent && view.impls[i].action == x;
      assert view.impls[i] == Impl(x, q.agent);
    }
  }

  function Next(s: State, e: Event): State
    requires Enabled(s, e)
  {
    match e
    case Begin(t) => WithWriter(s, t, IDLE)
    case Execute(t, q) => WithWriter(s, t, Wrote(s.store, s.writers[t], q))
    case Commit(t, added) => s.(store := Merged(s.store, s.writers[t], added), writers := s.writers - {t})
    case Abort(t) => s.(writers := s.writers - {t})
    case Claim(d, taken, _) => WithDrain(s, d, Drain(Claimed, taken, {}, map[], {}))
    case LockClaimed(d) =>
      var drain := s.drains[d];
      WithDrain(s, d, drain.(phase := Locked, locked := set x | x in drain.Actions() && x in s.store.counts && !Held(s, d, x)))
    case Recount(d) =>
      var drain := s.drains[d];
      WithDrain(s, d, drain.(phase := Recounted, recount := map x | x in drain.locked :: Count(s.store, x)))
    case ReturnMarks(d) =>
      var drain := s.drains[d];
      WithDrain(s, d, drain.(phase := PutBack, returned := set x | x in drain.Actions() && x in s.store.counts && x !in drain.locked))
    case CommitDrain(d, added) =>
      var drain := s.drains[d];
      var counts := map x | x in s.store.counts ::
        if x in drain.recount then Guarded(Some(s.store.counts[x]), true, drain.recount[x]) else s.store.counts[x];
      s.(store := s.store.(counts := counts, log := (s.store.log - drain.taken.Keys) + added), drains := s.drains - {d})
    case AbortDrain(d) => s.(drains := s.drains - {d})
  }

  /** A drain locks every claimed action that exists and whose row no other transaction holds. */
  lemma LockedAre(s: State, d: TxId, x: ActionId)
    requires Enabled(s, LockClaimed(d)) && s.drains[d].locked == {}
    ensures x in Next(s, LockClaimed(d)).drains[d].locked <==>
      && x in s.drains[d].taken.Values && x in s.store.counts
      && (forall u :: u in s.writers ==> x !in s.writers[u].actionLocks)
      && forall e :: e in s.drains ==> x !in s.drains[e].locked
  {}

  /** What registrations do (lines 11-13 of the migration: "agent row"): a transaction that puts an
      implementation on an agent, or gives one there another action, holds that agent's row when
      it commits. */
  predicate HoldsPlacedAgents(s: Store, w: Writer) {
    forall i | i in w.impls && w.impls[i].Some? && At(s.impls, i) != w.impls[i] :: w.impls[i].value.agent in w.agentLocks
  }

  ghost predicate Disciplined(s: State, e: Event) {
    e.Commit? && e.t in s.writers ==> HoldsPlacedAgents(s.store, s.writers[e.t])
  }

  /** The run of `events` from `s` takes only enabled steps. */
  ghost predicate Runs(s: State, events: seq<Event>)
    decreases |events|
  {
    events == [] || (Enabled(s, events[0]) && Runs(Next(s, events[0]), events[1..]))
  }

  ghost predicate DisciplinedRun(s: State, events: seq<Event>)
    requires Runs(s, events)
    decreases |events|
  {
    events == [] || (Disciplined(s, events[0]) && DisciplinedRun(Next(s, events[0]), events[1..]))
  }

  ghost function After(s: State, events: seq<Event>): State
    requires Runs(s, events)
    decreases |events|
  {
    if events == [] then s else After(Next(s, events[0]), events[1..])
  }

  /** A database no transaction is open on, with every count exact and no mark. */
  ghost predicate Initial(s: State) {
    && ForeignKeys(s.store) && s.store.log == map[] && s.writers == map[] && s.drains == map[]
    && (forall x :: x in s.store.counts ==> s.store.counts[x] == Count(s.store, x))
  }
}
