/** What goes wrong when a registration does not hold its agent's row. */
module LiveCountTraps {
  import opened Collections
  import opened LiveCount
  import opened LiveCountSafety
  import opened LiveCountDrain

  /** Nothing is open and no mark of `x` waits, yet its count is wrong: no drain will look at it. */
  ghost predicate Lost(s: State, x: ActionId) {
    && s.writers == map[] && s.drains == map[] && x in s.store.counts
    && s.store.counts[x] != Count(s.store, x) && x !in s.store.log.Values
  }

  /** Every count is exact and no mark waits, and one writer is open that has made one agent (un)available
      and placed nothing, without marking every implementation that is on the agent by now. */
  ghost predicate Missed(s: State, t: TxId, a: AgentId, row: Agent) {
    && s.drains == map[] && s.store.log == map[] && ForeignKeys(s.store)
    && (forall x :: x in s.store.counts ==> s.store.counts[x] == Count(s.store, x))
    && t in s.writers && s.writers.Keys == {t} && s.writers[t].agents == map[a := Some(row)]
    && s.writers[t].impls == map[] && s.writers[t].actions == map[] && !AgentsMarked(s.store, s.writers[t])
  }

  /** Such a writer's commit always loses a count. */
  lemma MissedIsLost(s: State, t: TxId, a: AgentId, row: Agent, added: map<MarkId, ActionId>)
    requires Missed(s, t, a, row) && Enabled(s, Commit(t, added))
    ensures exists x :: Lost(Next(s, Commit(t, added)), x)
  {
    var w, s' := s.writers[t], Next(s, Commit(t, added));
    var i :| i in s.store.impls && s.store.impls[i].agent == a && a in s.store.agents
             && Available(row) != Available(s.store.agents[a]) && s.store.impls[i].action !in w.marks;
    var x := s.store.impls[i].action;
    AgentOnly(s.store, w, a, row, added);
    FlipChangesCount(s.store, s'.store, a, row, i);
    assert Lost(s', x);
  }

  lemma AgentOnly(s: Store, w: Writer, a: AgentId, row: Agent, added: map<MarkId, ActionId>)
    requires w.agents == map[a := Some(row)] && w.impls == map[] && w.actions == map[] && a in s.agents && s.log == map[]
    ensures Merged(s, w, added) == Store(s.agents[a := row], s.impls, s.counts, added)
  {
    OverlaidByNothing(s.impls);
    OverlaidByNothing(s.counts);
    OverlaidByOne(s.agents, a, row);
    assert map[] + added == added;
  }

  /** An agent that becomes available, or stops being so, moves the count of all its implementations' actions. */
  lemma FlipChangesCount(s: Store, s': Store, a: AgentId, row: Agent, i: ImplId)
    requires a in s.agents && s'.agents == s.agents[a := row] && s'.impls == s.impls && Available(row) != Available(s.agents[a])
    requires i in s.impls && s.impls[i].agent == a
    ensures Count(s', s.impls[i].action) != Count(s, s.impls[i].action)
  {
    var x := s.impls[i].action;
    var before, after := LiveImpls(s, x), LiveImpls(s', x);
    if Available(row) {
      SubsetSmaller(before, after);
      assert i in after && i !in before;
    } else {
      SubsetSmaller(after, before);
      assert i in before && i !in after;
    }
  }

  const OFFLINE := Agent(WEBSOCKET, false)
  const ONLINE := Agent(WEBSOCKET, true)

  /** Transaction 1 executes `placing`, and commits while 2, which connected agent 1, has not. */
  function UpToCommit(placing: Statement, marks: map<MarkId, ActionId>): seq<Event> {
    [Begin(1), Execute(1, placing), Begin(2), Execute(2, UpdateAgent(1, ONLINE)), Commit(1, marks)]
  }

  /** The marks of 1 are drained before 2 commits. */
  function FromCommit(marks: map<MarkId, ActionId>, late: map<MarkId, ActionId>): seq<Event> {
    DrainEvents(3, marks, 500, map[]) + [Commit(2, late)]
  }

  /** Agent 1 offline, its implementations and the actions, every count 0. */
  function Before(impls: map<ImplId, Impl>, counts: map<ActionId, int>): State {
    State(Store(map[1 := OFFLINE], impls, counts, map[]), map[], map[])
  }

  lemma Connects(s: State, w1: Writer)
    requires s.writers == map[1 := w1, 2 := IDLE] && s.drains == map[] && s.store.agents == map[1 := OFFLINE] && w1.agentLocks == {}
    ensures var w2 := Wrote(s.store, IDLE, UpdateAgent(1, ONLINE));
      Step(s, Execute(2, UpdateAgent(1, ONLINE)), s.(writers := map[1 := w1, 2 := w2]))
  {}

  lemma FirstCommits(s: State, w1: Writer, w2: Writer, marks: map<MarkId, ActionId>)
    requires s.writers == map[1 := w1, 2 := w2] && s.drains == map[] && s.store.log == map[]
    requires marks.Values == w1.marks && ForeignKeys(Merged(s.store, w1, marks))
    ensures Step(s, Commit(1, marks), State(Merged(s.store, w1, marks), map[2 := w2], map[]))
  {}

  /** The states between the steps, up to the first commit. */
  lemma UpToFirstCommit(impls: map<ImplId, Impl>, counts: map<ActionId, int>, placing: Statement, w1: Writer, marks: map<MarkId, ActionId>)
    requires placing.InsertImpls? || placing.UpdateImpls?
    requires Step(Before(impls, counts).(writers := map[1 := IDLE]), Execute(1, placing), Before(impls, counts).(writers := map[1 := w1]))
    requires w1.agentLocks == {} && marks.Values == w1.marks && ForeignKeys(Merged(Before(impls, counts).store, w1, marks))
    ensures var s := Before(impls, counts);
      var events := UpToCommit(placing, marks);
      Runs(s, events)
      && After(s, events) == State(Merged(s.store, w1, marks), map[2 := Wrote(s.store, IDLE, UpdateAgent(1, ONLINE))], map[])
  {
    var s0 := Before(impls, counts);
    var w2 := Wrote(s0.store, IDLE, UpdateAgent(1, ONLINE));
    var s3 := s0.(writers := map[1 := w1, 2 := IDLE]);
    var s4 := s0.(writers := map[1 := w1, 2 := w2]);
    Connects(s3, w1);
    FirstCommits(s4, w1, w2, marks);
    FiveSteps(s0, Begin(1), s0.(writers := map[1 := IDLE]), Execute(1, placing), s0.(writers := map[1 := w1]), Begin(2), s3,
              Execute(2, UpdateAgent(1, ONLINE)), s4, Commit(1, marks), State(Merged(s0.store, w1, marks), map[2 := w2], map[]));
  }

  /** The rows once the first commit's marks are drained. */
  function AfterDrain(s: Store, marks: map<MarkId, ActionId>): Store {
    Drained(s, marks, Free(s.counts.Keys, marks, {}), map[])
  }

  lemma DrainsBetween(s: State, w2: Writer, marks: map<MarkId, ActionId>)
    requires s.writers == map[2 := w2] && s.drains == map[] && s.store.log == marks && 0 < |marks| <= 500 && w2.actionLocks == {}
    ensures Runs(s, DrainEvents(3, marks, 500, map[]))
    ensures After(s, DrainEvents(3, marks, 500, map[])) == s.(store := AfterDrain(s.store, marks)) && AfterDrain(s.store, marks).log == map[]
  {
    assert Returned(s.store, marks, {}) == {};
    assert HeldByWriters(s, {});
    DrainIsARun(s, 3, marks, 500, {}, map[]);
    DrainEmpties(s.store, marks);
  }

  lemma DrainEmpties(s: Store, marks: map<MarkId, ActionId>)
    requires s.log == marks
    ensures AfterDrain(s, marks).log == map[]
  {
    assert marks - marks.Keys + map[] == map[];
  }

  lemma SecondCommits(s: State, w2: Writer, late: map<MarkId, ActionId>)
    requires s.writers == map[2 := w2] && s.drains == map[] && s.store.log == map[]
    requires late.Values == w2.marks && ForeignKeys(Merged(s.store, w2, late))
    ensures Step(s, Commit(2, late), State(Merged(s.store, w2, late), map[], map[]))
  {}

  /** The drain of the first commit's marks, then the second commit. */
  lemma FromFirstCommit(s: State, w2: Writer, marks: map<MarkId, ActionId>, late: map<MarkId, ActionId>)
    requires s.writers == map[2 := w2] && s.drains == map[] && s.store.log == marks && 0 < |marks| <= 500
    requires w2.actionLocks == {} && late.Values == w2.marks && ForeignKeys(Merged(AfterDrain(s.store, marks), w2, late))
    ensures Runs(s, FromCommit(marks, late))
    ensures After(s, FromCommit(marks, late)) == State(Merged(AfterDrain(s.store, marks), w2, late), map[], map[])
  {
    DrainsBetween(s, w2, marks);
    var s' := s.(store := AfterDrain(s.store, marks));
    SecondCommits(s', w2, late);
    RunsOn(s', [Commit(2, late)], State(Merged(s'.store, w2, late), map[], map[]));
    RunThen(s, DrainEvents(3, marks, 500, map[]), [Commit(2, late)]);
  }

  /** What the two transactions write, and the committed rows after the first commit, the drain and
      the second commit. */
  datatype Trap = Trap(
    impls: map<ImplId, Impl>, counts: map<ActionId, int>, placing: Statement, w1: Writer, w2: Writer,
    marks: map<MarkId, ActionId>, late: map<MarkId, ActionId>, middle: Store, drained: Store, final: Store)

  ghost predicate Writes(p: Trap) {
    && (p.placing.InsertImpls? || p.placing.UpdateImpls?)
    && Executable(Before(p.impls, p.counts).(writers := map[1 := IDLE]), 1, p.placing)
    && p.w1 == Wrote(Before(p.impls, p.counts).store, IDLE, p.placing) && p.w1.agentLocks == {}
    && p.w2 == Wrote(Before(p.impls, p.counts).store, IDLE, UpdateAgent(1, ONLINE))
    && p.marks.Values == p.w1.marks && 0 < |p.marks| <= 500 && p.late.Values == p.w2.marks
  }

  ghost predicate Leaves(p: Trap) {
    && p.middle == Merged(Before(p.impls, p.counts).store, p.w1, p.marks) && ForeignKeys(p.middle) && p.middle.log == p.marks
    && p.drained == AfterDrain(p.middle, p.marks)
    && p.final == Merged(p.drained, p.w2, p.late) && ForeignKeys(p.final)
  }

  lemma FirstHalf(p: Trap)
    requires Writes(p) && Leaves(p)
    ensures var s := Before(p.impls, p.counts);
      var first := UpToCommit(p.placing, p.marks);
      Runs(s, first) && After(s, first) == State(p.middle, map[2 := p.w2], map[])
  {
    PlacingSteps(p);
    UpToFirstCommit(p.impls, p.counts, p.placing, p.w1, p.marks);
  }

  lemma SecondHalf(p: Trap)
    requires Writes(p) && Leaves(p)
    ensures var s := State(p.middle, map[2 := p.w2], map[]);
      var second := FromCommit(p.marks, p.late);
      Runs(s, second) && After(s, second) == State(p.final, map[], map[])
  {
    assert p.w2.actionLocks == {};
    FromFirstCommit(State(p.middle, map[2 := p.w2], map[]), p.w2, p.marks, p.late);
  }

  lemma WholeRun(p: Trap)
    requires Writes(p) && Leaves(p)
    ensures var s := Before(p.impls, p.counts);
      var events := UpToCommit(p.placing, p.marks) + FromCommit(p.marks, p.late);
      Runs(s, events) && After(s, events) == State(p.final, map[], map[])
  {
    FirstHalf(p);
    SecondHalf(p);
    RunThen(Before(p.impls, p.counts), UpToCommit(p.placing, p.marks), FromCommit(p.marks, p.late));
  }

  lemma PlacingSteps(p: Trap)
    requires Writes(p)
    ensures var s := Before(p.impls, p.counts);
      Step(s.(writers := map[1 := IDLE]), Execute(1, p.placing), s.(writers := map[1 := p.w1]))
  {}

  function InsertTrap(): Trap {
    var rows := map[5 := Impl(7, 1)];
    Trap(map[], map[7 := 0], InsertImpls(rows),
         Writer(map[], map[5 := Some(Impl(7, 1))], map[], {7}, {}, {}), Writer(map[1 := Some(ONLINE)], map[], map[], {}, {1}, {}),
         map[0 := 7], map[],
         Store(map[1 := OFFLINE], rows, map[7 := 0], map[0 := 7]), Store(map[1 := OFFLINE], rows, map[7 := 0], map[]),
         Store(map[1 := ONLINE], rows, map[7 := 0], map[]))
  }

  lemma InsertTrapWrites()
    ensures Writes(InsertTrap())
  {
    var p := InsertTrap();
    var s := Before(p.impls, p.counts);
    assert p.w1 == Wrote(s.store, IDLE, p.placing) by {
      assert InsertedMarks(p.placing.rows) == {7} by { assert p.placing.rows[5].action in InsertedMarks(p.placing.rows); }
      assert Puts(p.placing.rows) == p.w1.impls;
    }
    assert p.w2 == Wrote(s.store, IDLE, UpdateAgent(1, ONLINE)) by {
      assert AgentMarks(View(s.store, IDLE), 1, ONLINE) == {};
    }
    assert p.marks.Values == {7} by { assert p.marks[0] in p.marks.Values; }
    assert Executable(s.(writers := map[1 := IDLE]), 1, p.placing);
  }

  lemma InsertTrapLeaves()
    ensures Leaves(InsertTrap()) && Count(InsertTrap().final, 7) == 1
  {
    InsertTrapDrains();
    InsertTrapEnds();
  }

  lemma InsertTrapDrains()
    ensures var p := InsertTrap();
      p.middle == Merged(Before(p.impls, p.counts).store, p.w1, p.marks) && p.drained == AfterDrain(p.middle, p.marks)
  {
    var p := InsertTrap();
    InsertTrapMerges();
    assert LiveImpls(p.middle, 7) == {};
    DrainEmpties(p.middle, p.marks);
  }

  lemma InsertTrapMerges()
    ensures var p := InsertTrap(); p.middle == Merged(Before(p.impls, p.counts).store, p.w1, p.marks)
  {}

  lemma InsertTrapEnds()
    ensures var p := InsertTrap(); p.final == Merged(p.drained, p.w2, p.late) && Count(p.final, 7) == 1
  {
    assert LiveImpls(InsertTrap().final, 7) == {5};
  }

  /** An insert that does not hold the agent's row is missed for good. */
  lemma InsertWithoutAgentLockLoses()
    ensures var s := Before(map[], map[7 := 0]);
      var events := UpToCommit(InsertImpls(map[5 := Impl(7, 1)]), map[0 := 7]) + FromCommit(map[0 := 7], map[]);
      Initial(s) && Runs(s, events) && Lost(After(s, events), 7)
  {
    InsertTrapWrites();
    InsertTrapLeaves();
    WholeRun(InsertTrap());
    assert LiveImpls(Before(map[], map[7 := 0]).store, 7) == {};
  }

  /** Giving an implementation another action moves it to no agent, and is missed all the same. */
  function ActionTrap(): Trap {
    var rows := map[5 := Impl(7, 1)];
    Trap(map[5 := Impl(6, 1)], map[6 := 0, 7 := 0], UpdateImpls(rows),
         Writer(map[], map[5 := Some(Impl(7, 1))], map[], {6, 7}, {}, {}), Writer(map[1 := Some(ONLINE)], map[], map[], {6}, {1}, {}),
         map[0 := 6, 1 := 7], map[2 := 6],
         Store(map[1 := OFFLINE], rows, map[6 := 0, 7 := 0], map[0 := 6, 1 := 7]), Store(map[1 := OFFLINE], rows, map[6 := 0, 7 := 0], map[]),
         Store(map[1 := ONLINE], rows, map[6 := 0, 7 := 0], map[2 := 6]))
  }

  lemma ActionTrapPlaces()
    ensures var p := ActionTrap(); p.w1 == Wrote(Before(p.impls, p.counts).store, IDLE, p.placing)
  {
    var p := ActionTrap();
    var view := View(Before(p.impls, p.counts).store, IDLE);
    assert view.impls == p.impls;
    assert UpdatedMarks(view, p.placing.rows) == {6, 7} by { assert view.impls[5] != p.placing.rows[5]; }
    assert Puts(p.placing.rows) == p.w1.impls;
  }

  lemma ActionTrapConnects()
    ensures var p := ActionTrap(); p.w2 == Wrote(Before(p.impls, p.counts).store, IDLE, UpdateAgent(1, ONLINE))
  {
    var p := ActionTrap();
    var view := View(Before(p.impls, p.counts).store, IDLE);
    assert view.impls == p.impls && view.agents == map[1 := OFFLINE];
    assert AgentMarks(view, 1, ONLINE) == {6} by { assert view.impls[5].action in AgentMarks(view, 1, ONLINE); }
  }

  lemma ActionTrapMarks()
    ensures var p := ActionTrap(); p.marks.Values == {6, 7} && p.late.Values == {6} && 0 < |p.marks| <= 500
  {
    var p := ActionTrap();
    assert p.marks[0] in p.marks.Values && p.marks[1] in p.marks.Values;
    assert p.late[2] in p.late.Values;
  }

  lemma ActionTrapExecutable()
    ensures var p := ActionTrap(); Executable(Before(p.impls, p.counts).(writers := map[1 := IDLE]), 1, p.placing)
  {
    var p := ActionTrap();
    assert View(Before(p.impls, p.counts).store, IDLE).impls.Keys == {5};
  }

  lemma ActionTrapWrites()
    ensures Writes(ActionTrap())
  {
    ActionTrapPlaces();
    ActionTrapConnects();
    ActionTrapMarks();
    ActionTrapExecutable();
  }

  lemma OverlaidByNothing<K, V>(m: map<K, V>)
    ensures Overlaid(m, map[]) == m
  {}

  lemma OverlaidByOne<V>(m: map<nat, V>, k: nat, v: V)
    ensures Overlaid(m, map[k := Some(v)]) == m[k := v]
  {}

  lemma ActionTrapMergesFirst()
    ensures var p := ActionTrap(); p.middle == Merged(Before(p.impls, p.counts).store, p.w1, p.marks)
  {
    var p := ActionTrap();
    OverlaidByNothing(p.counts);
    OverlaidByNothing(Before(p.impls, p.counts).store.agents);
    OverlaidByOne(p.impls, 5, Impl(7, 1));
    assert map[5 := Impl(6, 1)][5 := Impl(7, 1)] == map[5 := Impl(7, 1)];
  }

  lemma ActionTrapMergesSecond()
    ensures var p := ActionTrap(); p.final == Merged(p.drained, p.w2, p.late)
  {
    var p := ActionTrap();
    AgentOnly(p.drained, p.w2, 1, ONLINE, p.late);
    assert map[1 := OFFLINE][1 := ONLINE] == map[1 := ONLINE];
  }

  lemma ActionTrapDrains()
    ensures var p := ActionTrap(); p.drained == AfterDrain(p.middle, p.marks)
  {
    var p := ActionTrap();
    assert LiveImpls(p.middle, 6) == {} && LiveImpls(p.middle, 7) == {};
    assert p.middle.log - p.marks.Keys + map[] == map[];
    assert Recomputed(p.middle, Free(p.middle.counts.Keys, p.marks, {})) == p.drained.counts;
  }

  lemma ActionTrapLeaves()
    ensures Leaves(ActionTrap())
  {
    ActionTrapDrains();
    ActionTrapMergesFirst();
    ActionTrapMergesSecond();
  }

  lemma ActionTrapInitial()
    ensures Initial(Before(ActionTrap().impls, ActionTrap().counts))
  {
    var s := Before(ActionTrap().impls, ActionTrap().counts);
    assert LiveImpls(s.store, 6) == {} && LiveImpls(s.store, 7) == {};
  }

  lemma ActionTrapLost()
    ensures Lost(State(ActionTrap().final, map[], map[]), 7)
  {
    assert LiveImpls(ActionTrap().final, 7) == {5};
    ActionTrapMarks();
  }

  /** An update that gives an implementation another action without holding its agent's row is
      missed for good: holding it only when an implementation is added or moved is not enough. */
  lemma ActionChangeWithoutAgentLockLoses()
    ensures var p := ActionTrap();
      var s := Before(p.impls, p.counts);
      var events := UpToCommit(p.placing, p.marks) + FromCommit(p.marks, p.late);
      Initial(s) && Runs(s, events) && Lost(After(s, events), 7)
  {
    ActionTrapInitial();
    ActionTrapWrites();
    ActionTrapLeaves();
    WholeRun(ActionTrap());
    ActionTrapLost();
  }
}
