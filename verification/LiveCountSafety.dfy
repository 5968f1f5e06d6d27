/** What every reachable state of the live-count protocol keeps, and what goes wrong without the
    agent row lock. */
module LiveCountSafety {
  import opened Collections
  import opened LiveCount

  // ---------------------------------------------------------------- the invariant

  /** The log holds a mark for `x` that no drain has taken. */
  ghost predicate Marked(s: State, x: ActionId) {
    exists m :: m in s.store.log && s.store.log[m] == x && m !in TakenIds(s)
  }

  /** Somebody will still look at `x`: its mark waits, or a drain owes it. */
  ghost predicate Owed(s: State, x: ActionId) {
    Marked(s, x) || exists d :: d in s.drains && s.drains[d].Owes(x)
  }

  /** A drain about to commit has counted `x` as it is. */
  ghost predicate Settling(s: State, x: ActionId) {
    exists d :: d in s.drains && x in s.drains[d].recount && s.drains[d].recount[x] == Count(s.store, x)
  }

  predicate Exact(s: State, x: ActionId)
    requires x in s.store.counts
  {
    s.store.counts[x] == Count(s.store, x)
  }

  /** Each inexact count has an unclaimed mark, a drain that owes it, or a pending exact recount. */
  ghost predicate Covered(s: State) {
    forall x :: x in s.store.counts ==> Exact(s, x) || Owed(s, x) || Settling(s, x)
  }

  /** A recount that went stale before its commit is owed to somebody else. */
  ghost predicate RecountsCovered(s: State) {
    forall d, x :: d in s.drains && x in s.drains[d].recount ==> s.drains[d].recount[x] == Count(s.store, x) || Owed(s, x)
  }

  /** The marks of `w` name both sides of every implementation it moved. */
  ghost predicate MovesMarked(s: Store, w: Writer) {
    forall i :: i in w.impls && w.impls[i] != At(s.impls, i) ==>
      && (w.impls[i].Some? ==> w.impls[i].value.action in w.marks)
      && (i in s.impls ==> s.impls[i].action in w.marks)
  }

  /** The marks of `w` name every committed implementation on an agent it made (un)available. */
  ghost predicate AgentsMarked(s: Store, w: Writer) {
    forall a, i ::
      (&& a in w.agents && w.agents[a].Some? && a in s.agents && Available(w.agents[a].value) != Available(s.agents[a])
       && i in s.impls && s.impls[i].agent == a) ==> s.impls[i].action in w.marks
  }

  /** A writer's action rows carry the committed count, or 0 for a new action. */
  ghost predicate CountsKept(s: Store, w: Writer) {
    forall x :: x in w.actions && w.actions[x].Some? ==> w.actions[x].value == (if x in s.counts then s.counts[x] else 0)
  }

  ghost predicate WriterOk(s: Store, w: Writer) {
    && w.agents.Keys <= w.agentLocks && w.actions.Keys <= w.actionLocks
    && MovesMarked(s, w) && AgentsMarked(s, w) && CountsKept(s, w)
  }

  ghost predicate DrainOk(s: Store, d: Drain) {
    && (forall m :: m in d.taken ==> m in s.log && s.log[m] == d.taken[m])
    && d.locked <= d.Actions() && d.locked <= s.counts.Keys
    && d.returned <= d.Actions() - d.locked && (d.phase != PutBack ==> d.returned == {})
    && (d.phase == Claimed ==> d.locked == {})
    && (d.phase in {Claimed, Locked} ==> d.recount == map[])
    && (d.phase in {Recounted, PutBack} ==> d.recount.Keys == d.locked)
  }

  ghost predicate Apart(v: Writer, w: Writer) {
    v.agentLocks !! w.agentLocks && v.actionLocks !! w.actionLocks && v.impls.Keys !! w.impls.Keys
  }

  ghost predicate RowsExclusive(s: State) {
    && (forall t, u :: t in s.writers && u in s.writers && t != u ==> Apart(s.writers[t], s.writers[u]))
    && (forall d, e :: d in s.drains && e in s.drains && d != e ==>
          s.drains[d].locked !! s.drains[e].locked && s.drains[d].taken.Keys !! s.drains[e].taken.Keys)
    && (forall t, d :: t in s.writers && d in s.drains ==> s.writers[t].actionLocks !! s.drains[d].locked)
  }

  ghost predicate Inv(s: State) {
    && ForeignKeys(s.store) && RowsExclusive(s)
    && (forall t :: t in s.writers ==> WriterOk(s.store, s.writers[t]))
    && (forall d :: d in s.drains ==> DrainOk(s.store, s.drains[d]))
    && Covered(s) && RecountsCovered(s)
  }

  // ---------------------------------------------------------------- writers' statements

  /** An implementation statement that marks both sides of what it moves, as its view shows them. */
  lemma MovingKeepsWriterOk(s: Store, w: Writer, over: map<ImplId, Option<Impl>>, marks: set<ActionId>)
    requires WriterOk(s, w)
    requires forall i :: i in over && over[i] != At(View(s, w).impls, i) ==>
      && (over[i].Some? ==> over[i].value.action in marks)
      && (i in View(s, w).impls ==> View(s, w).impls[i].action in marks)
    ensures WriterOk(s, w.(impls := w.impls + over, marks := w.marks + marks))
  {
    var view := View(s, w);
    forall i | i in over ensures At(view.impls, i) == Seen(s.impls, w.impls, i) {}
  }

  /** The agent trigger marks every implementation its statement can see on the agent; one it
      cannot see was moved by this very transaction, and marked then. */
  lemma UpdateAgentKeepsWriterOk(s: Store, w: Writer, a: AgentId, row: Agent)
    requires WriterOk(s, w) && a in View(s, w).agents
    ensures WriterOk(s, Wrote(s, w, UpdateAgent(a, row)))
  {
    var view := View(s, w);
    var w' := Wrote(s, w, UpdateAgent(a, row));
    forall i | i in s.impls && s.impls[i].agent == a && !(a in view.agents && view.agents[a] == row)
      ensures s.impls[i].action in w'.marks
    {
      if i !in w.impls || w.impls[i] == At(s.impls, i) {
        assert i in view.impls && view.impls[i] == s.impls[i];
        assert s.impls[i].action in AgentMarks(view, a, row);
      }
    }
    assert MovesMarked(s, w');
  }

  lemma ImplStatementKeepsWriterOk(s: Store, w: Writer, q: Statement)
    requires WriterOk(s, w) && (q.InsertImpls? || q.UpdateImpls? || q.DeleteImpls?)
    requires q.InsertImpls? ==> q.rows.Keys !! View(s, w).impls.Keys
    requires q.UpdateImpls? ==> q.rows.Keys <= View(s, w).impls.Keys
    ensures WriterOk(s, Wrote(s, w, q))
  {
    var view := View(s, w);
    match q
    case InsertImpls(rows) =>
      forall i | i in rows ensures i !in view.impls && rows[i].action in InsertedMarks(rows) {}
      MovingKeepsWriterOk(s, w, Puts(rows), InsertedMarks(rows));
    case UpdateImpls(rows) =>
      MovingKeepsWriterOk(s, w, Puts(rows), UpdatedMarks(view, rows));
    case DeleteImpls(ids) =>
      MovingKeepsWriterOk(s, w, Gone(ids), DeletedMarks(view, ids));
  }

  lemma ActionStatementKeepsWriterOk(s: Store, w: Writer, q: Statement)
    requires WriterOk(s, w) && (q.InsertAction? || q.WriteCount? || q.DeleteAction?)
    requires q.InsertAction? ==> q.action !in s.counts
    requires q.WriteCount? ==> q.action in View(s, w).counts
    ensures WriterOk(s, Wrote(s, w, q))
  {
    var w' := Wrote(s, w, q);
    assert MovesMarked(s, w') && AgentsMarked(s, w');
    if q.WriteCount? {
      assert View(s, w).counts[q.action] == Seen(s.counts, w.actions, q.action).value;
    }
  }

  /** A statement marks whatever it moves, or makes (un)available, as seen from its own view. */
  lemma StatementKeepsWriterOk(s: State, t: TxId, q: Statement)
    requires t in s.writers && WriterOk(s.store, s.writers[t]) && Executable(s, t, q)
    ensures WriterOk(s.store, Wrote(s.store, s.writers[t], q))
  {
    var w := s.writers[t];
    if q.UpdateAgent? {
      UpdateAgentKeepsWriterOk(s.store, w, q.agent, q.row);
    } else if q.InsertImpls? || q.UpdateImpls? || q.DeleteImpls? {
      ImplStatementKeepsWriterOk(s.store, w, q);
    } else if q.InsertAction? || q.WriteCount? || q.DeleteAction? {
      ActionStatementKeepsWriterOk(s.store, w, q);
    } else {
      var w' := Wrote(s.store, w, q);
      assert MovesMarked(s.store, w') && CountsKept(s.store, w');
    }
  }

  // ---------------------------------------------------------------- a writer's commit

  /** An action the committing writer did not mark counts the same implementations as before. */
  lemma UnmarkedKeepsLive(s: Store, w: Writer, added: map<MarkId, ActionId>, x: ActionId)
    requires ForeignKeys(s) && ForeignKeys(Merged(s, w, added)) && WriterOk(s, w)
    requires x !in w.marks
    ensures LiveImpls(Merged(s, w, added), x) == LiveImpls(s, x)
  {
    var s' := Merged(s, w, added);
    forall i ensures i in LiveImpls(s', x) <==> i in LiveImpls(s, x) {
      if i in LiveImpls(s, x) {
        assert i !in w.impls || w.impls[i] == At(s.impls, i);
        assert i in s'.impls && s'.impls[i] == s.impls[i];
      }
      if i in LiveImpls(s', x) {
        assert i !in w.impls || w.impls[i] == At(s.impls, i);
        assert i in s.impls && s'.impls[i] == s.impls[i];
      }
    }
  }

  /** Every implementation `w` puts on an agent `v` has made (un)available, or gives another action
      there, `v` has marked all the same. */
  ghost predicate PlacementsSeen(s: Store, w: Writer, v: Writer) {
    forall i :: i in w.impls && w.impls[i].Some? && At(s.impls, i) != w.impls[i] ==>
      var a := w.impls[i].value.agent;
      a in v.agents && v.agents[a].Some? && a in s.agents && Available(v.agents[a].value) != Available(s.agents[a]) ==>
        w.impls[i].value.action in v.marks
  }

  /** Holding the agents' rows keeps every other writer off them. */
  lemma HeldAgentsSeen(s: Store, w: Writer, v: Writer)
    requires HoldsPlacedAgents(s, w) && WriterOk(s, v) && Apart(v, w)
    ensures PlacementsSeen(s, w, v)
  {}

  /** What another open writer has marked is still enough after the commit. */
  lemma CommitKeepsWriterOk(s: Store, w: Writer, added: map<MarkId, ActionId>, v: Writer)
    requires WriterOk(s, w) && WriterOk(s, v) && Apart(v, w) && PlacementsSeen(s, w, v)
    ensures WriterOk(Merged(s, w, added), v)
  {
    var s' := Merged(s, w, added);
    forall i | i in v.impls ensures At(s'.impls, i) == At(s.impls, i) {}
    forall a | a in v.agents ensures At(s'.agents, a) == At(s.agents, a) {}
    forall x | x in v.actions ensures At(s'.counts, x) == At(s.counts, x) {}
    forall a, i | a in v.agents && v.agents[a].Some? && a in s'.agents && Available(v.agents[a].value) != Available(s'.agents[a])
                  && i in s'.impls && s'.impls[i].agent == a
      ensures s'.impls[i].action in v.marks
    {
      if i in w.impls && At(s.impls, i) != w.impls[i] {
        assert w.impls[i] == Some(s'.impls[i]);
      }
    }
  }

  // ---------------------------------------------------------------- steps keep the invariant

  /** Beginning and aborting change one writer: nothing committed, no drain. */
  lemma BeginAbortKeepsInv(s: State, e: Event)
    requires Inv(s) && Enabled(s, e) && (e.Begin? || e.Abort?)
    ensures Inv(Next(s, e))
  {
    SameCommitted(s, Next(s, e));
    BeginAbortKeepsRows(s, e);
  }

  lemma BeginAbortKeepsRows(s: State, e: Event)
    requires RowsExclusive(s) && Enabled(s, e) && (e.Begin? || e.Abort?)
    ensures RowsExclusive(Next(s, e))
  {
    match e {
      case Begin(t) => assert forall u :: u in s.writers ==> Apart(IDLE, s.writers[u]) && Apart(s.writers[u], IDLE);
      case Abort(_) =>
    }
  }

  lemma StatementKeepsRowsExclusive(s: State, t: TxId, q: Statement)
    requires RowsExclusive(s) && Enabled(s, Execute(t, q))
    ensures RowsExclusive(Next(s, Execute(t, q)))
  {
    var w := s.writers[t];
    var w' := Wrote(s.store, w, q);
    forall u | u in s.writers && u != t ensures Apart(w', s.writers[u]) && Apart(s.writers[u], w') {
      assert Apart(w, s.writers[u]);
    }
    forall d | d in s.drains ensures w'.actionLocks !! s.drains[d].locked {}
  }

  lemma StatementKeepsInv(s: State, t: TxId, q: Statement)
    requires Inv(s) && Enabled(s, Execute(t, q))
    ensures Inv(Next(s, Execute(t, q)))
  {
    StatementKeepsWriterOk(s, t, q);
    StatementKeepsRowsExclusive(s, t, q);
    SameCommitted(s, Next(s, Execute(t, q)));
  }

  /** What is owed and what is settling depends on the committed rows and the drains only. */
  lemma SameCommitted(s: State, s': State)
    requires s.store == s'.store && s.drains == s'.drains && Covered(s) && RecountsCovered(s)
    ensures Covered(s') && RecountsCovered(s')
  {
    assert TakenIds(s) == TakenIds(s');
    forall x ensures Owed(s, x) <==> Owed(s', x) {
      assert Marked(s, x) <==> Marked(s', x);
    }
    forall x | x in s.store.counts ensures Exact(s, x) <==> Exact(s', x) {}
    forall x ensures Settling(s, x) <==> Settling(s', x) {}
  }

  /** A writer's commit turns every count it changes into a waiting mark. */
  lemma CommitKeepsCovered(s: State, t: TxId, added: map<MarkId, ActionId>)
    requires Inv(s) && Enabled(s, Commit(t, added))
    ensures var s' := Next(s, Commit(t, added)); Covered(s') && RecountsCovered(s')
  {
    var w := s.writers[t];
    var s' := Next(s, Commit(t, added));
    forall x ensures
        && (x in w.marks ==> Marked(s', x))
        && (Owed(s, x) ==> Owed(s', x))
        && (x !in w.marks ==> Count(s'.store, x) == Count(s.store, x))
    {
      if x in w.marks {
        var m :| m in added && added[m] == x;
        TakenLogged(s);
        assert m in s'.store.log && s'.store.log[m] == x;
        assert TakenIds(s') == TakenIds(s);
      } else {
        UnmarkedKeepsLive(s.store, w, added, x);
      }
      if Marked(s, x) {
        var m :| m in s.store.log && s.store.log[m] == x && m !in TakenIds(s);
        assert s'.store.log[m] == x && TakenIds(s') == TakenIds(s);
      }
    }
    forall x | x in s'.store.counts ensures Exact(s', x) || Owed(s', x) || Settling(s', x) {
      if x !in w.marks {
        if x in s.store.counts {
          assert s'.store.counts[x] == s.store.counts[x];
          if Settling(s, x) {
            var d :| d in s.drains && x in s.drains[d].recount && s.drains[d].recount[x] == Count(s.store, x);
            assert s'.drains[d] == s.drains[d];
          }
        } else {
          assert LiveImpls(s.store, x) == {};
        }
      }
    }
  }

  lemma TakenLogged(s: State)
    requires forall d :: d in s.drains ==> DrainOk(s.store, s.drains[d])
    ensures TakenIds(s) <= s.store.log.Keys
  {}

  lemma CommitKeepsRows(s: State, t: TxId, added: map<MarkId, ActionId>)
    requires Inv(s) && Enabled(s, Commit(t, added))
    ensures var s' := Next(s, Commit(t, added));
      ForeignKeys(s'.store) && RowsExclusive(s') && forall d :: d in s'.drains ==> DrainOk(s'.store, s'.drains[d])
  {
    var w := s.writers[t];
    var s' := Next(s, Commit(t, added));
    forall d | d in s'.drains ensures DrainOk(s'.store, s'.drains[d]) {
      assert s'.drains[d] == s.drains[d];
      assert forall x :: x in s.drains[d].locked ==> x !in w.actions;
    }
  }

  /** A placement the agent trigger of `v` missed leaves `v` short of a mark. */
  lemma MissedPlacementBreaks(s: Store, w: Writer, added: map<MarkId, ActionId>, v: Writer)
    requires WriterOk(s, w) && WriterOk(s, v) && Apart(v, w) && !PlacementsSeen(s, w, v)
    ensures !AgentsMarked(Merged(s, w, added), v)
  {
    var s' := Merged(s, w, added);
    var i :| i in w.impls && w.impls[i].Some? && At(s.impls, i) != w.impls[i]
             && w.impls[i].value.agent in v.agents && v.agents[w.impls[i].value.agent].Some? && w.impls[i].value.agent in s.agents
             && Available(v.agents[w.impls[i].value.agent].value) != Available(s.agents[w.impls[i].value.agent])
             && w.impls[i].value.action !in v.marks;
    var a := w.impls[i].value.agent;
    assert i in s'.impls && s'.impls[i] == w.impls[i].value;
    assert a in s'.agents && s'.agents[a] == s.agents[a];
  }

  /** A commit keeps the invariant exactly when no other open writer's agent trigger missed what it places. */
  lemma CommitKeepsInvIff(s: State, t: TxId, added: map<MarkId, ActionId>)
    requires Inv(s) && Enabled(s, Commit(t, added))
    ensures Inv(Next(s, Commit(t, added))) <==> forall u :: u in s.writers && u != t ==> PlacementsSeen(s.store, s.writers[t], s.writers[u])
  {
    var s' := Next(s, Commit(t, added));
    CommitKeepsCovered(s, t, added);
    CommitKeepsRows(s, t, added);
    CommitKeepsWritersIff(s, t, added);
  }

  lemma CommitKeepsWritersIff(s: State, t: TxId, added: map<MarkId, ActionId>)
    requires t in s.writers && RowsExclusive(s) && forall u :: u in s.writers ==> WriterOk(s.store, s.writers[u])
    ensures
      (forall u :: u in s.writers - {t} ==> WriterOk(Merged(s.store, s.writers[t], added), (s.writers - {t})[u]))
      <==> (forall u :: u in s.writers && u != t ==> PlacementsSeen(s.store, s.writers[t], s.writers[u]))
  {
    var w := s.writers[t];
    forall u | u in s.writers && u != t
      ensures WriterOk(Merged(s.store, w, added), s.writers[u]) <==> PlacementsSeen(s.store, w, s.writers[u])
    {
      assert Apart(s.writers[u], w);
      if PlacementsSeen(s.store, w, s.writers[u]) {
        CommitKeepsWriterOk(s.store, w, added, s.writers[u]);
      } else {
        MissedPlacementBreaks(s.store, w, added, s.writers[u]);
      }
    }
    assert forall u :: u in s.writers - {t} <==> u in s.writers && u != t;
  }

  lemma CommitKeepsInv(s: State, t: TxId, added: map<MarkId, ActionId>)
    requires Inv(s) && Enabled(s, Commit(t, added)) && Disciplined(s, Commit(t, added))
    ensures Inv(Next(s, Commit(t, added)))
  {
    forall u | u in s.writers && u != t ensures PlacementsSeen(s.store, s.writers[t], s.writers[u]) {
      HeldAgentsSeen(s.store, s.writers[t], s.writers[u]);
    }
    CommitKeepsInvIff(s, t, added);
  }

  /** Claiming moves waiting marks to a drain that owes them. */
  lemma ClaimKeepsOwed(s: State, d: TxId, taken: map<MarkId, ActionId>, batch: nat, x: ActionId)
    requires Enabled(s, Claim(d, taken, batch)) && Owed(s, x)
    ensures Owed(Next(s, Claim(d, taken, batch)), x)
  {
    var s' := Next(s, Claim(d, taken, batch));
    if Marked(s, x) {
      var m :| m in s.store.log && s.store.log[m] == x && m !in TakenIds(s);
      if m in taken {
        assert taken[m] in taken.Values && s'.drains[d].Owes(x);
      } else {
        assert m !in TakenIds(s');
      }
    } else {
      var e :| e in s.drains && s.drains[e].Owes(x);
      assert s'.drains[e].Owes(x);
    }
  }

  lemma ClaimKeepsRows(s: State, d: TxId, taken: map<MarkId, ActionId>, batch: nat)
    requires Inv(s) && Enabled(s, Claim(d, taken, batch))
    ensures RowsExclusive(Next(s, Claim(d, taken, batch)))
  {
    forall e | e in s.drains ensures s.drains[e].taken.Keys !! taken.Keys {
      forall m | m in s.drains[e].taken ensures m in TakenIds(s) {}
    }
  }

  lemma ClaimKeepsInv(s: State, d: TxId, taken: map<MarkId, ActionId>, batch: nat)
    requires Inv(s) && Enabled(s, Claim(d, taken, batch))
    ensures Inv(Next(s, Claim(d, taken, batch)))
  {
    ClaimKeepsCovered(s, d, taken, batch);
    ClaimKeepsRows(s, d, taken, batch);
  }

  lemma ClaimKeepsCovered(s: State, d: TxId, taken: map<MarkId, ActionId>, batch: nat)
    requires Inv(s) && Enabled(s, Claim(d, taken, batch))
    ensures Covered(Next(s, Claim(d, taken, batch))) && RecountsCovered(Next(s, Claim(d, taken, batch)))
  {
    var s' := Next(s, Claim(d, taken, batch));
    forall x | Owed(s, x) ensures Owed(s', x) {
      ClaimKeepsOwed(s, d, taken, batch, x);
    }
    SettlingSurvives(s, s');
  }

  /** Other drains' recounts are still there, over the same committed rows. */
  lemma SettlingSurvives(s: State, s': State)
    requires s.store.agents == s'.store.agents && s.store.impls == s'.store.impls
    requires forall d :: d in s.drains && s.drains[d].recount != map[] ==> d in s'.drains && s'.drains[d].recount == s.drains[d].recount
    ensures forall x :: Count(s'.store, x) == Count(s.store, x)
    ensures forall x :: Settling(s, x) ==> Settling(s', x)
  {
    forall x ensures Count(s'.store, x) == Count(s.store, x) {
      assert LiveImpls(s'.store, x) == LiveImpls(s.store, x);
    }
  }

  /** A drain going on with the marks it has: what it stops owing it has recounted exactly, and a
      recount it had it keeps. */
  ghost predicate GoesOn(s: State, d: TxId, drain: Drain)
    requires d in s.drains
  {
    var was := s.drains[d];
    && drain.taken == was.taken
    && (forall x :: x in s.store.counts && was.Owes(x) ==> drain.Owes(x) || (x in drain.recount && drain.recount[x] == Count(s.store, x)))
    && (drain.recount == was.recount || (was.recount == map[] && forall x :: x in drain.recount ==> drain.recount[x] == Count(s.store, x)))
  }

  lemma GoingOnKeepsOwed(s: State, d: TxId, drain: Drain, x: ActionId)
    requires d in s.drains && GoesOn(s, d, drain) && x in s.store.counts && Owed(s, x)
    ensures Owed(WithDrain(s, d, drain), x) || (x in drain.recount && drain.recount[x] == Count(s.store, x))
  {
    var s' := WithDrain(s, d, drain);
    if Marked(s, x) {
      var m :| m in s.store.log && s.store.log[m] == x && m !in TakenIds(s);
      assert m !in TakenIds(s');
    } else {
      var f :| f in s.drains && s.drains[f].Owes(x);
      assert s'.drains[f].Owes(x) || f == d;
    }
  }

  lemma GoingOnKeepsCovered(s: State, d: TxId, drain: Drain)
    requires Inv(s) && d in s.drains && GoesOn(s, d, drain) && DrainOk(s.store, drain)
    requires forall f :: f in s.drains && f != d ==> drain.locked !! s.drains[f].locked
    ensures Covered(WithDrain(s, d, drain)) && RecountsCovered(WithDrain(s, d, drain))
  {
    GoingOnKeepsCounts(s, d, drain);
    GoingOnKeepsRecounts(s, d, drain);
  }

  lemma GoingOnKeepsCounts(s: State, d: TxId, drain: Drain)
    requires Inv(s) && d in s.drains && GoesOn(s, d, drain)
    ensures Covered(WithDrain(s, d, drain))
  {
    var s' := WithDrain(s, d, drain);
    assert s'.drains[d] == drain;
    SettlingSurvives(s, s');
    forall x | x in s.store.counts ensures Exact(s', x) || Owed(s', x) || Settling(s', x) {
      if Owed(s, x) { GoingOnKeepsOwed(s, d, drain, x); }
    }
  }

  lemma GoingOnKeepsRecounts(s: State, d: TxId, drain: Drain)
    requires Inv(s) && d in s.drains && GoesOn(s, d, drain) && DrainOk(s.store, drain)
    requires forall f :: f in s.drains && f != d ==> drain.locked !! s.drains[f].locked
    ensures RecountsCovered(WithDrain(s, d, drain))
  {
    var s' := WithDrain(s, d, drain);
    forall f, x | f in s'.drains && x in s'.drains[f].recount
      ensures s'.drains[f].recount[x] == Count(s'.store, x) || Owed(s', x)
    {
      assert f != d ==> DrainOk(s.store, s.drains[f]) && x in s.drains[f].locked;
      RecountStaysCovered(s, d, drain, f, x);
    }
  }

  lemma RecountStaysCovered(s: State, d: TxId, drain: Drain, f: TxId, x: ActionId)
    requires RecountsCovered(s) && d in s.drains && GoesOn(s, d, drain) && x in s.store.counts
    requires if f == d then x in drain.recount else f in s.drains && x in s.drains[f].recount && x !in drain.recount
    ensures var s' := WithDrain(s, d, drain); s'.drains[f].recount[x] == Count(s'.store, x) || Owed(s', x)
  {
    SettlingSurvives(s, WithDrain(s, d, drain));
    if Owed(s, x) { GoingOnKeepsOwed(s, d, drain, x); }
  }

  lemma GoingOnKeepsRows(s: State, d: TxId, drain: Drain)
    requires RowsExclusive(s) && d in s.drains && drain.taken == s.drains[d].taken
    requires forall f :: f in s.drains && f != d ==> drain.locked !! s.drains[f].locked
    requires forall t :: t in s.writers ==> s.writers[t].actionLocks !! drain.locked
    ensures RowsExclusive(WithDrain(s, d, drain))
  {}

  lemma GoingOnKeepsInv(s: State, d: TxId, drain: Drain)
    requires Inv(s) && d in s.drains && GoesOn(s, d, drain) && DrainOk(s.store, drain)
    requires forall f :: f in s.drains && f != d ==> drain.locked !! s.drains[f].locked
    requires forall t :: t in s.writers ==> s.writers[t].actionLocks !! drain.locked
    ensures Inv(WithDrain(s, d, drain))
  {
    GoingOnKeepsCovered(s, d, drain);
    GoingOnKeepsRows(s, d, drain);
  }

  lemma LockClaimedKeepsInv(s: State, d: TxId)
    requires Inv(s) && Enabled(s, LockClaimed(d))
    ensures Inv(Next(s, LockClaimed(d)))
  {
    var drain := Next(s, LockClaimed(d)).drains[d];
    LockClaimedGoesOn(s, d, drain);
    assert Next(s, LockClaimed(d)) == WithDrain(s, d, drain);
    forall x | x in drain.locked ensures !Held(s, d, x) {}
    GoingOnKeepsInv(s, d, drain);
  }

  lemma LockClaimedGoesOn(s: State, d: TxId, drain: Drain)
    requires Enabled(s, LockClaimed(d)) && DrainOk(s.store, s.drains[d]) && drain == Next(s, LockClaimed(d)).drains[d]
    ensures GoesOn(s, d, drain) && DrainOk(s.store, drain)
  {}

  lemma RecountKeepsInv(s: State, d: TxId)
    requires Inv(s) && Enabled(s, Recount(d))
    ensures Inv(Next(s, Recount(d)))
  {
    var drain := Next(s, Recount(d)).drains[d];
    RecountGoesOn(s, d, drain);
    GoingOnKeepsInv(s, d, drain);
  }

  lemma RecountGoesOn(s: State, d: TxId, drain: Drain)
    requires Enabled(s, Recount(d)) && DrainOk(s.store, s.drains[d]) && drain == Next(s, Recount(d)).drains[d]
    ensures GoesOn(s, d, drain) && DrainOk(s.store, drain)
  {}

  lemma ReturnMarksKeepsInv(s: State, d: TxId)
    requires Inv(s) && Enabled(s, ReturnMarks(d))
    ensures Inv(Next(s, ReturnMarks(d)))
  {
    var drain := Next(s, ReturnMarks(d)).drains[d];
    ReturnMarksGoesOn(s, d, drain);
    GoingOnKeepsInv(s, d, drain);
  }

  lemma ReturnMarksGoesOn(s: State, d: TxId, drain: Drain)
    requires Enabled(s, ReturnMarks(d)) && DrainOk(s.store, s.drains[d]) && drain == Next(s, ReturnMarks(d)).drains[d]
    ensures GoesOn(s, d, drain) && DrainOk(s.store, drain)
  {}

  // ---------------------------------------------------------------- a drain's end

  /** An aborted drain's marks wait again; whatever it owed or had recounted is among them. */
  lemma AbortDrainKeepsInv(s: State, d: TxId)
    requires Inv(s) && Enabled(s, AbortDrain(d))
    ensures Inv(Next(s, AbortDrain(d)))
  {
    var s' := Next(s, AbortDrain(d));
    AbandonedMarksWait(s, d);
    EndKeepsOwed(s, s', d);
    SettlingElsewhere(s, s', d);
  }

  lemma AbandonedMarksWait(s: State, d: TxId)
    requires Inv(s) && Enabled(s, AbortDrain(d))
    ensures forall x :: x in s.drains[d].Actions() ==> Marked(Next(s, AbortDrain(d)), x)
  {
    var s' := Next(s, AbortDrain(d));
    forall x | x in s.drains[d].Actions() ensures Marked(s', x) {
      var m :| m in s.drains[d].taken && s.drains[d].taken[m] == x;
      assert m !in TakenIds(s');
    }
  }

  /** What somebody other than the ending drain owes stays owed. */
  lemma EndKeepsOwed(s: State, s': State, d: TxId)
    requires d in s.drains && s'.drains == s.drains - {d}
    requires forall m :: m in s.store.log && m !in s.drains[d].taken ==> m in s'.store.log && s'.store.log[m] == s.store.log[m]
    ensures forall x :: Owed(s, x) && !s.drains[d].Owes(x) ==> Owed(s', x)
  {
    forall x | Owed(s, x) && !s.drains[d].Owes(x) ensures Owed(s', x) {
      if Marked(s, x) {
        var m :| m in s.store.log && s.store.log[m] == x && m !in TakenIds(s);
        assert m !in TakenIds(s') && m !in s.drains[d].taken;
      } else {
        var f :| f in s.drains && s.drains[f].Owes(x);
        assert s'.drains[f].Owes(x);
      }
    }
  }

  lemma SettlingElsewhere(s: State, s': State, d: TxId)
    requires s.store.agents == s'.store.agents && s.store.impls == s'.store.impls
    requires d in s.drains && s'.drains == s.drains - {d}
    ensures forall x :: Count(s'.store, x) == Count(s.store, x)
    ensures forall x :: Settling(s, x) && x !in s.drains[d].recount ==> Settling(s', x)
  {
    forall x ensures Count(s'.store, x) == Count(s.store, x) {
      assert LiveImpls(s'.store, x) == LiveImpls(s.store, x);
    }
    forall x | Settling(s, x) && x !in s.drains[d].recount ensures Settling(s', x) {
      var f :| f in s.drains && x in s.drains[f].recount && s.drains[f].recount[x] == Count(s.store, x);
      assert s'.drains[f] == s.drains[f];
    }
  }

  lemma ReturnedMarksWait(s: State, d: TxId, added: map<MarkId, ActionId>)
    requires Inv(s) && Enabled(s, CommitDrain(d, added))
    ensures forall x :: x in s.drains[d].returned ==> Marked(Next(s, CommitDrain(d, added)), x)
  {
    var s' := Next(s, CommitDrain(d, added));
    TakenLogged(s);
    forall x | x in s.drains[d].returned ensures Marked(s', x) {
      var m :| m in added && added[m] == x;
      assert m in s'.store.log && s'.store.log[m] == x && m !in TakenIds(s');
    }
  }

  /** A committed drain leaves nothing owed forgotten: what it could not recount it marked again. */
  lemma CommitDrainKeepsOwed(s: State, d: TxId, added: map<MarkId, ActionId>)
    requires Inv(s) && Enabled(s, CommitDrain(d, added))
    ensures forall x :: Owed(s, x) ==> Owed(Next(s, CommitDrain(d, added)), x)
  {
    var s' := Next(s, CommitDrain(d, added));
    ReturnedMarksWait(s, d, added);
    UntakenStay(s, d, added);
    EndKeepsOwed(s, s', d);
    PutBackOwes(s.drains[d]);
  }

  lemma PutBackOwes(drain: Drain)
    requires drain.phase == PutBack
    ensures forall x :: drain.Owes(x) ==> x in drain.returned
  {}

  lemma UntakenStay(s: State, d: TxId, added: map<MarkId, ActionId>)
    requires Enabled(s, CommitDrain(d, added))
    ensures var log' := Next(s, CommitDrain(d, added)).store.log;
      forall m :: m in s.store.log && m !in s.drains[d].taken ==> m in log' && log'[m] == s.store.log[m]
  {}

  /** A drain ends, its recount written and nothing owed forgotten: every count stays covered. */
  lemma EndKeepsCovered(s: State, s': State, d: TxId)
    requires Covered(s) && RecountsCovered(s) && d in s.drains && s'.drains == s.drains - {d}
    requires s.store.agents == s'.store.agents && s.store.impls == s'.store.impls
    requires forall x :: x in s'.store.counts ==>
      x in s.store.counts && s'.store.counts[x] == if x in s.drains[d].recount then s.drains[d].recount[x] else s.store.counts[x]
    requires forall x :: Owed(s, x) ==> Owed(s', x)
    ensures Covered(s') && RecountsCovered(s')
  {
    SettlingElsewhere(s, s', d);
    forall f, x | f in s'.drains && x in s'.drains[f].recount
      ensures s'.drains[f].recount[x] == Count(s'.store, x) || Owed(s', x)
    {
      assert s'.drains[f] == s.drains[f];
    }
    forall x | x in s'.store.counts ensures Exact(s', x) || Owed(s', x) || Settling(s', x) {
      assert x in s.drains[d].recount ==> s'.store.counts[x] == s.drains[d].recount[x];
    }
  }

  lemma CommittedCounts(s: State, d: TxId, added: map<MarkId, ActionId>)
    requires Enabled(s, CommitDrain(d, added))
    ensures var s' := Next(s, CommitDrain(d, added));
      forall x :: x in s'.store.counts ==>
        x in s.store.counts && s'.store.counts[x] == if x in s.drains[d].recount then s.drains[d].recount[x] else s.store.counts[x]
  {}

  lemma CommitDrainKeepsCovered(s: State, d: TxId, added: map<MarkId, ActionId>)
    requires Inv(s) && Enabled(s, CommitDrain(d, added))
    ensures var s' := Next(s, CommitDrain(d, added)); Covered(s') && RecountsCovered(s')
  {
    CommitDrainKeepsOwed(s, d, added);
    CommittedCounts(s, d, added);
    EndKeepsCovered(s, Next(s, CommitDrain(d, added)), d);
  }

  lemma CommitDrainKeepsWriters(s: State, d: TxId, added: map<MarkId, ActionId>, t: TxId)
    requires Inv(s) && Enabled(s, CommitDrain(d, added)) && t in s.writers
    ensures WriterOk(Next(s, CommitDrain(d, added)).store, s.writers[t])
  {
    forall x | x in s.writers[t].actions ensures x !in s.drains[d].locked {}
  }

  lemma CommitDrainKeepsDrains(s: State, d: TxId, added: map<MarkId, ActionId>, e: TxId)
    requires Inv(s) && Enabled(s, CommitDrain(d, added)) && e in s.drains && e != d
    ensures DrainOk(Next(s, CommitDrain(d, added)).store, s.drains[e])
  {
    assert s.drains[e].taken.Keys !! s.drains[d].taken.Keys;
  }

  lemma CommitDrainKeepsRows(s: State, d: TxId, added: map<MarkId, ActionId>)
    requires Inv(s) && Enabled(s, CommitDrain(d, added))
    ensures ForeignKeys(Next(s, CommitDrain(d, added)).store) && RowsExclusive(Next(s, CommitDrain(d, added)))
  {}

  /** A drain's commit leaves each count it wrote exact, or owed to someone who marked it since. */
  lemma CommitDrainKeepsInv(s: State, d: TxId, added: map<MarkId, ActionId>)
    requires Inv(s) && Enabled(s, CommitDrain(d, added))
    ensures Inv(Next(s, CommitDrain(d, added)))
  {
    var s' := Next(s, CommitDrain(d, added));
    CommitDrainKeepsCovered(s, d, added);
    CommitDrainKeepsRows(s, d, added);
    forall t | t in s'.writers ensures WriterOk(s'.store, s'.writers[t]) {
      CommitDrainKeepsWriters(s, d, added, t);
    }
    forall e | e in s'.drains ensures DrainOk(s'.store, s'.drains[e]) {
      CommitDrainKeepsDrains(s, d, added, e);
    }
  }

  // ---------------------------------------------------------------- every run

  lemma StepKeepsInv(s: State, e: Event)
    requires Inv(s) && Enabled(s, e) && Disciplined(s, e)
    ensures Inv(Next(s, e))
  {
    match e
    case Begin(_) => BeginAbortKeepsInv(s, e);
    case Abort(_) => BeginAbortKeepsInv(s, e);
    case Execute(t, q) => StatementKeepsInv(s, t, q);
    case Commit(t, added) => CommitKeepsInv(s, t, added);
    case Claim(d, taken, batch) => ClaimKeepsInv(s, d, taken, batch);
    case LockClaimed(d) => LockClaimedKeepsInv(s, d);
    case Recount(d) => RecountKeepsInv(s, d);
    case ReturnMarks(d) => ReturnMarksKeepsInv(s, d);
    case CommitDrain(d, added) => CommitDrainKeepsInv(s, d, added);
    case AbortDrain(d) => AbortDrainKeepsInv(s, d);
  }

  /** In every reachable state of any interleaving, each inexact count has an unclaimed mark, a
      drain that has yet to recount it or return its mark, or a pending recount that is exact. */
  lemma {:induction false} ReachableCovered(s: State, events: seq<Event>)
    requires Inv(s) && Runs(s, events) && DisciplinedRun(s, events)
    ensures Inv(After(s, events)) && Covered(After(s, events))
    decreases |events|
  {
    if events != [] {
      StepKeepsInv(s, events[0]);
      ReachableCovered(Next(s, events[0]), events[1..]);
    }
  }

  /** An empty log with nothing in flight means every count, and `assignable`, is exact. */
  lemma QuiescentExact(s: State, events: seq<Event>)
    requires Initial(s) && Runs(s, events) && DisciplinedRun(s, events)
    ensures var s' := After(s, events); s'.store.log == map[] && s'.drains == map[] ==>
      forall x :: x in s'.store.counts ==>
        s'.store.counts[x] == Count(s'.store, x) && (s'.store.counts[x] > 0 <==> Assignable(s'.store, x))
  {
    assert Inv(s);
    ReachableCovered(s, events);
    var s' := After(s, events);
    if s'.store.log == map[] && s'.drains == map[] {
      forall x | x in s'.store.counts
        ensures s'.store.counts[x] == Count(s'.store, x) && (s'.store.counts[x] > 0 <==> Assignable(s'.store, x))
      {
        assert Exact(s', x);
        CountsAssignable(s'.store, x);
      }
    }
  }

  /** The guard: whatever a step does, an action that stays keeps its count unless a drain commits
      a recount of it, and a new action starts at 0. */
  lemma OnlyDrainsWriteCounts(s: State, e: Event, x: ActionId)
    requires Inv(s) && Enabled(s, e) && x in Next(s, e).store.counts
    ensures Next(s, e).store.counts[x] ==
      if e.CommitDrain? && x in s.drains[e.d].recount then s.drains[e.d].recount[x]
      else if x in s.store.counts then s.store.counts[x]
      else 0
  {}
}
