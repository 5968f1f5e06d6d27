/** facade_refresh_live_implementations statement by statement, and where repeated drains end. */
module LiveCountDrain {
  import opened LiveCount
  import opened LiveCountSafety
  import opened Collections

  // ---------------------------------------------------------------- one whole drain

  /** SELECT ... FROM facade_action WHERE id = ANY(claimed) FOR NO KEY UPDATE SKIP LOCKED. */
  function Free(actions: set<ActionId>, taken: map<MarkId, ActionId>, held: set<ActionId>): set<ActionId> {
    taken.Values * actions - held
  }

  /** UPDATE facade_action SET live_implementations, through the guard, over the locked actions. */
  function Recomputed(s: Store, locked: set<ActionId>): map<ActionId, int> {
    map x | x in s.counts :: if x in locked then Guarded(Some(s.counts[x]), true, Count(s, x)) else s.counts[x]
  }

  /** The claimed actions that exist and are not locked: their marks go back. */
  function Skipped(actions: set<ActionId>, taken: map<MarkId, ActionId>, locked: set<ActionId>): set<ActionId> {
    taken.Values * actions - locked
  }

  function Returned(s: Store, taken: map<MarkId, ActionId>, held: set<ActionId>): set<ActionId> {
    Skipped(s.counts.Keys, taken, Free(s.counts.Keys, taken, held))
  }

  /** The committed rows after a drain of `taken` that nothing interleaved with, the marks it
      returned under the ids of `added`. */
  function Drained(s: Store, taken: map<MarkId, ActionId>, locked: set<ActionId>, added: map<MarkId, ActionId>): Store {
    s.(counts := Recomputed(s, locked), log := (s.log - taken.Keys) + added)
  }

  ghost predicate DrainedTo(s: Store, taken: map<MarkId, ActionId>, held: set<ActionId>, s': Store) {
    exists added: map<MarkId, ActionId> ::
      && added.Keys !! s.log.Keys && added.Values == Returned(s, taken, held) && |added| == |Returned(s, taken, held)|
      && s' == Drained(s, taken, Free(s.counts.Keys, taken, held), added)
  }

  ghost predicate Logged(s: Store, taken: map<MarkId, ActionId>) {
    forall m :: m in taken ==> m in s.log && s.log[m] == taken[m]
  }

  function DrainEvents(d: TxId, taken: map<MarkId, ActionId>, batch: nat, added: map<MarkId, ActionId>): seq<Event> {
    [Claim(d, taken, batch), LockClaimed(d), Recount(d), ReturnMarks(d), CommitDrain(d, added)]
  }

  ghost predicate Step(s: State, e: Event, s': State) {
    Enabled(s, e) && Next(s, e) == s'
  }

  /** The drain `d` alone, between its statements. */
  function DrainAlone(s: State, d: TxId, drain: Drain): State {
    s.(drains := map[d := drain])
  }

  ghost predicate HeldByWriters(s: State, held: set<ActionId>) {
    forall x :: x in held <==> exists t :: t in s.writers && x in s.writers[t].actionLocks
  }

  lemma LocksFree(s: State, d: TxId, taken: map<MarkId, ActionId>, held: set<ActionId>)
    requires HeldByWriters(s, held)
    ensures Step(DrainAlone(s, d, Drain(Claimed, taken, {}, map[], {})), LockClaimed(d), DrainAlone(s, d, Drain(Locked, taken, Free(s.store.counts.Keys, taken, held), map[], {})))
  {
    var s1 := DrainAlone(s, d, Drain(Claimed, taken, {}, map[], {}));
    forall x ensures Held(s1, d, x) <==> x in held {}
    assert Next(s1, LockClaimed(d)).drains[d].locked == Free(s.store.counts.Keys, taken, held);
  }

  lemma RecountsAndReturns(s: State, d: TxId, taken: map<MarkId, ActionId>, held: set<ActionId>)
    ensures
      var free := Free(s.store.counts.Keys, taken, held);
      var recount := map x | x in free :: Count(s.store, x);
      && Step(DrainAlone(s, d, Drain(Locked, taken, free, map[], {})), Recount(d), DrainAlone(s, d, Drain(Recounted, taken, free, recount, {})))
      && Step(DrainAlone(s, d, Drain(Recounted, taken, free, recount, {})), ReturnMarks(d),
              DrainAlone(s, d, Drain(PutBack, taken, free, recount, Returned(s.store, taken, held))))
  {
    var free := Free(s.store.counts.Keys, taken, held);
    var recount := map x | x in free :: Count(s.store, x);
    var s3 := DrainAlone(s, d, Drain(Recounted, taken, free, recount, {}));
    assert Next(s3, ReturnMarks(d)).drains[d].returned == Returned(s.store, taken, held);
  }

  lemma ClaimsAlone(s: State, d: TxId, taken: map<MarkId, ActionId>, batch: nat)
    requires s.drains == map[] && 0 < |taken| <= batch && Logged(s.store, taken)
    ensures Step(s, Claim(d, taken, batch), DrainAlone(s, d, Drain(Claimed, taken, {}, map[], {})))
  {
    assert TakenIds(s) == {};
  }

  lemma CommitsAlone(s: State, d: TxId, drain: Drain, added: map<MarkId, ActionId>)
    requires s.drains == map[] && drain.phase == PutBack
    requires drain.recount == map x | x in drain.locked :: Count(s.store, x)
    requires added.Keys !! s.store.log.Keys && added.Values == drain.returned && |added| == |drain.returned|
    ensures Step(DrainAlone(s, d, drain), CommitDrain(d, added), s.(store := Drained(s.store, drain.taken, drain.locked, added)))
  {
    var s' := Next(DrainAlone(s, d, drain), CommitDrain(d, added));
    assert s'.store.counts == Recomputed(s.store, drain.locked);
    assert s'.drains == s.drains;
  }

  /** The whole drain is the protocol's five steps taken without interleaving, over the actions
      the open writers hold. */
  lemma DrainIsARun(s: State, d: TxId, taken: map<MarkId, ActionId>, batch: nat, held: set<ActionId>, added: map<MarkId, ActionId>)
    requires s.drains == map[] && 0 < |taken| <= batch && Logged(s.store, taken) && HeldByWriters(s, held)
    requires added.Keys !! s.store.log.Keys && added.Values == Returned(s.store, taken, held) && |added| == |Returned(s.store, taken, held)|
    ensures Runs(s, DrainEvents(d, taken, batch, added))
    ensures After(s, DrainEvents(d, taken, batch, added)) == s.(store := Drained(s.store, taken, Free(s.store.counts.Keys, taken, held), added))
  {
    var free := Free(s.store.counts.Keys, taken, held);
    var recount := map x | x in free :: Count(s.store, x);
    var last := Drain(PutBack, taken, free, recount, Returned(s.store, taken, held));
    ClaimsAlone(s, d, taken, batch);
    LocksFree(s, d, taken, held);
    RecountsAndReturns(s, d, taken, held);
    CommitsAlone(s, d, last, added);
    FiveSteps(s, Claim(d, taken, batch), DrainAlone(s, d, Drain(Claimed, taken, {}, map[], {})),
              LockClaimed(d), DrainAlone(s, d, Drain(Locked, taken, free, map[], {})),
              Recount(d), DrainAlone(s, d, Drain(Recounted, taken, free, recount, {})),
              ReturnMarks(d), DrainAlone(s, d, last),
              CommitDrain(d, added), s.(store := Drained(s.store, taken, free, added)));
  }

  lemma FiveSteps(s0: State, e1: Event, s1: State, e2: Event, s2: State, e3: Event, s3: State, e4: Event, s4: State, e5: Event, s5: State)
    requires Step(s0, e1, s1) && Step(s1, e2, s2) && Step(s2, e3, s3) && Step(s3, e4, s4) && Step(s4, e5, s5)
    ensures Runs(s0, [e1, e2, e3, e4, e5]) && After(s0, [e1, e2, e3, e4, e5]) == s5
  {
    RunsOn(s4, [e5], s5);
    assert [e4] + [e5] == [e4, e5] by {}
    Prepend(s3, e4, [e5]);
    Prepend(s2, e3, [e4, e5]);
    assert [e3] + [e4, e5] == [e3, e4, e5];
    Prepend(s1, e2, [e3, e4, e5]);
    assert [e2] + [e3, e4, e5] == [e2, e3, e4, e5];
    Prepend(s0, e1, [e2, e3, e4, e5]);
    assert [e1] + [e2, e3, e4, e5] == [e1, e2, e3, e4, e5];
  }

  lemma Prepend(s: State, e: Event, rest: seq<Event>)
    requires Enabled(s, e) && Runs(Next(s, e), rest)
    ensures Runs(s, [e] + rest) && After(s, [e] + rest) == After(Next(s, e), rest)
  {
    assert ([e] + rest)[1..] == rest;
  }

  /** One enabled step is a run. */
  lemma RunsOn(s: State, one: seq<Event>, s': State)
    requires |one| == 1 && Enabled(s, one[0]) && Next(s, one[0]) == s'
    ensures Runs(s, one) && After(s, one) == s'
  {
    assert one[1..] == [];
  }

  lemma {:induction false} RunThen(s: State, first: seq<Event>, second: seq<Event>)
    requires Runs(s, first) && Runs(After(s, first), second)
    ensures Runs(s, first + second) && After(s, first + second) == After(After(s, first), second)
    decreases |first|
  {
    if first == [] {
      assert first + second == second;
    } else {
      RunThen(Next(s, first[0]), first[1..], second);
      assert (first + second)[1..] == first[1..] + second;
    }
  }

  // ---------------------------------------------------------------- the log shrinks

  lemma LogSize(log: map<MarkId, ActionId>, taken: map<MarkId, ActionId>, added: map<MarkId, ActionId>)
    requires taken.Keys <= log.Keys && added.Keys !! log.Keys
    ensures |(log - taken.Keys) + added| == |log| - |taken| + |added|
  {
    DropKeysSize(log, taken.Keys);
    JoinSize(log - taken.Keys, added);
    assert |taken.Keys| == |taken|;
  }

  /** Whatever ran in between, a drain's commit never lengthens the log, shortens it when it
      returns fewer marks than it took, and returns no mark of an action that was gone. */
  lemma DrainNeverLengthens(s: State, d: TxId, added: map<MarkId, ActionId>)
    requires Inv(s) && Enabled(s, CommitDrain(d, added))
    ensures |Next(s, CommitDrain(d, added)).store.log| == |s.store.log| - |s.drains[d].taken| + |s.drains[d].returned|
    ensures |s.drains[d].returned| <= |s.drains[d].taken|
    ensures s.drains[d].returned != s.drains[d].Actions() ==> |Next(s, CommitDrain(d, added)).store.log| < |s.store.log|
  {
    var drain := s.drains[d];
    ValuesAtMostKeys(drain.taken);
    SubsetSmaller(drain.returned, drain.Actions());
    LogSize(s.store.log, drain.taken, added);
    if drain.returned != drain.Actions() {
      assert |drain.Actions()| == |drain.returned| + |drain.Actions() - drain.returned|;
    }
  }

  /** A whole drain shortens a non-empty log by every mark whose action nobody else holds, the
      marks of deleted actions among them. */
  lemma DrainShortens(s: Store, taken: map<MarkId, ActionId>, held: set<ActionId>, s': Store)
    requires DrainedTo(s, taken, held, s') && Logged(s, taken)
    ensures |s'.log| == |s.log| - |taken| + |Returned(s, taken, held)| && |Returned(s, taken, held)| <= |taken|
    ensures taken != map[] && !(taken.Values <= held * s.counts.Keys) ==> |s'.log| < |s.log|
    ensures forall m :: m in s'.log && m !in s.log ==> s'.log[m] in s.counts && s'.log[m] in held
  {
    var added: map<MarkId, ActionId> :| added.Keys !! s.log.Keys && added.Values == Returned(s, taken, held)
      && |added| == |Returned(s, taken, held)| && s' == Drained(s, taken, Free(s.counts.Keys, taken, held), added);
    LogSize(s.log, taken, added);
    ValuesAtMostKeys(taken);
    SubsetSmaller(Returned(s, taken, held), taken.Values);
    if !(taken.Values <= held * s.counts.Keys) {
      assert |taken.Values| == |Returned(s, taken, held)| + |taken.Values - Returned(s, taken, held)|;
      assert taken.Values - Returned(s, taken, held) != {};
    }
    forall m | m in s'.log && m !in s.log ensures s'.log[m] in s.counts && s'.log[m] in held {
      assert m in added && added[m] in added.Values;
    }
  }

  // ---------------------------------------------------------------- one database session

  /** Each inexact count has a mark: Covered, with nothing in flight. */
  ghost predicate LogCovers(s: Store) {
    forall x :: x in s.counts ==> s.counts[x] == Count(s, x) || exists m :: m in s.log && s.log[m] == x
  }

  lemma LogCoversIffCovered(s: Store)
    ensures LogCovers(s) <==> Covered(State(s, map[], map[]))
  {
    var all := State(s, map[], map[]);
    assert TakenIds(all) == {};
    forall x ensures Owed(all, x) <==> exists m :: m in s.log && s.log[m] == x {}
  }

  lemma DrainKeepsLogCovers(s: Store, taken: map<MarkId, ActionId>, s': Store)
    requires DrainedTo(s, taken, {}, s') && Logged(s, taken) && LogCovers(s)
    ensures LogCovers(s')
  {
    var added: map<MarkId, ActionId> :| added.Keys !! s.log.Keys && added.Values == Returned(s, taken, {})
      && s' == Drained(s, taken, Free(s.counts.Keys, taken, {}), added);
    forall x | x in s'.counts ensures s'.counts[x] == Count(s', x) || exists m :: m in s'.log && s'.log[m] == x {
      DrainKeepsCover(s, taken, added, s', x);
    }
  }

  lemma DrainKeepsCover(s: Store, taken: map<MarkId, ActionId>, added: map<MarkId, ActionId>, s': Store, x: ActionId)
    requires added.Keys !! s.log.Keys && s' == Drained(s, taken, Free(s.counts.Keys, taken, {}), added)
    requires Logged(s, taken) && LogCovers(s) && x in s'.counts
    ensures s'.counts[x] == Count(s', x) || exists m :: m in s'.log && s'.log[m] == x
  {
    assert LiveImpls(s', x) == LiveImpls(s, x);
    if m :| m in s.log && s.log[m] == x {
      if m in taken {
        assert x in taken.Values;
      } else if x !in taken.Values {
        assert m in s'.log && s'.log[m] == x;
      }
    }
  }

  /** The `batch` oldest marks, or all of them when there are fewer. */
  ghost predicate Oldest(log: map<MarkId, ActionId>, batch: nat, taken: map<MarkId, ActionId>) {
    && (forall m :: m in taken ==> m in log && log[m] == taken[m])
    && |taken| == (if batch <= |log| then batch else |log|)
    && (forall m, k :: m in taken && k in log && k !in taken ==> m < k)
  }

  /** `taken` and `rest` are the log split at some id. */
  ghost predicate SplitAt(log: map<MarkId, ActionId>, taken: map<MarkId, ActionId>, rest: map<MarkId, ActionId>) {
    && (forall m :: m in log <==> m in taken || m in rest)
    && (forall m :: m in taken ==> m in log && taken[m] == log[m])
    && (forall m :: m in rest ==> m in log && rest[m] == log[m])
    && (forall m, k :: m in taken && k in rest ==> m < k)
    && |log| == |taken| + |rest|
  }

  lemma TakeLeast(log: map<MarkId, ActionId>, taken: map<MarkId, ActionId>, rest: map<MarkId, ActionId>, m: MarkId)
    requires SplitAt(log, taken, rest) && m in rest && forall k :: k in rest ==> m <= k
    ensures SplitAt(log, taken[m := rest[m]], rest - {m}) && |taken[m := rest[m]]| == |taken| + 1 && |rest - {m}| < |rest|
  {
    assert m !in taken;
    var taken', rest' := taken[m := rest[m]], rest - {m};
    assert |rest'| == |rest| - 1 by { DropKey(rest, m); }
    assert |taken'| == |taken| + 1 by { NewKeyValues(taken, m, rest[m]); }
    forall k ensures k in log <==> k in taken' || k in rest' {}
    forall k, j | k in taken' && j in rest' ensures k < j { assert j in rest && j != m; }
  }

  /** DELETE ... ORDER BY id LIMIT batch FOR UPDATE SKIP LOCKED RETURNING, nothing being locked. */
  method TakeOldest(log: map<MarkId, ActionId>, batch: nat) returns (taken: map<MarkId, ActionId>)
    ensures Oldest(log, batch, taken)
  {
    taken := map[];
    var rest := log;
    while |taken| < batch && rest != map[]
      invariant SplitAt(log, taken, rest) && |taken| <= batch
      decreases |rest|
    {
      ghost var least := HasLeast(rest.Keys);
      var m :| m in rest && forall k :: k in rest ==> m <= k;
      TakeLeast(log, taken, rest, m);
      taken, rest := taken[m := rest[m]], rest - {m};
    }
  }

  /** The rows an INSERT INTO facade_actionlivenessdirty adds: one mark an action, ids from the sequence. */
  method Numbered(next: MarkId, actions: set<ActionId>) returns (added: map<MarkId, ActionId>, after: MarkId)
    ensures after == next + |actions| && |added| == |actions| && added.Values == actions
    ensures forall m :: m in added ==> next <= m < after
  {
    added, after := map[], next;
    var rest := actions;
    while rest != {}
      invariant rest <= actions && added.Values == actions - rest
      invariant after == next + |added| && |added| == |actions| - |rest|
      invariant forall m :: m in added ==> next <= m < after
      decreases |rest|
    {
      var x :| x in rest;
      NewKeyValues(added, after, x);
      assert (actions - rest) + {x} == actions - (rest - {x});
      added, after, rest := added[after := x], after + 1, rest - {x};
    }
  }

  lemma NothingTaken(s: Store, taken: map<MarkId, ActionId>, held: set<ActionId>)
    requires taken.Values == {}
    ensures DrainedTo(s, taken, held, s.(log := s.log - taken.Keys)) && Free(s.counts.Keys, taken, held) == {}
  {
    assert Free(s.counts.Keys, taken, held) == {} && Returned(s, taken, held) == {};
    assert Recomputed(s, {}) == s.counts;
    assert (s.log - taken.Keys) + map[] == s.log - taken.Keys;
    DrainedBy(s, taken, held, map[], s.(log := s.log - taken.Keys));
  }

  lemma DrainedBy(s: Store, taken: map<MarkId, ActionId>, held: set<ActionId>, added: map<MarkId, ActionId>, s': Store)
    requires added.Keys !! s.log.Keys && added.Values == Returned(s, taken, held) && |added| == |Returned(s, taken, held)|
    requires s'.agents == s.agents && s'.impls == s.impls && s'.counts == Recomputed(s, Free(s.counts.Keys, taken, held))
    requires s'.log == (s.log - taken.Keys) + added
    ensures DrainedTo(s, taken, held, s')
  {
    assert s' == Drained(s, taken, Free(s.counts.Keys, taken, held), added);
  }

  /** Each claimed action that nobody holds is recounted: its count is above 0 exactly when it can be assigned. */
  lemma RecountedAssignable(s: Store, taken: map<MarkId, ActionId>, held: set<ActionId>, s': Store, x: ActionId)
    requires DrainedTo(s, taken, held, s') && x in taken.Values && x !in held && x in s'.counts
    ensures s'.counts[x] == Count(s', x) && (s'.counts[x] > 0 <==> Assignable(s', x))
  {
    assert LiveImpls(s', x) == LiveImpls(s, x);
    CountsAssignable(s', x);
  }

  ghost predicate Below(log: map<MarkId, ActionId>, next: MarkId) {
    forall m :: m in log ==> m < next
  }

  /** Ids drawn from the sequence are new. */
  lemma SequenceApart(log: map<MarkId, ActionId>, next: MarkId, added: map<MarkId, ActionId>)
    requires Below(log, next) && forall m :: m in added ==> next <= m
    ensures added.Keys !! log.Keys
  {}

  /** Deleting and inserting marks moves no implementation. */
  lemma LogApart(s: Store, log: map<MarkId, ActionId>, locked: set<ActionId>)
    ensures Recomputed(s.(log := log), locked) == Recomputed(s, locked)
  {
    forall x ensures Count(s.(log := log), x) == Count(s, x) {
      assert LiveImpls(s.(log := log), x) == LiveImpls(s, x);
    }
  }

  /** What the statements after the claim do: recount what is free, return the rest under new ids. */
  ghost predicate Settled(s: Store, taken: map<MarkId, ActionId>, held: set<ActionId>, next: MarkId, added: map<MarkId, ActionId>, after: Store) {
    var locked := Free(s.counts.Keys, taken, held);
    && added.Values == Skipped(s.counts.Keys, taken, locked) && |added| == |added.Values| && (forall m :: m in added ==> m >= next)
    && after == s.(counts := Recomputed(s, locked), log := s.log + added)
  }

  /** After the claim they leave one drain of the claimed marks. */
  lemma SettledIsDrained(before: Store, taken: map<MarkId, ActionId>, held: set<ActionId>, next: MarkId, added: map<MarkId, ActionId>, after: Store)
    requires Below(before.log, next) && Settled(before.(log := before.log - taken.Keys), taken, held, next, added, after)
    ensures DrainedTo(before, taken, held, after)
  {
    SequenceApart(before.log, next, added);
    LogApart(before, before.log - taken.Keys, Free(before.counts.Keys, taken, held));
    DrainedBy(before, taken, held, added, after);
  }

  /** The tables the function reads and writes, as one session sees them while no writer commits. */
  class Database {
    var agents: map<AgentId, Agent>
    var impls: map<ImplId, Impl>
    var counts: map<ActionId, int>
    var log: map<MarkId, ActionId>
    var nextMark: MarkId

    function Committed(): Store
      reads this
    {
      Store(agents, impls, counts, log)
    }

    /** The log's ids come from its sequence. */
    ghost predicate Valid()
      reads this
    {
      Below(log, nextMark)
    }

    constructor (store: Store, next: MarkId)
      requires Below(store.log, next)
      ensures Valid() && Committed() == store
    {
      agents, impls, counts, log, nextMark := store.agents, store.impls, store.counts, store.log, next;
    }

    /** The three statements after the claim: lock what is free, recount it, return the rest. */
    method Settle(taken: map<MarkId, ActionId>, held: set<ActionId>) returns (n: nat, ghost added: map<MarkId, ActionId>)
      requires Valid()
      modifies `log, `counts, `nextMark
      ensures Valid() && n == |Free(old(counts).Keys, taken, held)|
      ensures Settled(old(Committed()), taken, held, old(nextMark), added, Committed())
    {
      var actions := counts.Keys;
      var locked := Free(actions, taken, held);
      counts := Recomputed(Committed(), locked);
      var returned;
      returned, nextMark := Numbered(nextMark, Skipped(actions, taken, locked));
      added := returned;
      log := log + returned;
      n := |locked|;
    }

    /** facade_refresh_live_implementations: drains the oldest marks around the actions `held` by
        other sessions; how many actions it recomputed. */
    method Refresh(batch: nat, held: set<ActionId>) returns (n: nat, ghost taken: map<MarkId, ActionId>)
      requires Valid()
      modifies `log, `counts, `nextMark
      ensures Valid()
      ensures Oldest(old(log), batch, taken) && DrainedTo(old(Committed()), taken, held, Committed())
      ensures n == |Free(old(counts).Keys, taken, held)|
      ensures forall x :: x in taken.Values && x !in held && x in counts ==> (counts[x] > 0 <==> Assignable(Committed(), x))
    {
      ghost var before := Committed();
      var claimed := TakeOldest(log, batch);
      taken := claimed;
      log := log - claimed.Keys;
      if claimed.Values == {} {
        NothingTaken(before, taken, held);
        return 0, taken;
      }
      ghost var added;
      n, added := Settle(claimed, held);
      SettledIsDrained(before, taken, held, old(nextMark), added, Committed());
      forall x | x in taken.Values && x !in held && x in counts ensures counts[x] > 0 <==> Assignable(Committed(), x) {
        RecountedAssignable(before, taken, held, Committed(), x);
      }
    }

    /** Draining until no mark is left, once the writers stopped and nobody holds an action. */
    method DrainAll(batch: nat)
      requires Valid() && batch > 0 && LogCovers(Committed())
      modifies `log, `counts, `nextMark
      ensures Valid() && log == map[] && counts.Keys == old(counts).Keys
      ensures forall x :: x in counts ==> counts[x] == Count(Committed(), x) && (counts[x] > 0 <==> Assignable(Committed(), x))
    {
      while log != map[]
        invariant Valid() && LogCovers(Committed()) && counts.Keys == old(counts).Keys
        decreases |log|
      {
        ghost var before := Committed();
        var n, taken := Refresh(batch, {});
        assert taken != map[];
        ghost var m :| m in taken;
        assert taken[m] in taken.Values;
        DrainShortens(before, taken, {}, Committed());
        DrainKeepsLogCovers(before, taken, Committed());
      }
      forall x | x in counts ensures counts[x] == Count(Committed(), x) && (counts[x] > 0 <==> Assignable(Committed(), x)) {
        CountsAssignable(Committed(), x);
      }
    }
  }
}
