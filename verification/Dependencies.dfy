/** A blok's dependency rows and the agent mappings that point at them (facade/blok_revisions.py,
    sync_blok_dependencies; facade/mutations/materialized_blok.py, write_mappings). */
module Dependencies {
  import opened Collections
  import opened Json

  /** AgentDependencyInput: its key, and the rest as stored. */
  datatype Dependency = Dependency(key: string, demands: Json)

  /** A row of facade_blokdependency: the rest of its columns are the declaration's. */
  datatype DependencyRow = DependencyRow(id: nat, declared: Dependency)

  /** A row of facade_blokagentmapping; `dependency` is None where the key's row was deleted. */
  datatype Mapping = Mapping(materialization: nat, key: string, agent: nat, dependency: Option<nat>)

  function Keys(ds: seq<Dependency>): set<string> {
    set d | d in ds :: d.key
  }

  predicate DistinctKeys(ds: seq<Dependency>) {
    forall i, j | 0 <= i < j < |ds| :: ds[i].key != ds[j].key
  }

  /** Row ids are below `next` and tell rows apart. */
  ghost predicate RowsKept(rows: map<string, DependencyRow>, next: nat) {
    && (forall k :: k in rows ==> rows[k].id < next && rows[k].declared.key == k)
    && (forall k, l :: k in rows && l in rows && rows[k].id == rows[l].id ==> k == l)
  }

  function RowId(rows: map<string, DependencyRow>, key: string): Option<nat> {
    if key in rows then Some(rows[key].id) else None
  }

  /** Every mapping points at its key's row when the key is declared, and at nothing otherwise. */
  ghost predicate BoundRight(rows: map<string, DependencyRow>, mappings: map<nat, Mapping>) {
    forall m :: m in mappings ==> mappings[m].dependency == RowId(rows, mappings[m].key)
  }

  /** Only the `dependency` column differs. */
  ghost predicate SameBindings(before: map<nat, Mapping>, after: map<nat, Mapping>) {
    after.Keys == before.Keys && forall m :: m in before ==> after[m] == before[m].(dependency := after[m].dependency)
  }

  /** The rows are exactly the declarations, by key. */
  ghost predicate Projects(rows: map<string, DependencyRow>, ds: seq<Dependency>) {
    (forall d :: d in ds ==> d.key in rows && rows[d.key].declared == d) && forall k :: k in rows ==> rows[k].declared in ds
  }

  /** UPDATE ... SET dependency = row WHERE key = ... AND dependency IS NULL. */
  function Rebound(mappings: map<nat, Mapping>, key: string, row: nat): map<nat, Mapping> {
    map m | m in mappings ::
      if mappings[m].key == key && mappings[m].dependency.None? then mappings[m].(dependency := Some(row)) else mappings[m]
  }

  /** ON DELETE SET NULL. */
  function Released(mappings: map<nat, Mapping>, row: nat): map<nat, Mapping> {
    map m | m in mappings :: if mappings[m].dependency == Some(row) then mappings[m].(dependency := None) else mappings[m]
  }

  ghost predicate Kept(rows: map<string, DependencyRow>, mappings: map<nat, Mapping>, next: nat, nextMapping: nat) {
    RowsKept(rows, next) && BoundRight(rows, mappings) && forall m :: m in mappings ==> m < nextMapping
  }

  lemma RebindKeeps(rows: map<string, DependencyRow>, mappings0: map<nat, Mapping>, mappings: map<nat, Mapping>, nextMapping: nat,
                    rows': map<string, DependencyRow>, next': nat, d: Dependency, mappings': map<nat, Mapping>)
    requires BoundRight(rows, mappings) && RowsKept(rows', next') && d.key in rows' && SameBindings(mappings0, mappings)
    requires forall m :: m in mappings ==> m < nextMapping
    requires rows' == rows[d.key := rows'[d.key]] && (d.key in rows ==> rows'[d.key].id == rows[d.key].id)
    requires mappings' == Rebound(mappings, d.key, rows'[d.key].id)
    ensures Kept(rows', mappings', next', nextMapping) && SameBindings(mappings0, mappings')
  {}

  lemma ReleaseKeeps(rows: map<string, DependencyRow>, mappings0: map<nat, Mapping>, mappings: map<nat, Mapping>, next: nat, nextMapping: nat,
                     key: string, rows': map<string, DependencyRow>, mappings': map<nat, Mapping>)
    requires Kept(rows, mappings, next, nextMapping) && key in rows && SameBindings(mappings0, mappings)
    requires rows' == rows - {key} && mappings' == Released(mappings, rows[key].id)
    ensures Kept(rows', mappings', next, nextMapping) && SameBindings(mappings0, mappings')
  {}

  /** Between the two loops: `done` is written, `existing` is what is left of the rows that were there. */
  ghost predicate Midway(rows0: map<string, DependencyRow>, next0: nat, rows: map<string, DependencyRow>, existing: set<string>, done: seq<Dependency>) {
    && existing <= rows.Keys && existing <= rows0.Keys
    && (forall k :: k in rows ==> k in existing || rows[k].declared in done)
    && (forall d :: d in done ==> d.key in rows && rows[d.key].declared == d && d.key !in existing)
    && (forall k :: k in rows ==> if k in rows0 then rows[k].id == rows0[k].id else rows[k].id >= next0)
  }

  lemma UpsertStep(rows0: map<string, DependencyRow>, next0: nat, rows: map<string, DependencyRow>, rows': map<string, DependencyRow>,
                   existing: set<string>, declared: seq<Dependency>, i: nat)
    requires i < |declared| && DistinctKeys(declared) && Midway(rows0, next0, rows, existing, declared[..i])
    requires rows0.Keys <= rows.Keys
    requires declared[i].key in rows' && rows' == rows[declared[i].key := DependencyRow(rows'[declared[i].key].id, declared[i])]
    requires if declared[i].key in rows then rows'[declared[i].key].id == rows[declared[i].key].id else rows'[declared[i].key].id >= next0
    ensures Midway(rows0, next0, rows', existing - {declared[i].key}, declared[..i + 1]) && rows0.Keys <= rows'.Keys
  {
    assert declared[..i + 1] == declared[..i] + [declared[i]];
    forall e | e in declared[..i] ensures e.key != declared[i].key {
      var j :| 0 <= j < i && declared[j] == e;
    }
  }

  lemma DeleteStep(rows0: map<string, DependencyRow>, next0: nat, rows: map<string, DependencyRow>, existing: set<string>,
                   declared: seq<Dependency>, key: string)
    requires Midway(rows0, next0, rows, existing, declared) && key in existing
    ensures Midway(rows0, next0, rows - {key}, existing - {key}, declared)
  {
    assert forall d :: d in declared ==> d.key != key;
  }

  /** The rows, the mappings, and the next ids of both. */
  datatype Tables = Tables(rows: map<string, DependencyRow>, mappings: map<nat, Mapping>, next: nat, nextMapping: nat) {
    ghost predicate Valid() {
      Kept(rows, mappings, next, nextMapping)
    }
  }

  /** The tables while a sync runs, from what they were. */
  ghost predicate Syncing(t0: Tables, t: Tables, existing: set<string>, done: seq<Dependency>) {
    && t.Valid() && t0.next <= t.next && t.nextMapping == t0.nextMapping
    && SameBindings(t0.mappings, t.mappings) && Midway(t0.rows, t0.next, t.rows, existing, done)
  }

  /** One key declared: its row updated or created, and its mappings without a row on it. */
  ghost predicate Declared(t: Tables, t': Tables, d: Dependency) {
    && RowsKept(t'.rows, t'.next) && t.next <= t'.next && t'.nextMapping == t.nextMapping && d.key in t'.rows
    && t'.rows == t.rows[d.key := DependencyRow(t'.rows[d.key].id, d)]
    && (if d.key in t.rows then t'.rows[d.key].id == t.rows[d.key].id else t'.rows[d.key].id >= t.next)
    && t'.mappings == Rebound(t.mappings, d.key, t'.rows[d.key].id)
  }

  lemma SyncOne(t0: Tables, t: Tables, t': Tables, existing: set<string>, declared: seq<Dependency>, i: nat)
    requires i < |declared| && DistinctKeys(declared) && t0.rows.Keys <= t.rows.Keys && Syncing(t0, t, existing, declared[..i])
    requires Declared(t, t', declared[i])
    ensures Syncing(t0, t', existing - {declared[i].key}, declared[..i + 1]) && t0.rows.Keys <= t'.rows.Keys
  {
    RebindKeeps(t.rows, t0.mappings, t.mappings, t.nextMapping, t'.rows, t'.next, declared[i], t'.mappings);
    UpsertStep(t0.rows, t0.next, t.rows, t'.rows, existing, declared, i);
  }

  lemma DropOne(t0: Tables, t: Tables, t': Tables, existing: set<string>, declared: seq<Dependency>, key: string)
    requires Syncing(t0, t, existing, declared) && key in existing && key in t.rows
    requires t' == t.(rows := t.rows - {key}, mappings := Released(t.mappings, t.rows[key].id))
    ensures Syncing(t0, t', existing - {key}, declared)
  {
    ReleaseKeeps(t.rows, t0.mappings, t.mappings, t.next, t.nextMapping, key, t'.rows, t'.mappings);
    DeleteStep(t0.rows, t0.next, t.rows, existing, declared, key);
  }

  // ---------------------------------------------------------------- runs of the tables

  /** The id was that of a row whose key has none any more. */
  ghost predicate WasDeleted(rows: map<string, DependencyRow>, rows': map<string, DependencyRow>, id: nat) {
    exists k :: k in rows && k !in rows' && rows[k].id == id
  }

  /** Where a sync leaves a mapping: one of a declared key without a row gets it, one of a deleted row
      loses it, any other keeps what it has. */
  ghost function Repointed(rows: map<string, DependencyRow>, rows': map<string, DependencyRow>, m: Mapping): Option<nat> {
    if m.dependency.None? then RowId(rows', m.key)
    else if WasDeleted(rows, rows', m.dependency.value) then None
    else m.dependency
  }

  /** One sync, statement by statement: what it does to rows and, through their ids alone, to mappings. */
  ghost predicate SyncStep(t: Tables, t': Tables, declared: seq<Dependency>) {
    && Projects(t'.rows, declared) && RowsKept(t'.rows, t'.next) && t.next <= t'.next && t'.nextMapping == t.nextMapping
    && (forall k :: k in t'.rows ==> if k in t.rows then t'.rows[k].id == t.rows[k].id else t'.rows[k].id >= t.next)
    && t'.mappings.Keys == t.mappings.Keys
    && forall m :: m in t.mappings ==> t'.mappings[m] == t.mappings[m].(dependency := Repointed(t.rows, t'.rows, t.mappings[m]))
  }

  /** A materialization's mappings written anew; one of an undeclared key changes nothing. */
  ghost predicate WriteStep(t: Tables, t': Tables, materialization: nat, resolved: map<string, nat>) {
    if resolved.Keys <= t.rows.Keys then
      && t'.rows == t.rows && t'.next == t.next && t.nextMapping <= t'.nextMapping
      && Binds(t.rows, t'.mappings, materialization, resolved, resolved.Keys) && OthersKept(t.mappings, t'.mappings, materialization)
      && forall m :: m in t'.mappings ==> m < t'.nextMapping
    else t' == t
  }

  /** Once nothing is left to delete, the sync is such a step. */
  lemma SyncDone(t: Tables, t': Tables, declared: seq<Dependency>)
    requires t.Valid() && Syncing(t, t', {}, declared)
    ensures SyncStep(t, t', declared)
  {
    forall m | m in t.mappings ensures t'.mappings[m].dependency == Repointed(t.rows, t'.rows, t.mappings[m]) {
      var key := t.mappings[m].key;
      assert t.mappings[m].dependency == RowId(t.rows, key) && t'.mappings[m].dependency == RowId(t'.rows, key);
      if key in t.rows && key !in t'.rows {
        assert WasDeleted(t.rows, t'.rows, t.rows[key].id);
      }
    }
  }

  datatype Write = Sync(declared: seq<Dependency>) | WriteMappings(materialization: nat, resolved: map<string, nat>)

  ghost predicate Steps(t: Tables, t': Tables, w: Write) {
    match w
    case Sync(declared) => SyncStep(t, t', declared)
    case WriteMappings(materialization, resolved) => WriteStep(t, t', materialization, resolved)
  }

  /** The tables before and after each write. */
  ghost predicate IsRun(ts: seq<Tables>, ws: seq<Write>) {
    && |ts| == |ws| + 1 && ts[0].Valid()
    && forall i :: 0 <= i < |ws| ==> Steps(ts[i], ts[i + 1], ws[i])
  }

  lemma RepointedRight(t: Tables, t': Tables, declared: seq<Dependency>, m: nat)
    requires t.Valid() && SyncStep(t, t', declared) && m in t.mappings
    ensures Repointed(t.rows, t'.rows, t.mappings[m]) == RowId(t'.rows, t.mappings[m].key)
  {
    var key := t.mappings[m].key;
    assert t.mappings[m].dependency == RowId(t.rows, key);
    if key in t.rows && key !in t'.rows {
      assert WasDeleted(t.rows, t'.rows, t.rows[key].id);
    }
  }

  /** Every write keeps every mapping on its key's row. */
  lemma StepKeepsValid(t: Tables, t': Tables, w: Write)
    requires t.Valid() && Steps(t, t', w)
    ensures t'.Valid()
  {
    match w {
      case Sync(declared) =>
        forall m | m in t.mappings ensures t'.mappings[m].dependency == RowId(t'.rows, t'.mappings[m].key) {
          RepointedRight(t, t', declared, m);
        }
      case WriteMappings(materialization, resolved) =>
    }
  }

  lemma {:induction false} RunKeepsValid(ts: seq<Tables>, ws: seq<Write>, i: nat)
    requires IsRun(ts, ws) && i < |ts|
    ensures ts[i].Valid()
    decreases i
  {
    if i > 0 {
      RunKeepsValid(ts, ws, i - 1);
      StepKeepsValid(ts[i - 1], ts[i], ws[i - 1]);
    }
  }

  /** No write from `i` on, before `j`, is of that materialization's mappings. */
  predicate Unwritten(ws: seq<Write>, i: nat, j: nat, materialization: nat)
    requires i <= j <= |ws|
  {
    forall k | i <= k < j :: ws[k].WriteMappings? ==> ws[k].materialization != materialization
  }

  /** The mapping is there, with the agent it had. */
  predicate StillBinds(t: Tables, t': Tables, m: nat)
    requires m in t.mappings
  {
    m in t'.mappings && t'.mappings[m] == t.mappings[m].(dependency := t'.mappings[m].dependency)
  }

  lemma {:induction false} BindingLasts(ts: seq<Tables>, ws: seq<Write>, i: nat, j: nat, m: nat)
    requires IsRun(ts, ws) && i <= j < |ts| && m in ts[i].mappings
    requires Unwritten(ws, i, j, ts[i].mappings[m].materialization)
    ensures StillBinds(ts[i], ts[j], m)
    decreases j
  {
    if i < j {
      BindingLasts(ts, ws, i, j - 1, m);
      assert Steps(ts[j - 1], ts[j], ws[j - 1]);
    }
  }

  /** After any run of syncs and of other materializations' writes a mapping has the agent it had, on its
      key's row where the key is declared, on none elsewhere. */
  lemma BindingFollowsKey(ts: seq<Tables>, ws: seq<Write>, i: nat, j: nat, m: nat)
    requires IsRun(ts, ws) && i <= j < |ts| && m in ts[i].mappings
    requires Unwritten(ws, i, j, ts[i].mappings[m].materialization)
    ensures StillBinds(ts[i], ts[j], m) && ts[j].mappings[m].dependency == RowId(ts[j].rows, ts[i].mappings[m].key)
  {
    BindingLasts(ts, ws, i, j, m);
    RunKeepsValid(ts, ws, j);
  }

  lemma {:induction false} NextGrows(ts: seq<Tables>, ws: seq<Write>, i: nat, j: nat)
    requires IsRun(ts, ws) && i <= j < |ts|
    ensures ts[i].next <= ts[j].next
    decreases j
  {
    if i < j {
      NextGrows(ts, ws, i, j - 1);
      assert Steps(ts[j - 1], ts[j], ws[j - 1]);
    }
  }

  /** A key declared throughout keeps its row. */
  lemma {:induction false} KeptKeyKeepsRow(ts: seq<Tables>, ws: seq<Write>, i: nat, j: nat, key: string)
    requires IsRun(ts, ws) && i <= j < |ts| && forall k :: i <= k <= j ==> key in ts[k].rows
    ensures ts[j].rows[key].id == ts[i].rows[key].id
    decreases j
  {
    if i < j {
      KeptKeyKeepsRow(ts, ws, i, j - 1, key);
      assert Steps(ts[j - 1], ts[j], ws[j - 1]);
    }
  }

  /** A key without a row at `k` has, wherever it is declared later, a row newer than all there were. */
  lemma {:induction false} RedeclaredIsNew(ts: seq<Tables>, ws: seq<Write>, k: nat, j: nat, key: string)
    requires IsRun(ts, ws) && k <= j < |ts| && key !in ts[k].rows
    ensures key in ts[j].rows ==> ts[j].rows[key].id >= ts[k].next
    decreases j
  {
    if k < j {
      RedeclaredIsNew(ts, ws, k, j - 1, key);
      NextGrows(ts, ws, k, j - 1);
      assert Steps(ts[j - 1], ts[j], ws[j - 1]);
    }
  }

  /** A key removed and later declared again, whatever was written in between: each of its bindings
      points at nothing while it is gone, and then at its new row, with the agent it had. */
  lemma BindingsRestored(ts: seq<Tables>, ws: seq<Write>, i: nat, k: nat, j: nat, m: nat)
    requires IsRun(ts, ws) && i <= k <= j < |ts| && m in ts[i].mappings
    requires Unwritten(ws, i, j, ts[i].mappings[m].materialization)
    requires var key := ts[i].mappings[m].key; key in ts[i].rows && key !in ts[k].rows && key in ts[j].rows
    ensures var key := ts[i].mappings[m].key;
      && ts[i].mappings[m].dependency == Some(ts[i].rows[key].id)
      && StillBinds(ts[i], ts[k], m) && ts[k].mappings[m].dependency == None
      && StillBinds(ts[i], ts[j], m) && ts[j].mappings[m].dependency == Some(ts[j].rows[key].id)
      && ts[j].rows[key].id > ts[i].rows[key].id
  {
    var key := ts[i].mappings[m].key;
    RunKeepsValid(ts, ws, i);
    BindingFollowsKey(ts, ws, i, k, m);
    BindingFollowsKey(ts, ws, i, j, m);
    NextGrows(ts, ws, i, k);
    RedeclaredIsNew(ts, ws, k, j, key);
  }

  ghost predicate HasMapping(mappings: map<nat, Mapping>, materialization: nat, key: string) {
    exists m :: m in mappings && mappings[m].materialization == materialization && mappings[m].key == key
  }

  predicate SameSlot(a: Mapping, b: Mapping, materialization: nat) {
    a.materialization == b.materialization == materialization && a.key == b.key
  }

  /** The materialization has one mapping for each of `keys`, to its agent in `resolved` and its key's
      row, and no others. */
  ghost predicate Binds(rows: map<string, DependencyRow>, mappings: map<nat, Mapping>, materialization: nat, resolved: map<string, nat>, keys: set<string>) {
    && (forall m :: m in mappings && mappings[m].materialization == materialization ==>
          mappings[m].key in keys && mappings[m].key in resolved
          && mappings[m] == Mapping(materialization, mappings[m].key, resolved[mappings[m].key], RowId(rows, mappings[m].key)))
    && (forall k :: k in keys ==> HasMapping(mappings, materialization, k))
    && (forall m, n :: m in mappings && n in mappings && SameSlot(mappings[m], mappings[n], materialization) ==> m == n)
  }

  ghost predicate OthersKept(before: map<nat, Mapping>, after: map<nat, Mapping>, materialization: nat) {
    && (forall m :: m in before && before[m].materialization != materialization ==> m in after && after[m] == before[m])
    && (forall m :: m in after && after[m].materialization != materialization ==> m in before && before[m] == after[m])
  }

  lemma BindStep(rows: map<string, DependencyRow>, start: map<nat, Mapping>, mappings: map<nat, Mapping>, id: nat, key: string, materialization: nat,
                 resolved: map<string, nat>, done: set<string>, mappings': map<nat, Mapping>)
    requires id !in mappings && OthersKept(start, mappings, materialization)
    requires Binds(rows, mappings, materialization, resolved, done) && key in resolved && key !in done
    requires mappings' == mappings[id := Mapping(materialization, key, resolved[key], RowId(rows, key))]
    ensures OthersKept(start, mappings', materialization) && Binds(rows, mappings', materialization, resolved, done + {key})
  {
    OneMoreHas(mappings, id, mappings'[id], mappings');
    OneMoreOther(start, mappings, id, mappings'[id], mappings', materialization);
  }

  lemma OneMoreHas(mappings: map<nat, Mapping>, id: nat, added: Mapping, mappings': map<nat, Mapping>)
    requires id !in mappings && mappings' == mappings[id := added]
    ensures HasMapping(mappings', added.materialization, added.key)
    ensures forall k :: HasMapping(mappings, added.materialization, k) ==> HasMapping(mappings', added.materialization, k)
  {
    assert id in mappings' && mappings'[id] == added;
    forall k | HasMapping(mappings, added.materialization, k) ensures HasMapping(mappings', added.materialization, k) {
      var m :| m in mappings && mappings[m].materialization == added.materialization && mappings[m].key == k;
      assert m in mappings' && mappings'[m] == mappings[m];
    }
  }

  lemma OneMoreOther(start: map<nat, Mapping>, mappings: map<nat, Mapping>, id: nat, added: Mapping, mappings': map<nat, Mapping>,
                     materialization: nat)
    requires id !in mappings && mappings' == mappings[id := added] && added.materialization == materialization
    requires OthersKept(start, mappings, materialization)
    ensures OthersKept(start, mappings', materialization)
  {}

  /** The dependency rows of one blok, and the mappings of its materializations. */
  class DependencyTable {
    var rows: map<string, DependencyRow>
    var mappings: map<nat, Mapping>
    var next: nat
    var nextMapping: nat

    ghost predicate Valid()
      reads this
    {
      Kept(rows, mappings, next, nextMapping)
    }

    ghost function Now(): Tables
      reads this
    {
      Tables(rows, mappings, next, nextMapping)
    }

    constructor ()
      ensures Valid() && rows == map[] && mappings == map[]
    {
      rows, mappings, next, nextMapping := map[], map[], 0, 0;
    }

    /** update_or_create by key. */
    method Upsert(d: Dependency)
      requires RowsKept(rows, next)
      modifies this`rows, this`next
      ensures RowsKept(rows, next) && next >= old(next) && d.key in rows
      ensures rows == old(rows)[d.key := DependencyRow(rows[d.key].id, d)]
      ensures if d.key in old(rows) then rows[d.key].id == old(rows)[d.key].id else rows[d.key].id >= old(next)
    {
      if d.key in rows {
        rows := rows[d.key := rows[d.key].(declared := d)];
      } else {
        rows := rows[d.key := DependencyRow(next, d)];
        next := next + 1;
      }
    }

    /** A declared key's row, taken by the mappings of the key that have none. */
    method Declare(d: Dependency)
      requires RowsKept(rows, next)
      modifies this
      ensures Declared(old(Now()), Now(), d)
    {
      Upsert(d);
      mappings := Rebound(mappings, d.key, rows[d.key].id);
    }

    /** DELETE of one row. */
    method Drop(key: string)
      requires key in rows
      modifies this`rows, this`mappings
      ensures Now() == old(Now()).(rows := old(rows) - {key}, mappings := Released(old(mappings), old(rows)[key].id))
    {
      mappings := Released(mappings, rows[key].id);
      rows := rows - {key};
    }

    /** sync_blok_dependencies: afterwards the rows are the declarations, a kept key keeps its row, and
        every mapping points at its key's row or, undeclared, at nothing. */
    method Sync(declared: seq<Dependency>)
      requires Valid() && DistinctKeys(declared)
      modifies this
      ensures Valid() && SyncStep(old(Now()), Now(), declared)
    {
      var existing := rows.Keys;
      var i := 0;
      while i < |declared|
        invariant i <= |declared| && old(rows).Keys <= rows.Keys
        invariant Syncing(old(Now()), Now(), existing, declared[..i])
      {
        ghost var before := Now();
        Declare(declared[i]);
        SyncOne(old(Now()), before, Now(), existing, declared, i);
        existing := existing - {declared[i].key};
        i := i + 1;
      }
      assert declared[..i] == declared;
      while existing != {}
        invariant Syncing(old(Now()), Now(), existing, declared)
        decreases existing
      {
        var key :| key in existing;
        ghost var before := Now();
        Drop(key);
        DropOne(old(Now()), before, Now(), existing, declared, key);
        existing := existing - {key};
      }
      SyncDone(old(Now()), Now(), declared);
    }

    /** One mapping, bound to its key's row. */
    method Create(materialization: nat, key: string, agent: nat)
      requires Valid() && key in rows
      modifies this`mappings, this`nextMapping
      ensures Valid() && old(nextMapping) !in old(mappings) && nextMapping == old(nextMapping) + 1
      ensures mappings == old(mappings)[old(nextMapping) := Mapping(materialization, key, agent, Some(rows[key].id))]
    {
      mappings := mappings[nextMapping := Mapping(materialization, key, agent, Some(rows[key].id))];
      nextMapping := nextMapping + 1;
    }

    /** DELETE of a materialization's mappings. */
    method Clear(materialization: nat)
      requires Valid()
      modifies this`mappings
      ensures Valid() && OthersKept(old(mappings), mappings, materialization)
      ensures forall m :: m in mappings ==> mappings[m].materialization != materialization
    {
      mappings := map m | m in mappings && mappings[m].materialization != materialization :: mappings[m];
    }

    /** write_mappings: a materialization's mappings become `resolved`, each bound to its key's row; a
        key that is not declared raises. */
    method WriteMappings(materialization: nat, resolved: map<string, nat>) returns (ok: bool)
      requires Valid()
      modifies this`mappings, this`nextMapping
      ensures Valid() && (ok <==> resolved.Keys <= rows.Keys)
      ensures WriteStep(old(Now()), Now(), materialization, resolved)
    {
      ok := resolved.Keys <= rows.Keys;
      if !ok {
        return;
      }
      Clear(materialization);
      var done: set<string> := {};
      while done != resolved.Keys
        invariant Valid() && done <= resolved.Keys <= rows.Keys
        invariant Binds(rows, mappings, materialization, resolved, done) && OthersKept(old(mappings), mappings, materialization)
        invariant nextMapping >= old(nextMapping)
        decreases resolved.Keys - done
      {
        var key :| key in resolved.Keys && key !in done;
        ghost var mappings0, id := mappings, nextMapping;
        Create(materialization, key, resolved[key]);
        BindStep(rows, old(mappings), mappings0, id, key, materialization, resolved, done, mappings);
        done := done + {key};
      }
    }
  }
}
