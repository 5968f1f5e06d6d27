/** Automatic resolution of an implementation's dependencies (facade/logic.py, auto_resolve): a recursion
    over a possibly cyclic graph with one shared set of visited implementations. */
module Resolver {
  import opened Collections

  /** Per action key, the implementations of the selected agent that match its demand. */
  datatype Matched = Matched(key: string, implementations: seq<nat>)

  /** A dependency; `matched` is None where no action, state or agent satisfies it and the run raises. */
  datatype Dependency = Dependency(id: nat, matched: Option<seq<Matched>>, preferred: Option<nat>)

  /** The dependencies of every implementation. */
  type World = map<nat, seq<Dependency>>

  predicate WellFormed(world: World) {
    forall i | i in world :: DistinctIds(world[i]) && forall d | d in world[i] :: d.matched.Some? ==> KeysFit(world, d.matched.value)
  }

  predicate DistinctIds(ds: seq<Dependency>) {
    forall i, j | 0 <= i < j < |ds| :: ds[i].id != ds[j].id
  }

  predicate KeysFit(world: World, ms: seq<Matched>) {
    && (forall i, j | 0 <= i < j < |ms| :: ms[i].key != ms[j].key)
    && forall m | m in ms :: forall i | i in m.implementations :: i in world
  }

  /** A ResolvedDependency row; resolutions are numbered in the order they are created. */
  datatype Binding = Binding(key: string, resolution: nat, dependency: nat, implementation: nat, downstream: Option<nat>)

  /** The visited set, the implementation of each resolution, and the bindings. */
  datatype Run = Run(visited: set<nat>, resolutions: seq<nat>, bindings: seq<Binding>)

  // ---------------------------------------------------------------- how a run grows

  /** Bindings of one resolution, dependency and key. */
  function Tally(bs: seq<Binding>, resolution: nat, dependency: nat, key: string): nat
    decreases |bs|
  {
    if bs == [] then 0
    else
      var b := bs[|bs| - 1];
      Tally(bs[..|bs| - 1], resolution, dependency, key)
      + if b.resolution == resolution && b.dependency == dependency && b.key == key then 1 else 0
  }

  lemma {:induction false} TallyJoin(a: seq<Binding>, b: seq<Binding>, resolution: nat, dependency: nat, key: string)
    ensures Tally(a + b, resolution, dependency, key) == Tally(a, resolution, dependency, key) + Tally(b, resolution, dependency, key)
    decreases |b|
  {
    if b == [] {
      assert a + b == a;
    } else {
      assert (a + b)[..|a| + |b| - 1] == a + b[..|b| - 1];
      TallyJoin(a, b[..|b| - 1], resolution, dependency, key);
    }
  }

  lemma {:induction false} NoTally(bs: seq<Binding>, resolution: nat, dependency: nat, key: string)
    requires forall b :: b in bs ==> b.resolution != resolution || b.dependency != dependency || b.key != key
    ensures Tally(bs, resolution, dependency, key) == 0
    decreases |bs|
  {
    if bs != [] { NoTally(bs[..|bs| - 1], resolution, dependency, key); }
  }

  /** A limit is checked only after a binding: zero preferred instances still allow one. */
  function Limit(d: Dependency): Option<nat> {
    if d.preferred.None? then None else Some(if d.preferred.value == 0 then 1 else d.preferred.value)
  }

  /** The binding is one of the key's candidates. */
  predicate OfKey(b: Binding, d: Dependency, m: Matched) {
    b.dependency == d.id && b.key == m.key && b.implementation in m.implementations
  }

  /** The key has no more bindings than preferred; it has exactly as many, or no candidate is left. */
  ghost predicate KeyServed(bs: seq<Binding>, visited: set<nat>, resolution: nat, d: Dependency, m: Matched) {
    var n := Tally(bs, resolution, d.id, m.key);
    && (Limit(d).Some? ==> n <= Limit(d).value)
    && (Limit(d) == Some(n) || forall i :: i in m.implementations ==> i in visited)
  }

  ghost predicate Chosen(ds: seq<Dependency>, b: Binding) {
    exists d, m :: d in ds && d.matched.Some? && m in d.matched.value && OfKey(b, d, m)
  }

  /** The resolution binds candidates of its dependencies' keys, and serves each key. */
  ghost predicate Served(bs: seq<Binding>, visited: set<nat>, resolution: nat, ds: seq<Dependency>) {
    && (forall b :: b in bs && b.resolution == resolution ==> Chosen(ds, b))
    && (forall d :: d in ds ==> d.matched.Some?)
    && forall d, m :: d in ds && m in d.matched.value ==> KeyServed(bs, visited, resolution, d, m)
  }

  /** What was there stays, first. */
  predicate Extends(a: Run, b: Run) {
    a.resolutions <= b.resolutions && a.bindings <= b.bindings
  }

  function NewBindings(a: Run, b: Run): seq<Binding>
    requires Extends(a, b)
  {
    b.bindings[|a.bindings|..]
  }

  predicate BindTwo(bs: seq<Binding>, j: nat, l: nat)
    requires j < |bs| && l < |bs|
  {
    bs[j].implementation != bs[l].implementation
  }

  /** Not downstream of both. */
  predicate LeadApart(bs: seq<Binding>, j: nat, l: nat)
    requires j < |bs| && l < |bs|
  {
    bs[j].downstream.None? || bs[j].downstream != bs[l].downstream
  }

  /** The new bindings bind implementations that were unvisited, each once, and they are what was visited. */
  ghost predicate BindsOnce(visited: set<nat>, visited': set<nat>, bs: seq<Binding>) {
    && (forall i :: i in visited' <==> i in visited || exists b :: b in bs && b.implementation == i)
    && (forall b :: b in bs ==> b.implementation !in visited)
    && (forall j, l :: 0 <= j < l < |bs| ==> BindTwo(bs, j, l))
  }

  ghost predicate IsDownstream(bs: seq<Binding>, implementation: nat, resolution: nat) {
    exists b :: b in bs && b.downstream == Some(resolution) && b.implementation == implementation
  }

  /** The new resolutions, numbered from `first`, are the downstreams of the new bindings, one each. */
  ghost predicate OneDownstream(first: nat, resolutions: seq<nat>, bs: seq<Binding>) {
    && (forall i :: first <= i < |resolutions| ==> IsDownstream(bs, resolutions[i], i))
    && (forall b :: b in bs && b.downstream.Some? ==> first <= b.downstream.value < |resolutions|)
    && (forall j, l :: 0 <= j < l < |bs| ==> LeadApart(bs, j, l))
  }

  /** New bindings belong to `resolution` or to a new one, and every new one is served. */
  ghost predicate NewServed(world: World, first: nat, resolutions: seq<nat>, visited: set<nat>, bs: seq<Binding>, resolution: nat) {
    && (forall b :: b in bs ==> b.resolution == resolution || first <= b.resolution < |resolutions|)
    && (forall i :: first <= i < |resolutions| ==> resolutions[i] in world && Served(bs, visited, i, world[resolutions[i]]))
  }

  /** One run of the resolver on `resolution`, or a part of it. */
  ghost predicate Grows(world: World, a: Run, b: Run, resolution: nat) {
    && Extends(a, b) && resolution < |a.resolutions|
    && BindsOnce(a.visited, b.visited, NewBindings(a, b))
    && OneDownstream(|a.resolutions|, b.resolutions, NewBindings(a, b))
    && NewServed(world, |a.resolutions|, b.resolutions, b.visited, NewBindings(a, b), resolution)
  }

  lemma GrowsNot(world: World, a: Run, resolution: nat)
    requires resolution < |a.resolutions|
    ensures Grows(world, a, a, resolution)
  {
    assert NewBindings(a, a) == [];
  }

  lemma NewJoin(a: Run, b: Run, c: Run)
    requires Extends(a, b) && Extends(b, c)
    ensures Extends(a, c) && NewBindings(a, c) == NewBindings(a, b) + NewBindings(b, c)
  {}

  lemma BindsOnceJoin(v0: set<nat>, v1: set<nat>, v2: set<nat>, x: seq<Binding>, y: seq<Binding>)
    requires BindsOnce(v0, v1, x) && BindsOnce(v1, v2, y)
    ensures BindsOnce(v0, v2, x + y)
  {
    var bs := x + y;
    forall i ensures i in v2 <==> i in v0 || exists b :: b in bs && b.implementation == i {
      if i in v1 && i !in v0 {
        var b :| b in x && b.implementation == i;
        assert b in bs;
      } else if i in v2 && i !in v1 {
        var b :| b in y && b.implementation == i;
        assert b in bs;
      }
    }
    forall j, l | 0 <= j < l < |bs| ensures BindTwo(bs, j, l) {
      if l < |x| {
        assert BindTwo(x, j, l);
      } else if j >= |x| {
        assert BindTwo(y, j - |x|, l - |x|);
      } else {
        assert x[j] in x && y[l - |x|] in y;
      }
    }
  }

  lemma OneDownstreamJoin(f0: nat, r1: seq<nat>, r2: seq<nat>, x: seq<Binding>, y: seq<Binding>)
    requires OneDownstream(f0, r1, x) && OneDownstream(|r1|, r2, y) && r1 <= r2 && f0 <= |r1|
    ensures OneDownstream(f0, r2, x + y)
  {
    var bs := x + y;
    forall i | f0 <= i < |r2| ensures IsDownstream(bs, r2[i], i) {
      if i < |r1| {
        assert IsDownstream(x, r1[i], i);
        var b :| b in x && b.downstream == Some(i) && b.implementation == r1[i];
        assert b in bs;
      } else {
        assert IsDownstream(y, r2[i], i);
        var b :| b in y && b.downstream == Some(i) && b.implementation == r2[i];
        assert b in bs;
      }
    }
    forall j, l | 0 <= j < l < |bs| ensures LeadApart(bs, j, l) {
      if l < |x| {
        assert LeadApart(x, j, l);
      } else if j >= |x| {
        assert LeadApart(y, j - |x|, l - |x|);
      } else {
        assert x[j] in x && y[l - |x|] in y;
      }
    }
  }

  lemma KeyServedJoin(bs: seq<Binding>, more: seq<Binding>, visited: set<nat>, visited': set<nat>, resolution: nat, d: Dependency, m: Matched)
    requires KeyServed(bs, visited, resolution, d, m) && visited <= visited'
    requires forall b :: b in more ==> b.resolution != resolution || b.dependency != d.id || b.key != m.key
    ensures KeyServed(bs + more, visited', resolution, d, m) && KeyServed(more + bs, visited', resolution, d, m)
  {
    NoTally(more, resolution, d.id, m.key);
    TallyJoin(bs, more, resolution, d.id, m.key);
    TallyJoin(more, bs, resolution, d.id, m.key);
  }

  lemma ServedJoin(bs: seq<Binding>, more: seq<Binding>, visited: set<nat>, visited': set<nat>, resolution: nat, ds: seq<Dependency>)
    requires Served(bs, visited, resolution, ds) && visited <= visited' && forall b :: b in more ==> b.resolution != resolution
    ensures Served(bs + more, visited', resolution, ds) && Served(more + bs, visited', resolution, ds)
  {
    forall d, m | d in ds && m in d.matched.value
      ensures KeyServed(bs + more, visited', resolution, d, m) && KeyServed(more + bs, visited', resolution, d, m)
    {
      KeyServedJoin(bs, more, visited, visited', resolution, d, m);
    }
  }

  lemma NewServedJoin(world: World, f0: nat, r1: seq<nat>, r2: seq<nat>, v1: set<nat>, v2: set<nat>, x: seq<Binding>, y: seq<Binding>, resolution: nat)
    requires NewServed(world, f0, r1, v1, x, resolution) && NewServed(world, |r1|, r2, v2, y, resolution)
    requires r1 <= r2 && f0 <= |r1| && resolution < f0 && v1 <= v2
    ensures NewServed(world, f0, r2, v2, x + y, resolution)
  {
    forall i | f0 <= i < |r2| ensures r2[i] in world && Served(x + y, v2, i, world[r2[i]]) {
      if i < |r1| {
        assert r2[i] == r1[i] && Served(x, v1, i, world[r1[i]]);
        ServedJoin(x, y, v1, v2, i, world[r2[i]]);
      } else {
        assert Served(y, v2, i, world[r2[i]]);
        ServedJoin(y, x, v2, v2, i, world[r2[i]]);
      }
    }
  }

  lemma GrowsTwice(world: World, a: Run, b: Run, c: Run, resolution: nat)
    requires Grows(world, a, b, resolution) && Grows(world, b, c, resolution)
    ensures Grows(world, a, c, resolution)
  {
    NewJoin(a, b, c);
    BindsOnceJoin(a.visited, b.visited, c.visited, NewBindings(a, b), NewBindings(b, c));
    OneDownstreamJoin(|a.resolutions|, b.resolutions, c.resolutions, NewBindings(a, b), NewBindings(b, c));
    NewServedJoin(world, |a.resolutions|, b.resolutions, c.resolutions, b.visited, c.visited, NewBindings(a, b), NewBindings(b, c), resolution);
  }

  function Leaf(a: Run, b: Binding): Run {
    Run(a.visited + {b.implementation}, a.resolutions, a.bindings + [b])
  }

  /** Binding an implementation without dependencies. */
  lemma LeafGrows(world: World, a: Run, b: Binding)
    requires b.resolution < |a.resolutions| && b.implementation !in a.visited && b.downstream.None?
    ensures Grows(world, a, Leaf(a, b), b.resolution) && NewBindings(a, Leaf(a, b)) == [b]
  {
    var bs := [b];
    assert NewBindings(a, Leaf(a, b)) == bs;
    assert b in bs;
  }

  function Entered(a: Run, implementation: nat): Run {
    Run(a.visited + {implementation}, a.resolutions + [implementation], a.bindings)
  }

  function Bound(a: Run, b: Binding): Run {
    a.(bindings := a.bindings + [b])
  }

  /** Binding an implementation with dependencies: its own resolution, what that grew to, the binding. */
  lemma NodeGrows(world: World, a: Run, sub: Run, b: Binding)
    requires b.resolution < |a.resolutions| && b.implementation !in a.visited && b.implementation in world
    requires b.downstream == Some(|a.resolutions|)
    requires Grows(world, Entered(a, b.implementation), sub, |a.resolutions|)
    requires Served(NewBindings(Entered(a, b.implementation), sub), sub.visited, |a.resolutions|, world[b.implementation])
    ensures Grows(world, a, Bound(sub, b), b.resolution)
    ensures NewBindings(a, Bound(sub, b)) == NewBindings(Entered(a, b.implementation), sub) + [b]
  {
    var first, x, y := |a.resolutions|, NewBindings(Entered(a, b.implementation), sub), [b];
    var bs := x + y;
    assert NewBindings(a, Bound(sub, b)) == bs;
    assert b in bs && sub.resolutions[first] == b.implementation;
    NodeBindsOnce(a.visited, b, sub.visited, x);
    NodeOneDownstream(first, sub.resolutions, x, b);
    forall i | first <= i < |sub.resolutions| ensures sub.resolutions[i] in world && Served(bs, sub.visited, i, world[sub.resolutions[i]]) {
      ServedJoin(x, y, sub.visited, sub.visited, i, world[sub.resolutions[i]]);
    }
  }

  lemma NodeOneDownstream(first: nat, resolutions: seq<nat>, x: seq<Binding>, b: Binding)
    requires OneDownstream(first + 1, resolutions, x) && first < |resolutions|
    requires b.downstream == Some(first) && b.implementation == resolutions[first]
    ensures OneDownstream(first, resolutions, x + [b])
  {
    var bs := x + [b];
    assert b in bs;
    forall i | first <= i < |resolutions| ensures IsDownstream(bs, resolutions[i], i) {
      if i > first {
        assert IsDownstream(x, resolutions[i], i);
        var e :| e in x && e.downstream == Some(i) && e.implementation == resolutions[i];
        assert e in bs;
      }
    }
    forall j, l | 0 <= j < l < |bs| ensures LeadApart(bs, j, l) {
      if l < |x| { assert LeadApart(x, j, l); } else { assert x[j] in x; }
    }
  }

  lemma NodeBindsOnce(visited: set<nat>, b: Binding, visited': set<nat>, x: seq<Binding>)
    requires BindsOnce(visited + {b.implementation}, visited', x) && b.implementation !in visited
    ensures BindsOnce(visited, visited', x + [b])
  {
    var bs := x + [b];
    assert b in bs;
    forall i ensures i in visited' <==> i in visited || exists e :: e in bs && e.implementation == i {
      if i in visited' && i !in visited + {b.implementation} {
        var e :| e in x && e.implementation == i;
        assert e in bs;
      }
    }
    forall j, l | 0 <= j < l < |bs| ensures BindTwo(bs, j, l) {
      if l < |x| { assert BindTwo(x, j, l); } else { assert x[j] in x; }
    }
  }

  /** What one key's candidates grew to: bindings of that key only, and the key served. */
  ghost predicate KeyDone(a: Run, b: Run, resolution: nat, d: Dependency, m: Matched)
    requires Extends(a, b)
  {
    && (forall e :: e in NewBindings(a, b) && e.resolution == resolution ==> OfKey(e, d, m))
    && KeyServed(NewBindings(a, b), b.visited, resolution, d, m)
  }

  lemma TallyOne(b: Binding)
    ensures Tally([b], b.resolution, b.dependency, b.key) == 1
  {
    assert [b][..0] == [];
  }

  /** Exactly one new binding is the resolution's: this key's, of this implementation. */
  ghost predicate OneBound(a: Run, b: Run, resolution: nat, d: Dependency, key: string, implementation: nat)
    requires Extends(a, b)
  {
    && (forall e :: e in NewBindings(a, b) && e.resolution == resolution ==>
          e.dependency == d.id && e.key == key && e.implementation == implementation)
    && Tally(NewBindings(a, b), resolution, d.id, key) == 1 && implementation in b.visited
  }

  lemma NodeBound(a: Run, sub: Run, d: Dependency, b: Binding)
    requires b.resolution < |a.resolutions| && b.dependency == d.id && Extends(Entered(a, b.implementation), sub)
    requires b.implementation in sub.visited
    requires forall e :: e in NewBindings(Entered(a, b.implementation), sub) ==> e.resolution >= |a.resolutions|
    ensures Extends(a, Bound(sub, b)) && OneBound(a, Bound(sub, b), b.resolution, d, b.key, b.implementation)
  {
    var x := NewBindings(Entered(a, b.implementation), sub);
    assert NewBindings(a, Bound(sub, b)) == x + [b];
    NoTally(x, b.resolution, d.id, b.key);
    TallyJoin(x, [b], b.resolution, d.id, b.key);
    TallyOne(b);
  }

  /** Bindings of this key only, `count` of them; the first `i` candidates are visited. */
  ghost predicate KeySoFar(a: Run, b: Run, resolution: nat, d: Dependency, m: Matched, i: nat, count: nat)
    requires Extends(a, b) && i <= |m.implementations|
  {
    && (forall e :: e in NewBindings(a, b) && e.resolution == resolution ==> OfKey(e, d, m))
    && Tally(NewBindings(a, b), resolution, d.id, m.key) == count
    && forall j :: 0 <= j < i ==> m.implementations[j] in b.visited
  }

  /** The limit is not reached yet. */
  predicate Below(d: Dependency, count: nat) {
    d.preferred.Some? ==> count == 0 || count < d.preferred.value
  }

  lemma KeyExhausted(a: Run, b: Run, resolution: nat, d: Dependency, m: Matched, count: nat)
    requires Extends(a, b) && KeySoFar(a, b, resolution, d, m, |m.implementations|, count) && Below(d, count)
    ensures KeyDone(a, b, resolution, d, m)
  {}

  lemma KeyAtLimit(a: Run, b: Run, resolution: nat, d: Dependency, m: Matched, i: nat, count: nat)
    requires Extends(a, b) && i <= |m.implementations| && KeySoFar(a, b, resolution, d, m, i, count)
    requires count > 0 && Below(d, count - 1) && d.preferred.Some? && count >= d.preferred.value
    ensures KeyDone(a, b, resolution, d, m)
  {}

  lemma VisitedSkipped(a: Run, b: Run, resolution: nat, d: Dependency, m: Matched, i: nat, count: nat)
    requires Extends(a, b) && i < |m.implementations| && KeySoFar(a, b, resolution, d, m, i, count) && m.implementations[i] in b.visited
    ensures KeySoFar(a, b, resolution, d, m, i + 1, count)
  {}

  lemma OneMoreBinding(world: World, a: Run, b: Run, c: Run, resolution: nat, d: Dependency, m: Matched, i: nat, count: nat)
    requires Grows(world, a, b, resolution) && Grows(world, b, c, resolution) && b.visited <= c.visited && i < |m.implementations|
    requires KeySoFar(a, b, resolution, d, m, i, count) && OneBound(b, c, resolution, d, m.key, m.implementations[i])
    ensures Grows(world, a, c, resolution) && KeySoFar(a, c, resolution, d, m, i + 1, count + 1)
  {
    GrowsTwice(world, a, b, c, resolution);
    NewJoin(a, b, c);
    TallyJoin(NewBindings(a, b), NewBindings(b, c), resolution, d.id, m.key);
  }

  /** What holds between a key's candidates: `count` of the first `i` are bound, and nothing else new. */
  ghost predicate KeyLoop(world: World, start: Run, now: Run, resolution: nat, d: Dependency, m: Matched, i: nat, count: nat) {
    && i <= |m.implementations| && start.visited <= now.visited && Grows(world, start, now, resolution)
    && KeySoFar(start, now, resolution, d, m, i, count) && Below(d, count)
  }

  lemma LoopSkips(world: World, start: Run, now: Run, resolution: nat, d: Dependency, m: Matched, i: nat, count: nat)
    requires KeyLoop(world, start, now, resolution, d, m, i, count) && i < |m.implementations| && m.implementations[i] in now.visited
    ensures KeyLoop(world, start, now, resolution, d, m, i + 1, count)
  {
    VisitedSkipped(start, now, resolution, d, m, i, count);
  }

  lemma LoopBinds(world: World, start: Run, before: Run, now: Run, resolution: nat, d: Dependency, m: Matched, i: nat, count: nat)
    requires KeyLoop(world, start, before, resolution, d, m, i, count) && i < |m.implementations|
    requires Grows(world, before, now, resolution) && before.visited <= now.visited
    requires OneBound(before, now, resolution, d, m.key, m.implementations[i])
    ensures Grows(world, start, now, resolution) && KeySoFar(start, now, resolution, d, m, i + 1, count + 1)
    ensures if Below(d, count + 1) then KeyLoop(world, start, now, resolution, d, m, i + 1, count + 1)
            else KeyDone(start, now, resolution, d, m)
  {
    OneMoreBinding(world, start, before, now, resolution, d, m, i, count);
    if !Below(d, count + 1) { KeyAtLimit(start, now, resolution, d, m, i + 1, count + 1); }
  }

  ghost predicate OfSomeKey(e: Binding, d: Dependency, ms: seq<Matched>) {
    e.dependency == d.id && exists m :: m in ms && OfKey(e, d, m)
  }

  /** The first keys of a dependency are served, and only they have bindings. */
  ghost predicate KeysDone(a: Run, b: Run, resolution: nat, d: Dependency, ms: seq<Matched>)
    requires Extends(a, b)
  {
    && (forall e :: e in NewBindings(a, b) && e.resolution == resolution ==> OfSomeKey(e, d, ms))
    && (forall m :: m in ms ==> KeyServed(NewBindings(a, b), b.visited, resolution, d, m))
  }

  ghost predicate DependencyDone(a: Run, b: Run, resolution: nat, d: Dependency)
    requires Extends(a, b)
  {
    d.matched.Some? && KeysDone(a, b, resolution, d, d.matched.value)
  }

  lemma StillOfSomeKey(e: Binding, d: Dependency, ms: seq<Matched>, n: nat)
    requires n < |ms| && (OfSomeKey(e, d, ms[..n]) || OfKey(e, d, ms[n]))
    ensures OfSomeKey(e, d, ms[..n + 1])
  {
    assert ms[..n + 1] == ms[..n] + [ms[n]];
    if OfSomeKey(e, d, ms[..n]) {
      var m :| m in ms[..n] && OfKey(e, d, m);
      assert m in ms[..n + 1];
    } else {
      assert ms[n] in ms[..n + 1];
    }
  }

  lemma OneMoreKey(a: Run, b: Run, c: Run, resolution: nat, d: Dependency, ms: seq<Matched>, n: nat)
    requires Extends(a, b) && Extends(b, c) && n < |ms| && b.visited <= c.visited
    requires forall i, j :: 0 <= i < j < |ms| ==> ms[i].key != ms[j].key
    requires KeysDone(a, b, resolution, d, ms[..n]) && KeyDone(b, c, resolution, d, ms[n])
    ensures Extends(a, c) && KeysDone(a, c, resolution, d, ms[..n + 1])
  {
    NewJoin(a, b, c);
    var x, y := NewBindings(a, b), NewBindings(b, c);
    forall e: Binding | e in x + y && e.resolution == resolution ensures OfSomeKey(e, d, ms[..n + 1]) {
      StillOfSomeKey(e, d, ms, n);
    }
    forall m | m in ms[..n + 1] ensures KeyServed(x + y, c.visited, resolution, d, m) {
      var j :| 0 <= j < n + 1 && ms[j] == m;
      if j == n {
        KeyServedJoin(y, x, c.visited, c.visited, resolution, d, m);
      } else {
        assert m in ms[..n];
        KeyServedJoin(x, y, b.visited, c.visited, resolution, d, m);
      }
    }
  }

  /** The first dependencies are done: the resolution is served as far as they go. */
  ghost predicate DependenciesDone(a: Run, b: Run, resolution: nat, ds: seq<Dependency>)
    requires Extends(a, b)
  {
    Served(NewBindings(a, b), b.visited, resolution, ds)
  }

  lemma StillChosen(e: Binding, ds: seq<Dependency>, n: nat)
    requires n < |ds| && (Chosen(ds[..n], e) || (ds[n].matched.Some? && OfSomeKey(e, ds[n], ds[n].matched.value)))
    ensures Chosen(ds[..n + 1], e)
  {
    assert ds[..n + 1] == ds[..n] + [ds[n]];
    if Chosen(ds[..n], e) {
      var d, m :| d in ds[..n] && d.matched.Some? && m in d.matched.value && OfKey(e, d, m);
      assert d in ds[..n + 1];
    } else {
      var m :| m in ds[n].matched.value && OfKey(e, ds[n], m);
      assert ds[n] in ds[..n + 1];
    }
  }

  lemma ChosenElsewhere(e: Binding, ds: seq<Dependency>, n: nat)
    requires n < |ds| && DistinctIds(ds) && Chosen(ds[..n], e)
    ensures e.dependency != ds[n].id
  {
    var d, m :| d in ds[..n] && d.matched.Some? && m in d.matched.value && OfKey(e, d, m);
    var j :| 0 <= j < n && ds[j] == d;
  }

  lemma OneMoreDependency(a: Run, b: Run, c: Run, resolution: nat, ds: seq<Dependency>, n: nat)
    requires Extends(a, b) && Extends(b, c) && n < |ds| && b.visited <= c.visited && DistinctIds(ds)
    requires DependenciesDone(a, b, resolution, ds[..n]) && DependencyDone(b, c, resolution, ds[n])
    ensures Extends(a, c) && DependenciesDone(a, c, resolution, ds[..n + 1])
  {
    NewJoin(a, b, c);
    var x, y := NewBindings(a, b), NewBindings(b, c);
    assert ds[..n + 1] == ds[..n] + [ds[n]];
    forall e: Binding | e in x + y && e.resolution == resolution ensures Chosen(ds[..n + 1], e) {
      StillChosen(e, ds, n);
    }
    forall d, m | d in ds[..n + 1] && m in d.matched.value ensures KeyServed(x + y, c.visited, resolution, d, m) {
      var j :| 0 <= j < n + 1 && ds[j] == d;
      if j == n {
        forall e | e in x && e.resolution == resolution ensures e.dependency != d.id { ChosenElsewhere(e, ds, n); }
        KeyServedJoin(y, x, c.visited, c.visited, resolution, d, m);
      } else {
        assert d in ds[..n];
        KeyServedJoin(x, y, b.visited, c.visited, resolution, d, m);
      }
    }
  }

  // ---------------------------------------------------------------- where it raises

  /** Some dependency of the implementation nothing satisfies. */
  ghost predicate Unmatched(world: World, implementation: nat) {
    implementation in world && exists d :: d in world[implementation] && d.matched.None?
  }

  ghost predicate SomeUnmatched(world: World, visited: set<nat>) {
    exists i :: i in visited && Unmatched(world, i)
  }

  /** The resolutions and bindings one call creates. */
  class Resolution {
    const world: World
    var visited: set<nat>
    var resolutions: seq<nat>
    var bindings: seq<Binding>

    function Now(): Run
      reads this
    {
      Run(visited, resolutions, bindings)
    }

    /** The run of one resolution for `implementation`. */
    constructor (world: World, implementation: nat)
      ensures this.world == world && Now() == Run({}, [implementation], [])
    {
      this.world, visited, resolutions, bindings := world, {}, [implementation], [];
    }

    /** auto_resolve: false where it raises. It ends on every graph: each level of the recursion has
        visited one implementation more. */
    method AutoResolve(implementation: nat, resolution: nat) returns (ok: bool)
      requires WellFormed(world) && implementation in world && resolution < |resolutions|
      modifies this
      ensures Extends(old(Now()), Now()) && old(visited) <= visited
      ensures ok ==> Grows(world, old(Now()), Now(), resolution)
      ensures ok ==> DependenciesDone(old(Now()), Now(), resolution, world[implementation])
      ensures !ok ==> Unmatched(world, implementation) || SomeUnmatched(world, visited)
      decreases |world.Keys - visited|, 4
    {
      var ds := world[implementation];
      GrowsNot(world, Now(), resolution);
      var i := 0;
      while i < |ds|
        invariant i <= |ds| && Grows(world, old(Now()), Now(), resolution) && old(visited) <= visited
        invariant DependenciesDone(old(Now()), Now(), resolution, ds[..i])
      {
        ghost var before := Now();
        SubsetSmaller(world.Keys - visited, world.Keys - old(visited));
        assert ds[i] in world[implementation];
        ok := ResolveDependency(ds[i], resolution);
        if !ok {
          return;
        }
        GrowsTwice(world, old(Now()), before, Now(), resolution);
        OneMoreDependency(old(Now()), before, Now(), resolution, ds, i);
        i := i + 1;
      }
      assert ds[..i] == ds;
      ok := true;
    }

    /** One dependency: every action key's candidates. */
    method ResolveDependency(d: Dependency, resolution: nat) returns (ok: bool)
      requires WellFormed(world) && resolution < |resolutions| && (d.matched.Some? ==> KeysFit(world, d.matched.value))
      modifies this
      ensures Extends(old(Now()), Now()) && old(visited) <= visited
      ensures ok ==> Grows(world, old(Now()), Now(), resolution) && DependencyDone(old(Now()), Now(), resolution, d)
      ensures !ok ==> d.matched.None? || SomeUnmatched(world, visited)
      decreases |world.Keys - visited|, 3
    {
      if d.matched.None? {
        return false;
      }
      var ms := d.matched.value;
      GrowsNot(world, Now(), resolution);
      var i := 0;
      while i < |ms|
        invariant i <= |ms| && Grows(world, old(Now()), Now(), resolution) && old(visited) <= visited
        invariant KeysDone(old(Now()), Now(), resolution, d, ms[..i])
      {
        ghost var before := Now();
        SubsetSmaller(world.Keys - visited, world.Keys - old(visited));
        assert ms[i] in ms;
        ok := ResolveKey(d, ms[i], resolution);
        if !ok {
          return;
        }
        GrowsTwice(world, old(Now()), before, Now(), resolution);
        OneMoreKey(old(Now()), before, Now(), resolution, d, ms, i);
        i := i + 1;
      }
      assert ms[..i] == ms;
      ok := true;
    }

    /** One key: bind unvisited candidates until as many as preferred are bound. */
    method ResolveKey(d: Dependency, m: Matched, resolution: nat) returns (ok: bool)
      requires WellFormed(world) && resolution < |resolutions| && forall i :: i in m.implementations ==> i in world
      modifies this
      ensures Extends(old(Now()), Now()) && old(visited) <= visited
      ensures ok ==> Grows(world, old(Now()), Now(), resolution)
      ensures ok ==> KeyDone(old(Now()), Now(), resolution, d, m)
      ensures !ok ==> SomeUnmatched(world, visited)
      decreases |world.Keys - visited|, 2
    {
      ghost var start := Now();
      GrowsNot(world, start, resolution);
      var count, i := 0, 0;
      while i < |m.implementations|
        invariant KeyLoop(world, start, Now(), resolution, d, m, i, count)
      {
        if m.implementations[i] in visited {
          LoopSkips(world, start, Now(), resolution, d, m, i, count);
        } else {
          SubsetSmaller(world.Keys - visited, world.Keys - start.visited);
          ok := BindNext(start, d, m, i, count, resolution);
          if !ok || (d.preferred.Some? && count + 1 >= d.preferred.value) {
            return;
          }
          count := count + 1;
        }
        i := i + 1;
      }
      KeyExhausted(start, Now(), resolution, d, m, count);
      ok := true;
    }

    /** The candidate at `i`, of a key `count` of whose candidates are bound. */
    method BindNext(ghost start: Run, d: Dependency, m: Matched, i: nat, ghost count: nat, resolution: nat) returns (ok: bool)
      requires WellFormed(world) && resolution < |resolutions| && i < |m.implementations|
      requires KeyLoop(world, start, Now(), resolution, d, m, i, count)
      requires m.implementations[i] in world && m.implementations[i] !in visited
      modifies this
      ensures Extends(old(Now()), Now()) && old(visited) <= visited
      ensures ok ==> Grows(world, start, Now(), resolution)
      ensures ok ==> if Below(d, count + 1) then KeyLoop(world, start, Now(), resolution, d, m, i + 1, count + 1)
                     else KeyDone(start, Now(), resolution, d, m)
      ensures !ok ==> SomeUnmatched(world, visited)
      decreases |world.Keys - visited|, 1
    {
      ghost var before := Now();
      ok := Bind(d, m.key, m.implementations[i], resolution);
      if ok { LoopBinds(world, start, before, Now(), resolution, d, m, i, count); }
    }

    /** One implementation: with dependencies of its own, it is resolved first. */
    method Bind(d: Dependency, key: string, implementation: nat, resolution: nat) returns (ok: bool)
      requires WellFormed(world) && resolution < |resolutions| && implementation in world && implementation !in visited
      modifies this
      ensures Extends(old(Now()), Now()) && old(visited) <= visited
      ensures ok ==> Grows(world, old(Now()), Now(), resolution) && OneBound(old(Now()), Now(), resolution, d, key, implementation)
      ensures !ok ==> SomeUnmatched(world, visited)
      decreases |world.Keys - visited|, 0
    {
      if world[implementation] != [] {
        var sub := |resolutions|;
        visited := visited + {implementation};
        resolutions := resolutions + [implementation];
        assert Now() == Entered(old(Now()), implementation);
        assert implementation in world.Keys - old(visited);
        SubsetSmaller(world.Keys - visited, world.Keys - old(visited));
        ok := AutoResolve(implementation, sub);
        if !ok {
          return;
        }
        ghost var after := Now();
        var binding := Binding(key, resolution, d.id, implementation, Some(sub));
        bindings := bindings + [binding];
        NodeGrows(world, old(Now()), after, binding);
        NodeBound(old(Now()), after, d, binding);
      } else {
        BindLeaf(d, key, implementation, resolution);
        ok := true;
      }
    }

    /** An implementation without dependencies is bound, and visited. */
    method BindLeaf(d: Dependency, key: string, implementation: nat, resolution: nat)
      requires resolution < |resolutions| && implementation in world && implementation !in visited && world[implementation] == []
      modifies this
      ensures Extends(old(Now()), Now()) && old(visited) <= visited
      ensures Grows(world, old(Now()), Now(), resolution) && OneBound(old(Now()), Now(), resolution, d, key, implementation)
    {
      var binding := Binding(key, resolution, d.id, implementation, None);
      bindings := bindings + [binding];
      visited := visited + {implementation};
      LeafGrows(world, old(Now()), binding);
      TallyOne(binding);
    }
  }

  /** A run that raises nothing: every implementation is bound at most once in the whole tree, every
      sub-resolution is downstream of exactly one binding, of its own implementation, and every
      resolution serves each of its keys. It raises just when some resolution's dependency nothing
      satisfies. */
  method Resolve(world: World, implementation: nat) returns (ok: bool, run: Resolution)
    requires WellFormed(world) && implementation in world
    ensures fresh(run) && run.world == world
    ensures ok ==> WholeRun(world, implementation, run.Now())
    ensures !ok ==> SomeUnmatched(world, {implementation} + run.visited)
  {
    run := new Resolution(world, implementation);
    ghost var start := run.Now();
    ok := run.AutoResolve(implementation, 0);
    if ok {
      RunIsWhole(world, implementation, start, run.Now());
    } else if Unmatched(world, implementation) {
      assert implementation in {implementation} + run.visited;
    } else {
      ghost var i :| i in run.visited && Unmatched(world, i);
      assert i in {implementation} + run.visited;
    }
  }

  lemma RunIsWhole(world: World, implementation: nat, start: Run, run: Run)
    requires implementation in world && start == Run({}, [implementation], []) && Grows(world, start, run, 0)
    requires DependenciesDone(start, run, 0, world[implementation])
    ensures WholeRun(world, implementation, run)
  {
    assert NewBindings(start, run) == run.bindings;
  }

  ghost predicate WholeRun(world: World, implementation: nat, run: Run) {
    && BindsOnce({}, run.visited, run.bindings)
    && |run.resolutions| > 0 && run.resolutions[0] == implementation
    && OneDownstream(1, run.resolutions, run.bindings)
    && (forall b :: b in run.bindings ==> b.resolution < |run.resolutions|)
    && (forall i :: 0 <= i < |run.resolutions| ==> run.resolutions[i] in world && Served(run.bindings, run.visited, i, world[run.resolutions[i]]))
  }

  /** So an implementation that can be resolved has no dependency nothing satisfies, nor has any that is
      resolved for it. */
  lemma WholeRunsMatch(world: World, implementation: nat, run: Run, i: nat)
    requires WholeRun(world, implementation, run) && i < |run.resolutions|
    ensures !Unmatched(world, run.resolutions[i])
  {
    assert Served(run.bindings, run.visited, i, world[run.resolutions[i]]);
  }
}
