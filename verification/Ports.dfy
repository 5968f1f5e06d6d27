/** A port forest as rows (facade/blok_revisions.py, sync_blok_arg_ports): written level by level,
    and what the rows say about the forest. */
module Ports {
  import opened Collections
  import opened Descriptors

  datatype Port = Port(
    key: string,
    kind: string,
    identifier: Option<string>,
    dimension: Option<string>,
    nullable: bool,
    requires_: seq<Descriptor>,
    children: seq<Port>)

  /** A row of facade_blokargport (or facade_argport, facade_returnport). */
  datatype Row = Row(
    id: nat,
    owner: nat,
    parent: Option<nat>,
    index: nat,
    key: Option<string>,
    keyPath: string,
    kind: Option<string>,
    identifier: Option<string>,
    dimension: Option<string>,
    nullable: bool,
    jsonpath: Option<seq<Token>>)

  function Dotted(path: string, key: string): string {
    if path == "" then key else path + "." + key
  }

  // ---------------------------------------------------------------- level by level

  /** A port about to be written: under which row, at which position, below which path. */
  datatype Pending = Pending(port: Port, parent: Option<nat>, index: nat, path: string)

  function RowFor(owner: nat, p: Pending, id: nat): Row
    requires Compile(p.port.requires_).Ok?
  {
    Row(id, owner, p.parent, p.index, Some(p.port.key), Dotted(p.path, p.port.key), Some(p.port.kind), p.port.identifier,
        p.port.dimension, p.port.nullable, Compile(p.port.requires_).value)
  }

  function Below(ports: seq<Port>, parent: Option<nat>, path: string): seq<Pending> {
    seq(|ports|, i requires 0 <= i < |ports| => Pending(ports[i], parent, i, path))
  }

  /** The children of a level whose rows have the ids from `first` on. */
  function NextLevel(level: seq<Pending>, first: nat): seq<Pending>
    decreases |level|
  {
    if level == [] then []
    else
      var n := |level| - 1;
      NextLevel(level[..n], first) + Below(level[n].port.children, Some(first + n), Dotted(level[n].path, level[n].port.key))
  }

  function Size(p: Port): nat {
    1 + Sizes(p.children)
  }

  function Sizes(ps: seq<Port>): nat {
    if ps == [] then 0 else Sizes(ps[..|ps| - 1]) + Size(ps[|ps| - 1])
  }

  function LevelSize(level: seq<Pending>): nat
    decreases |level|
  {
    if level == [] then 0 else LevelSize(level[..|level| - 1]) + Size(level[|level| - 1].port)
  }

  lemma {:induction false} BelowSize(ports: seq<Port>, parent: Option<nat>, path: string)
    ensures LevelSize(Below(ports, parent, path)) == Sizes(ports)
    decreases |ports|
  {
    if ports != [] {
      var n := |ports| - 1;
      assert Below(ports, parent, path)[..n] == Below(ports[..n], parent, path);
      BelowSize(ports[..n], parent, path);
    }
  }

  lemma {:induction false} LevelSizeJoin(a: seq<Pending>, b: seq<Pending>)
    ensures LevelSize(a + b) == LevelSize(a) + LevelSize(b)
    decreases |b|
  {
    if b == [] {
      assert a + b == a;
    } else {
      var n := |b| - 1;
      assert (a + b)[..|a| + n] == a + b[..n];
      LevelSizeJoin(a, b[..n]);
    }
  }

  /** Writing a level takes its own ports off what is left. */
  lemma {:induction false} NextLevelSize(level: seq<Pending>, first: nat)
    ensures LevelSize(NextLevel(level, first)) + |level| == LevelSize(level)
    decreases |level|
  {
    if level != [] {
      var n := |level| - 1;
      var p := level[n];
      NextLevelSize(level[..n], first);
      NextLevelLast(level, first);
      LastLevelSize(NextLevel(level[..n], first), p.port.children, Some(first + n), Dotted(p.path, p.port.key));
    }
  }

  lemma LastLevelSize(rest: seq<Pending>, ports: seq<Port>, parent: Option<nat>, path: string)
    ensures LevelSize(rest + Below(ports, parent, path)) == LevelSize(rest) + Sizes(ports)
  {
    LevelSizeJoin(rest, Below(ports, parent, path));
    BelowSize(ports, parent, path);
  }

  /** The level and the levels below it, in writing order. */
  function Queue(level: seq<Pending>, first: nat): seq<Pending>
    decreases LevelSize(level), |level|
  {
    if level == [] then []
    else
      NextLevelSize(level, first);
      level + Queue(NextLevel(level, first), first + |level|)
  }

  predicate AllCompile(queue: seq<Pending>) {
    forall k :: 0 <= k < |queue| ==> Compile(queue[k].port.requires_).Ok?
  }

  function Rows(owner: nat, queue: seq<Pending>, first: nat): seq<Row>
    requires AllCompile(queue)
  {
    seq(|queue|, k requires 0 <= k < |queue| => RowFor(owner, queue[k], first + k))
  }

  // ---------------------------------------------------------------- what rows say of a forest

  /** The row is a child of `parent`, or a root of `owner`. */
  predicate Under(r: Row, owner: nat, parent: Option<nat>) {
    r.parent == parent && (parent.None? ==> r.owner == owner)
  }

  /** The row has the port's columns, at `path`. */
  predicate Describes(r: Row, p: Port, path: string) {
    && r.key == Some(p.key) && r.keyPath == Dotted(path, p.key) && r.kind == Some(p.kind)
    && r.identifier == p.identifier && r.dimension == p.dimension && r.nullable == p.nullable
    && Compile(p.requires_) == Ok(r.jsonpath)
  }

  ghost predicate HasChild(table: seq<Row>, owner: nat, parent: Option<nat>, j: nat) {
    exists r :: r in table && Under(r, owner, parent) && r.index == j
  }

  /** Under `parent` the table holds one row a port, at its position, with its columns and dotted path. */
  ghost predicate HoldsLevel(table: seq<Row>, owner: nat, parent: Option<nat>, path: string, ports: seq<Port>) {
    && (forall j :: 0 <= j < |ports| ==> HasChild(table, owner, parent, j))
    && (forall r, q :: r in table && q in table && Under(r, owner, parent) && Under(q, owner, parent) && r.index == q.index ==> r == q)
    && (forall r :: r in table && Under(r, owner, parent) ==> r.index < |ports| && Describes(r, ports[r.index], path))
  }

  /** Below `parent` the table holds exactly the forest, level by level. */
  ghost predicate Represents(table: seq<Row>, owner: nat, parent: Option<nat>, path: string, ports: seq<Port>)
    decreases ports
  {
    && HoldsLevel(table, owner, parent, path, ports)
    && (forall r :: r in table && Under(r, owner, parent) ==> Represents(table, owner, Some(r.id), r.keyPath, ports[r.index].children))
  }

  /** The relation only looks at rows under `parent` and under the rows it leads to. */
  lemma {:induction false} SameBelow(table: seq<Row>, table': seq<Row>, owner: nat, parent: Option<nat>, path: string, ports: seq<Port>, inside: nat -> bool)
    requires Represents(table, owner, parent, path, ports)
    requires parent.Some? ==> inside(parent.value)
    requires forall r :: Under(r, owner, parent) || (r.parent.Some? && inside(r.parent.value)) ==>
      (r in table <==> r in table') && (r in table ==> inside(r.id))
    ensures Represents(table', owner, parent, path, ports)
    decreases ports
  {
    forall j | 0 <= j < |ports| ensures HasChild(table', owner, parent, j) {
      assert HasChild(table, owner, parent, j);
    }
    forall r | r in table' && Under(r, owner, parent)
      ensures r.index < |ports| && Represents(table', owner, Some(r.id), r.keyPath, ports[r.index].children)
    {
      assert r in table;
      SameBelow(table, table', owner, Some(r.id), r.keyPath, ports[r.index].children, inside);
    }
  }

  // ---------------------------------------------------------------- the queue holds every port once

  /** A pending port is a child of one of the queue's ports, at its position and below its path. */
  ghost predicate ChildOf(queue: seq<Pending>, first: nat, p: Pending) {
    && p.parent.Some? && first <= p.parent.value < first + |queue|
    && var up := queue[p.parent.value - first];
       p.index < |up.port.children| && p.port == up.port.children[p.index] && p.path == Dotted(up.path, up.port.key)
  }

  ghost predicate Awaits(queue: seq<Pending>, parent: nat, i: nat) {
    exists j :: 0 <= j < |queue| && queue[j].parent == Some(parent) && queue[j].index == i
  }

  ghost predicate AllAwait(queue: seq<Pending>, parent: nat, port: Port) {
    forall i :: 0 <= i < |port.children| ==> Awaits(queue, parent, i)
  }

  ghost predicate NoTwice(queue: seq<Pending>) {
    forall j, l :: 0 <= j < |queue| && 0 <= l < |queue| && queue[j].parent == queue[l].parent && queue[j].index == queue[l].index ==> j == l
  }

  /** Each child of the level is pending exactly once. */
  ghost predicate ChildrenOf(level: seq<Pending>, first: nat, next: seq<Pending>) {
    && (forall j :: 0 <= j < |next| ==> ChildOf(level, first, next[j]))
    && NoTwice(next)
    && (forall k :: 0 <= k < |level| ==> AllAwait(next, first + k, level[k].port))
  }

  lemma AwaitsIn(queue: seq<Pending>, queue': seq<Pending>, shift: nat, parent: nat, port: Port)
    requires AllAwait(queue, parent, port)
    requires shift + |queue| <= |queue'| && forall j :: 0 <= j < |queue| ==> queue'[shift + j] == queue[j]
    ensures AllAwait(queue', parent, port)
  {
    forall i | 0 <= i < |port.children| ensures Awaits(queue', parent, i) {
      assert Awaits(queue, parent, i);
      var j :| 0 <= j < |queue| && queue[j].parent == Some(parent) && queue[j].index == i;
      assert queue'[shift + j] == queue[j];
    }
  }

  lemma BelowAwaits(port: Port, parent: nat, path: string)
    ensures AllAwait(Below(port.children, Some(parent), path), parent, port)
  {
    var below := Below(port.children, Some(parent), path);
    forall i | 0 <= i < |port.children| ensures Awaits(below, parent, i) {
      assert below[i].parent == Some(parent) && below[i].index == i;
    }
  }

  lemma ChildOfLonger(level: seq<Pending>, first: nat, p: Pending, child: Pending)
    requires ChildOf(level, first, child)
    ensures ChildOf(level + [p], first, child)
  {}

  lemma BelowAreChildren(level: seq<Pending>, first: nat, p: Pending, last: seq<Pending>, j: nat)
    requires last == Below(p.port.children, Some(first + |level|), Dotted(p.path, p.port.key)) && j < |last|
    ensures ChildOf(level + [p], first, last[j]) && last[j].parent == Some(first + |level|) && last[j].index == j
  {}

  lemma MoreNotTwice(level: seq<Pending>, first: nat, p: Pending, head: seq<Pending>, last: seq<Pending>)
    requires ChildrenOf(level, first, head)
    requires last == Below(p.port.children, Some(first + |level|), Dotted(p.path, p.port.key))
    ensures NoTwice(head + last)
  {
    var next := head + last;
    forall j, l | 0 <= j < |next| && 0 <= l < |next| && next[j].parent == next[l].parent && next[j].index == next[l].index
      ensures j == l
    {
      if j >= |head| { BelowAreChildren(level, first, p, last, j - |head|); } else { assert ChildOf(level, first, head[j]); }
      if l >= |head| { BelowAreChildren(level, first, p, last, l - |head|); } else { assert ChildOf(level, first, head[l]); }
    }
  }

  lemma MoreAwaited(level: seq<Pending>, first: nat, p: Pending, head: seq<Pending>, last: seq<Pending>, k: nat)
    requires ChildrenOf(level, first, head) && k <= |level|
    requires last == Below(p.port.children, Some(first + |level|), Dotted(p.path, p.port.key))
    ensures AllAwait(head + last, first + k, (level + [p])[k].port)
  {
    if k < |level| {
      AwaitsIn(head, head + last, 0, first + k, level[k].port);
    } else {
      BelowAwaits(p.port, first + |level|, Dotted(p.path, p.port.key));
      AwaitsIn(last, head + last, |head|, first + |level|, p.port);
    }
  }

  lemma MoreChildren(level: seq<Pending>, first: nat, p: Pending, head: seq<Pending>, last: seq<Pending>)
    requires ChildrenOf(level, first, head)
    requires last == Below(p.port.children, Some(first + |level|), Dotted(p.path, p.port.key))
    ensures ChildrenOf(level + [p], first, head + last)
  {
    var level', next := level + [p], head + last;
    forall k | 0 <= k < |level'| ensures AllAwait(next, first + k, level'[k].port) {
      MoreAwaited(level, first, p, head, last, k);
    }
    MoreNotTwice(level, first, p, head, last);
    forall j | 0 <= j < |next| ensures ChildOf(level', first, next[j]) {
      if j < |head| { ChildOfLonger(level, first, p, head[j]); } else { BelowAreChildren(level, first, p, last, j - |head|); }
    }
  }

  lemma NextLevelLast(level: seq<Pending>, first: nat)
    requires level != []
    ensures var n := |level| - 1;
      NextLevel(level, first) ==
        NextLevel(level[..n], first) + Below(level[n].port.children, Some(first + n), Dotted(level[n].path, level[n].port.key))
  {}

  lemma OneLonger(level: seq<Pending>, first: nat, init: seq<Pending>, p: Pending, head: seq<Pending>, next: seq<Pending>)
    requires level == init + [p] && ChildrenOf(init, first, head)
    requires next == head + Below(p.port.children, Some(first + |init|), Dotted(p.path, p.port.key))
    ensures ChildrenOf(level, first, next)
  {
    MoreChildren(init, first, p, head, Below(p.port.children, Some(first + |init|), Dotted(p.path, p.port.key)));
  }

  lemma {:induction false} NextLevelIsChildren(level: seq<Pending>, first: nat)
    ensures ChildrenOf(level, first, NextLevel(level, first))
    decreases |level|
  {
    if level != [] {
      var n := |level| - 1;
      var init, p := level[..n], level[n];
      assert level == init + [p];
      NextLevelIsChildren(init, first);
      NextLevelLast(level, first);
      OneLonger(level, first, init, p, NextLevel(init, first), NextLevel(level, first));
    }
  }

  /** The queued port is a child of one queued before it. */
  ghost predicate Behind(queue: seq<Pending>, first: nat, j: nat)
    requires j < |queue|
  {
    ChildOf(queue, first, queue[j]) && queue[j].parent.value < first + j
  }

  /** The queue starts with the level; after it comes every child of a queued port, once, behind it. */
  ghost predicate Complete(level: seq<Pending>, first: nat, queue: seq<Pending>) {
    && level <= queue
    && (forall j :: |level| <= j < |queue| ==> Behind(queue, first, j))
    && NoTwice(queue[|level|..])
    && (forall k :: 0 <= k < |queue| ==> AllAwait(queue[|level|..], first + k, queue[k].port))
  }

  lemma BehindAt(level: seq<Pending>, first: nat, queue: seq<Pending>, j: nat)
    requires Complete(level, first, queue) && |level| <= j < |queue|
    ensures ChildOf(queue, first, queue[j]) && queue[j].parent.value < first + j
  {
    assert Behind(queue, first, j);
  }

  lemma LaterRowsBehind(level: seq<Pending>, first: nat, next: seq<Pending>, rest: seq<Pending>, j: nat)
    requires ChildrenOf(level, first, next) && Complete(next, first + |level|, rest) && j < |rest|
    ensures ChildOf(level + rest, first, rest[j]) && rest[j].parent.value < first + |level| + j
    ensures rest[j].parent.value < first + |level| <==> j < |next|
  {
    if j < |next| {
      assert ChildOf(level, first, next[j]) && rest[j] == next[j];
    } else {
      assert Behind(rest, first + |level|, j);
    }
  }

  lemma RestNotTwice(level: seq<Pending>, first: nat, next: seq<Pending>, rest: seq<Pending>, j: nat, l: nat)
    requires ChildrenOf(level, first, next) && Complete(next, first + |level|, rest)
    requires j < |rest| && l < |rest| && rest[j].parent == rest[l].parent && rest[j].index == rest[l].index
    ensures j == l
  {
    LaterRowsBehind(level, first, next, rest, j);
    LaterRowsBehind(level, first, next, rest, l);
    if j < |next| {
      assert rest[j] == next[j] && rest[l] == next[l];
    } else {
      assert rest[j] == rest[|next|..][j - |next|] && rest[l] == rest[|next|..][l - |next|];
    }
  }

  lemma RestAwaits(level: seq<Pending>, first: nat, next: seq<Pending>, rest: seq<Pending>, k: nat)
    requires ChildrenOf(level, first, next) && Complete(next, first + |level|, rest) && k < |level| + |rest|
    ensures AllAwait(rest, first + k, (level + rest)[k].port)
  {
    var n := |level|;
    if k < n {
      AwaitsIn(next, rest, 0, first + k, level[k].port);
    } else {
      var later := rest[|next|..];
      assert AllAwait(later, first + n + (k - n), rest[k - n].port);
      AwaitsIn(later, rest, |next|, first + k, rest[k - n].port);
    }
  }

  lemma LevelThenRest(level: seq<Pending>, first: nat, next: seq<Pending>, rest: seq<Pending>)
    requires ChildrenOf(level, first, next) && Complete(next, first + |level|, rest)
    ensures Complete(level, first, level + rest)
  {
    var queue, n := level + rest, |level|;
    assert queue[n..] == rest;
    forall j | n <= j < |queue| ensures Behind(queue, first, j) {
      LaterRowsBehind(level, first, next, rest, j - n);
    }
    forall j, l | 0 <= j < |rest| && 0 <= l < |rest| && rest[j].parent == rest[l].parent && rest[j].index == rest[l].index ensures j == l {
      RestNotTwice(level, first, next, rest, j, l);
    }
    forall k | 0 <= k < |queue| ensures AllAwait(rest, first + k, queue[k].port) {
      RestAwaits(level, first, next, rest, k);
    }
  }

  /** Each port is queued once, after its parent. */
  lemma {:induction false} QueueIsComplete(level: seq<Pending>, first: nat)
    ensures Complete(level, first, Queue(level, first)) && |Queue(level, first)| == LevelSize(level)
    decreases LevelSize(level), |level|
  {
    if level != [] {
      var next := NextLevel(level, first);
      NextLevelSize(level, first);
      NextLevelIsChildren(level, first);
      QueueIsComplete(next, first + |level|);
      var rest := Queue(next, first + |level|);
      LevelThenRest(level, first, next, rest);
    }
  }

  /** Every port of the forest can be written: its `requires` compile. */
  predicate Writable(ports: seq<Port>) {
    forall p | p in ports :: Compile(p.requires_).Ok? && Writable(p.children)
  }

  lemma {:induction false} QueuedWritable(level: seq<Pending>, first: nat, queue: seq<Pending>, j: nat)
    requires Complete(level, first, queue) && j < |queue|
    requires forall k :: 0 <= k < |level| ==> Compile(level[k].port.requires_).Ok? && Writable(level[k].port.children)
    ensures Compile(queue[j].port.requires_).Ok? && Writable(queue[j].port.children)
    decreases j
  {
    if j < |level| {
      assert queue[j] == level[j];
    } else {
      BehindAt(level, first, queue, j);
      var k := queue[j].parent.value - first;
      QueuedWritable(level, first, queue, k);
      assert queue[j].port in queue[k].port.children;
    }
  }

  lemma {:induction false} CompiledWritable(level: seq<Pending>, first: nat, queue: seq<Pending>, k: nat, children: seq<Port>)
    requires Complete(level, first, queue) && AllCompile(queue) && k < |queue| && children == queue[k].port.children
    ensures Writable(children)
    decreases children
  {
    var later := queue[|level|..];
    forall p | p in children ensures Compile(p.requires_).Ok? && Writable(p.children) {
      var i :| 0 <= i < |children| && children[i] == p;
      assert AllAwait(later, first + k, queue[k].port) && Awaits(later, first + k, i);
      var j :| 0 <= j < |later| && later[j].parent == Some(first + k) && later[j].index == i;
      BehindAt(level, first, queue, |level| + j);
      CompiledWritable(level, first, queue, |level| + j, p.children);
    }
  }

  /** All levels compile exactly when every port of the forest does. */
  lemma QueueCompilesIff(ports: seq<Port>, first: nat)
    ensures AllCompile(Queue(Below(ports, None, ""), first)) <==> Writable(ports)
  {
    var level := Below(ports, None, "");
    var queue := Queue(level, first);
    QueueIsComplete(level, first);
    if AllCompile(queue) {
      forall p | p in ports ensures Compile(p.requires_).Ok? && Writable(p.children) {
        var i :| 0 <= i < |ports| && ports[i] == p;
        assert queue[i] == level[i];
        CompiledWritable(level, first, queue, i, p.children);
      }
    } else if Writable(ports) {
      forall j | 0 <= j < |queue| ensures Compile(queue[j].port.requires_).Ok? {
        QueuedWritable(level, first, queue, j);
      }
    }
  }

  // ---------------------------------------------------------------- the rows represent the forest

  ghost predicate IsRowOf(r: Row, owner: nat, queue: seq<Pending>, first: nat) {
    exists k :: 0 <= k < |queue| && IsRow(r, owner, queue[k], first + k)
  }

  predicate IsRow(r: Row, owner: nat, p: Pending, id: nat) {
    Compile(p.port.requires_).Ok? && r == RowFor(owner, p, id)
  }

  /** The table holds the queue's rows, and no others below them or at the owner's root. */
  ghost predicate Holds(table: seq<Row>, owner: nat, queue: seq<Pending>, first: nat) {
    && AllCompile(queue)
    && (forall k :: 0 <= k < |queue| ==> RowFor(owner, queue[k], first + k) in table)
    && (forall r :: r in table && (if r.parent.Some? then r.parent.value >= first else r.owner == owner) ==> IsRowOf(r, owner, queue, first))
  }

  lemma ChildStored(table: seq<Row>, owner: nat, level: seq<Pending>, queue: seq<Pending>, first: nat, k: nat, i: nat)
    requires Holds(table, owner, queue, first) && Complete(level, first, queue)
    requires k < |queue| && i < |queue[k].port.children|
    ensures HasChild(table, owner, Some(first + k), i)
  {
    var later := queue[|level|..];
    assert AllAwait(later, first + k, queue[k].port);
    assert Awaits(later, first + k, i);
    var j :| 0 <= j < |later| && later[j].parent == Some(first + k) && later[j].index == i;
    assert later[j] == queue[|level| + j];
    assert Under(RowFor(owner, queue[|level| + j], first + (|level| + j)), owner, Some(first + k));
  }

  /** A row below the queue's rows is that of a queued child of its parent's port. */
  lemma RowBelow(table: seq<Row>, owner: nat, level: seq<Pending>, queue: seq<Pending>, first: nat, r: Row) returns (j: nat)
    requires Holds(table, owner, queue, first) && Complete(level, first, queue)
    requires forall k :: 0 <= k < |level| ==> level[k].parent.None?
    requires r in table && r.parent.Some? && r.parent.value >= first
    ensures |level| <= j < |queue| && IsRow(r, owner, queue[j], first + j) && ChildOf(queue, first, queue[j])
  {
    assert IsRowOf(r, owner, queue, first);
    j :| 0 <= j < |queue| && IsRow(r, owner, queue[j], first + j);
    if j >= |level| { BehindAt(level, first, queue, j); }
  }

  /** The queue has no two ports at one position below one row. */
  lemma QueuedOnce(level: seq<Pending>, queue: seq<Pending>, first: nat, j: nat, l: nat)
    requires Complete(level, first, queue) && |level| <= j < |queue| && |level| <= l < |queue|
    requires queue[j].parent == queue[l].parent && queue[j].index == queue[l].index
    ensures j == l
  {
    var later := queue[|level|..];
    assert later[j - |level|] == queue[j] && later[l - |level|] == queue[l];
  }

  lemma RowBelowUnique(table: seq<Row>, owner: nat, level: seq<Pending>, queue: seq<Pending>, first: nat, r: Row, q: Row)
    requires Holds(table, owner, queue, first) && Complete(level, first, queue)
    requires forall k :: 0 <= k < |level| ==> level[k].parent.None?
    requires r in table && q in table && r.parent == q.parent && r.index == q.index && r.parent.Some? && r.parent.value >= first
    ensures r == q
  {
    var j := RowBelow(table, owner, level, queue, first, r);
    var l := RowBelow(table, owner, level, queue, first, q);
    QueuedOnce(level, queue, first, j, l);
  }

  lemma ChildRow(owner: nat, queue: seq<Pending>, first: nat, k: nat, j: nat, r: Row)
    requires j < |queue| && k < |queue| && IsRow(r, owner, queue[j], first + j) && ChildOf(queue, first, queue[j]) && r.parent == Some(first + k)
    ensures r.index < |queue[k].port.children| && Describes(r, queue[k].port.children[r.index], Dotted(queue[k].path, queue[k].port.key))
    ensures r.id == first + j && queue[j].port == queue[k].port.children[r.index]
    ensures r.keyPath == Dotted(queue[j].path, queue[j].port.key)
  {}

  lemma RowBelowDescribes(table: seq<Row>, owner: nat, level: seq<Pending>, queue: seq<Pending>, first: nat, k: nat, r: Row) returns (j: nat)
    requires Holds(table, owner, queue, first) && Complete(level, first, queue)
    requires forall i :: 0 <= i < |level| ==> level[i].parent.None?
    requires r in table && r.parent == Some(first + k) && k < |queue|
    ensures r.index < |queue[k].port.children| && Describes(r, queue[k].port.children[r.index], Dotted(queue[k].path, queue[k].port.key))
    ensures j < |queue| && r.id == first + j && queue[j].port == queue[k].port.children[r.index]
    ensures r.keyPath == Dotted(queue[j].path, queue[j].port.key)
  {
    j := RowBelow(table, owner, level, queue, first, r);
    ChildRow(owner, queue, first, k, j, r);
  }

  lemma BelowHoldsLevel(table: seq<Row>, owner: nat, level: seq<Pending>, queue: seq<Pending>, first: nat, k: nat)
    requires Holds(table, owner, queue, first) && Complete(level, first, queue)
    requires forall i :: 0 <= i < |level| ==> level[i].parent.None?
    requires k < |queue|
    ensures HoldsLevel(table, owner, Some(first + k), Dotted(queue[k].path, queue[k].port.key), queue[k].port.children)
  {
    var up, children := Some(first + k), queue[k].port.children;
    forall i | 0 <= i < |children| ensures HasChild(table, owner, up, i) {
      ChildStored(table, owner, level, queue, first, k, i);
    }
    forall r, q | r in table && q in table && Under(r, owner, up) && Under(q, owner, up) && r.index == q.index ensures r == q {
      RowBelowUnique(table, owner, level, queue, first, r, q);
    }
    forall r | r in table && Under(r, owner, up)
      ensures r.index < |children| && Describes(r, children[r.index], Dotted(queue[k].path, queue[k].port.key))
    {
      var j := RowBelowDescribes(table, owner, level, queue, first, k, r);
    }
  }

  /** Below the row of each queued port, the table holds exactly that port's tree. */
  lemma {:induction false} BelowRepresented(table: seq<Row>, owner: nat, level: seq<Pending>, queue: seq<Pending>, first: nat,
                                            k: nat, id: nat, path: string, children: seq<Port>)
    requires Holds(table, owner, queue, first) && Complete(level, first, queue)
    requires forall i :: 0 <= i < |level| ==> level[i].parent.None?
    requires k < |queue| && id == first + k && path == Dotted(queue[k].path, queue[k].port.key) && children == queue[k].port.children
    ensures Represents(table, owner, Some(id), path, children)
    decreases children
  {
    BelowHoldsLevel(table, owner, level, queue, first, k);
    forall r | r in table && Under(r, owner, Some(id))
      ensures Represents(table, owner, Some(r.id), r.keyPath, children[r.index].children)
    {
      var j := RowBelowDescribes(table, owner, level, queue, first, k, r);
      BelowRepresented(table, owner, level, queue, first, j, r.id, r.keyPath, children[r.index].children);
    }
  }

  lemma RootRow(table: seq<Row>, owner: nat, level: seq<Pending>, queue: seq<Pending>, first: nat, r: Row) returns (k: nat)
    requires Holds(table, owner, queue, first) && Complete(level, first, queue)
    requires r in table && r.parent.None? && r.owner == owner
    ensures k < |level| && IsRow(r, owner, level[k], first + k) && queue[k] == level[k]
  {
    assert IsRowOf(r, owner, queue, first);
    k :| 0 <= k < |queue| && IsRow(r, owner, queue[k], first + k);
    if k >= |level| { BehindAt(level, first, queue, k); }
  }

  lemma RootsHoldLevel(table: seq<Row>, owner: nat, ports: seq<Port>, queue: seq<Pending>, first: nat)
    requires Holds(table, owner, queue, first) && Complete(Below(ports, None, ""), first, queue)
    ensures HoldsLevel(table, owner, None, "", ports)
  {
    var level := Below(ports, None, "");
    forall i | 0 <= i < |ports| ensures HasChild(table, owner, None, i) {
      assert level[i] == queue[i];
      assert Under(RowFor(owner, queue[i], first + i), owner, None);
    }
    forall r | r in table && Under(r, owner, None)
      ensures r.index < |ports| && IsRow(r, owner, level[r.index], first + r.index)
    {
      var k := RootRow(table, owner, level, queue, first, r);
    }
  }

  /** The rows written for `ports`, in a table without other rows below them or at the owner's
      root, represent exactly `ports`: the flattening loses nothing and adds nothing. */
  lemma FlatteningRepresents(table: seq<Row>, owner: nat, ports: seq<Port>, first: nat)
    requires Holds(table, owner, Queue(Below(ports, None, ""), first), first)
    ensures Represents(table, owner, None, "", ports)
  {
    var level := Below(ports, None, "");
    var queue := Queue(level, first);
    QueueIsComplete(level, first);
    RootsHoldLevel(table, owner, ports, queue, first);
    forall r | r in table && Under(r, owner, None)
      ensures Represents(table, owner, Some(r.id), r.keyPath, ports[r.index].children)
    {
      var k := RootRow(table, owner, level, queue, first, r);
      BelowRepresented(table, owner, level, queue, first, k, r.id, r.keyPath, ports[r.index].children);
    }
  }

  // ---------------------------------------------------------------- paths

  /** The keys with a dot between each two. */
  function DotJoin(keys: seq<string>): string {
    if keys == [] then "" else if |keys| == 1 then keys[0] else DotJoin(keys[..|keys| - 1]) + "." + keys[|keys| - 1]
  }

  /** Without the empty keys it begins with. */
  function Named(keys: seq<string>): seq<string> {
    if keys != [] && keys[0] == "" then Named(keys[1..]) else keys
  }

  /** Positions of ports one below another. */
  predicate IsTrail(ports: seq<Port>, trail: seq<nat>) {
    trail == [] || (trail[0] < |ports| && IsTrail(ports[trail[0]].children, trail[1..]))
  }

  function KeysOn(ports: seq<Port>, trail: seq<nat>): seq<string>
    requires IsTrail(ports, trail)
  {
    if trail == [] then [] else [ports[trail[0]].key] + KeysOn(ports[trail[0]].children, trail[1..])
  }

  /** Going down from `parent`, by those positions, one comes to the row. */
  ghost predicate LeadsTo(table: seq<Row>, owner: nat, parent: Option<nat>, trail: seq<nat>, r: Row)
    decreases |trail|
  {
    if trail == [] then false
    else if |trail| == 1 then r in table && Under(r, owner, parent) && r.index == trail[0]
    else exists q :: q in table && Under(q, owner, parent) && q.index == trail[0] && LeadsTo(table, owner, Some(q.id), trail[1..], r)
  }

  lemma {:induction false} NamedMore(keys: seq<string>, key: string)
    ensures Named(keys) == [] ==> Named(keys + [key]) == Named([key])
    ensures Named(keys) != [] ==> Named(keys + [key]) == Named(keys) + [key] && Named(keys)[0] != ""
  {
    if keys == [] {
      assert keys + [key] == [key];
    } else if keys[0] == "" {
      assert (keys + [key])[1..] == keys[1..] + [key];
      NamedMore(keys[1..], key);
    }
  }

  lemma {:induction false} DotJoinNotEmpty(keys: seq<string>)
    requires keys != [] && keys[0] != ""
    ensures DotJoin(keys) != ""
  {
    if |keys| > 1 { DotJoinNotEmpty(keys[..|keys| - 1]); }
  }

  lemma DottedJoins(keys: seq<string>, key: string)
    ensures Dotted(DotJoin(Named(keys)), key) == DotJoin(Named(keys + [key]))
  {
    NamedMore(keys, key);
    if Named(keys) != [] {
      DotJoinNotEmpty(Named(keys));
      assert (Named(keys) + [key])[..|Named(keys)|] == Named(keys);
    } else if key == "" {
      assert Named([key]) == Named([]) == [];
    }
  }

  /** A row's path is the keys from its root down to it with dots between, without the empty ones they begin with. */
  lemma {:induction false} PathsAreKeys(table: seq<Row>, owner: nat, parent: Option<nat>, above: seq<string>, ports: seq<Port>, trail: seq<nat>, r: Row)
    requires Represents(table, owner, parent, DotJoin(Named(above)), ports) && LeadsTo(table, owner, parent, trail, r)
    ensures IsTrail(ports, trail) && r.keyPath == DotJoin(Named(above + KeysOn(ports, trail)))
    decreases |trail|
  {
    if |trail| == 1 {
      assert Describes(r, ports[r.index], DotJoin(Named(above)));
      DottedJoins(above, ports[r.index].key);
      assert KeysOn(ports, trail) == [ports[r.index].key];
    } else {
      var q :| q in table && Under(q, owner, parent) && q.index == trail[0] && LeadsTo(table, owner, Some(q.id), trail[1..], r);
      var p := ports[q.index];
      assert Describes(q, p, DotJoin(Named(above)));
      DottedJoins(above, p.key);
      PathsAreKeys(table, owner, Some(q.id), above + [p.key], p.children, trail[1..], r);
      assert above + [p.key] + KeysOn(p.children, trail[1..]) == above + KeysOn(ports, trail);
    }
  }

  // ---------------------------------------------------------------- rows determine their forest

  /** Equal but for how a port's `requires` are spelled: the rows keep only what they compile to. */
  ghost predicate SamePorts(a: seq<Port>, b: seq<Port>)
    decreases a
  {
    && |a| == |b|
    && forall i :: 0 <= i < |a| ==>
      && a[i].(requires_ := b[i].requires_, children := b[i].children) == b[i]
      && Compile(a[i].requires_) == Compile(b[i].requires_)
      && SamePorts(a[i].children, b[i].children)
  }

  lemma ChildStoredAt(table: seq<Row>, owner: nat, parent: Option<nat>, path: string, ports: seq<Port>, i: nat) returns (r: Row)
    requires HoldsLevel(table, owner, parent, path, ports) && i < |ports|
    ensures r in table && Under(r, owner, parent) && r.index == i
  {
    assert HasChild(table, owner, parent, i);
    r :| r in table && Under(r, owner, parent) && r.index == i;
  }

  lemma NotLonger(table: seq<Row>, owner: nat, parent: Option<nat>, path: string, a: seq<Port>, b: seq<Port>)
    requires HoldsLevel(table, owner, parent, path, a) && HoldsLevel(table, owner, parent, path, b)
    ensures |b| <= |a|
  {
    if |a| < |b| { var r := ChildStoredAt(table, owner, parent, path, b, |a|); }
  }

  /** Rows determine their forest. */
  lemma {:induction false} RowsRebuildForest(table: seq<Row>, owner: nat, parent: Option<nat>, path: string, a: seq<Port>, b: seq<Port>)
    requires Represents(table, owner, parent, path, a) && Represents(table, owner, parent, path, b)
    ensures SamePorts(a, b)
    decreases a
  {
    NotLonger(table, owner, parent, path, a, b);
    NotLonger(table, owner, parent, path, b, a);
    forall i | 0 <= i < |a|
      ensures a[i].(requires_ := b[i].requires_, children := b[i].children) == b[i]
      ensures Compile(a[i].requires_) == Compile(b[i].requires_) && SamePorts(a[i].children, b[i].children)
    {
      var r := ChildStoredAt(table, owner, parent, path, a, i);
      RowsRebuildForest(table, owner, Some(r.id), r.keyPath, a[i].children, b[i].children);
    }
  }

  // ---------------------------------------------------------------- the table

  lemma JoinCompiles(a: seq<Pending>, b: seq<Pending>)
    ensures AllCompile(a + b) <==> AllCompile(a) && AllCompile(b)
  {
    assert forall k :: 0 <= k < |a| ==> (a + b)[k] == a[k];
    assert forall k :: 0 <= k < |b| ==> (a + b)[|a| + k] == b[k];
  }

  function Others(rows: seq<Row>, owner: nat): seq<Row> {
    if rows == [] then []
    else Others(rows[..|rows| - 1], owner) + if rows[|rows| - 1].owner == owner then [] else [rows[|rows| - 1]]
  }

  lemma {:induction false} OthersAre(rows: seq<Row>, owner: nat)
    ensures forall r :: r in Others(rows, owner) <==> r in rows && r.owner != owner
  {
    if rows != [] {
      OthersAre(rows[..|rows| - 1], owner);
      assert rows == rows[..|rows| - 1] + [rows[|rows| - 1]];
    }
  }

  ghost predicate HasRow(rows: seq<Row>, id: nat, owner: nat) {
    exists q :: q in rows && q.id == id && q.owner == owner
  }

  predicate Precedes(rows: seq<Row>, i: nat, j: nat)
    requires i < |rows| && j < |rows|
  {
    rows[i].id < rows[j].id
  }

  ghost predicate Ascending(rows: seq<Row>) {
    forall i, j :: 0 <= i < j < |rows| ==> Precedes(rows, i, j)
  }

  /** Rows are in the order of their ids, all below `next`; a parent is there, before its children, and of
      the same owner. */
  ghost predicate WellKept(rows: seq<Row>, next: nat) {
    && Ascending(rows)
    && (forall r :: r in rows ==> r.id < next && (r.parent.Some? ==> r.parent.value < r.id && HasRow(rows, r.parent.value, r.owner)))
  }

  lemma InOrder(rows: seq<Row>, i: nat, j: nat)
    requires Ascending(rows) && i < j < |rows|
    ensures rows[i].id < rows[j].id
  {
    assert Precedes(rows, i, j);
  }

  lemma InitAscends(rows: seq<Row>, n: nat)
    requires Ascending(rows) && n <= |rows|
    ensures Ascending(rows[..n])
  {
    forall i, j | 0 <= i < j < n ensures Precedes(rows[..n], i, j) {
      InOrder(rows, i, j);
    }
  }

  lemma OneMoreAscends(rows: seq<Row>, r: Row)
    requires Ascending(rows) && forall q :: q in rows ==> q.id < r.id
    ensures Ascending(rows + [r])
  {
    var all := rows + [r];
    forall i, j | 0 <= i < j < |all| ensures Precedes(all, i, j) {
      if j < |rows| { InOrder(rows, i, j); } else { assert rows[i] in rows; }
    }
  }

  /** An id is one row's. */
  lemma SameRow(rows: seq<Row>, r: Row, q: Row)
    requires Ascending(rows) && r in rows && q in rows && r.id == q.id
    ensures r == q
  {
    var i :| 0 <= i < |rows| && rows[i] == r;
    var j :| 0 <= j < |rows| && rows[j] == q;
    if i < j { InOrder(rows, i, j); } else if j < i { InOrder(rows, j, i); }
  }

  lemma JoinRows(owner: nat, a: seq<Pending>, b: seq<Pending>, first: nat)
    requires AllCompile(a) && AllCompile(b)
    ensures AllCompile(a + b) && Rows(owner, a + b, first) == Rows(owner, a, first) + Rows(owner, b, first + |a|)
  {
    JoinCompiles(a, b);
  }

  /** What is written and what is still queued make up the whole. */
  ghost predicate Progress(whole: seq<Pending>, done: seq<Pending>, level: seq<Pending>, next: nat) {
    whole == done + Queue(level, next)
  }

  lemma QueueStart(level: seq<Pending>, next: nat)
    requires level != []
    ensures Queue(level, next) == level + Queue(NextLevel(level, next), next + |level|)
  {}

  lemma QueueUnfolds(level: seq<Pending>, next: nat, level': seq<Pending>, next': nat)
    requires level != [] && level' == NextLevel(level, next) && next' == next + |level|
    ensures Queue(level, next) == level + Queue(level', next')
  {
    QueueStart(level, next);
  }

  lemma Regroup(whole: seq<Pending>, done: seq<Pending>, level: seq<Pending>, rest: seq<Pending>, done': seq<Pending>)
    requires whole == done + (level + rest) && done' == done + level
    ensures whole == done' + rest
  {}

  lemma Progresses(whole: seq<Pending>, done: seq<Pending>, level: seq<Pending>, next: nat,
                   done': seq<Pending>, level': seq<Pending>, next': nat)
    requires Progress(whole, done, level, next) && level != []
    requires done' == done + level && level' == NextLevel(level, next) && next' == next + |level|
    ensures Progress(whole, done', level', next')
  {
    QueueUnfolds(level, next, level', next');
    Regroup(whole, done, level, Queue(level', next'), done');
  }

  lemma Stuck(whole: seq<Pending>, done: seq<Pending>, level: seq<Pending>, next: nat)
    requires Progress(whole, done, level, next) && !AllCompile(level)
    ensures !AllCompile(whole)
  {
    QueueUnfolds(level, next, NextLevel(level, next), next + |level|);
    JoinCompiles(level, Queue(NextLevel(level, next), next + |level|));
    JoinCompiles(done, Queue(level, next));
  }

  ghost predicate WrittenSoFar(rows: seq<Row>, before: seq<Row>, owner: nat, done: seq<Pending>, first: nat) {
    AllCompile(done) && rows == Others(before, owner) + Rows(owner, done, first)
  }

  lemma WriteLevel(rows: seq<Row>, before: seq<Row>, owner: nat, done: seq<Pending>, level: seq<Pending>, first: nat, next: nat)
    requires WrittenSoFar(rows, before, owner, done, first) && AllCompile(level) && next == first + |done|
    ensures WrittenSoFar(rows + Rows(owner, level, next), before, owner, done + level, first)
  {
    JoinRows(owner, done, level, first);
  }

  /** Between two levels: `done` is written, `level` is next. */
  ghost predicate Writing(rows: seq<Row>, before: seq<Row>, owner: nat, whole: seq<Pending>, done: seq<Pending>, level: seq<Pending>, first: nat, next: nat) {
    next == first + |done| && Progress(whole, done, level, next) && WrittenSoFar(rows, before, owner, done, first)
  }

  lemma WritesOn(rows: seq<Row>, before: seq<Row>, owner: nat, whole: seq<Pending>, done: seq<Pending>, level: seq<Pending>, first: nat, next: nat,
                 rows': seq<Row>, done': seq<Pending>, level': seq<Pending>, next': nat)
    requires Writing(rows, before, owner, whole, done, level, first, next) && level != [] && AllCompile(level)
    requires rows' == rows + Rows(owner, level, next) && done' == done + level
    requires level' == NextLevel(level, next) && next' == next + |level|
    ensures Writing(rows', before, owner, whole, done', level', first, next') && LevelSize(level') < LevelSize(level)
  {
    WriteLevel(rows, before, owner, done, level, first, next);
    Progresses(whole, done, level, next, done', level', next');
    NextLevelSize(level, next);
  }

  lemma WellKeptLater(rows: seq<Row>, first: nat, next: nat)
    requires WellKept(rows, first) && first <= next
    ensures WellKept(rows, next)
  {}

  lemma WrittenIsRowOf(owner: nat, queue: seq<Pending>, first: nat, r: Row)
    requires AllCompile(queue) && r in Rows(owner, queue, first)
    ensures IsRowOf(r, owner, queue, first)
  {
    var k :| 0 <= k < |queue| && Rows(owner, queue, first)[k] == r;
    assert IsRow(r, owner, queue[k], first + k);
  }

  lemma WrittenHolds(before: seq<Row>, owner: nat, queue: seq<Pending>, first: nat)
    requires WellKept(before, first) && AllCompile(queue)
    ensures Holds(Others(before, owner) + Rows(owner, queue, first), owner, queue, first)
  {
    var rows := Rows(owner, queue, first);
    OthersAre(before, owner);
    forall k | 0 <= k < |queue| ensures RowFor(owner, queue[k], first + k) in rows {
      assert rows[k] == RowFor(owner, queue[k], first + k);
    }
    forall r | r in rows ensures IsRowOf(r, owner, queue, first) {
      WrittenIsRowOf(owner, queue, first, r);
    }
  }

  lemma RowStored(owner: nat, queue: seq<Pending>, first: nat, k: nat)
    requires AllCompile(queue) && k < |queue|
    ensures HasRow(Rows(owner, queue, first), first + k, owner)
  {
    var r := Rows(owner, queue, first)[k];
    assert r.id == first + k && r.owner == owner;
  }

  lemma RowsAscend(owner: nat, queue: seq<Pending>, first: nat)
    requires AllCompile(queue)
    ensures Ascending(Rows(owner, queue, first))
  {}

  lemma WrittenRow(owner: nat, level: seq<Pending>, queue: seq<Pending>, first: nat, r: Row)
    requires AllCompile(queue) && Complete(level, first, queue) && r in Rows(owner, queue, first)
    requires forall k :: 0 <= k < |level| ==> level[k].parent.None?
    ensures r.owner == owner && first <= r.id < first + |queue|
    ensures r.parent.Some? ==> first <= r.parent.value < r.id && HasRow(Rows(owner, queue, first), r.parent.value, owner)
  {
    var k :| 0 <= k < |queue| && Rows(owner, queue, first)[k] == r;
    assert r == RowFor(owner, queue[k], first + k);
    if k >= |level| {
      BehindAt(level, first, queue, k);
      RowStored(owner, queue, first, r.parent.value - first);
    } else {
      assert queue[k] == level[k];
    }
  }

  lemma {:induction false} OthersAscend(rows: seq<Row>, owner: nat)
    requires Ascending(rows)
    ensures Ascending(Others(rows, owner))
    decreases |rows|
  {
    if rows != [] {
      var n := |rows| - 1;
      InitAscends(rows, n);
      OthersAscend(rows[..n], owner);
      OthersAre(rows[..n], owner);
      forall q | q in Others(rows[..n], owner) ensures q.id < rows[n].id {
        var j :| 0 <= j < n && rows[j] == q;
        InOrder(rows, j, n);
      }
      if rows[n].owner != owner {
        OneMoreAscends(Others(rows[..n], owner), rows[n]);
      } else {
        assert Others(rows, owner) == Others(rows[..n], owner);
      }
    }
  }

  lemma OthersAreKept(before: seq<Row>, owner: nat, first: nat)
    requires WellKept(before, first)
    ensures WellKept(Others(before, owner), first)
  {
    var others := Others(before, owner);
    OthersAre(before, owner);
    OthersAscend(before, owner);
    forall r | r in others && r.parent.Some? ensures HasRow(others, r.parent.value, r.owner) {
      var q :| q in before && q.id == r.parent.value && q.owner == r.owner;
      assert q in others;
    }
  }

  lemma KeptTogether(a: seq<Row>, b: seq<Row>, owner: nat, first: nat, next: nat)
    requires WellKept(a, first) && (forall r :: r in a ==> r.owner != owner) && first <= next && Ascending(b)
    requires forall r :: r in b ==> r.owner == owner && first <= r.id < next
    requires forall r :: r in b && r.parent.Some? ==> first <= r.parent.value < r.id && HasRow(b, r.parent.value, owner)
    ensures WellKept(a + b, next)
  {
    var rows := a + b;
    forall i, j | 0 <= i < j < |rows| ensures Precedes(rows, i, j) {
      if j < |a| {
        InOrder(a, i, j);
      } else if i >= |a| {
        InOrder(b, i - |a|, j - |a|);
      } else {
        assert a[i] in a && b[j - |a|] in b;
      }
    }
    forall r | r in rows && r.parent.Some? ensures r.parent.value < r.id && HasRow(rows, r.parent.value, r.owner) {
      if r in a {
        var q :| q in a && q.id == r.parent.value && q.owner == r.owner;
        assert q in rows;
      } else {
        var q :| q in b && q.id == r.parent.value && q.owner == r.owner;
        assert q in rows;
      }
    }
  }

  lemma WrittenIsWellKept(before: seq<Row>, owner: nat, level: seq<Pending>, queue: seq<Pending>, first: nat)
    requires WellKept(before, first) && AllCompile(queue) && Complete(level, first, queue)
    requires forall k :: 0 <= k < |level| ==> level[k].parent.None?
    ensures WellKept(Others(before, owner) + Rows(owner, queue, first), first + |queue|)
  {
    var rows := Rows(owner, queue, first);
    OthersAre(before, owner);
    OthersAreKept(before, owner, first);
    RowsAscend(owner, queue, first);
    forall r | r in rows
      ensures r.owner == owner && first <= r.id < first + |queue|
      ensures r.parent.Some? ==> first <= r.parent.value < r.id && HasRow(rows, r.parent.value, owner)
    {
      WrittenRow(owner, level, queue, first, r);
    }
    KeptTogether(Others(before, owner), rows, owner, first, first + |queue|);
  }

  lemma ParentsOwner(rows: seq<Row>, next: nat, r: Row, o: nat)
    requires WellKept(rows, next) && r in rows && r.parent.Some? && HasRow(rows, r.parent.value, o)
    ensures r.owner == o
  {
    var q :| q in rows && q.id == r.parent.value && q.owner == r.owner;
    var p :| p in rows && p.id == r.parent.value && p.owner == o;
    SameRow(rows, p, q);
  }

  lemma OtherOwnersStay(before: seq<Row>, owner: nat, level: seq<Pending>, queue: seq<Pending>, first: nat, o: nat, ps: seq<Port>)
    requires WellKept(before, first) && AllCompile(queue) && Complete(level, first, queue) && o != owner
    requires forall k :: 0 <= k < |level| ==> level[k].parent.None?
    requires Represents(before, o, None, "", ps)
    ensures Represents(Others(before, owner) + Rows(owner, queue, first), o, None, "", ps)
  {
    var rows := Rows(owner, queue, first);
    var inside := (id: nat) => HasRow(before, id, o);
    OthersAre(before, owner);
    forall r: Row | Under(r, o, None) || (r.parent.Some? && inside(r.parent.value))
      ensures (r in before <==> r in Others(before, owner) + rows) && (r in before ==> inside(r.id))
    {
      if r in rows { WrittenRow(owner, level, queue, first, r); }
      if r in before && r.parent.Some? { ParentsOwner(before, first, r, o); }
    }
    SameBelow(before, Others(before, owner) + rows, o, None, "", ps, inside);
  }

  /** The new rows are the owner's whole forest, once a port and parents first, and every other
      owner's rows stay what they were and mean what they meant. */
  ghost predicate WrittenFor(before: seq<Row>, owner: nat, ports: seq<Port>, first: nat, rows: seq<Row>) {
    var queue := Queue(Below(ports, None, ""), first);
    && AllCompile(queue) && rows == Others(before, owner) + Rows(owner, queue, first)
    && Represents(rows, owner, None, "", ports)
    && forall o, ps :: o != owner && Represents(before, o, None, "", ps) ==> Represents(rows, o, None, "", ps)
  }

  lemma Written(before: seq<Row>, owner: nat, ports: seq<Port>, first: nat, queue: seq<Pending>)
    requires WellKept(before, first) && queue == Queue(Below(ports, None, ""), first) && AllCompile(queue)
    ensures var rows := Others(before, owner) + Rows(owner, queue, first);
      WellKept(rows, first + |queue|) && WrittenFor(before, owner, ports, first, rows)
  {
    var level, rows := Below(ports, None, ""), Others(before, owner) + Rows(owner, queue, first);
    QueueIsComplete(level, first);
    WrittenHolds(before, owner, queue, first);
    FlatteningRepresents(rows, owner, ports, first);
    WrittenIsWellKept(before, owner, level, queue, first);
    forall o, ps | o != owner && Represents(before, o, None, "", ps) ensures Represents(rows, o, None, "", ps) {
      OtherOwnersStay(before, owner, level, queue, first, o, ps);
    }
  }

  /** The port rows of all bloks. */
  class PortTable {
    var rows: seq<Row>
    var next: nat

    constructor ()
      ensures WellKept(rows, next) && rows == []
    {
      rows, next := [], 0;
    }

    /** The loop over the levels: stops where a `requires` does not compile. */
    method WriteLevels(owner: nat, roots: seq<Pending>, ghost before: seq<Row>) returns (ok: bool)
      requires rows == Others(before, owner)
      modifies this
      ensures ok <==> AllCompile(Queue(roots, old(next)))
      ensures if ok then WrittenSoFar(rows, before, owner, Queue(roots, old(next)), old(next)) && next == old(next) + |Queue(roots, old(next))|
              else next >= old(next)
    {
      ghost var first, whole := next, Queue(roots, next);
      ghost var done: seq<Pending> := [];
      var level := roots;
      ok := AllCompile(level);
      while ok && level != []
        invariant Writing(rows, before, owner, whole, done, level, first, next)
        invariant ok <==> AllCompile(level)
        decreases ok, LevelSize(level), |level|
      {
        ghost var stored, written, was, at := rows, done, level, next;
        rows := rows + Rows(owner, level, next);
        done := done + level;
        level, next := NextLevel(level, next), next + |level|;
        WritesOn(stored, before, owner, whole, written, was, first, at, rows, done, level, next);
        ok := AllCompile(level);
      }
      if ok {
        assert done == whole;
      } else {
        Stuck(whole, done, level, next);
      }
    }

    /** sync_blok_arg_ports: delete the owner's rows and write the forest's level by level. A
        `requires` that does not compile raises, and the transaction takes everything back. */
    method Sync(owner: nat, ports: seq<Port>) returns (ok: bool)
      requires WellKept(rows, next)
      modifies this
      ensures WellKept(rows, next) && next >= old(next)
      ensures ok <==> Writable(ports)
      ensures if ok then WrittenFor(old(rows), owner, ports, old(next), rows) else rows == old(rows)
    {
      ghost var first := next;
      var before := rows;
      rows := Others(rows, owner);
      QueueCompilesIff(ports, first);
      ok := WriteLevels(owner, Below(ports, None, ""), before);
      if ok {
        Written(before, owner, ports, first, Queue(Below(ports, None, ""), first));
      } else {
        rows := before;
        WellKeptLater(before, first, next);
      }
    }
  }
}
