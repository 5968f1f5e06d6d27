/** A custom blok's history (facade/blok_revisions.py, commit_revision): revisions under a head, copied
    onto the blok's columns, dependency rows and port rows. */
module BlokRevisions {
  import opened Collections
  import opened Json
  import opened Dependencies
  import opened Ports
  import opened PortCopies

  /** What a revision holds; everything here is hashed. */
  datatype Content = Content(
    components: seq<Json>,
    context: string,
    vocab: int,
    moduleId: nat,
    dependencies: seq<Dependency>,
    args: seq<Port>,
    catalogs: seq<Json>,
    locals: seq<Json>,
    demo: map<string, Json>,
    queries: seq<Json>,
    subscriptions: seq<Json>)

  // ---------------------------------------------------------------- the hash

  datatype PartName = COMPONENTS | CONTEXT | VOCAB | CATALOGS | LOCALS | DEMO | QUERIES | SUBSCRIPTIONS | MODULE | DEPENDENCIES | ARGS

  datatype Part =
    | Items(items: seq<Json>)
    | Fields(fields: map<string, Json>)
    | Text(text: string)
    | Number(number: int)
    | Declared(dependencies: seq<Dependency>)
    | Ported(args: seq<Port>)

  function Unless(empty: bool, name: PartName, part: Part): map<PartName, Part> {
    if empty then map[] else map[name := part]
  }

  /** rendering_of: the tree, the context and the version always, the rest only when set. */
  function Rendering(c: Content): map<PartName, Part> {
    map[COMPONENTS := Items(c.components), CONTEXT := Text(c.context), VOCAB := Number(c.vocab)]
    + Unless(c.catalogs == [], CATALOGS, Items(c.catalogs))
    + Unless(c.locals == [], LOCALS, Items(c.locals))
    + Unless(c.demo == map[], DEMO, Fields(c.demo))
    + Unless(c.queries == [], QUERIES, Items(c.queries))
    + Unless(c.subscriptions == [], SUBSCRIPTIONS, Items(c.subscriptions))
  }

  /** BlokContent.hash, before it is digested: two digests are taken to be equal only for equal parts. */
  function Parts(c: Content): map<PartName, Part> {
    Rendering(c) + map[MODULE := Number(c.moduleId), DEPENDENCIES := Declared(c.dependencies)] + Unless(c.args == [], ARGS, Ported(c.args))
  }

  function ItemsAt(parts: map<PartName, Part>, name: PartName): seq<Json> {
    if name in parts && parts[name].Items? then parts[name].items else []
  }

  /** What the parts tell of the content. */
  function ReadParts(parts: map<PartName, Part>): Content {
    Content(
      ItemsAt(parts, COMPONENTS),
      if CONTEXT in parts && parts[CONTEXT].Text? then parts[CONTEXT].text else "",
      if VOCAB in parts && parts[VOCAB].Number? then parts[VOCAB].number else 0,
      if MODULE in parts && parts[MODULE].Number? && parts[MODULE].number >= 0 then parts[MODULE].number else 0,
      if DEPENDENCIES in parts && parts[DEPENDENCIES].Declared? then parts[DEPENDENCIES].dependencies else [],
      if ARGS in parts && parts[ARGS].Ported? then parts[ARGS].args else [],
      ItemsAt(parts, CATALOGS),
      ItemsAt(parts, LOCALS),
      if DEMO in parts && parts[DEMO].Fields? then parts[DEMO].fields else map[],
      ItemsAt(parts, QUERIES),
      ItemsAt(parts, SUBSCRIPTIONS))
  }

  lemma JoinAt(a: map<PartName, Part>, b: map<PartName, Part>, name: PartName)
    ensures At(a + b, name) == if name in b then Some(b[name]) else At(a, name)
  {}

  lemma UnlessAt(a: map<PartName, Part>, empty: bool, key: PartName, part: Part, name: PartName)
    ensures At(a + Unless(empty, key, part), name) == if name == key && !empty then Some(part) else At(a, name)
  {}

  /** The optional parts, in the order they are joined. */
  lemma RenderingAt(c: Content, name: PartName)
    ensures At(Rendering(c), name) ==
      match name
      case COMPONENTS => Some(Items(c.components))
      case CONTEXT => Some(Text(c.context))
      case VOCAB => Some(Number(c.vocab))
      case CATALOGS => if c.catalogs == [] then None else Some(Items(c.catalogs))
      case LOCALS => if c.locals == [] then None else Some(Items(c.locals))
      case DEMO => if c.demo == map[] then None else Some(Fields(c.demo))
      case QUERIES => if c.queries == [] then None else Some(Items(c.queries))
      case SUBSCRIPTIONS => if c.subscriptions == [] then None else Some(Items(c.subscriptions))
      case _ => None
  {
    var m0 := map[COMPONENTS := Items(c.components), CONTEXT := Text(c.context), VOCAB := Number(c.vocab)];
    var m1 := m0 + Unless(c.catalogs == [], CATALOGS, Items(c.catalogs));
    var m2 := m1 + Unless(c.locals == [], LOCALS, Items(c.locals));
    var m3 := m2 + Unless(c.demo == map[], DEMO, Fields(c.demo));
    var m4 := m3 + Unless(c.queries == [], QUERIES, Items(c.queries));
    UnlessAt(m0, c.catalogs == [], CATALOGS, Items(c.catalogs), name);
    UnlessAt(m1, c.locals == [], LOCALS, Items(c.locals), name);
    UnlessAt(m2, c.demo == map[], DEMO, Fields(c.demo), name);
    UnlessAt(m3, c.queries == [], QUERIES, Items(c.queries), name);
    UnlessAt(m4, c.subscriptions == [], SUBSCRIPTIONS, Items(c.subscriptions), name);
  }

  lemma PartsAt(c: Content, name: PartName)
    ensures At(Parts(c), name) ==
      match name
      case MODULE => Some(Number(c.moduleId))
      case DEPENDENCIES => Some(Declared(c.dependencies))
      case ARGS => if c.args == [] then None else Some(Ported(c.args))
      case _ => At(Rendering(c), name)
  {
    var required := map[MODULE := Number(c.moduleId), DEPENDENCIES := Declared(c.dependencies)];
    RenderingAt(c, name);
    JoinAt(Rendering(c), required, name);
    JoinAt(Rendering(c) + required, Unless(c.args == [], ARGS, Ported(c.args)), name);
  }

  /** Leaving out what is empty loses nothing. */
  lemma PartsReadBack(c: Content)
    ensures ReadParts(Parts(c)) == c
  {
    var parts := Parts(c);
    ItemsReadBack(c);
    PartsAt(c, CONTEXT); RenderingAt(c, CONTEXT);
    PartsAt(c, VOCAB); RenderingAt(c, VOCAB);
    PartsAt(c, MODULE);
    PartsAt(c, DEPENDENCIES);
    PartsAt(c, ARGS);
    PartsAt(c, DEMO); RenderingAt(c, DEMO);
  }

  lemma ItemsReadBack(c: Content)
    ensures ItemsAt(Parts(c), COMPONENTS) == c.components && ItemsAt(Parts(c), CATALOGS) == c.catalogs
    ensures ItemsAt(Parts(c), LOCALS) == c.locals && ItemsAt(Parts(c), QUERIES) == c.queries
    ensures ItemsAt(Parts(c), SUBSCRIPTIONS) == c.subscriptions
  {
    PartsAt(c, COMPONENTS); RenderingAt(c, COMPONENTS);
    PartsAt(c, CATALOGS); RenderingAt(c, CATALOGS);
    PartsAt(c, LOCALS); RenderingAt(c, LOCALS);
    PartsAt(c, QUERIES); RenderingAt(c, QUERIES);
    PartsAt(c, SUBSCRIPTIONS); RenderingAt(c, SUBSCRIPTIONS);
  }

  lemma SameHashSameContent(a: Content, b: Content)
    ensures Parts(a) == Parts(b) <==> a == b
  {
    PartsReadBack(a);
    PartsReadBack(b);
  }

  // ---------------------------------------------------------------- the history

  /** A row of facade_blokrevision. */
  datatype Revision = Revision(
    id: nat,
    number: nat,
    parent: Option<nat>,
    content: Content,
    resolvedLocals: seq<Json>,
    hash: map<PartName, Part>)

  function LastId(revisions: seq<Revision>): Option<nat> {
    if revisions == [] then None else Some(revisions[|revisions| - 1].id)
  }

  ghost predicate IsRevision(revisions: seq<Revision>, i: nat, next: nat)
    requires i < |revisions|
  {
    && revisions[i].number == i + 1
    && revisions[i].parent == LastId(revisions[..i])
    && revisions[i].id < next && revisions[i].hash == Parts(revisions[i].content)
    && DistinctKeys(revisions[i].content.dependencies)
    && (i > 0 ==> revisions[i].content != revisions[i - 1].content && revisions[i].id > revisions[i - 1].id)
  }

  /** Numbered 1..n, each made from its predecessor and different from it. */
  ghost predicate History(revisions: seq<Revision>, next: nat) {
    forall i :: 0 <= i < |revisions| ==> IsRevision(revisions, i, next)
  }

  lemma HistoryGrows(revisions: seq<Revision>, next: nat, r: Revision)
    requires History(revisions, next) && r.id == next && r.number == |revisions| + 1 && r.parent == LastId(revisions)
    requires r.hash == Parts(r.content) && DistinctKeys(r.content.dependencies)
    requires revisions != [] ==> r.content != revisions[|revisions| - 1].content
    ensures History(revisions + [r], next + 1)
  {
    var revisions' := revisions + [r];
    var after := next + 1;
    forall i | 0 <= i < |revisions| ensures IsRevision(revisions', i, after) {
      assert IsRevision(revisions, i, next) && revisions'[..i] == revisions[..i];
    }
    assert revisions'[..|revisions|] == revisions;
    assert revisions != [] ==> IsRevision(revisions, |revisions| - 1, next);
  }

  /** Ids grow along the history: a revision's id tells its place. */
  lemma {:induction false} IdsGrow(revisions: seq<Revision>, next: nat, i: nat, j: nat)
    requires History(revisions, next) && i < j < |revisions|
    ensures revisions[i].id < revisions[j].id
    decreases j
  {
    assert IsRevision(revisions, j, next);
    if i < j - 1 { IdsGrow(revisions, next, i, j - 1); }
  }

  /** revisions.aggregate(Max("number")), 0 for none. */
  function MaxNumber(revisions: seq<Revision>): nat {
    if revisions == [] then 0
    else
      var n := |revisions| - 1;
      var first := MaxNumber(revisions[..n]);
      if revisions[n].number > first then revisions[n].number else first
  }

  lemma {:induction false} MaxNumberIs(revisions: seq<Revision>)
    ensures forall i :: 0 <= i < |revisions| ==> revisions[i].number <= MaxNumber(revisions)
    ensures if revisions == [] then MaxNumber(revisions) == 0
            else exists i :: 0 <= i < |revisions| && revisions[i].number == MaxNumber(revisions)
    decreases |revisions|
  {
    if revisions != [] {
      var n := |revisions| - 1;
      MaxNumberIs(revisions[..n]);
      assert forall i :: 0 <= i < n ==> revisions[..n][i] == revisions[i];
    }
  }

  lemma {:induction false} MaxNumberIsLength(revisions: seq<Revision>, next: nat)
    requires History(revisions, next)
    ensures MaxNumber(revisions) == |revisions|
    decreases |revisions|
  {
    if revisions != [] {
      var n := |revisions| - 1;
      assert IsRevision(revisions, n, next);
      forall i | 0 <= i < n ensures IsRevision(revisions[..n], i, next) {
        assert IsRevision(revisions, i, next) && revisions[..n][..i] == revisions[..i];
      }
      MaxNumberIsLength(revisions[..n], next);
    }
  }

  /** The vocabulary as it is at a write: a tree's locals resolved, and its findings; None where an
      error refuses it. */
  datatype Vocabulary = Vocabulary(resolve: Content -> seq<Json>, check: Content -> Option<seq<Json>>)

  /** _diagnostics: nothing to check without a tree. */
  function Findings(v: Vocabulary, c: Content): Option<seq<Json>> {
    if c.components == [] then Some([]) else v.check(c)
  }

  datatype Outcome = Committed(id: nat) | Unchanged(id: nat) | Stale | Provided | Refused

  /** A blok: its row, its revisions, its dependency rows, and its part of the port table. */
  class Blok {
    const id: nat
    const provided: bool
    const ports: PortTable
    const dependencies: DependencyTable
    var revisions: seq<Revision>
    var nextRevision: nat
    var head: Option<nat>
    var content: Content
    var resolvedLocals: seq<Json>
    var diagnostics: seq<Json>

    /** The head is the last revision, and the columns are its content. */
    ghost predicate HeadShown()
      reads this
    {
      && History(revisions, nextRevision) && head == LastId(revisions)
      && (revisions != [] ==> content == revisions[|revisions| - 1].content)
    }

    /** The dependency rows and the port rows are those of a content. */
    ghost predicate RowsShow(c: Content)
      reads ports, dependencies
    {
      && Projects(dependencies.rows, c.dependencies)
      && Represents(ports.rows, id, None, "", c.args)
    }

    ghost predicate RowsKept()
      reads ports, dependencies
    {
      dependencies.Valid() && WellKept(ports.rows, ports.next)
    }

    /** What is written always shows the head; a blok without revisions has its args' port rows. */
    ghost predicate Valid()
      reads this, ports, dependencies
    {
      && HeadShown() && RowsKept()
      && (if revisions != [] then RowsShow(content) else Represents(ports.rows, id, None, "", content.args))
    }

    twostate predicate RowsUntouched()
      reads ports, dependencies
    {
      dependencies.rows == old(dependencies.rows) && dependencies.mappings == old(dependencies.mappings) && ports.rows == old(ports.rows)
    }

    /** Neither the head nor anything that shows it differs. */
    twostate predicate Untouched()
      reads this, ports, dependencies
    {
      revisions == old(revisions) && head == old(head) && content == old(content) && RowsUntouched()
    }

    /** Kept keys keep their row, mappings keep their agent, and other bloks their port rows' meaning. */
    twostate predicate OthersUntouched()
      reads ports, dependencies
    {
      && (forall k :: k in dependencies.rows && k in old(dependencies.rows) ==> dependencies.rows[k].id == old(dependencies.rows)[k].id)
      && SameBindings(old(dependencies.mappings), dependencies.mappings)
      && forall o, ps :: o != id && Represents(old(ports.rows), o, None, "", ps) ==> Represents(ports.rows, o, None, "", ps)
    }

    /** A blok row without revisions: created with no args, or a fork whose port rows were copied. */
    constructor (id: nat, provided: bool, ports: PortTable, content: Content)
      requires WellKept(ports.rows, ports.next) && Represents(ports.rows, id, None, "", content.args)
      ensures Valid() && fresh(dependencies) && this.ports == ports && this.id == id && this.provided == provided
      ensures revisions == [] && this.content == content
    {
      this.id, this.provided, this.ports, this.content := id, provided, ports, content;
      revisions, nextRevision, head, resolvedLocals, diagnostics := [], 0, None, [], [];
      dependencies := new DependencyTable();
    }

    /** The rows of a new head: the port rows only when the args differ, as a fork copied its provided
        blok's already. Where a port cannot be written the transaction takes everything back. */
    method WriteRows(c: Content) returns (written: bool)
      requires RowsKept() && DistinctKeys(c.dependencies) && Represents(ports.rows, id, None, "", content.args)
      modifies ports, dependencies
      ensures RowsKept() && OthersUntouched()
      ensures if written then RowsShow(c) else RowsUntouched()
      ensures written <==> c.args == content.args || Writable(c.args)
      ensures c.args == content.args ==> ports.rows == old(ports.rows)
    {
      written := true;
      if content.args != c.args {
        written := ports.Sync(id, c.args);
      }
      if written {
        dependencies.Sync(c.dependencies);
      }
    }

    /** The next revision, copied onto the blok. */
    method Land(c: Content, v: Vocabulary, findings: seq<Json>) returns (landed: nat)
      requires HeadShown() && DistinctKeys(c.dependencies) && (revisions != [] ==> c != content)
      modifies this
      ensures HeadShown() && head == Some(landed) && content == c
      ensures resolvedLocals == v.resolve(c) && diagnostics == findings
      ensures revisions == old(revisions) + [Revision(landed, |old(revisions)| + 1, old(head), c, v.resolve(c), Parts(c))]
    {
      MaxNumberIsLength(revisions, nextRevision);
      var revision := Revision(nextRevision, MaxNumber(revisions) + 1, head, c, v.resolve(c), Parts(c));
      HistoryGrows(revisions, nextRevision, revision);
      landed := revision.id;
      revisions := revisions + [revision];
      nextRevision := nextRevision + 1;
      head := Some(landed);
      content := c;
      resolvedLocals := revision.resolvedLocals;
      diagnostics := findings;
    }

    /** Whether the head's hash is the content's. */
    method IsHeads(c: Content) returns (same: bool)
      requires HeadShown()
      ensures same <==> revisions != [] && c == content
    {
      if revisions == [] {
        return false;
      }
      var last := revisions[|revisions| - 1];
      assert IsRevision(revisions, |revisions| - 1, nextRevision);
      SameHashSameContent(last.content, c);
      same := last.hash == Parts(c);
    }

    /** commit_revision, as one transaction. A guarded write lands only on the head it started from, so
        no revision is ever based on anything but its predecessor. */
    method Commit(c: Content, base: Option<nat>, guarded: bool, v: Vocabulary) returns (r: Outcome)
      requires Valid() && DistinctKeys(c.dependencies)
      modifies this, ports, dependencies
      ensures Valid() && OthersUntouched()
      ensures (r.Provided? <==> provided) && (r.Stale? <==> !provided && guarded && base != old(head))
      ensures r.Provided? || r.Stale? || r.Refused? ==> Untouched()
      ensures r.Unchanged? ==> Untouched() && old(head) == Some(r.id)
      ensures r.Unchanged? <==>
        !r.Provided? && !r.Stale? && (c.components == [] || v.check(c).Some?) && old(revisions) != [] && c == old(content)
      ensures r.Committed? ==> (old(revisions) != [] ==> c != old(content)) && content == c && head == Some(r.id)
      ensures r.Committed? ==>
        revisions == old(revisions) + [Revision(r.id, |old(revisions)| + 1, old(head), c, v.resolve(c), Parts(c))]
      ensures r.Committed? || r.Unchanged? ==>
        resolvedLocals == v.resolve(c) && if c.components == [] then diagnostics == [] else Some(diagnostics) == v.check(c)
      ensures r.Committed? && c.args == old(content).args ==> ports.rows == old(ports.rows)
      ensures r.Refused? <==>
        (&& !r.Provided? && !r.Stale? && !r.Unchanged?
         && ((c.components != [] && v.check(c).None?) || (c.args != old(content).args && !Writable(c.args))))
    {
      if provided {
        return Provided;
      }
      if guarded && base != head {
        return Stale;
      }
      var found := Findings(v, c);
      if found.None? {
        return Refused;
      }
      var same := IsHeads(c);
      if same {
        diagnostics, resolvedLocals := found.value, v.resolve(c);
        return Unchanged(head.value);
      }
      var written := WriteRows(c);
      if !written {
        return Refused;
      }
      var landed := Land(c, v, found.value);
      r := Committed(landed);
    }

    /** revert_blok: an earlier revision's content again, as a new revision on top of `base`. */
    method Revert(to: nat, base: nat, v: Vocabulary) returns (r: Outcome)
      requires Valid() && to < |revisions|
      modifies this, ports, dependencies
      ensures Valid() && OthersUntouched() && old(revisions) <= revisions
      ensures r.Committed? || r.Unchanged? ==> old(head) == Some(base) && content == old(revisions)[to].content && RowsShow(content)
      ensures r.Provided? || r.Stale? || r.Refused? ==> Untouched()
    {
      assert IsRevision(revisions, to, nextRevision);
      r := Commit(revisions[to].content, Some(base), true, v);
    }
  }

  /** What a fork's row is created with, before its first revision. */
  function Bare(c: Content): Content {
    Content([], c.context, c.vocab, c.moduleId, [], c.args, [], [], map[], [], [])
  }

  /** The fork's row, with the provided blok's port rows copied to it. */
  method CopyBlok(from: Blok, id: nat) returns (fork: Blok)
    requires from.Valid() && id != from.id && NoneOf(from.ports.rows, id)
    modifies from.ports
    ensures from.Valid() && fresh(fork) && fresh(fork.dependencies) && fork.Valid()
    ensures fork.id == id && !fork.provided && fork.ports == from.ports && fork.content == Bare(from.content)
    ensures fork.revisions == [] && fork.head.None? && old(from.ports.rows) <= from.ports.rows
  {
    CopyRows(from.ports, from.id, id);
    fork := new Blok(id, false, from.ports, Bare(from.content));
  }

  /** _fork: a custom blok whose first revision is the provided content. Its port rows are copied, never
      rewritten, and show its args; the provided blok stays as it was. Refused just where the content has
      errors, and then nothing is left of it. */
  method Fork(from: Blok, id: nat, v: Vocabulary) returns (fork: Blok, r: Outcome)
    requires from.Valid() && DistinctKeys(from.content.dependencies)
    requires id != from.id && NoneOf(from.ports.rows, id)
    modifies from.ports
    ensures from.Valid() && fresh(fork)
    ensures if from.content.components == [] || v.check(from.content).Some? then r.Committed?
            else r.Refused? && from.ports.rows == old(from.ports.rows)
    ensures r.Committed? ==> if from.content.components == [] then fork.diagnostics == [] else Some(fork.diagnostics) == v.check(from.content)
    ensures r.Committed? ==> fork.Valid() && fork.id == id && fork.ports == from.ports && fork.content == from.content
    ensures r.Committed? ==> |fork.revisions| == 1 && fork.RowsShow(from.content) && old(from.ports.rows) <= from.ports.rows
  {
    var before := from.ports.rows;
    fork := CopyBlok(from, id);
    r := fork.Commit(from.content, None, true, v);
    if r.Refused? {
      from.ports.rows := before;
    }
  }
}
