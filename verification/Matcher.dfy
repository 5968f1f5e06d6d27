/** The demand matcher (facade/managers.py): one port match compiled to a correlated EXISTS, and what
    the EXISTS means on the port rows of a forest. */
module Matcher {
  import opened Collections
  import opened Json
  import opened Logic3
  import opened Keys
  import Descriptors
  import Fits
  import opened Ports

  // ---------------------------------------------------------------- demands

  /** A match of a port (PortMatchInput): what is given must hold; `descriptors` describe an object. */
  datatype Match = Match(
    at: Option<int>,
    key: Option<string>,
    kind: Option<string>,
    identifier: Option<string>,
    dimension: Option<string>,
    nullable: Option<bool>,
    descriptors: seq<(string, Json)>,
    children: seq<Match>)

  /** The candidate object: of duplicate keys the last wins. */
  function Candidate(ds: seq<(string, Json)>): map<string, Json> {
    if ds == [] then map[] else Candidate(ds[..|ds| - 1])[ds[|ds| - 1].0 := ds[|ds| - 1].1]
  }

  /** It has a descriptor's value under its key, unless a later one has the same key, and nothing else. */
  lemma {:induction false} CandidateIs(ds: seq<(string, Json)>, i: nat)
    requires i < |ds| && forall j :: i < j < |ds| ==> ds[j].0 != ds[i].0
    ensures At(Candidate(ds), ds[i].0) == Some(ds[i].1)
    ensures forall key :: key in Candidate(ds) <==> exists j :: 0 <= j < |ds| && ds[j].0 == key
    decreases |ds|
  {
    CandidateKeys(ds);
    if i < |ds| - 1 { CandidateIs(ds[..|ds| - 1], i); }
  }

  lemma {:induction false} CandidateKeys(ds: seq<(string, Json)>)
    ensures forall key :: key in Candidate(ds) <==> exists j :: 0 <= j < |ds| && ds[j].0 == key
  {
    if ds != [] {
      var n := |ds| - 1;
      CandidateKeys(ds[..n]);
      assert forall j :: 0 <= j < n ==> ds[..n][j] == ds[j];
    }
  }

  /** The port's own constraints admit the object; a port without any admits every object. */
  predicate Admits(p: Port, o: map<string, Json>) {
    match Descriptors.Compile(p.requires_)
    case Ok(Some(path)) => Descriptors.PathMatch(o, path) == TRUE
    case _ => true
  }

  /** A port admits an object just when the object meets each of its `requires`. */
  lemma AdmitsIff(p: Port, o: map<string, Json>)
    requires Descriptors.AllComparable(p.requires_)
    ensures Admits(p, o) <==> forall d :: d in p.requires_ ==> Descriptors.Meets(o, d)
  {
    if p.requires_ != [] { Descriptors.CompiledMeans(p.requires_, o); }
  }

  /** Whether some implementation can handle an object on the port of that key. */
  type Able = (string, map<string, Json>) -> bool

  /** What one match asks of the port at position `at`; `able` is asked of root ports of an action's
      args only. */
  ghost predicate OwnSatisfied(m: Match, p: Port, at: nat, able: Option<Able>) {
    && (m.at.Some? ==> m.at.value == at)
    && (m.key.Some? ==> m.key.value == p.key)
    && (m.kind.Some? ==> m.kind.value == p.kind)
    && (m.identifier.Some? ==> p.identifier == m.identifier)
    && (m.dimension.Some? ==> p.dimension == m.dimension)
    && (m.nullable.Some? ==> m.nullable.value == p.nullable)
    && (m.descriptors != [] ==>
          Admits(p, Candidate(m.descriptors)) && (able.Some? ==> able.value(p.key, Candidate(m.descriptors))))
  }

  /** The port satisfies the match: itself, and for each child match some child port does. */
  ghost predicate Satisfies(m: Match, p: Port, at: nat, able: Option<Able>)
    decreases m, 0
  {
    && OwnSatisfied(m, p, at, able)
    && forall i :: 0 <= i < |m.children| ==> SomeSatisfies(m.children[i], p.children, None)
  }

  ghost predicate SomeSatisfies(m: Match, ports: seq<Port>, able: Option<Able>)
    decreases m, 1
  {
    exists j :: 0 <= j < |ports| && Satisfies(m, ports[j], j, able)
  }

  // ---------------------------------------------------------------- the SQL conditions

  datatype Column = Index | KeyName | Kind | Identifier | Dimension | Nullable

  datatype Param = Number(n: int) | Text(s: string) | Flag(b: bool) | Object(o: map<string, Json>) | Moment(t: int)

  datatype Sql =
    | OwnerIs(alias: string)
    | IsRoot(alias: string)
    | ParentIs(alias: string, parent: string)
    | ColumnIs(alias: string, column: Column, param: string)
    | FitsObject(alias: string, candidate: string, cutoff: string)
    | PathAdmits(alias: string, candidate: string)
    | Exists(table: string, alias: string, conditions: seq<Sql>)

  /** The rows of each port table, and the agents and implementations. */
  datatype Database = Database(ports: map<string, seq<Row>>, fleet: Fits.Fleet)

  function RowsOf(db: Database, table: string): seq<Row> {
    if table in db.ports then db.ports[table] else []
  }

  lemma RowsAreStored(db: Database, table: string, rows: seq<Row>)
    ensures RowsOf(db.(ports := db.ports[table := rows]), table) == rows
  {}

  /** A row's column; None is NULL. */
  function Read(r: Row, c: Column): Option<Param> {
    match c
    case Index => Some(Number(r.index))
    case KeyName => if r.key.Some? then Some(Text(r.key.value)) else None
    case Kind => if r.kind.Some? then Some(Text(r.kind.value)) else None
    case Identifier => if r.identifier.Some? then Some(Text(r.identifier.value)) else None
    case Dimension => if r.dimension.Some? then Some(Text(r.dimension.value)) else None
    case Nullable => Some(Flag(r.nullable))
  }

  /** `a = b` of SQL: unknown when either side is NULL. */
  function Equal(a: Option<Param>, b: Option<Param>): Truth {
    if a.Some? && b.Some? then Of(a.value == b.value) else UNKNOWN
  }

  function ObjectAt(params: map<string, Param>, key: string): Option<map<string, Json>> {
    if key in params && params[key].Object? then Some(params[key].o) else None
  }

  /** `compiled_jsonpath IS NULL OR jsonb_path_match(object, compiled_jsonpath, '{}', true)`. */
  function AdmitsRow(r: Row, o: Option<map<string, Json>>): Truth {
    Or(Of(r.jsonpath.None?), if r.jsonpath.Some? && o.Some? then Descriptors.PathMatch(o.value, r.jsonpath.value) else UNKNOWN)
  }

  /** A condition's value with the rows the aliases stand for; `owner` is the id of the outer row. */
  ghost function Eval(db: Database, owner: nat, env: map<string, Row>, params: map<string, Param>, c: Sql): Truth
    decreases c, 0
  {
    match c
    case OwnerIs(alias) => if alias in env then Of(env[alias].owner == owner) else UNKNOWN
    case IsRoot(alias) => if alias in env then Of(env[alias].parent.None?) else UNKNOWN
    case ParentIs(alias, parent) =>
      if alias in env && parent in env && env[alias].parent.Some? then Of(env[alias].parent.value == env[parent].id) else UNKNOWN
    case ColumnIs(alias, column, param) => if alias in env then Equal(Read(env[alias], column), At(params, param)) else UNKNOWN
    case FitsObject(alias, candidate, cutoff) =>
      if alias in env && ObjectAt(params, candidate).Some? && cutoff in params && params[cutoff].Moment? then
        Fits.Holds(db.fleet, env[alias].owner, env[alias].key, ObjectAt(params, candidate).value, params[cutoff].t)
      else UNKNOWN
    case PathAdmits(alias, candidate) => if alias in env then AdmitsRow(env[alias], ObjectAt(params, candidate)) else UNKNOWN
    case Exists(table, alias, conditions) =>
      Of(exists r :: r in RowsOf(db, table) && Where(db, owner, env[alias := r], params, conditions) == TRUE)
  }

  /** The conditions joined by AND. */
  ghost function Where(db: Database, owner: nat, env: map<string, Row>, params: map<string, Param>, cs: seq<Sql>): Truth
    decreases cs, |cs|
  {
    if cs == [] then TRUE else And(Where(db, owner, env, params, cs[..|cs| - 1]), Eval(db, owner, env, params, cs[|cs| - 1]))
  }

  // ---------------------------------------------------------------- the compiler

  function When(given: bool, c: Sql): seq<Sql> {
    if given then [c] else []
  }

  /** The alias and the parameter names of one match. */
  datatype Names = Names(alias: string, at: string, key: string, kind: string, identifier: string, dimension: string,
                         nullable: string, candidate: string, cutoff: string)

  function NamesAt(path: Path): Names
  {
    Names(Key("p", path), Key("at", path), Key("key", path), Key("kind", path), Key("ident", path), Key("dim", path),
          Key("null", path), Key("obj", path), Key("cutoff", path))
  }

  function Correlation(alias: string, parent: Option<string>): seq<Sql> {
    if parent.None? then [OwnerIs(alias), IsRoot(alias)] else [ParentIs(alias, parent.value)]
  }

  /** The conditions on the match's own row. */
  function Own(m: Match, n: Names, fits: bool): seq<Sql> {
    OwnColumns(m, n) + ObjectConditions(m, n, fits)
  }

  function ObjectConditions(m: Match, n: Names, fits: bool): seq<Sql> {
    When(m.descriptors != [] && fits, FitsObject(n.alias, n.candidate, n.cutoff))
    + When(m.descriptors != [], PathAdmits(n.alias, n.candidate))
  }

  function OwnColumns(m: Match, n: Names): seq<Sql> {
    PlaceColumns(m, n) + ShapeColumns(m, n)
  }

  function PlaceColumns(m: Match, n: Names): seq<Sql> {
    When(m.at.Some?, ColumnIs(n.alias, Index, n.at))
    + When(m.key.Some?, ColumnIs(n.alias, KeyName, n.key))
    + When(m.kind.Some?, ColumnIs(n.alias, Kind, n.kind))
  }

  function ShapeColumns(m: Match, n: Names): seq<Sql> {
    When(m.identifier.Some?, ColumnIs(n.alias, Identifier, n.identifier))
    + When(m.dimension.Some?, ColumnIs(n.alias, Dimension, n.dimension))
    + When(m.nullable.Some?, ColumnIs(n.alias, Nullable, n.nullable))
  }

  /** _build_match_exists; `fits` holds for a root match on an action's args. */
  function Compiled(m: Match, table: string, parent: Option<string>, path: Path, fits: bool): Sql
    decreases m, 1
  {
    var n := NamesAt(path);
    Exists(table, n.alias, Correlation(n.alias, parent) + Own(m, n, fits) + Children(m, table, path))
  }

  function Children(m: Match, table: string, path: Path): seq<Sql>
    decreases m, 0
  {
    seq(|m.children|, i requires 0 <= i < |m.children| => Compiled(m.children[i], table, Some(NamesAt(path).alias), Child(path, i), false))
  }

  /** The parameters hold the match's values under its names. */
  predicate OwnBound(params: map<string, Param>, m: Match, n: Names, fits: Option<int>) {
    && (m.at.Some? ==> At(params, n.at) == Some(Number(m.at.value)))
    && (m.key.Some? ==> At(params, n.key) == Some(Text(m.key.value)))
    && (m.kind.Some? ==> At(params, n.kind) == Some(Text(m.kind.value)))
    && (m.identifier.Some? ==> At(params, n.identifier) == Some(Text(m.identifier.value)))
    && (m.dimension.Some? ==> At(params, n.dimension) == Some(Text(m.dimension.value)))
    && (m.nullable.Some? ==> At(params, n.nullable) == Some(Flag(m.nullable.value)))
    && (m.descriptors != [] ==> At(params, n.candidate) == Some(Object(Candidate(m.descriptors))))
    && (m.descriptors != [] && fits.Some? ==> At(params, n.cutoff) == Some(Moment(fits.value)))
  }

  predicate Bound(params: map<string, Param>, m: Match, path: Path, fits: Option<int>)
    decreases m
  {
    OwnBound(params, m, NamesAt(path), fits) && forall i | 0 <= i < |m.children| :: Bound(params, m.children[i], Child(path, i), None)
  }

  // ---------------------------------------------------------------- what the compiled match means

  /** Conditions joined by AND hold just when each one does. */
  lemma {:induction false} WhereEach(db: Database, owner: nat, env: map<string, Row>, params: map<string, Param>, cs: seq<Sql>)
    ensures Where(db, owner, env, params, cs) == TRUE <==> forall c :: c in cs ==> Eval(db, owner, env, params, c) == TRUE
    decreases |cs|
  {
    if cs != [] {
      var n := |cs| - 1;
      WhereEach(db, owner, env, params, cs[..n]);
      if Where(db, owner, env, params, cs) == TRUE {
        forall c | c in cs ensures Eval(db, owner, env, params, c) == TRUE { assert c in cs[..n] || c == cs[n]; }
      } else if Where(db, owner, env, params, cs[..n]) == TRUE {
        assert cs[n] in cs;
      } else {
        var c :| c in cs[..n] && Eval(db, owner, env, params, c) != TRUE;
        assert c in cs;
      }
    }
  }

  /** What `able` is in a database, for an owner and a moment. */
  ghost function AbleIn(db: Database, owner: nat, fits: Option<int>): Option<Able> {
    if fits.None? then None
    else Some((key: string, o: map<string, Json>) => Fits.Holds(db.fleet, owner, Some(key), o, fits.value) == TRUE)
  }

  ghost predicate AllHold(db: Database, owner: nat, env: map<string, Row>, params: map<string, Param>, cs: seq<Sql>) {
    forall c :: c in cs ==> Eval(db, owner, env, params, c) == TRUE
  }

  /** The own conditions, as a set. */
  predicate IsOwn(m: Match, n: Names, fits: bool, c: Sql) {
    || IsOwnColumn(m, n, c)
    || (m.descriptors != [] && fits && c == FitsObject(n.alias, n.candidate, n.cutoff))
    || (m.descriptors != [] && c == PathAdmits(n.alias, n.candidate))
  }

  predicate IsOwnColumn(m: Match, n: Names, c: Sql) {
    c.ColumnIs? && c.alias == n.alias
    && match c.column
       case Index => m.at.Some? && c.param == n.at
       case KeyName => m.key.Some? && c.param == n.key
       case Kind => m.kind.Some? && c.param == n.kind
       case Identifier => m.identifier.Some? && c.param == n.identifier
       case Dimension => m.dimension.Some? && c.param == n.dimension
       case Nullable => m.nullable.Some? && c.param == n.nullable
  }

  lemma PlaceColumnsAre(m: Match, n: Names, c: Sql)
    ensures c in PlaceColumns(m, n) <==> IsOwnColumn(m, n, c) && c.column in [Index, KeyName, Kind]
  {
    InWhen(When(m.at.Some?, ColumnIs(n.alias, Index, n.at)), m.key.Some?, ColumnIs(n.alias, KeyName, n.key), c);
  }

  lemma ShapeColumnsAre(m: Match, n: Names, c: Sql)
    ensures c in ShapeColumns(m, n) <==> IsOwnColumn(m, n, c) && c.column in [Identifier, Dimension, Nullable]
  {
    var first := When(m.identifier.Some?, ColumnIs(n.alias, Identifier, n.identifier));
    InWhen(first, m.dimension.Some?, ColumnIs(n.alias, Dimension, n.dimension), c);
    InWhen(first + When(m.dimension.Some?, ColumnIs(n.alias, Dimension, n.dimension)), m.nullable.Some?, ColumnIs(n.alias, Nullable, n.nullable), c);
  }

  lemma OwnColumnsAre(m: Match, n: Names, c: Sql)
    ensures c in OwnColumns(m, n) <==> IsOwnColumn(m, n, c)
  {
    PlaceColumnsAre(m, n, c);
    ShapeColumnsAre(m, n, c);
    InJoin(PlaceColumns(m, n), ShapeColumns(m, n), c);
  }

  lemma InJoin(a: seq<Sql>, b: seq<Sql>, c: Sql)
    ensures c in a + b <==> c in a || c in b
  {}

  lemma InWhen(cs: seq<Sql>, given: bool, last: Sql, c: Sql)
    ensures c in cs + When(given, last) <==> c in cs || (given && c == last)
  {}

  lemma OwnAre(m: Match, n: Names, fits: bool, c: Sql)
    ensures c in Own(m, n, fits) <==> IsOwn(m, n, fits, c)
  {
    OwnColumnsAre(m, n, c);
    InJoin(OwnColumns(m, n), ObjectConditions(m, n, fits), c);
  }

  ghost predicate OwnHold(db: Database, owner: nat, env: map<string, Row>, params: map<string, Param>, m: Match, n: Names, fits: bool) {
    forall c :: IsOwn(m, n, fits, c) ==> Eval(db, owner, env, params, c) == TRUE
  }

  lemma ColumnMeans(db: Database, owner: nat, env: map<string, Row>, params: map<string, Param>, m: Match, n: Names, fits: bool,
                    column: Column, name: string, value: Param)
    requires OwnHold(db, owner, env, params, m, n, fits) && IsOwnColumn(m, n, ColumnIs(n.alias, column, name))
    requires n.alias in env && At(params, name) == Some(value)
    ensures Read(env[n.alias], column) == Some(value)
  {
    assert IsOwn(m, n, fits, ColumnIs(n.alias, column, name));
    assert Eval(db, owner, env, params, ColumnIs(n.alias, column, name)) == TRUE;
  }

  /** Where the own conditions hold, the row's port satisfies the match itself. */
  lemma HoldingOwnSatisfies(db: Database, owner: nat, env: map<string, Row>, params: map<string, Param>, m: Match, n: Names,
                            fits: Option<int>, p: Port, above: string)
    requires OwnBound(params, m, n, fits) && OwnHold(db, owner, env, params, m, n, fits.Some?)
    requires n.alias in env && Describes(env[n.alias], p, above) && (fits.Some? ==> env[n.alias].owner == owner)
    ensures OwnSatisfied(m, p, env[n.alias].index, AbleIn(db, owner, fits))
  {
    if m.at.Some? { ColumnMeans(db, owner, env, params, m, n, fits.Some?, Index, n.at, Number(m.at.value)); }
    if m.key.Some? { ColumnMeans(db, owner, env, params, m, n, fits.Some?, KeyName, n.key, Text(m.key.value)); }
    if m.kind.Some? { ColumnMeans(db, owner, env, params, m, n, fits.Some?, Kind, n.kind, Text(m.kind.value)); }
    if m.identifier.Some? { ColumnMeans(db, owner, env, params, m, n, fits.Some?, Identifier, n.identifier, Text(m.identifier.value)); }
    if m.dimension.Some? { ColumnMeans(db, owner, env, params, m, n, fits.Some?, Dimension, n.dimension, Text(m.dimension.value)); }
    if m.nullable.Some? { ColumnMeans(db, owner, env, params, m, n, fits.Some?, Nullable, n.nullable, Flag(m.nullable.value)); }
    if m.descriptors != [] { ObjectMeans(db, owner, env, params, m, n, fits, p, above); }
  }

  lemma ObjectMeans(db: Database, owner: nat, env: map<string, Row>, params: map<string, Param>, m: Match, n: Names,
                    fits: Option<int>, p: Port, above: string)
    requires OwnBound(params, m, n, fits) && OwnHold(db, owner, env, params, m, n, fits.Some?) && m.descriptors != []
    requires n.alias in env && Describes(env[n.alias], p, above) && (fits.Some? ==> env[n.alias].owner == owner)
    ensures Admits(p, Candidate(m.descriptors))
    ensures fits.Some? ==> AbleIn(db, owner, fits).value(p.key, Candidate(m.descriptors))
  {
    assert IsOwn(m, n, fits.Some?, PathAdmits(n.alias, n.candidate));
    assert fits.Some? ==> IsOwn(m, n, fits.Some?, FitsObject(n.alias, n.candidate, n.cutoff));
  }

  /** A port that satisfies the match itself makes the own conditions hold. */
  lemma SatisfiedOwnHolds(db: Database, owner: nat, env: map<string, Row>, params: map<string, Param>, m: Match, n: Names,
                          fits: Option<int>, p: Port, above: string, c: Sql)
    requires OwnBound(params, m, n, fits) && IsOwn(m, n, fits.Some?, c)
    requires n.alias in env && Describes(env[n.alias], p, above) && (fits.Some? ==> env[n.alias].owner == owner)
    requires OwnSatisfied(m, p, env[n.alias].index, AbleIn(db, owner, fits))
    ensures Eval(db, owner, env, params, c) == TRUE
  {
    if c.ColumnIs? {
      SatisfiedColumn(env[n.alias], params, m, n, fits, p, above, AbleIn(db, owner, fits), c);
    }
  }

  lemma SatisfiedColumn(r: Row, params: map<string, Param>, m: Match, n: Names, fits: Option<int>, p: Port, above: string, able: Option<Able>, c: Sql)
    requires OwnBound(params, m, n, fits) && IsOwnColumn(m, n, c) && Describes(r, p, above) && OwnSatisfied(m, p, r.index, able)
    ensures Equal(Read(r, c.column), At(params, c.param)) == TRUE
  {}

  lemma OwnMeans(db: Database, owner: nat, env: map<string, Row>, params: map<string, Param>, m: Match, n: Names,
                 fits: Option<int>, p: Port, above: string)
    requires OwnBound(params, m, n, fits)
    requires n.alias in env && Describes(env[n.alias], p, above) && (fits.Some? ==> env[n.alias].owner == owner)
    ensures OwnHold(db, owner, env, params, m, n, fits.Some?) <==> OwnSatisfied(m, p, env[n.alias].index, AbleIn(db, owner, fits))
  {
    if OwnHold(db, owner, env, params, m, n, fits.Some?) {
      HoldingOwnSatisfies(db, owner, env, params, m, n, fits, p, above);
    } else if OwnSatisfied(m, p, env[n.alias].index, AbleIn(db, owner, fits)) {
      forall c | IsOwn(m, n, fits.Some?, c) ensures Eval(db, owner, env, params, c) == TRUE {
        SatisfiedOwnHolds(db, owner, env, params, m, n, fits, p, above, c);
      }
    }
  }

  /** A row meets the correlation just when it is a child of the parent's row, or a root of the owner. */
  lemma CorrelationMeans(db: Database, owner: nat, env: map<string, Row>, params: map<string, Param>, alias: string, parent: Option<string>)
    requires alias in env && (parent.Some? ==> parent.value in env)
    ensures AllHold(db, owner, env, params, Correlation(alias, parent)) <==>
      Under(env[alias], owner, if parent.Some? then Some(env[parent.value].id) else None)
  {
    if parent.None? {
      assert OwnerIs(alias) in Correlation(alias, parent) && IsRoot(alias) in Correlation(alias, parent);
    } else {
      assert ParentIs(alias, parent.value) in Correlation(alias, parent);
    }
  }

  function ChildExists(m: Match, i: nat, table: string, path: Path): Sql
    requires i < |m.children|
  {
    Compiled(m.children[i], table, Some(NamesAt(path).alias), Child(path, i), false)
  }

  ghost predicate ChildrenHold(db: Database, owner: nat, env: map<string, Row>, params: map<string, Param>,
                               m: Match, table: string, path: Path)
  {
    forall i :: 0 <= i < |m.children| ==> Eval(db, owner, env, params, ChildExists(m, i, table, path)) == TRUE
  }

  /** The list is one condition a child. */
  ghost predicate ListsChildren(cs: seq<Sql>, m: Match, table: string, path: Path)
  {
    |cs| == |m.children| && forall i :: 0 <= i < |cs| ==> cs[i] == ChildExists(m, i, table, path)
  }

  lemma ChildrenListed(m: Match, table: string, path: Path)
    ensures ListsChildren(Children(m, table, path), m, table, path)
  {}

  lemma OneList(a: seq<Sql>, b: seq<Sql>, m: Match, table: string, path: Path)
    requires ListsChildren(a, m, table, path) && ListsChildren(b, m, table, path)
    ensures a == b
  {}

  lemma EachHolds(db: Database, owner: nat, env: map<string, Row>, params: map<string, Param>, cs: seq<Sql>)
    ensures AllHold(db, owner, env, params, cs) <==> forall i :: 0 <= i < |cs| ==> Eval(db, owner, env, params, cs[i]) == TRUE
  {}

  lemma ChildrenAre(db: Database, owner: nat, env: map<string, Row>, params: map<string, Param>, m: Match, table: string, path: Path, cs: seq<Sql>)
    requires ListsChildren(cs, m, table, path)
    ensures AllHold(db, owner, env, params, cs) <==> ChildrenHold(db, owner, env, params, m, table, path)
  {
    EachHolds(db, owner, env, params, cs);
  }

  lemma JoinHold(db: Database, owner: nat, env: map<string, Row>, params: map<string, Param>, a: seq<Sql>, b: seq<Sql>)
    ensures AllHold(db, owner, env, params, a + b) <==> AllHold(db, owner, env, params, a) && AllHold(db, owner, env, params, b)
  {
    assert forall d :: d in a ==> d in a + b;
    assert forall d :: d in b ==> d in a + b;
  }

  lemma OwnHoldIff(db: Database, owner: nat, env: map<string, Row>, params: map<string, Param>, m: Match, n: Names, fits: bool)
    ensures AllHold(db, owner, env, params, Own(m, n, fits)) <==> OwnHold(db, owner, env, params, m, n, fits)
  {
    forall c ensures c in Own(m, n, fits) <==> IsOwn(m, n, fits, c) {
      OwnAre(m, n, fits, c);
    }
  }

  /** The conditions of a compiled match, on one row. */
  function Conditions(m: Match, table: string, parent: Option<string>, path: Path, fits: bool): seq<Sql>
  {
    Correlation(NamesAt(path).alias, parent) + Own(m, NamesAt(path), fits) + Children(m, table, path)
  }

  lemma ConditionsMean(db: Database, owner: nat, env: map<string, Row>, params: map<string, Param>,
                       m: Match, table: string, parent: Option<string>, path: Path, fits: bool)
    ensures Where(db, owner, env, params, Conditions(m, table, parent, path, fits)) == TRUE <==>
      && AllHold(db, owner, env, params, Correlation(NamesAt(path).alias, parent))
      && OwnHold(db, owner, env, params, m, NamesAt(path), fits)
      && ChildrenHold(db, owner, env, params, m, table, path)
  {
    var n := NamesAt(path);
    var correlation, own, children := Correlation(n.alias, parent), Own(m, n, fits), Children(m, table, path);
    WhereEach(db, owner, env, params, correlation + own + children);
    JoinHold(db, owner, env, params, correlation + own, children);
    JoinHold(db, owner, env, params, correlation, own);
    OwnHoldIff(db, owner, env, params, m, n, fits);
    ChildrenListed(m, table, path);
    ChildrenAre(db, owner, env, params, m, table, path, children);
  }

  /** The row the match's own row must be below; None for the owner's roots. */
  function ParentId(env: map<string, Row>, parent: Option<string>): Option<nat>
    requires parent.Some? ==> parent.value in env
  {
    if parent.Some? then Some(env[parent.value].id) else None
  }

  lemma OtherAlias(path: Path, i: nat)
    ensures NamesAt(Child(path, i)).alias != NamesAt(path).alias
  {
    if Key("p", Child(path, i)) == Key("p", path) { SameKey("p", Child(path, i), "p", path); }
  }

  /** The row is below the parent, and its port satisfies the match. */
  ghost predicate RowSatisfies(r: Row, owner: nat, parent: Option<nat>, m: Match, ports: seq<Port>, able: Option<Able>) {
    Under(r, owner, parent) && r.index < |ports| && Satisfies(m, ports[r.index], r.index, able)
  }

  lemma {:induction false} ChildrenMean(db: Database, owner: nat, env: map<string, Row>, params: map<string, Param>, m: Match, table: string,
                                        path: Path, fits: Option<int>, r: Row, children: seq<Port>)
    requires Bound(params, m, path, fits)
    requires NamesAt(path).alias in env && env[NamesAt(path).alias] == r
    requires Represents(RowsOf(db, table), owner, Some(r.id), r.keyPath, children)
    ensures ChildrenHold(db, owner, env, params, m, table, path) <==>
      forall i :: 0 <= i < |m.children| ==> SomeSatisfies(m.children[i], children, None)
    decreases m, 0
  {
    forall i | 0 <= i < |m.children|
      ensures Eval(db, owner, env, params, ChildExists(m, i, table, path)) == Of(SomeSatisfies(m.children[i], children, None))
    {
      OtherAlias(path, i);
      MatchMeans(db, owner, env, params, m.children[i], table, Some(NamesAt(path).alias), Child(path, i), None, r.keyPath, children);
    }
  }

  lemma {:induction false} RowMeans(db: Database, owner: nat, env: map<string, Row>, params: map<string, Param>, m: Match, table: string,
                                    parent: Option<string>, path: Path, fits: Option<int>, above: string, ports: seq<Port>, r: Row)
    requires Bound(params, m, path, fits) && (fits.Some? ==> parent.None?)
    requires parent.Some? ==> parent.value in env && parent.value != NamesAt(path).alias
    requires Represents(RowsOf(db, table), owner, ParentId(env, parent), above, ports) && r in RowsOf(db, table)
    ensures Where(db, owner, env[NamesAt(path).alias := r], params, Conditions(m, table, parent, path, fits.Some?)) == TRUE <==>
      RowSatisfies(r, owner, ParentId(env, parent), m, ports, AbleIn(db, owner, fits))
    decreases m, 1
  {
    var n := NamesAt(path);
    var env' := env[n.alias := r];
    ConditionsMean(db, owner, env', params, m, table, parent, path, fits.Some?);
    CorrelationMeans(db, owner, env', params, n.alias, parent);
    if Under(r, owner, ParentId(env, parent)) {
      OwnMeans(db, owner, env', params, m, n, fits, ports[r.index], above);
      ChildrenMean(db, owner, env', params, m, table, path, fits, r, ports[r.index].children);
    }
  }

  lemma SomeRow(db: Database, owner: nat, env: map<string, Row>, params: map<string, Param>, table: string, alias: string, cs: seq<Sql>,
                parent: Option<nat>, above: string, m: Match, ports: seq<Port>, able: Option<Able>)
    requires HoldsLevel(RowsOf(db, table), owner, parent, above, ports)
    requires forall r :: r in RowsOf(db, table) ==>
      (Where(db, owner, env[alias := r], params, cs) == TRUE <==> RowSatisfies(r, owner, parent, m, ports, able))
    ensures Eval(db, owner, env, params, Exists(table, alias, cs)) == Of(SomeSatisfies(m, ports, able))
  {
    if SomeSatisfies(m, ports, able) {
      var j :| 0 <= j < |ports| && Satisfies(m, ports[j], j, able);
      var r := ChildStoredAt(RowsOf(db, table), owner, parent, above, ports, j);
      assert Where(db, owner, env[alias := r], params, cs) == TRUE;
    }
  }

  /** The compiled EXISTS, evaluated by SQL's three-valued logic on rows that represent a forest, holds
      just when some port of the forest satisfies the match, at every depth. */
  lemma {:induction false} MatchMeans(db: Database, owner: nat, env: map<string, Row>, params: map<string, Param>, m: Match, table: string,
                                      parent: Option<string>, path: Path, fits: Option<int>, above: string, ports: seq<Port>)
    requires Bound(params, m, path, fits) && (fits.Some? ==> parent.None?)
    requires parent.Some? ==> parent.value in env && parent.value != NamesAt(path).alias
    requires Represents(RowsOf(db, table), owner, ParentId(env, parent), above, ports)
    ensures Eval(db, owner, env, params, Compiled(m, table, parent, path, fits.Some?)) == Of(SomeSatisfies(m, ports, AbleIn(db, owner, fits)))
    decreases m, 2
  {
    var alias, able, up := NamesAt(path).alias, AbleIn(db, owner, fits), ParentId(env, parent);
    var cs := Conditions(m, table, parent, path, fits.Some?);
    forall r | r in RowsOf(db, table)
      ensures Where(db, owner, env[alias := r], params, cs) == TRUE <==> RowSatisfies(r, owner, up, m, ports, able)
    {
      RowMeans(db, owner, env, params, m, table, parent, path, fits, above, ports, r);
    }
    SomeRow(db, owner, env, params, table, alias, cs, up, above, m, ports, able);
  }
}
