/** One statement over actions or bloks (facade/managers.py): its clauses, its parameters, and the port
    matches in it. */
module Statements {
  import opened Collections
  import opened Json
  import opened Keys
  import opened Logic3
  import opened Matcher
  import opened Ports

  // ---------------------------------------------------------------- one match, built in place

  /** A root match on an object must also narrow the ports it looks at. */
  predicate Narrowed(m: Match) {
    m.descriptors == [] || m.at.Some? || m.key.Some? || m.kind.Some? || m.identifier.Some? || m.dimension.Some?
  }

  function Given(params: map<string, Param>, name: string, value: Option<Param>): map<string, Param> {
    if value.Some? then params[name := value.value] else params
  }

  function AsNumber(v: Option<int>): Option<Param> {
    if v.Some? then Some(Number(v.value)) else None
  }

  function AsText(v: Option<string>): Option<Param> {
    if v.Some? then Some(Text(v.value)) else None
  }

  function AsFlag(v: Option<bool>): Option<Param> {
    if v.Some? then Some(Flag(v.value)) else None
  }

  predicate Distinct(n: Names) {
    && n.at !in {n.key, n.kind, n.identifier, n.dimension, n.nullable, n.candidate, n.cutoff}
    && n.key !in {n.kind, n.identifier, n.dimension, n.nullable, n.candidate, n.cutoff}
    && n.kind !in {n.identifier, n.dimension, n.nullable, n.candidate, n.cutoff}
    && n.identifier !in {n.dimension, n.nullable, n.candidate, n.cutoff}
    && n.dimension !in {n.nullable, n.candidate, n.cutoff}
    && n.nullable !in {n.candidate, n.cutoff}
    && n.candidate != n.cutoff
  }

  const TAGS := {"at", "key", "kind", "ident", "dim", "null", "obj", "cutoff"}

  lemma TagsDiffer()
    ensures forall t :: t in TAGS ==> IsTag(t)
    ensures "at" !in {"key", "kind", "ident", "dim", "null", "obj", "cutoff"} && "key" !in {"kind", "ident", "dim", "null", "obj", "cutoff"}
    ensures "kind" !in {"ident", "dim", "null", "obj", "cutoff"} && "ident" !in {"dim", "null", "obj", "cutoff"}
    ensures "dim" !in {"null", "obj", "cutoff"} && "null" !in {"obj", "cutoff"} && "obj" != "cutoff"
  {
    assert "key"[0] != "obj"[0] && "dim"[0] != "obj"[0] && "key"[0] != "dim"[0] && "kind"[0] != "null"[0];
  }

  lemma KeysDiffer(path: Path)
    ensures forall t, u :: t in TAGS && u in TAGS && t != u ==> Key(t, path) != Key(u, path)
  {
    TagsDiffer();
    forall t, u | t in TAGS && u in TAGS && t != u ensures Key(t, path) != Key(u, path) {
      if Key(t, path) == Key(u, path) { SameKey(t, path, u, path); }
    }
  }

  lemma NamesDistinct(path: Path)
    ensures Distinct(NamesAt(path))
  {
    TagsDiffer();
    KeysDiffer(path);
    var at, key, kind, ident := Key("at", path), Key("key", path), Key("kind", path), Key("ident", path);
    var dim, nul, obj, cutoff := Key("dim", path), Key("null", path), Key("obj", path), Key("cutoff", path);
    assert at !in {key, kind, ident, dim, nul, obj, cutoff} && key !in {kind, ident, dim, nul, obj, cutoff};
    assert kind !in {ident, dim, nul, obj, cutoff} && ident !in {dim, nul, obj, cutoff};
    assert dim !in {nul, obj, cutoff} && nul !in {obj, cutoff} && obj != cutoff;
  }

  /** Only names below `path` changed. */
  ghost predicate OnlyBelow(params: map<string, Param>, params': map<string, Param>, path: Path)
  {
    forall k :: At(params', k) != At(params, k) ==> NameBelow(k, path)
  }

  /** A match's parameters are all under names below its position. */
  lemma {:induction false} BoundKept(params: map<string, Param>, params': map<string, Param>, m: Match, path: Path, fits: Option<int>)
    requires Bound(params, m, path, fits)
    requires forall k :: NameBelow(k, path) ==> At(params', k) == At(params, k)
    ensures Bound(params', m, path, fits)
    decreases m
  {
    OwnNamesBelow(path);
    forall i | 0 <= i < |m.children| ensures Bound(params', m.children[i], Child(path, i), None) {
      forall k | NameBelow(k, Child(path, i)) ensures At(params', k) == At(params, k) {
        BelowBelow(k, path, i);
      }
      BoundKept(params, params', m.children[i], Child(path, i), None);
    }
  }

  predicate IsOwnName(n: Names, k: string) {
    k in {n.at, n.key, n.kind, n.identifier, n.dimension, n.nullable, n.candidate, n.cutoff}
  }

  lemma OwnNamesBelow(path: Path)
    ensures forall k :: IsOwnName(NamesAt(path), k) ==> NameBelow(k, path)
  {
    TagsDiffer();
    forall tag | tag in TAGS ensures NameBelow(Key(tag, path), path) {
      BelowIff(tag, path, path);
    }
  }

  /** What changes below one position leaves the parameters of another alone. */
  lemma BoundApart(params: map<string, Param>, params': map<string, Param>, m: Match, path: Path, fits: Option<int>, other: Path)
    requires !Above(path, other) && !Above(other, path)
    requires Bound(params, m, path, fits) && OnlyBelow(params, params', other)
    ensures Bound(params', m, path, fits)
  {
    forall k | NameBelow(k, path) ensures At(params', k) == At(params, k) {
      if NameBelow(k, other) { BelowBoth(k, path, other); }
    }
    BoundKept(params, params', m, path, fits);
  }

  function PlaceParams(params: map<string, Param>, m: Match, n: Names): map<string, Param> {
    Given(Given(Given(params, n.at, AsNumber(m.at)), n.key, AsText(m.key)), n.kind, AsText(m.kind))
  }

  function ShapeParams(params: map<string, Param>, m: Match, n: Names): map<string, Param> {
    Given(Given(Given(params, n.identifier, AsText(m.identifier)), n.dimension, AsText(m.dimension)), n.nullable, AsFlag(m.nullable))
  }

  function ObjectParams(params: map<string, Param>, m: Match, n: Names, fits: Option<int>): map<string, Param> {
    if m.descriptors == [] then params
    else Given(params[n.candidate := Object(Candidate(m.descriptors))], n.cutoff, if fits.Some? then Some(Moment(fits.value)) else None)
  }

  function OwnParams(params: map<string, Param>, m: Match, n: Names, fits: Option<int>): map<string, Param> {
    ObjectParams(ShapeParams(PlaceParams(params, m, n), m, n), m, n, fits)
  }

  lemma OwnParamsOnly(params: map<string, Param>, m: Match, n: Names, fits: Option<int>)
    ensures forall k :: At(OwnParams(params, m, n, fits), k) != At(params, k) ==> IsOwnName(n, k)
  {}

  lemma OwnParamsBound(params: map<string, Param>, m: Match, path: Path, fits: Option<int>)
    ensures OwnBound(OwnParams(params, m, NamesAt(path), fits), m, NamesAt(path), fits)
    ensures OnlyBelow(params, OwnParams(params, m, NamesAt(path), fits), path)
  {
    NamesDistinct(path);
    OwnNamesBelow(path);
    OwnParamsOnly(params, m, NamesAt(path), fits);
    PlaceBound(params, m, NamesAt(path), fits);
    ShapeBound(PlaceParams(params, m, NamesAt(path)), m, NamesAt(path), fits);
  }

  lemma PlaceBound(params: map<string, Param>, m: Match, n: Names, fits: Option<int>)
    requires Distinct(n)
    ensures var p := OwnParams(params, m, n, fits);
      && (m.at.Some? ==> At(p, n.at) == Some(Number(m.at.value)))
      && (m.key.Some? ==> At(p, n.key) == Some(Text(m.key.value)))
      && (m.kind.Some? ==> At(p, n.kind) == Some(Text(m.kind.value)))
  {
    var placed := PlaceParams(params, m, n);
    LaterKept(placed, m, n, fits, n.at);
    LaterKept(placed, m, n, fits, n.key);
    LaterKept(placed, m, n, fits, n.kind);
  }

  lemma LaterKept(params: map<string, Param>, m: Match, n: Names, fits: Option<int>, k: string)
    requires k !in {n.identifier, n.dimension, n.nullable, n.candidate, n.cutoff}
    ensures At(ObjectParams(ShapeParams(params, m, n), m, n, fits), k) == At(params, k)
  {}

  lemma ShapeBound(params: map<string, Param>, m: Match, n: Names, fits: Option<int>)
    requires Distinct(n)
    ensures var p := ObjectParams(ShapeParams(params, m, n), m, n, fits);
      && (m.identifier.Some? ==> At(p, n.identifier) == Some(Text(m.identifier.value)))
      && (m.dimension.Some? ==> At(p, n.dimension) == Some(Text(m.dimension.value)))
      && (m.nullable.Some? ==> At(p, n.nullable) == Some(Flag(m.nullable.value)))
      && (m.descriptors != [] ==> At(p, n.candidate) == Some(Object(Candidate(m.descriptors))))
      && (m.descriptors != [] && fits.Some? ==> At(p, n.cutoff) == Some(Moment(fits.value)))
  {}

  lemma OnlyBelowTwice(p: map<string, Param>, q: map<string, Param>, r: map<string, Param>, path: Path, i: nat)
    requires OnlyBelow(p, q, path) && OnlyBelow(q, r, Child(path, i))
    ensures OnlyBelow(p, r, path)
  {
    forall k | At(r, k) != At(p, k) ensures NameBelow(k, path) {
      if At(r, k) != At(q, k) { BelowBelow(k, path, i); }
    }
  }

  predicate ChildrenBound(params: map<string, Param>, m: Match, count: nat, path: Path)
    requires count <= |m.children|
  {
    forall j | 0 <= j < count :: Bound(params, m.children[j], Child(path, j), None)
  }

  lemma OneMoreBound(params: map<string, Param>, m: Match, i: nat, path: Path)
    requires i < |m.children|
    requires ChildrenBound(params, m, i, path) && Bound(params, m.children[i], Child(path, i), None)
    ensures ChildrenBound(params, m, i + 1, path)
  {}

  /** A child's parameters leave the match's own ones and its other children's alone. */
  lemma ChildApart(params: map<string, Param>, params': map<string, Param>, m: Match, path: Path, fits: Option<int>, i: nat)
    requires i < |m.children| && OnlyBelow(params, params', Child(path, i))
    requires OwnBound(params, m, NamesAt(path), fits) && ChildrenBound(params, m, i, path)
    ensures OwnBound(params', m, NamesAt(path), fits) && ChildrenBound(params', m, i, path)
  {
    forall k | IsOwnName(NamesAt(path), k) ensures At(params', k) == At(params, k) {
      TagsDiffer();
      var tag :| tag in TAGS && k == Key(tag, path);
      BelowIff(tag, path, Child(path, i));
    }
    forall j | 0 <= j < i ensures Bound(params', m.children[j], Child(path, j), None) {
      Siblings(path, i, j);
      Siblings(path, j, i);
      BoundApart(params, params', m.children[j], Child(path, j), None, Child(path, i));
    }
  }

  lemma ChildBuilt(start: map<string, Param>, params: map<string, Param>, params': map<string, Param>, m: Match, path: Path,
                   fits: Option<int>, i: nat)
    requires i < |m.children| && ChildrenBuilt(start, params, m, path, fits, i) && OnlyBelow(params, params', Child(path, i))
    requires Bound(params', m.children[i], Child(path, i), None)
    ensures ChildrenBuilt(start, params', m, path, fits, i + 1)
  {
    OnlyBelowTwice(start, params, params', path, i);
    ChildApart(params, params', m, path, fits, i);
    OneMoreBound(params', m, i, path);
  }

  /** The match's own parameters and its first `i` children's are there, and nothing else differs. */
  ghost predicate ChildrenBuilt(start: map<string, Param>, params: map<string, Param>, m: Match, path: Path, fits: Option<int>, i: nat) {
    && i <= |m.children| && OwnBound(params, m, NamesAt(path), fits) && ChildrenBound(params, m, i, path)
    && OnlyBelow(start, params, path)
  }

  ghost predicate ListsFirst(cs: seq<Sql>, m: Match, i: nat, table: string, path: Path)
    requires i <= |m.children|
  {
    |cs| == i && forall j :: 0 <= j < i ==> cs[j] == ChildExists(m, j, table, path)
  }

  // ---------------------------------------------------------------- clauses

  /** An action or blok row: what a statement selects. `texts` and `flags` hold its text and boolean
      columns, without the NULL ones; `app` is its app's identifier. */
  datatype OwnerRow = OwnerRow(
    id: nat, organization: int, counts: map<string, int>, texts: map<string, string>, flags: map<string, bool>,
    app: Option<string>, protocols: set<string>)

  datatype Roots = AllRoots | NonNullable | Structures

  datatype Clause =
    | OrganizationIs(param: string)
    | Matches(sql: Sql)
    | CountColumnIs(column: string, param: string)
    | RootCountIs(table: string, roots: Roots, param: string)
    | TextIs(column: string, param: string)
    | FlagIs(column: string, param: string)
    | AppIs(param: string)
    | ProtocolIs(param: string)

  predicate InRoots(r: Row, roots: Roots) {
    match roots
    case AllRoots => true
    case NonNullable => !r.nullable
    case Structures => r.kind == Some("STRUCTURE")
  }

  function RootRows(rows: seq<Row>, owner: nat, roots: Roots): set<Row> {
    set r | r in rows && r.owner == owner && r.parent.None? && InRoots(r, roots)
  }

  function TextAt(texts: map<string, string>, column: string): Option<Param> {
    if column in texts then Some(Text(texts[column])) else None
  }

  function FlagAt(flags: map<string, bool>, column: string): Option<Param> {
    if column in flags then Some(Flag(flags[column])) else None
  }

  /** EXISTS of a protocol of that name. */
  function HasProtocol(protocols: set<string>, name: Option<Param>): Truth {
    Of(name.Some? && name.value.Text? && name.value.s in protocols)
  }

  ghost function Holds(db: Database, row: OwnerRow, params: map<string, Param>, c: Clause): Truth {
    match c
    case OrganizationIs(param) => Equal(Some(Number(row.organization)), At(params, param))
    case Matches(sql) => Eval(db, row.id, map[], params, sql)
    case CountColumnIs(column, param) => Equal(if column in row.counts then Some(Number(row.counts[column])) else None, At(params, param))
    case RootCountIs(table, roots, param) => Equal(Some(Number(|RootRows(RowsOf(db, table), row.id, roots)|)), At(params, param))
    case TextIs(column, param) => Equal(TextAt(row.texts, column), At(params, param))
    case FlagIs(column, param) => Equal(FlagAt(row.flags, column), At(params, param))
    case AppIs(param) => Equal(AsText(row.app), At(params, param))
    case ProtocolIs(param) => HasProtocol(row.protocols, At(params, param))
  }

  /** The rows `SELECT a.id ... WHERE` returns: every clause is true. */
  ghost predicate Selected(db: Database, row: OwnerRow, params: map<string, Param>, cs: seq<Clause>) {
    forall c :: c in cs ==> Holds(db, row, params, c) == TRUE
  }

  function OneIf(given: bool, c: Clause): seq<Clause> {
    if given then [c] else []
  }

  lemma JoinSelected(db: Database, row: OwnerRow, params: map<string, Param>, a: seq<Clause>, b: seq<Clause>)
    ensures Selected(db, row, params, a + b) <==> Selected(db, row, params, a) && Selected(db, row, params, b)
  {
    assert forall c :: c in a ==> c in a + b;
    assert forall c :: c in b ==> c in a + b;
  }

  lemma SelectedOne(db: Database, row: OwnerRow, params: map<string, Param>, given: bool, c: Clause)
    ensures Selected(db, row, params, OneIf(given, c)) <==> (given ==> Holds(db, row, params, c) == TRUE)
  {
    assert given ==> c in OneIf(given, c);
  }

  lemma SelectedEach(db: Database, row: OwnerRow, params: map<string, Param>, cs: seq<Clause>)
    ensures Selected(db, row, params, cs) <==> forall i :: 0 <= i < |cs| ==> Holds(db, row, params, cs[i]) == TRUE
  {}

  predicate PortIn(p: Port, roots: Roots) {
    match roots
    case AllRoots => true
    case NonNullable => !p.nullable
    case Structures => p.kind == "STRUCTURE"
  }

  function PortsIn(ports: seq<Port>, roots: Roots): set<nat> {
    set i: nat | i < |ports| && PortIn(ports[i], roots)
  }

  /** The owner's root rows are as many as its root ports of that sort. */
  lemma RootRowsCount(rows: seq<Row>, owner: nat, ports: seq<Port>, roots: Roots)
    requires HoldsLevel(rows, owner, None, "", ports)
    ensures |RootRows(rows, owner, roots)| == |PortsIn(ports, roots)|
  {
    var a, b := RootRows(rows, owner, roots), PortsIn(ports, roots);
    forall i | i in b ensures exists r :: r in a && r.index == i {
      var r := ChildStoredAt(rows, owner, None, "", ports, i);
      assert r in a;
    }
    PairedUp(a, b, (r: Row) => r.index);
  }

  lemma RootCountMeans(db: Database, row: OwnerRow, params: map<string, Param>, table: string, ports: seq<Port>, roots: Roots, name: string, wanted: Option<int>)
    requires HoldsLevel(RowsOf(db, table), row.id, None, "", ports) && (wanted.Some? ==> At(params, name) == Some(Number(wanted.value)))
    ensures Selected(db, row, params, OneIf(wanted.Some?, RootCountIs(table, roots, name))) <==>
      (wanted.Some? ==> |PortsIn(ports, roots)| == wanted.value)
  {
    SelectedOne(db, row, params, wanted.Some?, RootCountIs(table, roots, name));
    RootRowsCount(RowsOf(db, table), row.id, ports, roots);
  }

  // ---------------------------------------------------------------- a list of matches

  function MatchClause(ms: seq<Match>, table: string, root: Path, i: nat, fits: bool): Clause
    requires i < |ms|
  {
    Matches(Compiled(ms[i], table, None, Child(root, i), fits))
  }

  function MatchClauses(ms: seq<Match>, table: string, root: Path, fits: bool): seq<Clause> {
    seq(|ms|, i requires 0 <= i < |ms| => MatchClause(ms, table, root, i, fits))
  }

  predicate AllNarrowed(ms: seq<Match>) {
    forall m | m in ms :: Narrowed(m)
  }

  /** The parameters of the first `count` matches are under their own names. */
  predicate MatchesBound(params: map<string, Param>, ms: seq<Match>, root: Path, count: nat, fits: Option<int>)
    requires count <= |ms|
  {
    forall i | 0 <= i < count :: Bound(params, ms[i], Child(root, i), fits)
  }

  /** Each match is satisfied by some root port. */
  ghost predicate MatchesMet(db: Database, owner: nat, ms: seq<Match>, ports: seq<Port>, fits: Option<int>) {
    forall i :: 0 <= i < |ms| ==> SomeSatisfies(ms[i], ports, AbleIn(db, owner, fits))
  }

  lemma MatchClauseMeans(db: Database, row: OwnerRow, params: map<string, Param>, ms: seq<Match>, table: string, root: Path, i: nat,
                         fits: Option<int>, ports: seq<Port>)
    requires i < |ms| && Bound(params, ms[i], Child(root, i), fits) && Represents(RowsOf(db, table), row.id, None, "", ports)
    ensures Holds(db, row, params, MatchClause(ms, table, root, i, fits.Some?)) == Of(SomeSatisfies(ms[i], ports, AbleIn(db, row.id, fits)))
  {
    MatchMeans(db, row.id, map[], params, ms[i], table, None, Child(root, i), fits, "", ports);
  }

  /** The clauses of a list of matches hold just when the owner's ports satisfy each. */
  lemma MatchClausesMean(db: Database, row: OwnerRow, params: map<string, Param>, ms: seq<Match>, table: string, root: Path,
                         fits: Option<int>, ports: seq<Port>, cs: seq<Clause>)
    requires MatchesBound(params, ms, root, |ms|, fits) && Represents(RowsOf(db, table), row.id, None, "", ports)
    requires |cs| == |ms| && forall i :: 0 <= i < |cs| ==> cs[i] == MatchClause(ms, table, root, i, fits.Some?)
    ensures Selected(db, row, params, cs) <==> MatchesMet(db, row.id, ms, ports, fits)
  {
    forall i | 0 <= i < |cs| ensures Holds(db, row, params, cs[i]) == Of(SomeSatisfies(ms[i], ports, AbleIn(db, row.id, fits))) {
      MatchClauseMeans(db, row, params, ms, table, root, i, fits, ports);
    }
    SelectedEach(db, row, params, cs);
  }

  /** Parameters changed elsewhere leave a list's alone. */
  lemma MatchesKept(params: map<string, Param>, params': map<string, Param>, ms: seq<Match>, root: Path, count: nat, fits: Option<int>)
    requires count <= |ms| && MatchesBound(params, ms, root, count, fits)
    requires forall k, i: nat :: At(params', k) != At(params, k) ==> !NameBelow(k, Child(root, i))
    ensures MatchesBound(params', ms, root, count, fits)
  {
    forall i | 0 <= i < count ensures Bound(params', ms[i], Child(root, i), fits) {
      BoundKept(params, params', ms[i], Child(root, i), fits);
    }
  }

  /** What is built of a list: the first `i` clauses and their parameters. */
  ghost predicate ListBuilt(start: map<string, Param>, params: map<string, Param>, ms: seq<Match>, table: string, root: Path, fits: Option<int>,
                            i: nat, cs: seq<Clause>) {
    && |cs| == i <= |ms| && (forall j :: 0 <= j < i ==> cs[j] == MatchClause(ms, table, root, j, fits.Some?))
    && (forall j :: 0 <= j < i ==> Narrowed(ms[j]))
    && MatchesBound(params, ms, root, i, fits) && OnlyBelow(start, params, root)
  }

  lemma OneMoreMatch(start: map<string, Param>, params: map<string, Param>, params': map<string, Param>, ms: seq<Match>, table: string, root: Path,
                     fits: Option<int>, i: nat, cs: seq<Clause>, c: Clause)
    requires i < |ms| && ListBuilt(start, params, ms, table, root, fits, i, cs) && c == MatchClause(ms, table, root, i, fits.Some?)
    requires Narrowed(ms[i]) && OnlyBelow(params, params', Child(root, i)) && Bound(params', ms[i], Child(root, i), fits)
    ensures ListBuilt(start, params', ms, table, root, fits, i + 1, cs + [c])
  {
    OnlyBelowTwice(start, params, params', root, i);
    EarlierMatchesKept(params, params', ms, root, fits, i);
  }

  lemma EarlierMatchesKept(params: map<string, Param>, params': map<string, Param>, ms: seq<Match>, root: Path, fits: Option<int>, i: nat)
    requires i < |ms| && MatchesBound(params, ms, root, i, fits) && OnlyBelow(params, params', Child(root, i))
    ensures MatchesBound(params', ms, root, i, fits)
  {
    forall j | 0 <= j < i ensures Bound(params', ms[j], Child(root, j), fits) {
      Siblings(root, i, j);
      Siblings(root, j, i);
      BoundApart(params, params', ms[j], Child(root, j), fits, Child(root, i));
    }
  }

  lemma ListDone(start: map<string, Param>, params: map<string, Param>, ms: seq<Match>, table: string, root: Path, fits: Option<int>, cs: seq<Clause>)
    requires ListBuilt(start, params, ms, table, root, fits, |ms|, cs)
    ensures AllNarrowed(ms) && cs == MatchClauses(ms, table, root, fits.Some?) && MatchesBound(params, ms, root, |ms|, fits)
  {}

  lemma OrgApart(path: Path)
    ensures !NameBelow("org", path)
  {
    forall tag, p | IsTag(tag) ensures "org" != Key(tag, p) {
      var i := FirstDigit(tag, p);
    }
  }

  // ---------------------------------------------------------------- building it in place

  /** The `params` dictionary one statement is built with. */
  class Statement {
    var params: map<string, Param>

    constructor ()
      ensures params == map[]
    {
      params := map[];
    }

    /** `if value is not None: params[name] = value; conditions.append(...)`. */
    method BindColumn(alias: string, column: Column, name: string, value: Option<Param>, conditions: seq<Sql>) returns (cs: seq<Sql>)
      modifies this
      ensures params == Given(old(params), name, value) && cs == conditions + When(value.Some?, ColumnIs(alias, column, name))
    {
      cs := conditions;
      if value.Some? {
        params := params[name := value.value];
        cs := cs + [ColumnIs(alias, column, name)];
      }
    }

    method BindPlace(m: Match, n: Names) returns (cs: seq<Sql>)
      modifies this
      ensures params == PlaceParams(old(params), m, n) && cs == PlaceColumns(m, n)
    {
      cs := BindColumn(n.alias, Index, n.at, AsNumber(m.at), []);
      cs := BindColumn(n.alias, KeyName, n.key, AsText(m.key), cs);
      cs := BindColumn(n.alias, Kind, n.kind, AsText(m.kind), cs);
    }

    method BindShape(m: Match, n: Names) returns (cs: seq<Sql>)
      modifies this
      ensures params == ShapeParams(old(params), m, n) && cs == ShapeColumns(m, n)
    {
      cs := BindColumn(n.alias, Identifier, n.identifier, AsText(m.identifier), []);
      cs := BindColumn(n.alias, Dimension, n.dimension, AsText(m.dimension), cs);
      cs := BindColumn(n.alias, Nullable, n.nullable, AsFlag(m.nullable), cs);
    }

    method BindObject(m: Match, n: Names, fits: Option<int>) returns (cs: seq<Sql>)
      modifies this
      ensures params == ObjectParams(old(params), m, n, fits) && cs == ObjectConditions(m, n, fits.Some?)
    {
      cs := [];
      if m.descriptors != [] {
        params := params[n.candidate := Object(Candidate(m.descriptors))];
        if fits.Some? {
          params := params[n.cutoff := Moment(fits.value)];
          cs := cs + [FitsObject(n.alias, n.candidate, n.cutoff)];
        }
        cs := cs + [PathAdmits(n.alias, n.candidate)];
      }
    }

    /** The match's own conditions, and their parameters. */
    method BindOwn(m: Match, n: Names, fits: Option<int>) returns (cs: seq<Sql>)
      modifies this
      ensures params == OwnParams(old(params), m, n, fits) && cs == Own(m, n, fits.Some?)
    {
      var place := BindPlace(m, n);
      var shape := BindShape(m, n);
      var object_ := BindObject(m, n, fits);
      cs := place + shape + object_;
    }

    /** _build_match_exists: None where it raises. `fits` holds the moment agents must have been seen
        after, for a root match on an action's args. */
    method BuildMatchExists(m: Match, table: string, parent: Option<string>, path: Path, fits: Option<int>) returns (sql: Option<Sql>)
      modifies this
      ensures sql.None? <==> parent.None? && !Narrowed(m)
      ensures sql.Some? ==> sql.value == Compiled(m, table, parent, path, fits.Some?) && Bound(params, m, path, fits)
      ensures OnlyBelow(old(params), params, path)
      decreases m, 1
    {
      var n := NamesAt(path);
      OwnParamsBound(params, m, path, fits);
      var own := BindOwn(m, n, fits);
      if m.descriptors != [] && parent.None? {
        var narrowing := m.at.Some? || m.key.Some? || m.kind.Some? || m.identifier.Some? || m.dimension.Some?;
        if !narrowing {
          return None;
        }
      }
      var children := BuildChildren(m, table, path, fits, old(params));
      sql := Some(Exists(table, n.alias, Correlation(n.alias, parent) + own + children));
    }

    /** Its loop over the children, each below its own position. */
    method BuildChildren(m: Match, table: string, path: Path, ghost fits: Option<int>, ghost start: map<string, Param>) returns (children: seq<Sql>)
      requires OwnBound(params, m, NamesAt(path), fits) && OnlyBelow(start, params, path)
      modifies this
      ensures children == Children(m, table, path) && Bound(params, m, path, fits)
      ensures OnlyBelow(start, params, path)
      decreases m, 0
    {
      children := [];
      var i := 0;
      while i < |m.children|
        invariant i <= |m.children| && ListsFirst(children, m, i, table, path)
        invariant ChildrenBuilt(start, params, m, path, fits, i)
      {
        ghost var before := params;
        var child := BuildMatchExists(m.children[i], table, Some(NamesAt(path).alias), Child(path, i), None);
        ChildBuilt(start, before, params, m, path, fits, i);
        children := children + [child.value];
        i := i + 1;
      }
      ChildrenListed(m, table, path);
      OneList(children, Children(m, table, path), m, table, path);
    }

    /** One clause a match. */
    method BuildMatches(ms: seq<Match>, table: string, root: Path, fits: Option<int>) returns (cs: Option<seq<Clause>>)
      modifies this
      ensures cs.Some? <==> AllNarrowed(ms)
      ensures cs.Some? ==> cs.value == MatchClauses(ms, table, root, fits.Some?) && MatchesBound(params, ms, root, |ms|, fits)
      ensures OnlyBelow(old(params), params, root)
    {
      var clauses: seq<Clause> := [];
      var i := 0;
      while i < |ms|
        invariant ListBuilt(old(params), params, ms, table, root, fits, i, clauses)
      {
        ghost var before := params;
        var built := BuildMatchExists(ms[i], table, None, Child(root, i), fits);
        if built.None? {
          OnlyBelowTwice(old(params), before, params, root, i);
          return None;
        }
        OneMoreMatch(old(params), before, params, ms, table, root, fits, i, clauses, Matches(built.value));
        clauses := clauses + [Matches(built.value)];
        i := i + 1;
      }
      ListDone(old(params), params, ms, table, root, fits, clauses);
      cs := Some(clauses);
    }
  }
}
