/** The text of a port-demand statement (facade/managers.py): its named placeholders are the bound
    parameters, so its positional form gives each its own value. */
module SqlText {
  import opened Collections
  import opened Json
  import opened Keys
  import opened Matcher
  import opened Statements
  import Demands
  import Placeholders

  // ---------------------------------------------------------------- literal text and placeholders

  /** The fixed words of the statements. */
  datatype Fragment =
    DOT | EQUALS | OWNER_ID | IS_ROOT | PARENT_ID | ID | AND | EXISTS | SPACE | WHERE | OPEN | CLOSE | CLOSE_BOTH | NOT
      | IMPLEMENTATIONS | AGENTS | OF_AGENT | JOIN | FITS | OF_IMPLEMENTATION | PORT_KEY | KEY | ACTION_ID | ACTION | WEBHOOK
      | CONNECTED | SEEN | OR | LEFT | NO_FIT | OR_MATCHES | AS_JSON | FIT_PATH | AGENT_VARS | HARDWARE | NO_HARDWARE | SILENT
      | NO_PATH | PATH | NO_VARS | SELECT | ACTION_WHERE | OWN | ORGANIZATION | COUNT | COUNTED | COUNT_ROOTS | COUNT_IS
      | ALL_OF_THEM | NOT_NULLABLE | OF_STRUCTURE

  function FragmentText(f: Fragment): string {
    match f
    case DOT => "."
    case EQUALS => " = "
    case OWNER_ID => " = a.id"
    case IS_ROOT => ".parent_id IS NULL"
    case PARENT_ID => ".parent_id = "
    case ID => ".id"
    case AND => " AND "
    case EXISTS => "EXISTS (SELECT 1 FROM "
    case SPACE => " "
    case WHERE => " WHERE "
    case OPEN => "("
    case CLOSE => ")"
    case CLOSE_BOTH => "))"
    case NOT => "(NOT "
    case IMPLEMENTATIONS => "facade_implementation i "
    case AGENTS => "JOIN facade_agent g "
    case OF_AGENT => "ON g.id = i.agent_id "
    case JOIN => "JOIN "
    case FITS => "facade_implementationfit f "
    case OF_IMPLEMENTATION => "ON f.implementation_id = i.id "
    case PORT_KEY => "AND f.port_key = "
    case KEY => ".key "
    case ACTION_ID => "WHERE i.action_id = "
    case ACTION => ".action_id AND "
    case WEBHOOK => "(g.kind = 'WEBHOOK' "
    case CONNECTED => "OR (g.connected "
    case SEEN => "AND g.last_seen > "
    case OR => ") OR "
    case LEFT => "LEFT "
    case NO_FIT => " AND (f.id IS NULL "
    case OR_MATCHES => "OR jsonb_path_match("
    case AS_JSON => "::jsonb, "
    case FIT_PATH => "f.compiled_jsonpath::jsonpath, "
    case AGENT_VARS => "jsonb_build_object('agent', "
    case HARDWARE => "COALESCE(g.hardware, "
    case NO_HARDWARE => "'{}'::jsonb)), "
    case SILENT => "true))))"
    case NO_PATH => ".compiled_jsonpath IS NULL "
    case PATH => ".compiled_jsonpath::jsonpath, "
    case NO_VARS => "'{}'::jsonb, true))"
    case SELECT => "SELECT a.id FROM "
    case ACTION_WHERE => " a WHERE "
    case OWN => "a."
    case ORGANIZATION => "a.organization_id = "
    case COUNT => "(SELECT COUNT(*) FROM "
    case COUNTED => " pc WHERE pc."
    case COUNT_ROOTS => " AND pc.parent_id IS NULL AND "
    case COUNT_IS => ") = "
    case ALL_OF_THEM => "TRUE"
    case NOT_NULLABLE => "pc.nullable = false"
    case OF_STRUCTURE => "pc.kind = 'STRUCTURE'"
  }

  /** Fixed words, the name of a table, an alias or a column, or a placeholder. */
  datatype Part = Fixed(f: Fragment) | Word(text: string) | Hole(key: string)

  function PartText(p: Part): string {
    match p
    case Fixed(f) => FragmentText(f)
    case Word(text) => text
    case Hole(key) => "%(" + key + ")s"
  }

  function Written(parts: seq<Part>): string {
    if parts == [] then "" else PartText(parts[0]) + Written(parts[1..])
  }

  function HoleKeys(parts: seq<Part>): seq<string> {
    if parts == [] then []
    else (if parts[0].Hole? then [parts[0].key] else []) + HoleKeys(parts[1..])
  }

  /** A parameter name or an alias: `\w+`. */
  predicate IsName(s: string) {
    s != "" && forall c | c in s :: Placeholders.IsWord(c)
  }

  /** Names without `%`, and placeholders that have values. */
  predicate Fills(parts: seq<Part>, params: map<string, Param>) {
    forall p | p in parts :: (p.Word? ==> '%' !in p.text) && (p.Hole? ==> IsName(p.key) && p.key in params)
  }

  lemma JointPlain(f: Fragment)
    requires f in {DOT, EQUALS, OWNER_ID, IS_ROOT, PARENT_ID, ID}
    ensures '%' !in FragmentText(f)
  {}

  lemma HeadPlain(f: Fragment)
    requires f in {AND, EXISTS, SPACE, WHERE, OPEN, CLOSE, CLOSE_BOTH, NOT}
    ensures '%' !in FragmentText(f)
  {}

  lemma TablePlain(f: Fragment)
    requires f in {IMPLEMENTATIONS, AGENTS, OF_AGENT}
    ensures '%' !in FragmentText(f)
  {}

  lemma JoinPlain(f: Fragment)
    requires f in {JOIN, FITS, OF_IMPLEMENTATION}
    ensures '%' !in FragmentText(f)
  {}

  lemma PortKeyPlain(f: Fragment)
    requires f in {PORT_KEY, KEY, ACTION_ID, ACTION}
    ensures '%' !in FragmentText(f)
  {}

  lemma LivePlain(f: Fragment)
    requires f in {WEBHOOK, CONNECTED, SEEN, OR, LEFT}
    ensures '%' !in FragmentText(f)
  {}

  lemma LimitPlain(f: Fragment)
    requires f in {NO_FIT, OR_MATCHES, AS_JSON}
    ensures '%' !in FragmentText(f)
  {}

  lemma FitPathPlain(f: Fragment)
    requires f in {FIT_PATH, AGENT_VARS}
    ensures '%' !in FragmentText(f)
  {}

  lemma HardwarePlain(f: Fragment)
    requires f in {HARDWARE, NO_HARDWARE, SILENT}
    ensures '%' !in FragmentText(f)
  {}

  lemma PortPathPlain(f: Fragment)
    requires f in {NO_PATH, PATH}
    ensures '%' !in FragmentText(f)
  {}

  lemma NoVarsPlain(f: Fragment)
    requires f in {NO_VARS, ALL_OF_THEM}
    ensures '%' !in FragmentText(f)
  {}

  lemma FrontPlain(f: Fragment)
    requires f in {SELECT, ACTION_WHERE}
    ensures '%' !in FragmentText(f)
  {}

  lemma OwnPlain(f: Fragment)
    requires f in {OWN, ORGANIZATION}
    ensures '%' !in FragmentText(f)
  {}

  lemma CountPlain(f: Fragment)
    requires f in {COUNT, COUNTED}
    ensures '%' !in FragmentText(f)
  {}

  lemma CountedPlain(f: Fragment)
    requires f in {COUNT_ROOTS, COUNT_IS}
    ensures '%' !in FragmentText(f)
  {}

  lemma RootsPlain(f: Fragment)
    requires f in {NOT_NULLABLE, OF_STRUCTURE}
    ensures '%' !in FragmentText(f)
  {}

  lemma FragmentPlain(f: Fragment)
    ensures '%' !in FragmentText(f)
  {
    if f in {DOT, EQUALS, OWNER_ID, IS_ROOT, PARENT_ID, ID} { JointPlain(f); }
    if f in {AND, EXISTS, SPACE, WHERE, OPEN, CLOSE, CLOSE_BOTH, NOT} { HeadPlain(f); }
    if f in {IMPLEMENTATIONS, AGENTS, OF_AGENT} { TablePlain(f); }
    if f in {JOIN, FITS, OF_IMPLEMENTATION} { JoinPlain(f); }
    if f in {PORT_KEY, KEY, ACTION_ID, ACTION} { PortKeyPlain(f); }
    if f in {WEBHOOK, CONNECTED, SEEN, OR, LEFT} { LivePlain(f); }
    if f in {NO_FIT, OR_MATCHES, AS_JSON} { LimitPlain(f); }
    if f in {FIT_PATH, AGENT_VARS} { FitPathPlain(f); }
    if f in {HARDWARE, NO_HARDWARE, SILENT} { HardwarePlain(f); }
    if f in {NO_PATH, PATH} { PortPathPlain(f); }
    if f in {NO_VARS, ALL_OF_THEM} { NoVarsPlain(f); }
    if f in {SELECT, ACTION_WHERE} { FrontPlain(f); }
    if f in {OWN, ORGANIZATION} { OwnPlain(f); }
    if f in {COUNT, COUNTED} { CountPlain(f); }
    if f in {COUNT_ROOTS, COUNT_IS} { CountedPlain(f); }
    if f in {NOT_NULLABLE, OF_STRUCTURE} { RootsPlain(f); }
  }

  lemma {:induction false} WordRun(key: string, rest: string)
    requires (forall c :: c in key ==> Placeholders.IsWord(c)) && (rest == "" || !Placeholders.IsWord(rest[0]))
    ensures Placeholders.WordLength(key + rest) == |key|
    decreases |key|
  {
    if key == "" {
      assert key + rest == rest;
    } else {
      assert (key + rest)[0] == key[0] && key[0] in key && (key + rest)[1..] == key[1..] + rest;
      WordRun(key[1..], rest);
    }
  }

  lemma NamedAt(key: string, rest: string)
    requires IsName(key)
    ensures var sql := "%(" + key + ")s" + rest;
      Placeholders.NamedLength(sql) == |key| + 4 && Placeholders.KeyOf(sql) == key && sql[|key| + 4..] == rest
  {
    var sql := "%(" + key + ")s" + rest;
    assert sql[..2] == "%(" && sql[2..] == key + (")s" + rest);
    WordRun(key, ")s" + rest);
    assert sql[2 + |key|..2 + |key| + 2] == ")s";
    assert sql[2..2 + |key|] == key;
  }

  lemma {:induction false} PlainThen(text: string, rest: string)
    requires '%' !in text && Placeholders.OnlyNamed(rest)
    ensures Placeholders.OnlyNamed(text + rest) && Placeholders.FindAll(text + rest) == Placeholders.FindAll(rest)
    decreases |text|
  {
    if text == "" {
      assert text + rest == rest;
    } else {
      NotFirst(text);
      PlainThen(text[1..], rest);
      CharThen(text[0], text[1..] + rest);
      FirstApart(text, rest);
    }
  }

  lemma FirstApart(text: string, rest: string)
    requires text != ""
    ensures text + rest == [text[0]] + (text[1..] + rest)
  {}

  lemma NotFirst(text: string)
    requires text != "" && '%' !in text
    ensures text[0] != '%' && '%' !in text[1..]
  {}

  lemma CharThen(c: char, rest: string)
    requires c != '%' && Placeholders.OnlyNamed(rest)
    ensures Placeholders.OnlyNamed([c] + rest) && Placeholders.FindAll([c] + rest) == Placeholders.FindAll(rest)
  {
    var sql := [c] + rest;
    assert sql[0] == c && sql[1..] == rest;
    assert |sql| >= 2 ==> sql[..2][0] == c;
  }

  lemma HoleThen(key: string, rest: string)
    requires IsName(key) && Placeholders.OnlyNamed(rest)
    ensures Placeholders.OnlyNamed("%(" + key + ")s" + rest)
    ensures Placeholders.FindAll("%(" + key + ")s" + rest) == [key] + Placeholders.FindAll(rest)
  {
    NamedAt(key, rest);
  }

  /** The placeholders found in written parts are theirs, in order, and there is no other `%`. */
  lemma {:induction false} FoundKeys(parts: seq<Part>, params: map<string, Param>)
    requires Fills(parts, params)
    ensures Placeholders.OnlyNamed(Written(parts)) && Placeholders.FindAll(Written(parts)) == HoleKeys(parts)
    ensures forall k :: k in HoleKeys(parts) ==> k in params
    decreases |parts|
  {
    if parts != [] {
      assert parts[0] in parts && forall p :: p in parts[1..] ==> p in parts;
      FoundKeys(parts[1..], params);
      match parts[0] {
        case Fixed(f) =>
          FragmentPlain(f);
          PlainThen(FragmentText(f), Written(parts[1..]));
        case Word(text) => PlainThen(text, Written(parts[1..]));
        case Hole(key) => HoleThen(key, Written(parts[1..]));
      }
    }
  }

  // ---------------------------------------------------------------- the text of conditions

  function ColumnName(c: Column): string {
    match c
    case Index => "index"
    case KeyName => "key"
    case Kind => "kind"
    case Identifier => "identifier"
    case Dimension => "dimension"
    case Nullable => "nullable"
  }

  /** _live_agent_sql. */
  function LiveAgent(cutoff: string): seq<Part> {
    [Fixed(WEBHOOK), Fixed(CONNECTED), Fixed(SEEN), Hole(cutoff), Fixed(CLOSE_BOTH)]
  }

  /** The limits that implementations of the port's action state on it. */
  function FromFits(alias: string, left: seq<Part>): seq<Part> {
    [Fixed(EXISTS), Fixed(IMPLEMENTATIONS), Fixed(AGENTS), Fixed(OF_AGENT)] + left
    + [Fixed(JOIN), Fixed(FITS), Fixed(OF_IMPLEMENTATION), Fixed(PORT_KEY), Word(alias), Fixed(KEY), Fixed(ACTION_ID), Word(alias), Fixed(ACTION)]
  }

  function MatchesFit(candidate: string): seq<Part> {
    [Fixed(NO_FIT), Fixed(OR_MATCHES), Hole(candidate), Fixed(AS_JSON), Fixed(FIT_PATH),
     Fixed(AGENT_VARS), Fixed(HARDWARE), Fixed(NO_HARDWARE), Fixed(SILENT)]
  }

  /** _fits_condition. */
  function FitsParts(alias: string, candidate: string, cutoff: string): seq<Part> {
    ([Fixed(NOT)] + FromFits(alias, []) + LiveAgent(cutoff))
    + ([Fixed(OR)] + FromFits(alias, [Fixed(LEFT)]) + LiveAgent(cutoff))
    + MatchesFit(candidate)
  }

  function AdmitsParts(alias: string, candidate: string): seq<Part> {
    [Fixed(OPEN), Word(alias), Fixed(NO_PATH), Fixed(OR_MATCHES), Hole(candidate), Fixed(AS_JSON), Word(alias), Fixed(PATH), Fixed(NO_VARS)]
  }

  /** One condition; `column` is the one port rows point at their owner with. */
  function SqlParts(c: Sql, column: string): seq<Part>
    decreases c, 0
  {
    match c
    case OwnerIs(alias) => [Word(alias), Fixed(DOT), Word(column), Fixed(OWNER_ID)]
    case IsRoot(alias) => [Word(alias), Fixed(IS_ROOT)]
    case ParentIs(alias, parent) => [Word(alias), Fixed(PARENT_ID), Word(parent), Fixed(ID)]
    case ColumnIs(alias, name, param) => [Word(alias), Fixed(DOT), Word(ColumnName(name)), Fixed(EQUALS), Hole(param)]
    case FitsObject(alias, candidate, cutoff) => FitsParts(alias, candidate, cutoff)
    case PathAdmits(alias, candidate) => AdmitsParts(alias, candidate)
    case Exists(table, alias, conditions) => ExistsHead(table, alias) + AndParts(conditions, column) + [Fixed(CLOSE)]
  }

  function ExistsHead(table: string, alias: string): seq<Part> {
    [Fixed(EXISTS), Word(table), Fixed(SPACE), Word(alias), Fixed(WHERE)]
  }

  /** `" AND ".join(conditions)`. */
  function AndParts(cs: seq<Sql>, column: string): seq<Part>
    decreases cs, |cs|
  {
    if cs == [] then []
    else if |cs| == 1 then SqlParts(cs[0], column)
    else AndParts(cs[..|cs| - 1], column) + [Fixed(AND)] + SqlParts(cs[|cs| - 1], column)
  }

  /** Every alias and parameter is a name, and every parameter has a value. */
  ghost predicate Fed(c: Sql, params: map<string, Param>)
    decreases c
  {
    match c
    case OwnerIs(alias) => IsName(alias)
    case IsRoot(alias) => IsName(alias)
    case ParentIs(alias, parent) => IsName(alias) && IsName(parent)
    case ColumnIs(alias, _, param) => IsName(alias) && IsName(param) && param in params
    case FitsObject(alias, candidate, cutoff) =>
      IsName(alias) && IsName(candidate) && candidate in params && IsName(cutoff) && cutoff in params
    case PathAdmits(alias, candidate) => IsName(alias) && IsName(candidate) && candidate in params
    case Exists(table, alias, conditions) => '%' !in table && IsName(alias) && forall d :: d in conditions ==> Fed(d, params)
  }

  lemma FillsJoin(a: seq<Part>, b: seq<Part>, params: map<string, Param>)
    requires Fills(a, params) && Fills(b, params)
    ensures Fills(a + b, params)
  {}

  lemma FillsThree(a: seq<Part>, b: seq<Part>, c: seq<Part>, params: map<string, Param>)
    requires Fills(a, params) && Fills(b, params) && Fills(c, params)
    ensures Fills(a + b + c, params)
  {
    FillsJoin(a, b, params);
    FillsJoin(a + b, c, params);
  }

  lemma FitsFills(alias: string, candidate: string, cutoff: string, params: map<string, Param>)
    requires IsName(alias) && IsName(candidate) && candidate in params && IsName(cutoff) && cutoff in params
    ensures Fills(FitsParts(alias, candidate, cutoff), params)
  {
    FromFills(alias, [], params);
    FromFills(alias, [Fixed(LEFT)], params);
    FillsThree([Fixed(NOT)], FromFits(alias, []), LiveAgent(cutoff), params);
    FillsThree([Fixed(OR)], FromFits(alias, [Fixed(LEFT)]), LiveAgent(cutoff), params);
    FillsThree([Fixed(NOT)] + FromFits(alias, []) + LiveAgent(cutoff),
               [Fixed(OR)] + FromFits(alias, [Fixed(LEFT)]) + LiveAgent(cutoff), MatchesFit(candidate), params);
  }

  lemma FromFills(alias: string, left: seq<Part>, params: map<string, Param>)
    requires IsName(alias) && Fills(left, params)
    ensures Fills(FromFits(alias, left), params)
  {
    FillsThree([Fixed(EXISTS), Fixed(IMPLEMENTATIONS), Fixed(AGENTS), Fixed(OF_AGENT)], left,
               [Fixed(JOIN), Fixed(FITS), Fixed(OF_IMPLEMENTATION), Fixed(PORT_KEY), Word(alias), Fixed(KEY), Fixed(ACTION_ID), Word(alias), Fixed(ACTION)],
               params);
  }

  lemma ColumnPlain(c: Column)
    ensures '%' !in ColumnName(c)
  {}

  lemma {:induction false} FedFills(c: Sql, column: string, params: map<string, Param>)
    requires Fed(c, params) && '%' !in column
    ensures Fills(SqlParts(c, column), params)
    decreases c, 0
  {
    match c {
      case ColumnIs(_, name, _) => ColumnPlain(name);
      case FitsObject(alias, candidate, cutoff) => FitsFills(alias, candidate, cutoff, params);
      case Exists(table, alias, conditions) =>
        AndFills(conditions, column, params);
        FillsThree(ExistsHead(table, alias), AndParts(conditions, column), [Fixed(CLOSE)], params);
      case _ =>
    }
  }

  lemma {:induction false} AndFills(cs: seq<Sql>, column: string, params: map<string, Param>)
    requires (forall d :: d in cs ==> Fed(d, params)) && '%' !in column
    ensures Fills(AndParts(cs, column), params)
    decreases cs, |cs|
  {
    if |cs| == 1 {
      FedFills(cs[0], column, params);
    } else if cs != [] {
      var n := |cs| - 1;
      AndFills(cs[..n], column, params);
      FedFills(cs[n], column, params);
      FillsThree(AndParts(cs[..n], column), [Fixed(AND)], SqlParts(cs[n], column), params);
    }
  }

  // ---------------------------------------------------------------- compiled matches are fed

  predicate Worded(s: string) {
    forall c | c in s :: Placeholders.IsWord(c)
  }

  lemma {:induction false} JoinedWorded(steps: seq<nat>)
    ensures Worded(Joined(steps))
    decreases |steps|
  {
    if steps != [] { JoinedWorded(steps[1..]); }
  }

  /** Names of positions are names. */
  lemma KeyIsName(tag: string, path: Path)
    requires Worded(tag)
    ensures IsName(Key(tag, path))
  {
    JoinedWorded(path.steps);
    assert Worded(Side(path.root));
    assert Worded(PathText(path));
  }

  lemma NamesAreNames(path: Path)
    ensures var n := NamesAt(path);
      && IsName(n.alias) && IsName(n.at) && IsName(n.key) && IsName(n.kind) && IsName(n.identifier)
      && IsName(n.dimension) && IsName(n.nullable) && IsName(n.candidate) && IsName(n.cutoff)
  {
    KeyIsName("p", path);
    KeyIsName("at", path);
    KeyIsName("key", path);
    KeyIsName("kind", path);
    KeyIsName("ident", path);
    KeyIsName("dim", path);
    KeyIsName("null", path);
    KeyIsName("obj", path);
    KeyIsName("cutoff", path);
  }

  lemma OwnFed(params: map<string, Param>, m: Match, path: Path, fits: Option<int>, c: Sql)
    requires OwnBound(params, m, NamesAt(path), fits) && IsOwn(m, NamesAt(path), fits.Some?, c)
    ensures Fed(c, params)
  {
    NamesAreNames(path);
  }

  lemma {:induction false} CompiledFed(params: map<string, Param>, m: Match, table: string, parent: Option<string>, path: Path, fits: Option<int>)
    requires Bound(params, m, path, fits) && '%' !in table && (parent.Some? ==> IsName(parent.value))
    ensures Fed(Compiled(m, table, parent, path, fits.Some?), params)
    decreases m
  {
    var n := NamesAt(path);
    NamesAreNames(path);
    forall c | c in Conditions(m, table, parent, path, fits.Some?) ensures Fed(c, params) {
      if c in Own(m, n, fits.Some?) {
        OwnAre(m, n, fits.Some?, c);
        OwnFed(params, m, path, fits, c);
      } else if c in Children(m, table, path) {
        var i :| 0 <= i < |m.children| && Children(m, table, path)[i] == c;
        CompiledFed(params, m.children[i], table, Some(n.alias), Child(path, i), None);
      } else {
        assert c in Correlation(n.alias, parent);
      }
    }
  }

  // ---------------------------------------------------------------- the statement

  function RootsText(roots: Roots): Fragment {
    match roots
    case AllRoots => ALL_OF_THEM
    case NonNullable => NOT_NULLABLE
    case Structures => OF_STRUCTURE
  }

  /** The clauses a port-demand statement has. */
  predicate OfPortDemand(c: Clause) {
    c.OrganizationIs? || c.Matches? || c.CountColumnIs? || c.RootCountIs?
  }

  function ClauseParts(c: Clause, column: string): seq<Part>
    requires OfPortDemand(c)
  {
    match c
    case OrganizationIs(param) => [Fixed(ORGANIZATION), Hole(param)]
    case Matches(sql) => SqlParts(sql, column)
    case CountColumnIs(name, param) => [Fixed(OWN), Word(name), Fixed(EQUALS), Hole(param)]
    case RootCountIs(table, roots, param) =>
      [Fixed(COUNT), Word(table), Fixed(COUNTED), Word(column), Fixed(OWNER_ID), Fixed(COUNT_ROOTS), Fixed(RootsText(roots)), Fixed(COUNT_IS), Hole(param)]
  }

  function WhereParts(cs: seq<Clause>, column: string): seq<Part>
    requires forall c :: c in cs ==> OfPortDemand(c)
    decreases |cs|
  {
    if cs == [] then []
    else if |cs| == 1 then ClauseParts(cs[0], column)
    else WhereParts(cs[..|cs| - 1], column) + [Fixed(AND)] + ClauseParts(cs[|cs| - 1], column)
  }

  /** The text _port_demand_sql returns. */
  function StatementParts(o: Demands.PortOwner, cs: seq<Clause>): seq<Part>
    requires forall c :: c in cs ==> OfPortDemand(c)
  {
    [Fixed(SELECT), Word(o.table), Fixed(ACTION_WHERE)] + WhereParts(cs, o.column)
  }

  ghost predicate ClauseFed(c: Clause, params: map<string, Param>) {
    match c
    case OrganizationIs(param) => IsName(param) && param in params
    case Matches(sql) => Fed(sql, params)
    case CountColumnIs(name, param) => '%' !in name && IsName(param) && param in params
    case RootCountIs(table, _, param) => '%' !in table && IsName(param) && param in params
    case _ => false
  }

  lemma ClauseFills(c: Clause, column: string, params: map<string, Param>)
    requires ClauseFed(c, params) && '%' !in column
    ensures OfPortDemand(c) && Fills(ClauseParts(c, column), params)
  {
    if c.Matches? { FedFills(c.sql, column, params); }
  }

  lemma {:induction false} WhereFills(cs: seq<Clause>, column: string, params: map<string, Param>)
    requires (forall c :: c in cs ==> ClauseFed(c, params)) && '%' !in column
    ensures forall c :: c in cs ==> OfPortDemand(c)
    ensures Fills(WhereParts(cs, column), params)
    decreases |cs|
  {
    if |cs| == 1 {
      ClauseFills(cs[0], column, params);
    } else if cs != [] {
      var n := |cs| - 1;
      WhereFills(cs[..n], column, params);
      ClauseFills(cs[n], column, params);
      FillsThree(WhereParts(cs[..n], column), [Fixed(AND)], ClauseParts(cs[n], column), params);
    }
  }

  /** Tables and columns are named without `%`. */
  predicate PlainOwner(o: Demands.PortOwner) {
    && '%' !in o.table && '%' !in o.column && (forall kind | kind in o.portTables :: '%' !in o.portTables[kind])
    && (o.countColumns.Some? ==> forall kind | kind in o.countColumns.value :: '%' !in o.countColumns.value[kind])
  }

  lemma DemandFed(params: map<string, Param>, o: Demands.PortOwner, d: Demands.Demand, index: nat, cutoff: int, c: Clause)
    requires PlainOwner(o) && Demands.Allowed(o, d) && Demands.DemandBound(params, o, d, index, cutoff)
    requires c in Demands.DemandClauses(o, d, index, cutoff)
    ensures ClauseFed(c, params)
  {
    var path, table := Demands.DemandPath(index), o.portTables[d.kind];
    if c in Demands.DemandMatchClauses(o, d, index, cutoff) {
      MatchFed(params, d.matches, table, path, Demands.FitsFor(o, table, cutoff), c);
    } else {
      CountFed(params, o, d, index, c);
    }
  }

  lemma MatchFed(params: map<string, Param>, ms: seq<Match>, table: string, root: Path, fits: Option<int>, c: Clause)
    requires MatchesBound(params, ms, root, |ms|, fits) && '%' !in table && c in MatchClauses(ms, table, root, fits.Some?)
    ensures ClauseFed(c, params)
  {
    var i :| 0 <= i < |ms| && MatchClauses(ms, table, root, fits.Some?)[i] == c;
    CompiledFed(params, ms[i], table, None, Child(root, i), fits);
  }

  lemma CountFed(params: map<string, Param>, o: Demands.PortOwner, d: Demands.Demand, index: nat, c: Clause)
    requires PlainOwner(o) && Demands.Allowed(o, d) && Demands.CountsBound(params, d, index) && c in Demands.CountClauses(o, d, index)
    ensures ClauseFed(c, params)
  {
    KeyIsName("force_length", Demands.DemandPath(index));
    KeyIsName("force_non_nullable", Demands.DemandPath(index));
    KeyIsName("force_structure", Demands.DemandPath(index));
  }

  lemma {:induction false} ClausesFed(params: map<string, Param>, organization: Option<int>, o: Demands.PortOwner, ds: seq<Demands.Demand>, cutoff: int, c: Clause)
    requires PlainOwner(o) && Demands.AllAllowed(o, ds) && Demands.AllBound(params, organization, o, ds, cutoff)
    requires c in Demands.Clauses(organization, o, ds, cutoff)
    ensures ClauseFed(c, params)
    decreases |ds|
  {
    if ds != [] {
      var first, last := ds[..|ds| - 1], ds[|ds| - 1];
      Demands.LastDemand(params, organization, o, ds, first, last, cutoff);
      if c in Demands.DemandClauses(o, last, |first|, cutoff) {
        DemandFed(params, o, last, |first|, cutoff, c);
      } else {
        ClausesFed(params, organization, o, first, cutoff, c);
      }
    }
  }

  /** Every placeholder in the text of the statement that is built has a value, and the positional form,
      with the values in order, gives each its own. */
  lemma StatementPositional(params: map<string, Param>, organization: Option<int>, o: Demands.PortOwner, ds: seq<Demands.Demand>, cutoff: int)
    requires PlainOwner(o) && Demands.AllAllowed(o, ds) && Demands.AllBound(params, organization, o, ds, cutoff)
    ensures forall c :: c in Demands.Clauses(organization, o, ds, cutoff) ==> OfPortDemand(c)
    ensures var sql := Written(StatementParts(o, Demands.Clauses(organization, o, ds, cutoff)));
      && Placeholders.OnlyNamed(sql) && (forall k :: k in Placeholders.FindAll(sql) ==> k in params)
      && var values := Placeholders.Values(Placeholders.FindAll(sql), params);
      && Placeholders.WellBound(Placeholders.Bound(Placeholders.Sub(sql), values))
      && Placeholders.Positional(Placeholders.Sub(sql), values) == Placeholders.Named(sql, params)
  {
    var cs := Demands.Clauses(organization, o, ds, cutoff);
    forall c | c in cs ensures ClauseFed(c, params) {
      ClausesFed(params, organization, o, ds, cutoff, c);
    }
    WhereFills(cs, o.column, params);
    var parts := StatementParts(o, cs);
    FillsJoin([Fixed(SELECT), Word(o.table), Fixed(ACTION_WHERE)], WhereParts(cs, o.column), params);
    FoundKeys(parts, params);
    Placeholders.SubHoles(Written(parts));
    Placeholders.ToPositional(Written(parts), params);
  }
}
