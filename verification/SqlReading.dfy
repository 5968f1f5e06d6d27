/** A port-demand statement read back from its parts: it is the text of no other statement. */
module SqlReading {
  import opened Collections
  import opened Keys
  import opened Matcher
  import opened Statements
  import opened SqlText
  import Demands

  // ---------------------------------------------------------------- reading

  function ColumnOf(name: string): Option<Column> {
    match name
    case "index" => Some(Index)
    case "key" => Some(KeyName)
    case "kind" => Some(Kind)
    case "identifier" => Some(Identifier)
    case "dimension" => Some(Dimension)
    case "nullable" => Some(Nullable)
    case _ => None
  }

  /** A condition on an alias's column. */
  function ReadColumn(ts: seq<Part>, column: string): (r: Option<(Sql, seq<Part>)>)
    ensures r.Some? ==> |r.value.1| < |ts|
  {
    if |ts| < 2 || !ts[0].Word? then None
    else if ts[1] == Fixed(IS_ROOT) then Some((IsRoot(ts[0].text), ts[2..]))
    else if |ts| < 4 || !ts[2].Word? then None
    else if ts[1] == Fixed(PARENT_ID) && ts[3] == Fixed(ID) then Some((ParentIs(ts[0].text, ts[2].text), ts[4..]))
    else if ts[1] == Fixed(DOT) && ts[2].text == column && ts[3] == Fixed(OWNER_ID) then Some((OwnerIs(ts[0].text), ts[4..]))
    else if |ts| >= 5 && ts[1] == Fixed(DOT) && ColumnOf(ts[2].text).Some? && ts[3] == Fixed(EQUALS) && ts[4].Hole? then
      Some((ColumnIs(ts[0].text, ColumnOf(ts[2].text).value, ts[4].key), ts[5..]))
    else None
  }

  predicate IsAdmits(ts: seq<Part>) {
    && |ts| >= 9 && ts[1].Word? && ts[4].Hole?
    && ts[..4] == [Fixed(OPEN), ts[1], Fixed(NO_PATH), Fixed(OR_MATCHES)]
    && ts[5..9] == [Fixed(AS_JSON), ts[1], Fixed(PATH), Fixed(NO_VARS)]
  }

  /** No live implementation with a fit, or a live one, its fits joined LEFT, without any or with one that holds. */
  predicate IsFits(ts: seq<Part>) {
    && |ts| >= 48 && ts[9].Word? && ts[17].Hole? && ts[41].Hole?
    && ts[..2] == [Fixed(NOT), Fixed(EXISTS)] && ts[5] == Fixed(JOIN) && ts[12] == ts[9]
    && ts[18..21] == [Fixed(CLOSE_BOTH), Fixed(OR), Fixed(EXISTS)] && ts[24..26] == [Fixed(LEFT), Fixed(JOIN)]
    && ts[29] == ts[9] && ts[32] == ts[9] && ts[37] == ts[17]
    && ts[39..41] == [Fixed(NO_FIT), Fixed(OR_MATCHES)]
  }

  /** A condition on the object: the port's own path, or the limits of implementations. */
  function ReadObject(ts: seq<Part>): (r: Option<(Sql, seq<Part>)>)
    ensures r.Some? ==> |r.value.1| < |ts|
  {
    if IsAdmits(ts) then Some((PathAdmits(ts[1].text, ts[4].key), ts[9..]))
    else if IsFits(ts) then Some((FitsObject(ts[9].text, ts[41].key, ts[17].key), ts[48..]))
    else None
  }

  /** The condition the parts begin with, and what follows it. */
  function ReadSql(ts: seq<Part>, column: string): (r: Option<(Sql, seq<Part>)>)
    ensures r.Some? ==> |r.value.1| < |ts|
    decreases |ts|, 0
  {
    if ts != [] && ts[0] == Fixed(EXISTS) then
      if |ts| > 5 && ts[1].Word? && ts[2] == Fixed(SPACE) && ts[3].Word? && ts[4] == Fixed(WHERE) then
        match ReadAnd(ts[5..], column)
        case Some((cs, rest)) =>
          if rest != [] && rest[0] == Fixed(CLOSE) then Some((Exists(ts[1].text, ts[3].text, cs), rest[1..])) else None
        case None => None
      else None
    else if ts != [] && ts[0].Word? then ReadColumn(ts, column)
    else ReadObject(ts)
  }

  function ReadAnd(ts: seq<Part>, column: string): (r: Option<(seq<Sql>, seq<Part>)>)
    ensures r.Some? ==> |r.value.1| < |ts|
    decreases |ts|, 1
  {
    match ReadSql(ts, column)
    case None => None
    case Some((c, rest)) =>
      if rest == [] || rest[0] != Fixed(AND) then Some(([c], rest))
      else
        match ReadAnd(rest[1..], column)
        case None => None
        case Some((cs, more)) => Some(([c] + cs, more))
  }

  function RootsOf(f: Part): Option<Roots> {
    if f == Fixed(ALL_OF_THEM) then Some(AllRoots)
    else if f == Fixed(NOT_NULLABLE) then Some(NonNullable)
    else if f == Fixed(OF_STRUCTURE) then Some(Structures)
    else None
  }

  function ReadClause(ts: seq<Part>, column: string): (r: Option<(Clause, seq<Part>)>)
    ensures r.Some? ==> |r.value.1| < |ts|
  {
    if |ts| >= 2 && ts[0] == Fixed(ORGANIZATION) && ts[1].Hole? then Some((OrganizationIs(ts[1].key), ts[2..]))
    else if |ts| >= 4 && ts[0] == Fixed(OWN) && ts[1].Word? && ts[2] == Fixed(EQUALS) && ts[3].Hole? then
      Some((CountColumnIs(ts[1].text, ts[3].key), ts[4..]))
    else if |ts| >= 9 && ts[0] == Fixed(COUNT) && ts[1].Word? && ts[2..6] == [Fixed(COUNTED), Word(column), Fixed(OWNER_ID), Fixed(COUNT_ROOTS)]
         && RootsOf(ts[6]).Some? && ts[7] == Fixed(COUNT_IS) && ts[8].Hole? then
      Some((RootCountIs(ts[1].text, RootsOf(ts[6]).value, ts[8].key), ts[9..]))
    else
      match ReadSql(ts, column)
      case Some((sql, rest)) => Some((Matches(sql), rest))
      case None => None
  }

  function ReadWhere(ts: seq<Part>, column: string): (r: Option<seq<Clause>>)
    decreases |ts|
  {
    match ReadClause(ts, column)
    case None => None
    case Some((c, rest)) =>
      if rest == [] then Some([c])
      else if rest[0] != Fixed(AND) then None
      else
        match ReadWhere(rest[1..], column)
        case None => None
        case Some(cs) => Some([c] + cs)
  }

  /** The table a statement selects from, and its conditions. */
  function ReadStatement(ts: seq<Part>, column: string): Option<(string, seq<Clause>)> {
    if |ts| > 3 && ts[0] == Fixed(SELECT) && ts[1].Word? && ts[2] == Fixed(ACTION_WHERE) then
      match ReadWhere(ts[3..], column)
      case Some(cs) => Some((ts[1].text, cs))
      case None => None
    else None
  }

  // ---------------------------------------------------------------- conditions read back

  /** Every EXISTS in it has conditions. */
  predicate Whole(c: Sql) {
    c.Exists? ==> c.conditions != [] && forall d | d in c.conditions :: Whole(d)
  }

  /** No further condition follows. */
  predicate Ends(tail: seq<Part>) {
    tail == [] || tail[0] != Fixed(AND)
  }

  lemma ColumnReadsBack(c: Sql, column: string, tail: seq<Part>)
    requires c.OwnerIs? || c.IsRoot? || c.ParentIs? || c.ColumnIs?
    ensures ReadSql(SqlParts(c, column) + tail, column) == Some((c, tail))
  {
    var ts := SqlParts(c, column) + tail;
    assert ts[|SqlParts(c, column)|..] == tail;
  }

  lemma AdmitsReadsBack(alias: string, candidate: string, tail: seq<Part>)
    ensures ReadObject(AdmitsParts(alias, candidate) + tail) == Some((PathAdmits(alias, candidate), tail))
  {
    assert (AdmitsParts(alias, candidate) + tail)[9..] == tail;
  }

  /** The two halves of the condition, and where their words stand. */
  lemma FirstHalf(alias: string, cutoff: string, half: seq<Part>)
    requires half == [Fixed(NOT)] + FromFits(alias, []) + LiveAgent(cutoff)
    ensures |half| == 19 && half[..2] == [Fixed(NOT), Fixed(EXISTS)] && half[5] == Fixed(JOIN)
    ensures half[9] == half[12] == Word(alias) && half[17] == Hole(cutoff) && half[18] == Fixed(CLOSE_BOTH)
  {}

  lemma SecondHalf(alias: string, cutoff: string, half: seq<Part>)
    requires half == [Fixed(OR)] + FromFits(alias, [Fixed(LEFT)]) + LiveAgent(cutoff)
    ensures |half| == 20 && half[..2] == [Fixed(OR), Fixed(EXISTS)] && half[5..7] == [Fixed(LEFT), Fixed(JOIN)]
    ensures half[10] == half[13] == Word(alias) && half[18] == Hole(cutoff)
  {}

  lemma FitsReadsBack(alias: string, candidate: string, cutoff: string, tail: seq<Part>)
    ensures ReadObject(FitsParts(alias, candidate, cutoff) + tail) == Some((FitsObject(alias, candidate, cutoff), tail))
  {
    var first := [Fixed(NOT)] + FromFits(alias, []) + LiveAgent(cutoff);
    var second := [Fixed(OR)] + FromFits(alias, [Fixed(LEFT)]) + LiveAgent(cutoff);
    var last := MatchesFit(candidate);
    FirstHalf(alias, cutoff, first);
    SecondHalf(alias, cutoff, second);
    assert |last| == 9 && last[..2] == [Fixed(NO_FIT), Fixed(OR_MATCHES)] && last[2] == Hole(candidate);
    var ts := FitsParts(alias, candidate, cutoff) + tail;
    assert ts[..19] == first && ts[19..39] == second && ts[39..48] == last && ts[48..] == tail;
    assert forall k :: 0 <= k < 20 ==> ts[19 + k] == ts[19..39][k];
    assert forall k :: 0 <= k < 9 ==> ts[39 + k] == ts[39..48][k];
    assert ts[24..26] == second[5..7] && ts[18..21] == [first[18]] + second[..2] && ts[39..41] == last[..2];
    assert ts[..2] == first[..2];
  }

  /** A condition's parts read back as the condition, whatever follows. */
  lemma {:induction false} SqlReadsBack(c: Sql, column: string, tail: seq<Part>)
    requires Whole(c)
    ensures ReadSql(SqlParts(c, column) + tail, column) == Some((c, tail))
    decreases c, 0
  {
    match c
    case PathAdmits(alias, candidate) => AdmitsReadsBack(alias, candidate, tail);
    case FitsObject(alias, candidate, cutoff) => FitsReadsBack(alias, candidate, cutoff, tail);
    case Exists(table, alias, conditions) =>
      var inner := AndParts(conditions, column) + ([Fixed(CLOSE)] + tail);
      AndReadsBack(conditions, column, [Fixed(CLOSE)] + tail);
      assert SqlParts(c, column) + tail == ExistsHead(table, alias) + inner;
      assert (ExistsHead(table, alias) + inner)[5..] == inner;
      assert ([Fixed(CLOSE)] + tail)[1..] == tail;
    case _ => ColumnReadsBack(c, column, tail);
  }

  lemma {:induction false} AndFirst(cs: seq<Sql>, column: string)
    requires |cs| > 1
    ensures AndParts(cs, column) == SqlParts(cs[0], column) + ([Fixed(AND)] + AndParts(cs[1..], column))
    decreases |cs|
  {
    var n := |cs| - 1;
    if n > 1 {
      AndFirst(cs[..n], column);
      assert cs[..n][1..] == cs[1..][..n - 1];
    }
  }

  lemma Regroup(a: seq<Part>, b: seq<Part>, tail: seq<Part>)
    ensures (a + ([Fixed(AND)] + b)) + tail == a + ([Fixed(AND)] + (b + tail))
  {}

  lemma FirstOf<T>(cs: seq<T>)
    requires cs != []
    ensures cs == [cs[0]] + cs[1..] && cs[0] in cs && forall c :: c in cs[1..] ==> c in cs
  {}

  lemma OneMoreRead(ts: seq<Part>, column: string, c: Sql, more: seq<Part>, cs: seq<Sql>, tail: seq<Part>)
    requires ReadSql(ts, column) == Some((c, [Fixed(AND)] + more)) && ReadAnd(more, column) == Some((cs, tail))
    ensures ReadAnd(ts, column) == Some(([c] + cs, tail))
  {
    assert ([Fixed(AND)] + more)[1..] == more;
  }

  lemma {:induction false} AndReadsBack(cs: seq<Sql>, column: string, tail: seq<Part>)
    requires cs != [] && (forall c :: c in cs ==> Whole(c)) && Ends(tail)
    ensures ReadAnd(AndParts(cs, column) + tail, column) == Some((cs, tail))
    decreases cs, |cs|
  {
    if |cs| == 1 {
      SqlReadsBack(cs[0], column, tail);
      assert cs == [cs[0]];
    } else {
      var more := AndParts(cs[1..], column) + tail;
      FirstOf(cs);
      AndReadsBack(cs[1..], column, tail);
      SqlReadsBack(cs[0], column, [Fixed(AND)] + more);
      AndFirst(cs, column);
      Regroup(SqlParts(cs[0], column), AndParts(cs[1..], column), tail);
      OneMoreRead(SqlParts(cs[0], column) + ([Fixed(AND)] + more), column, cs[0], more, cs[1..], tail);
    }
  }

  // ---------------------------------------------------------------- statements read back

  predicate WholeClause(c: Clause) {
    OfPortDemand(c) && (c.Matches? ==> c.sql.Exists? && Whole(c.sql))
  }

  lemma CountReadsBack(table: string, roots: Roots, param: string, column: string, tail: seq<Part>)
    ensures var c := RootCountIs(table, roots, param); ReadClause(ClauseParts(c, column) + tail, column) == Some((c, tail))
  {
    var ts := ClauseParts(RootCountIs(table, roots, param), column) + tail;
    assert ts[9..] == tail;
    assert ts[2..6] == [Fixed(COUNTED), Word(column), Fixed(OWNER_ID), Fixed(COUNT_ROOTS)];
  }

  lemma ClauseReadsBack(c: Clause, column: string, tail: seq<Part>)
    requires WholeClause(c)
    ensures ReadClause(ClauseParts(c, column) + tail, column) == Some((c, tail))
  {
    var ts := ClauseParts(c, column) + tail;
    match c
    case OrganizationIs(param) => assert ts[2..] == tail;
    case CountColumnIs(name, param) => assert ts[4..] == tail;
    case RootCountIs(table, roots, param) => CountReadsBack(table, roots, param, column, tail);
    case Matches(sql) =>
      SqlReadsBack(sql, column, tail);
      assert ts[0] == Fixed(EXISTS);
  }

  ghost predicate AllWhole(cs: seq<Clause>) {
    forall c :: c in cs ==> WholeClause(c)
  }

  lemma WholesOf(cs: seq<Clause>)
    requires AllWhole(cs) && cs != []
    ensures AllWhole(cs[1..]) && AllWhole(cs[..|cs| - 1]) && WholeClause(cs[0]) && WholeClause(cs[|cs| - 1])
    ensures forall c :: c in cs ==> OfPortDemand(c)
  {}

  lemma WhereLast(cs: seq<Clause>, column: string)
    requires AllWhole(cs) && |cs| > 1
    ensures (forall c :: c in cs ==> OfPortDemand(c)) && (forall c :: c in cs[..|cs| - 1] ==> OfPortDemand(c))
    ensures OfPortDemand(cs[|cs| - 1])
    ensures WhereParts(cs, column) == WhereParts(cs[..|cs| - 1], column) + [Fixed(AND)] + ClauseParts(cs[|cs| - 1], column)
  {}

  lemma {:induction false} WhereFirst(cs: seq<Clause>, column: string)
    requires AllWhole(cs) && |cs| > 1
    ensures (forall c :: c in cs ==> OfPortDemand(c)) && (forall c :: c in cs[1..] ==> OfPortDemand(c)) && OfPortDemand(cs[0])
    ensures WhereParts(cs, column) == ClauseParts(cs[0], column) + ([Fixed(AND)] + WhereParts(cs[1..], column))
    decreases |cs|
  {
    var n := |cs| - 1;
    WholesOf(cs);
    WhereLast(cs, column);
    if n > 1 {
      WholesOf(cs[1..]);
      WhereFirst(cs[..n], column);
      WhereLast(cs[1..], column);
      assert cs[..n][1..] == cs[1..][..n - 1];
      JoinedApart(ClauseParts(cs[0], column), WhereParts(cs[1..][..n - 1], column), ClauseParts(cs[n], column));
    }
  }

  lemma JoinedApart(a: seq<Part>, b: seq<Part>, c: seq<Part>)
    ensures (a + ([Fixed(AND)] + b)) + [Fixed(AND)] + c == a + ([Fixed(AND)] + (b + [Fixed(AND)] + c))
  {}

  lemma OneMoreClause(ts: seq<Part>, column: string, c: Clause, more: seq<Part>, cs: seq<Clause>)
    requires ReadClause(ts, column) == Some((c, [Fixed(AND)] + more)) && ReadWhere(more, column) == Some(cs)
    ensures ReadWhere(ts, column) == Some([c] + cs)
  {
    assert ([Fixed(AND)] + more)[1..] == more;
  }

  lemma {:induction false} WhereReadsBack(cs: seq<Clause>, column: string)
    requires cs != [] && AllWhole(cs)
    ensures (forall c :: c in cs ==> OfPortDemand(c)) && ReadWhere(WhereParts(cs, column), column) == Some(cs)
    decreases |cs|
  {
    WholesOf(cs);
    if |cs| == 1 {
      ClauseReadsBack(cs[0], column, []);
      assert cs == [cs[0]];
      assert ClauseParts(cs[0], column) + [] == WhereParts(cs, column);
    } else {
      WhereFirst(cs, column);
      var more := WhereParts(cs[1..], column);
      WhereReadsBack(cs[1..], column);
      ClauseReadsBack(cs[0], column, [Fixed(AND)] + more);
      OneMoreClause(WhereParts(cs, column), column, cs[0], more, cs[1..]);
      FirstOf(cs);
    }
  }

  // ---------------------------------------------------------------- what is built

  lemma {:induction false} CompiledWhole(m: Match, table: string, parent: Option<string>, path: Path, fits: bool)
    ensures Compiled(m, table, parent, path, fits).Exists? && Whole(Compiled(m, table, parent, path, fits))
    decreases m
  {
    forall c | c in Conditions(m, table, parent, path, fits) ensures Whole(c) {
      if c in Children(m, table, path) {
        var i :| 0 <= i < |m.children| && Children(m, table, path)[i] == c;
        CompiledWhole(m.children[i], table, Some(NamesAt(path).alias), Child(path, i), false);
      } else if c in Own(m, NamesAt(path), fits) {
        OwnAre(m, NamesAt(path), fits, c);
      } else {
        assert c in Correlation(NamesAt(path).alias, parent);
      }
    }
  }

  lemma DemandWhole(o: Demands.PortOwner, d: Demands.Demand, index: nat, cutoff: int, c: Clause)
    requires Demands.Allowed(o, d) && c in Demands.DemandClauses(o, d, index, cutoff)
    ensures WholeClause(c)
  {
    var matches := Demands.DemandMatchClauses(o, d, index, cutoff);
    if c in matches {
      var i :| 0 <= i < |matches| && matches[i] == c;
      var table := o.portTables[d.kind];
      CompiledWhole(d.matches[i], table, None, Child(Demands.DemandPath(index), i), Demands.FitsFor(o, table, cutoff).Some?);
    }
  }

  lemma {:induction false} ClausesWhole(organization: Option<int>, o: Demands.PortOwner, ds: seq<Demands.Demand>, cutoff: int, c: Clause)
    requires Demands.AllAllowed(o, ds) && c in Demands.Clauses(organization, o, ds, cutoff)
    ensures WholeClause(c)
    decreases |ds|
  {
    if ds != [] {
      var n := |ds| - 1;
      assert ds[n] in ds && forall d :: d in ds[..n] ==> d in ds;
      if c in Demands.DemandClauses(o, ds[n], n, cutoff) {
        DemandWhole(o, ds[n], n, cutoff, c);
      } else {
        ClausesWhole(organization, o, ds[..n], cutoff, c);
      }
    }
  }

  /** The parts a statement is written in read back as its table and exactly the demands' clauses. */
  lemma StatementReadsBack(organization: Option<int>, o: Demands.PortOwner, ds: seq<Demands.Demand>, cutoff: int)
    requires Demands.AllAllowed(o, ds) && Demands.Clauses(organization, o, ds, cutoff) != []
    ensures forall c :: c in Demands.Clauses(organization, o, ds, cutoff) ==> OfPortDemand(c)
    ensures ReadStatement(StatementParts(o, Demands.Clauses(organization, o, ds, cutoff)), o.column)
      == Some((o.table, Demands.Clauses(organization, o, ds, cutoff)))
  {
    var cs := Demands.Clauses(organization, o, ds, cutoff);
    forall c | c in cs ensures WholeClause(c) {
      ClausesWhole(organization, o, ds, cutoff, c);
    }
    WhereReadsBack(cs, o.column);
    assert StatementParts(o, cs)[3..] == WhereParts(cs, o.column);
    assert WhereParts(cs, o.column) != [];
  }
}
