/** The positional scan of ports kept as JSON (facade/managers.py, _json_scan_params), for rows without
    port rows of their own, and how it relates to the relational matcher. */
module JsonScan {
  import opened Collections
  import opened Json
  import opened Keys
  import opened Logic3
  import opened Ports
  import opened Matcher

  // ---------------------------------------------------------------- ports as JSON

  function Text(s: Option<string>): Json {
    if s.Some? then Str(s.value) else Null
  }

  /** A port as its model is dumped. */
  function PortJson(p: Port): Json {
    Obj(map["key" := Str(p.key), "kind" := Str(p.kind), "identifier" := Text(p.identifier), "nullable" := Bool(p.nullable),
            "children" := Arr(PortsJson(p.children))])
  }

  function PortsJson(ps: seq<Port>): (js: seq<Json>)
    ensures |js| == |ps| && forall i :: 0 <= i < |ps| ==> js[i] == PortJson(ps[i])
  {
    if ps == [] then [] else PortsJson(ps[..|ps| - 1]) + [PortJson(ps[|ps| - 1])]
  }

  /** `item ->> field`, on fields that hold a string or null. */
  function TextOf(item: Option<Json>, field: string): Option<string> {
    if item.Some? && item.value.Obj? && field in item.value.fields && item.value.fields[field].Str? then Some(item.value.fields[field].s) else None
  }

  /** `item -> 'children' -> index`. */
  function ChildOf(item: Json, index: nat): Option<Json> {
    if item.Obj? && "children" in item.fields && item.fields["children"].Arr? && index < |item.fields["children"].items|
    then Some(item.fields["children"].items[index]) else None
  }

  // ---------------------------------------------------------------- the scan

  datatype Test =
    | PositionIs(position: int)
    | FieldIs(field: string, value: string)
    | ChildFieldIs(index: nat, field: string, value: string)

  /** `if value:`: a missing or empty string asks nothing. */
  function Asked(value: Option<string>, test: string -> Test): seq<Test> {
    if value.Some? && value.value != "" then [test(value.value)] else []
  }

  /** build_child_recursively: a child's key, kind and identifier, at its own position. */
  function ChildTests(m: Match, index: nat): seq<Test> {
    Asked(m.key, v => ChildFieldIs(index, "key", v))
    + Asked(m.kind, v => ChildFieldIs(index, "kind", v))
    + Asked(m.identifier, v => ChildFieldIs(index, "identifier", v))
  }

  function ChildrenTests(ms: seq<Match>): seq<Test>
    decreases |ms|
  {
    if ms == [] then [] else ChildrenTests(ms[..|ms| - 1]) + ChildTests(ms[|ms| - 1], |ms| - 1)
  }

  function FieldTests(m: Match): seq<Test> {
    Asked(m.key, v => FieldIs("key", v)) + Asked(m.kind, v => FieldIs("kind", v)) + Asked(m.identifier, v => FieldIs("identifier", v))
  }

  /** build_sql_for_item_recursive: `at` counts from 0, the ordinality from 1. */
  function Tests(m: Match): seq<Test> {
    (if m.at.Some? then [PositionIs(m.at.value + 1)] else []) + FieldTests(m) + ChildrenTests(m.children)
  }

  function Same(a: Option<string>, b: string): Truth {
    if a.Some? then Of(a.value == b) else UNKNOWN
  }

  function Holds(t: Test, item: Json, ordinality: nat): Truth {
    match t
    case PositionIs(position) => Of(ordinality == position)
    case FieldIs(field, value) => Same(TextOf(Some(item), field), value)
    case ChildFieldIs(index, field, value) => Same(TextOf(ChildOf(item, index), field), value)
  }

  ghost predicate Passes(m: Match, item: Json, ordinality: nat) {
    forall t :: t in Tests(m) ==> Holds(t, item, ordinality) == TRUE
  }

  /** `EXISTS (SELECT 1 FROM jsonb_array_elements(ports) WITH ORDINALITY ... WHERE ...)`. */
  ghost predicate ScanAccepts(m: Match, ports: seq<Json>) {
    exists i :: 0 <= i < |ports| && Passes(m, ports[i], i + 1)
  }

  // ---------------------------------------------------------------- what the scan means

  predicate Empty(v: Option<string>) {
    v in {None, Some("")}
  }

  /** The port has the key, kind and identifier the match gives; an empty text gives nothing. */
  predicate FieldsAgree(m: Match, p: Port) {
    && (Empty(m.key) || m.key == Some(p.key)) && (Empty(m.kind) || m.kind == Some(p.kind))
    && (Empty(m.identifier) || m.identifier == p.identifier)
  }

  /** The child at the match's own position agrees with it, if it gives anything. */
  predicate ChildInPlace(m: Match, p: Port, c: nat)
    requires c < |m.children|
  {
    || (Empty(m.children[c].key) && Empty(m.children[c].kind) && Empty(m.children[c].identifier))
    || (c < |p.children| && FieldsAgree(m.children[c], p.children[c]))
  }

  /** The port is where the match puts it and agrees with it, and its children with the match's, each at its
      own position. */
  predicate InPlace(m: Match, p: Port, at: nat) {
    && (m.at.Some? ==> m.at.value == at) && FieldsAgree(m, p)
    && forall c | 0 <= c < |m.children| :: ChildInPlace(m, p, c)
  }

  lemma {:induction false} ChildTestsAsked(ms: seq<Match>, index: nat, t: Test)
    requires index < |ms| && t in ChildTests(ms[index], index)
    ensures t in ChildrenTests(ms)
    decreases |ms|
  {
    if index < |ms| - 1 { ChildTestsAsked(ms[..|ms| - 1], index, t); }
  }

  lemma {:induction false} AskedOfChild(ms: seq<Match>, t: Test) returns (index: nat)
    requires t in ChildrenTests(ms)
    ensures index < |ms| && t in ChildTests(ms[index], index)
    decreases |ms|
  {
    var n := |ms| - 1;
    if t in ChildTests(ms[n], n) {
      index := n;
    } else {
      index := AskedOfChild(ms[..n], t);
    }
  }

  lemma TextsOf(p: Port)
    ensures TextOf(Some(PortJson(p)), "key") == Some(p.key) && TextOf(Some(PortJson(p)), "kind") == Some(p.kind)
    ensures TextOf(Some(PortJson(p)), "identifier") == p.identifier
  {}

  lemma ChildOfIs(p: Port, c: nat)
    ensures ChildOf(PortJson(p), c) == if c < |p.children| then Some(PortJson(p.children[c])) else None
  {}

  /** One field's test, if there is one, holds exactly when the field agrees. */
  lemma AskedOne(value: Option<string>, has: Option<string>, test: string -> Test, item: Json, ordinality: nat)
    requires forall v :: Holds(test(v), item, ordinality) == Same(has, v)
    ensures (forall t :: t in Asked(value, test) ==> Holds(t, item, ordinality) == TRUE) <==> Empty(value) || value == has
  {
    if !Empty(value) { assert test(value.value) in Asked(value, test); }
  }

  lemma FieldTestsMean(m: Match, p: Port, ordinality: nat)
    ensures (forall t :: t in FieldTests(m) ==> Holds(t, PortJson(p), ordinality) == TRUE) <==> FieldsAgree(m, p)
  {
    TextsOf(p);
    AskedOne(m.key, Some(p.key), v => FieldIs("key", v), PortJson(p), ordinality);
    AskedOne(m.kind, Some(p.kind), v => FieldIs("kind", v), PortJson(p), ordinality);
    AskedOne(m.identifier, p.identifier, v => FieldIs("identifier", v), PortJson(p), ordinality);
  }

  lemma ChildTestsMean(m: Match, p: Port, ordinality: nat, c: nat)
    requires c < |m.children|
    ensures (forall t :: t in ChildTests(m.children[c], c) ==> Holds(t, PortJson(p), ordinality) == TRUE) <==> ChildInPlace(m, p, c)
  {
    var child := m.children[c];
    var has := c < |p.children|;
    ChildOfIs(p, c);
    if has { TextsOf(p.children[c]); }
    AskedOne(child.key, if has then Some(p.children[c].key) else None, v => ChildFieldIs(c, "key", v), PortJson(p), ordinality);
    AskedOne(child.kind, if has then Some(p.children[c].kind) else None, v => ChildFieldIs(c, "kind", v), PortJson(p), ordinality);
    AskedOne(child.identifier, if has then p.children[c].identifier else None, v => ChildFieldIs(c, "identifier", v), PortJson(p), ordinality);
  }

  lemma PassesIff(m: Match, p: Port, i: nat)
    ensures Passes(m, PortJson(p), i + 1) <==> InPlace(m, p, i)
  {
    FieldTestsMean(m, p, i + 1);
    if Passes(m, PortJson(p), i + 1) {
      if m.at.Some? { assert PositionIs(m.at.value + 1) in Tests(m); }
      forall c | 0 <= c < |m.children| ensures ChildInPlace(m, p, c) {
        forall t | t in ChildTests(m.children[c], c) ensures t in Tests(m) {
          ChildTestsAsked(m.children, c, t);
        }
        ChildTestsMean(m, p, i + 1, c);
      }
    }
    if InPlace(m, p, i) {
      forall t | t in Tests(m) ensures Holds(t, PortJson(p), i + 1) == TRUE {
        if t in ChildrenTests(m.children) {
          var c := AskedOfChild(m.children, t);
          ChildTestsMean(m, p, i + 1, c);
        }
      }
    }
  }

  /** The scan accepts a port list exactly when a port is in place for the match. */
  lemma ScanMeans(m: Match, ports: seq<Port>)
    ensures ScanAccepts(m, PortsJson(ports)) <==> exists i :: 0 <= i < |ports| && InPlace(m, ports[i], i)
  {
    var js := PortsJson(ports);
    if ScanAccepts(m, js) {
      var i :| 0 <= i < |js| && Passes(m, js[i], i + 1);
      PassesIff(m, ports[i], i);
    }
    if i :| 0 <= i < |ports| && InPlace(m, ports[i], i) {
      PassesIff(m, ports[i], i);
      assert Passes(m, js[i], i + 1);
    }
  }

  // ---------------------------------------------------------------- where the scan is as strict as the matcher

  /** A match the scan expresses in full: no object, nullability or dimension, no empty text. */
  predicate Expressible(m: Match) {
    && m.descriptors == [] && m.nullable.None? && m.dimension.None?
    && m.key != Some("") && m.kind != Some("") && m.identifier != Some("")
  }

  /** At most one level of children, themselves without a position, and each giving something. */
  predicate Scannable(m: Match) {
    && Expressible(m)
    && forall c | c in m.children ::
      Expressible(c) && c.at.None? && c.children == [] && (c.key.Some? || c.kind.Some? || c.identifier.Some?)
  }

  /** So what the scan accepts satisfies the match: positions are one way for children to satisfy theirs. */
  lemma ScanRefinesMatcher(m: Match, ports: seq<Port>, able: Option<Able>)
    requires Scannable(m)
    requires ScanAccepts(m, PortsJson(ports))
    ensures SomeSatisfies(m, ports, able)
  {
    ScanMeans(m, ports);
    var i :| 0 <= i < |ports| && InPlace(m, ports[i], i);
    forall c | 0 <= c < |m.children| ensures SomeSatisfies(m.children[c], ports[i].children, None) {
      assert m.children[c] in m.children && ChildInPlace(m, ports[i], c);
      assert Satisfies(m.children[c], ports[i].children[c], c, None);
    }
    assert Satisfies(m, ports[i], i, able);
  }

  /** And so by the EXISTS of the same match on the ports' rows. */
  lemma ScanRefinesExists(db: Database, owner: nat, env: map<string, Row>, params: map<string, Param>, m: Match, table: string,
                          path: Path, fits: Option<int>, ports: seq<Port>)
    requires Scannable(m)
    requires Bound(params, m, path, fits) && Represents(RowsOf(db, table), owner, None, "", ports)
    requires ScanAccepts(m, PortsJson(ports))
    ensures Eval(db, owner, env, params, Compiled(m, table, None, path, fits.Some?)) == TRUE
  {
    ScanRefinesMatcher(m, ports, AbleIn(db, owner, fits));
    MatchMeans(db, owner, env, params, m, table, None, path, fits, "", ports);
  }

  /** Not the other way round: a child the match finds at another position the scan does not. */
  lemma ScanIsPositional()
    ensures var child := Match(None, Some("b"), None, None, None, None, [], []);
      var m := Match(None, None, Some("LIST"), None, None, None, [], [child]);
      var a, b := Port("a", "INT", None, None, false, [], []), Port("b", "INT", None, None, false, [], []);
      var ports := [Port("x", "LIST", None, None, false, [], [a, b])];
      Scannable(m) && SomeSatisfies(m, ports, None) && !ScanAccepts(m, PortsJson(ports))
  {
    var child := Match(None, Some("b"), None, None, None, None, [], []);
    var m := Match(None, None, Some("LIST"), None, None, None, [], [child]);
    var a, b := Port("a", "INT", None, None, false, [], []), Port("b", "INT", None, None, false, [], []);
    var p := Port("x", "LIST", None, None, false, [], [a, b]);
    assert Satisfies(child, p.children[1], 1, None);
    assert SomeSatisfies(m.children[0], p.children, None);
    assert Satisfies(m, p, 0, None);
    ScanMeans(m, [p]);
    assert !ChildInPlace(m, p, 0);
  }
}
