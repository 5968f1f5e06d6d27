/** Named placeholders rewritten to positional ones (facade/managers.py, _to_positional), and statements
    embedded in and joined to others. */
module Placeholders {

  /** What the database is sent: characters of the statement, and values where placeholders stood. */
  datatype Piece<V> = Char(c: char) | Value(v: V)

  /** `\w`, on ASCII. */
  predicate IsWord(c: char) {
    'a' <= c <= 'z' || 'A' <= c <= 'Z' || '0' <= c <= '9' || c == '_'
  }

  lemma WordEnds()
    ensures forall c :: c in ['a', 'z', 'A', 'Z', '0', '9', '_'] ==> IsWord(c)
    ensures forall c :: c in ['%', '(', ')', '.', '"', '\'', ' '] ==> !IsWord(c)
  {}

  /** How many word characters `s` starts with. */
  function WordLength(s: string): (n: nat)
    ensures n <= |s| && forall i :: 0 <= i < n ==> IsWord(s[i])
    ensures n < |s| ==> !IsWord(s[n])
  {
    if s == "" || !IsWord(s[0]) then 0 else 1 + WordLength(s[1..])
  }

  /** The length of the match of `%\((\w+)\)s` that `s` starts with; 0 when there is none. */
  function NamedLength(s: string): (n: nat)
    ensures n <= |s| && (n > 0 ==> n > 4)
  {
    if |s| >= 2 && s[..2] == "%(" then
      var n := WordLength(s[2..]);
      if n > 0 && 2 + n + 2 <= |s| && s[2 + n..2 + n + 2] == ")s" then n + 4 else 0
    else 0
  }

  function KeyOf(s: string): string
    requires NamedLength(s) > 0
  {
    s[2..NamedLength(s) - 2]
  }

  /** re.findall: the keys, left to right. */
  function FindAll(sql: string): seq<string>
    decreases |sql|
  {
    if sql == "" then []
    else if NamedLength(sql) > 0 then [KeyOf(sql)] + FindAll(sql[NamedLength(sql)..])
    else FindAll(sql[1..])
  }

  /** re.sub with `%s`. */
  function Sub(sql: string): string
    decreases |sql|
  {
    if sql == "" then ""
    else if NamedLength(sql) > 0 then "%s" + Sub(sql[NamedLength(sql)..])
    else [sql[0]] + Sub(sql[1..])
  }

  /** `[params[key] for key in keys]`; a key without a value raises. */
  function Values<V>(keys: seq<string>, params: map<string, V>): seq<V>
    requires forall k :: k in keys ==> k in params
  {
    seq(|keys|, i requires 0 <= i < |keys| => params[keys[i]])
  }

  /** Every `%` of the statement starts a named placeholder. */
  predicate OnlyNamed(sql: string)
    decreases |sql|
  {
    sql == "" || if NamedLength(sql) > 0 then OnlyNamed(sql[NamedLength(sql)..]) else sql[0] != '%' && OnlyNamed(sql[1..])
  }

  /** What a statement with named placeholders means: each stands for its own key's value. */
  function Named<V>(sql: string, params: map<string, V>): seq<Piece<V>>
    requires forall k :: k in FindAll(sql) ==> k in params
    decreases |sql|
  {
    if sql == "" then []
    else if NamedLength(sql) > 0 then
      var rest := sql[NamedLength(sql)..];
      assert FindAll(sql) == [KeyOf(sql)] + FindAll(rest);
      [Value(params[KeyOf(sql)])] + Named(rest, params)
    else [Char(sql[0])] + Named(sql[1..], params)
  }

  /** How many positional placeholders a statement has. */
  function Holes(sql: string): nat
    decreases |sql|
  {
    if sql == "" then 0
    else if |sql| >= 2 && sql[..2] == "%s" then 1 + Holes(sql[2..])
    else Holes(sql[1..])
  }

  /** Every `%` of the statement starts a positional placeholder. */
  predicate OnlyPositional(sql: string)
    decreases |sql|
  {
    sql == "" || if |sql| >= 2 && sql[..2] == "%s" then OnlyPositional(sql[2..]) else sql[0] != '%' && OnlyPositional(sql[1..])
  }

  /** What a statement with positional placeholders means: they take the values in order. */
  function Positional<V>(sql: string, values: seq<V>): seq<Piece<V>>
    requires |values| == Holes(sql)
    decreases |sql|
  {
    if sql == "" then []
    else if |sql| >= 2 && sql[..2] == "%s" then [Value(values[0])] + Positional(sql[2..], values[1..])
    else [Char(sql[0])] + Positional(sql[1..], values)
  }

  lemma HolePut(sub: string)
    requires OnlyPositional(sub)
    ensures OnlyPositional("%s" + sub) && Holes("%s" + sub) == 1 + Holes(sub)
  {
    var text := "%s" + sub;
    assert text[..2] == "%s" && text[2..] == sub;
  }

  lemma CharPut(c: char, sub: string)
    requires OnlyPositional(sub) && c != '%'
    ensures OnlyPositional([c] + sub) && Holes([c] + sub) == Holes(sub)
  {
    var text := [c] + sub;
    assert text[0] == c && text[1..] == sub;
  }

  lemma {:induction false} SubHoles(sql: string)
    requires OnlyNamed(sql)
    ensures OnlyPositional(Sub(sql)) && Holes(Sub(sql)) == |FindAll(sql)|
    decreases |sql|
  {
    if sql == "" {
    } else if NamedLength(sql) > 0 {
      SubHoles(sql[NamedLength(sql)..]);
      HolePut(Sub(sql[NamedLength(sql)..]));
    } else {
      SubHoles(sql[1..]);
      CharPut(sql[0], Sub(sql[1..]));
    }
  }

  lemma PositionalHole<V>(sql: string, values: seq<V>)
    requires |sql| >= 2 && sql[..2] == "%s" && |values| == Holes(sql)
    ensures |values| > 0 && Holes(sql[2..]) == |values[1..]|
    ensures Positional(sql, values) == [Value(values[0])] + Positional(sql[2..], values[1..])
  {}

  lemma PositionalChar<V>(sql: string, values: seq<V>)
    requires sql != "" && !(|sql| >= 2 && sql[..2] == "%s") && |values| == Holes(sql)
    ensures Holes(sql[1..]) == |values| && Positional(sql, values) == [Char(sql[0])] + Positional(sql[1..], values)
  {}

  lemma PositionalHolePut<V>(sub: string, value: V, values: seq<V>)
    requires OnlyPositional(sub) && |values| == Holes(sub)
    ensures Holes("%s" + sub) == |[value] + values|
    ensures Positional("%s" + sub, [value] + values) == [Value(value)] + Positional(sub, values)
  {
    var text := "%s" + sub;
    HolePut(sub);
    assert text[..2] == "%s" && text[2..] == sub && ([value] + values)[1..] == values;
    PositionalHole(text, [value] + values);
  }

  lemma PositionalCharPut<V>(c: char, sub: string, values: seq<V>)
    requires OnlyPositional(sub) && c != '%' && |values| == Holes(sub)
    ensures Holes([c] + sub) == |values| && Positional([c] + sub, values) == [Char(c)] + Positional(sub, values)
  {
    var text := [c] + sub;
    CharPut(c, sub);
    assert text[0] == c && text[1..] == sub;
    PositionalChar(text, values);
  }

  lemma ValuesFirst<V>(key: string, keys: seq<string>, params: map<string, V>)
    requires key in params && forall k :: k in keys ==> k in params
    ensures Values([key] + keys, params) == [params[key]] + Values(keys, params)
  {}

  lemma SubFirst<V>(sql: string, rest: string, params: map<string, V>)
    requires NamedLength(sql) > 0 && rest == sql[NamedLength(sql)..] && forall k :: k in FindAll(sql) ==> k in params
    ensures FindAll(sql) == [KeyOf(sql)] + FindAll(rest) && Sub(sql) == "%s" + Sub(rest)
    ensures (forall k :: k in FindAll(rest) ==> k in params) && KeyOf(sql) in params
    ensures Named(sql, params) == [Value(params[KeyOf(sql)])] + Named(rest, params)
  {
    assert FindAll(sql)[0] == KeyOf(sql);
  }

  lemma SubChar<V>(sql: string, params: map<string, V>)
    requires sql != "" && NamedLength(sql) == 0 && forall k :: k in FindAll(sql) ==> k in params
    ensures FindAll(sql) == FindAll(sql[1..]) && Sub(sql) == [sql[0]] + Sub(sql[1..])
    ensures Named(sql, params) == [Char(sql[0])] + Named(sql[1..], params)
  {}

  /** Rewriting leaves every placeholder bound to its own value: the positional statement with the
      values in order is the named statement. */
  lemma {:induction false} ToPositional<V>(sql: string, params: map<string, V>)
    requires OnlyNamed(sql) && forall k :: k in FindAll(sql) ==> k in params
    ensures Holes(Sub(sql)) == |FindAll(sql)| && Positional(Sub(sql), Values(FindAll(sql), params)) == Named(sql, params)
    decreases |sql|
  {
    SubHoles(sql);
    if sql == "" {
    } else if NamedLength(sql) > 0 {
      SubHoles(sql[NamedLength(sql)..]);
      var rest := sql[NamedLength(sql)..];
      SubFirst(sql, rest, params);
      ValuesFirst(KeyOf(sql), FindAll(rest), params);
      ToPositional(rest, params);
      PositionalHolePut(Sub(rest), params[KeyOf(sql)], Values(FindAll(rest), params));
    } else {
      SubHoles(sql[1..]);
      SubChar(sql, params);
      ToPositional(sql[1..], params);
      PositionalCharPut(sql[0], Sub(sql[1..]), Values(FindAll(sql), params));
    }
  }

  lemma HoleFirst(a: string, b: string)
    requires |a| >= 2 && a[..2] == "%s"
    ensures (a + b)[2..] == a[2..] + b && (a + b)[..2] == "%s"
  {}

  lemma CharFirst(a: string, b: string)
    requires a != ""
    ensures (a + b)[1..] == a[1..] + b && (a + b)[0] == a[0]
  {}

  lemma {:induction false} ConcatenatedHoles(a: string, b: string)
    requires OnlyPositional(a) && OnlyPositional(b)
    ensures OnlyPositional(a + b) && Holes(a + b) == Holes(a) + Holes(b)
    decreases |a|
  {
    if a == "" {
      assert a + b == b;
    } else if |a| >= 2 && a[..2] == "%s" {
      ConcatenatedHoles(a[2..], b);
      HoleFirst(a, b);
    } else {
      ConcatenatedHoles(a[1..], b);
      CharFirst(a, b);
    }
  }

  lemma NotAHole(a: string, b: string)
    requires OnlyPositional(a) && a != "" && !(|a| >= 2 && a[..2] == "%s")
    ensures OnlyPositional(a[1..]) && !(|a + b| >= 2 && (a + b)[..2] == "%s")
  {
    assert (a + b)[0] == a[0] != '%';
  }

  lemma HoleJoined<V>(a: string, values: seq<V>, b: string, values': seq<V>)
    requires |a| >= 2 && a[..2] == "%s" && |values| == Holes(a)
    requires |values + values'| == Holes(a + b) && |values'| == Holes(b)
    requires OnlyPositional(b) && Holes(a[2..] + b) == |values[1..] + values'| && Holes(a[2..]) == |values[1..]|
    requires Positional(a[2..] + b, values[1..] + values') == Positional(a[2..], values[1..]) + Positional(b, values')
    ensures Positional(a + b, values + values') == Positional(a, values) + Positional(b, values')
  {
    HoleFirst(a, b);
    PositionalHole(a, values);
    PositionalHole(a + b, values + values');
    assert (values + values')[1..] == values[1..] + values';
    Associates([Value(values[0])], Positional(a[2..], values[1..]), Positional(b, values'));
  }

  lemma Associates<T>(a: seq<T>, b: seq<T>, c: seq<T>)
    ensures a + (b + c) == (a + b) + c
  {}

  lemma CharJoined<V>(a: string, values: seq<V>, b: string, values': seq<V>)
    requires OnlyPositional(a) && a != "" && !(|a| >= 2 && a[..2] == "%s") && |values| == Holes(a)
    requires |values + values'| == Holes(a + b) && |values'| == Holes(b)
    requires OnlyPositional(b) && Holes(a[1..] + b) == |values + values'| && Holes(a[1..]) == |values|
    requires Positional(a[1..] + b, values + values') == Positional(a[1..], values) + Positional(b, values')
    ensures Positional(a + b, values + values') == Positional(a, values) + Positional(b, values')
  {
    CharFirst(a, b);
    NotAHole(a, b);
    PositionalChar(a, values);
    PositionalChar(a + b, values + values');
    Associates([Char(a[0])], Positional(a[1..], values), Positional(b, values'));
  }

  /** Statements written one after the other keep their own values. */
  lemma {:induction false} Concatenated<V>(a: string, values: seq<V>, b: string, values': seq<V>)
    requires OnlyPositional(a) && |values| == Holes(a) && OnlyPositional(b) && |values'| == Holes(b)
    ensures Holes(a + b) == |values + values'|
    ensures Positional(a + b, values + values') == Positional(a, values) + Positional(b, values')
    decreases |a|
  {
    ConcatenatedHoles(a, b);
    if a == "" {
      assert a + b == b && values + values' == values';
    } else if |a| >= 2 && a[..2] == "%s" {
      Concatenated(a[2..], values[1..], b, values');
      HoleJoined(a, values, b, values');
    } else {
      Concatenated(a[1..], values, b, values');
      CharJoined(a, values, b, values');
    }
  }

  datatype Bound<V> = Bound(sql: string, values: seq<V>)

  predicate WellBound<V>(s: Bound<V>) {
    OnlyPositional(s.sql) && |s.values| == Holes(s.sql)
  }

  function Chars<V>(text: string): seq<Piece<V>> {
    seq(|text|, i requires 0 <= i < |text| => Char(text[i]))
  }

  lemma {:induction false} Plain<V>(text: string)
    requires '%' !in text
    ensures OnlyPositional(text) && Holes(text) == 0 && Positional<V>(text, []) == Chars(text)
    decreases |text|
  {
    if text != "" {
      assert text[1..] <= text[1..] && forall c :: c in text[1..] ==> c in text;
      Plain<V>(text[1..]);
      assert Chars<V>(text) == [Char(text[0])] + Chars(text[1..]);
    }
  }

  /** `separator.join(sql for ...)` with all values in one list. */
  function JoinSql<V>(separator: string, statements: seq<Bound<V>>): Bound<V>
    requires statements != []
    decreases |statements|
  {
    var n := |statements| - 1;
    if n == 0 then statements[0]
    else
      var first := JoinSql(separator, statements[..n]);
      Bound(first.sql + separator + statements[n].sql, first.values + statements[n].values)
  }

  function JoinPieces<V>(separator: string, statements: seq<Bound<V>>): seq<Piece<V>>
    requires statements != [] && forall i :: 0 <= i < |statements| ==> WellBound(statements[i])
    decreases |statements|
  {
    var n := |statements| - 1;
    assert WellBound(statements[n]);
    var last := Positional(statements[n].sql, statements[n].values);
    if n == 0 then last else JoinPieces(separator, statements[..n]) + Chars(separator) + last
  }

  /** A UNION of statements (or an AND of nested ones) binds each statement's placeholders to that
      statement's values. */
  lemma {:induction false} JoinedKeepValues<V>(separator: string, statements: seq<Bound<V>>)
    requires statements != [] && '%' !in separator && forall i :: 0 <= i < |statements| ==> WellBound(statements[i])
    ensures var joined := JoinSql(separator, statements);
      WellBound(joined) && Positional(joined.sql, joined.values) == JoinPieces(separator, statements)
    decreases |statements|
  {
    var n := |statements| - 1;
    if n > 0 {
      JoinedKeepValues(separator, statements[..n]);
      OneMoreStatement(JoinSql(separator, statements[..n]), separator, statements[n]);
    }
  }

  lemma OneMoreStatement<V>(first: Bound<V>, separator: string, last: Bound<V>)
    requires WellBound(first) && WellBound(last) && '%' !in separator
    ensures var joined := Bound(first.sql + separator + last.sql, first.values + last.values);
      && WellBound(joined)
      && Positional(joined.sql, joined.values) == Positional(first.sql, first.values) + Chars(separator) + Positional(last.sql, last.values)
  {
    Plain<V>(separator);
    ConcatenatedHoles(first.sql, separator);
    Concatenated(first.sql, first.values, separator, []);
    assert first.values + [] == first.values;
    ConcatenatedHoles(first.sql + separator, last.sql);
    Concatenated(first.sql + separator, first.values, last.sql, last.values);
  }

  /** The pieces of a shortcut search: the selection of the organization's shortcuts up to its one value, then every scan nested in its own IN. */
  function Nested<V>(head: string, organization: V, scans: seq<Bound<V>>): seq<Piece<V>>
    requires forall i :: 0 <= i < |scans| ==> WellBound(scans[i])
    decreases |scans|
  {
    if scans == [] then Chars(head) + [Value(organization)]
    else
      var n := |scans| - 1;
      assert WellBound(scans[n]);
      Nested(head, organization, scans[..n]) + Chars(" AND s.id IN (") + Positional(scans[n].sql, scans[n].values) + Chars(")")
  }

  lemma NestOne<V>(first: Bound<V>, scan: Bound<V>)
    requires WellBound(first) && WellBound(scan)
    ensures var nested := Bound(first.sql + " AND s.id IN (" + scan.sql + ")", first.values + scan.values);
      && WellBound(nested)
      && Positional(nested.sql, nested.values) ==
           Positional(first.sql, first.values) + Chars(" AND s.id IN (") + Positional(scan.sql, scan.values) + Chars(")")
  {
    OneMoreStatement(first, " AND s.id IN (", scan);
    var open := Bound(first.sql + " AND s.id IN (" + scan.sql, first.values + scan.values);
    Plain<V>(")");
    ConcatenatedHoles(open.sql, ")");
    Concatenated(open.sql, open.values, ")", []);
    assert open.values + [] == open.values;
  }

  lemma OneHole<V>(text: string, value: V)
    requires '%' !in text
    ensures WellBound(Bound(text + "%s", [value])) && Positional(text + "%s", [value]) == Chars(text) + [Value(value)]
  {
    var hole := "%s";
    assert hole[..2] == "%s" && hole[2..] == "";
    Plain<V>(text);
    ConcatenatedHoles(text, hole);
    Concatenated(text, [], hole, [value]);
    assert [] + [value] == [value];
  }

  /** _shortcut_port_demand_sql: one statement with every scan nested, its values appended in order. */
  method ShortcutDemandSql<V>(head: string, organization: V, scans: seq<Bound<V>>) returns (sql: string, values: seq<V>)
    requires '%' !in head && forall i :: 0 <= i < |scans| ==> WellBound(scans[i])
    ensures WellBound(Bound(sql, values)) && Positional(sql, values) == Nested(head, organization, scans)
  {
    sql := head + "%s";
    values := [organization];
    OneHole(head, organization);
    var i := 0;
    while i < |scans|
      invariant i <= |scans| && WellBound(Bound(sql, values))
      invariant Positional(sql, values) == Nested(head, organization, scans[..i])
    {
      NestOne(Bound(sql, values), scans[i]);
      assert scans[..i + 1][..i] == scans[..i];
      sql := sql + " AND s.id IN (" + scans[i].sql + ")";
      values := values + scans[i].values;
      i := i + 1;
    }
    assert scans[..i] == scans;
  }
}
