/** Compilation of requires/provides descriptors into PostgreSQL JSONPath (facade/descriptors.py):
    what is emitted, how it parses, and what it means. */
module Descriptors {
  import opened Json
  import opened Logic3
  import opened Collections
  import Quoting

  datatype Operator = MATCHES | EXISTS | LTE | GTE | EQUALS | CONTAINS | NOT_EQUALS | IN | NOT_IN

  datatype Descriptor = Descriptor(key: string, operator: Operator, value: Json)

  datatype Result<+T, +E> = Ok(value: T) | Err(error: E)

  datatype CompileError = InvalidKey(key: string) | NotABoolean(value: Json) | NotAList(value: Json)

  // ---------------------------------------------------------------- the emitted tokens

  datatype Comparison = EQ | NE | GE | LE

  /** The lexemes of the emitted path; `Member` is `$."key"` and `Literal` a JSON value. */
  datatype Token =
    | Member(key: string)
    | EachItem
    | Compare(op: Comparison)
    | Literal(value: Json)
    | AndAnd
    | OrOr
    | Bang
    | ExistsWord
    | Open
    | Close

  function StripRoot(key: string): string {
    if "$." <= key then key[2..] else key
  }

  /** _normalize_jsonpath_key: one flat member name. */
  function NormalizedKey(key: string): Result<string, CompileError> {
    if StripRoot(key) == "" then Err(InvalidKey(key)) else Ok(StripRoot(key))
  }

  /** `$."key" op value` for each value, joined by `glue`. */
  function Joined(key: string, op: Comparison, values: seq<Json>, glue: Token): seq<Token>
    requires values != []
    decreases |values|
  {
    var last := [Member(key), Compare(op), Literal(values[|values| - 1])];
    if |values| == 1 then last else Joined(key, op, values[..|values| - 1], glue) + [glue] + last
  }

  /** _compile_descriptor_condition. */
  function CompileOne(d: Descriptor): Result<seq<Token>, CompileError> {
    match NormalizedKey(d.key)
    case Err(e) => Err(e)
    case Ok(key) =>
      match d.operator
      case EXISTS =>
        if d.value.Null? || d.value == Bool(true) then Ok([ExistsWord, Open, Member(key), Close])
        else if d.value.Bool? then Ok([Bang, Open, ExistsWord, Open, Member(key), Close, Close])
        else Err(NotABoolean(d.value))
      case MATCHES => Ok([Member(key), Compare(EQ), Literal(d.value)])
      case EQUALS => Ok([Member(key), Compare(EQ), Literal(d.value)])
      case NOT_EQUALS => Ok([Member(key), Compare(NE), Literal(d.value)])
      case GTE => Ok([Member(key), Compare(GE), Literal(d.value)])
      case LTE => Ok([Member(key), Compare(LE), Literal(d.value)])
      case CONTAINS => Ok([Member(key), EachItem, Compare(EQ), Literal(d.value)])
      case IN =>
        if !d.value.Arr? then Err(NotAList(d.value))
        else if d.value.items == [] then Ok([Open, Literal(Bool(false)), Close])
        else Ok([Open] + Joined(key, EQ, d.value.items, OrOr) + [Close])
      case NOT_IN =>
        if !d.value.Arr? then Err(NotAList(d.value))
        else if d.value.items == [] then Ok([Open, Literal(Bool(true)), Close])
        else Ok([Open] + Joined(key, NE, d.value.items, AndAnd) + [Close])
  }

  /** compile_descriptors_to_jsonpath, before the lexemes are joined to text. The first descriptor
      that cannot be compiled raises. */
  function CompileAll(ds: seq<Descriptor>): Result<seq<Token>, CompileError>
    requires ds != []
    decreases |ds|
  {
    var n := |ds| - 1;
    if n == 0 then CompileOne(ds[0])
    else
      match CompileAll(ds[..n])
      case Err(e) => Err(e)
      case Ok(first) =>
        match CompileOne(ds[n])
        case Err(e) => Err(e)
        case Ok(last) => Ok(first + [AndAnd] + last)
  }

  /** What is stored on the port row: None when there is nothing to check. */
  function Compile(ds: seq<Descriptor>): Result<Option<seq<Token>>, CompileError> {
    if ds == [] then Ok(None)
    else
      match CompileAll(ds)
      case Err(e) => Err(e)
      case Ok(tokens) => Ok(Some(tokens))
  }

  // ---------------------------------------------------------------- the grammar

  datatype Path = Path(key: string, each: bool)

  datatype Predicate =
    | Both(l: Predicate, r: Predicate)
    | Either(l: Predicate, r: Predicate)
    | No(p: Predicate)
    | Has(path: Path)
    | Compares(path: Path, op: Comparison, value: Json)

  type Parse = Option<(Predicate, seq<Token>)>

  /** A disjunction: `||` binds loosest. */
  function ParseOr(ts: seq<Token>): (r: Parse)
    ensures r.Some? ==> |r.value.1| < |ts|
    decreases |ts|, 3
  {
    match ParseAnd(ts)
    case None => None
    case Some((p, rest)) => ParseOrTail(p, rest)
  }

  function ParseOrTail(p: Predicate, ts: seq<Token>): (r: Parse)
    ensures r.Some? ==> |r.value.1| <= |ts|
    decreases |ts|, 0
  {
    if ts != [] && ts[0] == OrOr then
      match ParseAnd(ts[1..])
      case None => None
      case Some((q, rest)) => ParseOrTail(Either(p, q), rest)
    else Some((p, ts))
  }

  /** A conjunction: `&&` binds tighter. */
  function ParseAnd(ts: seq<Token>): (r: Parse)
    ensures r.Some? ==> |r.value.1| < |ts|
    decreases |ts|, 2
  {
    match ParseUnit(ts)
    case None => None
    case Some((p, rest)) => ParseAndTail(p, rest)
  }

  function ParseAndTail(p: Predicate, ts: seq<Token>): (r: Parse)
    ensures r.Some? ==> |r.value.1| <= |ts|
    decreases |ts|, 0
  {
    if ts != [] && ts[0] == AndAnd then
      match ParseUnit(ts[1..])
      case None => None
      case Some((q, rest)) => ParseAndTail(Both(p, q), rest)
    else Some((p, ts))
  }

  /** A parenthesized predicate, `!( )`, `exists( )`, or a comparison with a scalar. */
  function ParseUnit(ts: seq<Token>): (r: Parse)
    ensures r.Some? ==> |r.value.1| < |ts|
    decreases |ts|, 1
  {
    if ts == [] then None
    else
      match ts[0]
      case Open => Closed(ParseOr(ts[1..]))
      case Bang =>
        if |ts| > 1 && ts[1] == Open then
          match Closed(ParseOr(ts[2..]))
          case None => None
          case Some((p, rest)) => Some((No(p), rest))
        else None
      case ExistsWord =>
        if |ts| > 3 && ts[1] == Open && ts[2].Member? && ts[3] == Close then Some((Has(Path(ts[2].key, false)), ts[4..])) else None
      case Member(key) =>
        if |ts| > 2 && ts[1].Compare? && ts[2].Literal? && IsScalar(ts[2].value) then
          Some((Compares(Path(key, false), ts[1].op, ts[2].value), ts[3..]))
        else if |ts| > 3 && ts[1] == EachItem && ts[2].Compare? && ts[3].Literal? && IsScalar(ts[3].value) then
          Some((Compares(Path(key, true), ts[2].op, ts[3].value), ts[4..]))
        else None
      case _ => None
  }

  function Closed(r: Parse): (c: Parse)
    ensures c.Some? ==> r.Some? && |c.value.1| < |r.value.1|
  {
    if r.Some? && r.value.1 != [] && r.value.1[0] == Close then Some((r.value.0, r.value.1[1..])) else None
  }

  /** The predicate the whole text is, if it is one. */
  function ParsePredicate(ts: seq<Token>): Option<Predicate> {
    match ParseOr(ts)
    case Some((p, rest)) => if rest == [] then Some(p) else None
    case None => None
  }

  // ---------------------------------------------------------------- evaluation, lax mode

  function Unwrapped(j: Json): seq<Json> {
    if j.Arr? then j.items else [j]
  }

  function FlatItems(js: seq<Json>): seq<Json> {
    if js == [] then [] else Unwrapped(js[0]) + FlatItems(js[1..])
  }

  /** The items a comparison tests: arrays are unwrapped, a missing key has none. */
  function Items(o: map<string, Json>, path: Path): seq<Json> {
    if path.key !in o then []
    else if path.each then FlatItems(Unwrapped(o[path.key]))
    else Unwrapped(o[path.key])
  }

  /** One comparison: items of different types are not comparable, unless one is null. */
  function CompareItems(a: Json, op: Comparison, b: Json): Truth {
    if a.Null? && b.Null? then Of(op != NE)
    else if a.Null? || b.Null? then Of(op == NE)
    else if IsNumber(a) && IsNumber(b) then
      var x, y := NumberOf(a), NumberOf(b);
      match op
      case EQ => Of(x == y)
      case NE => Of(x != y)
      case GE => Of(x >= y)
      case LE => Of(x <= y)
    else if (a.Str? && b.Str?) || (a.Bool? && b.Bool?) then
      match op
      case EQ => Of(a == b)
      case NE => Of(a != b)
      case GE => Of(AtMost(b, a))
      case LE => Of(AtMost(a, b))
    else UNKNOWN
  }

  /** Texts are ordered by code points, and false before true. */
  predicate AtMost(a: Json, b: Json)
    requires (a.Str? && b.Str?) || (a.Bool? && b.Bool?)
  {
    if a.Str? then TextAtMost(a.s, b.s) else !a.b || b.b
  }

  predicate TextAtMost(a: string, b: string) {
    a == "" || (b != "" && (a[0] < b[0] || (a[0] == b[0] && TextAtMost(a[1..], b[1..]))))
  }

  /** Lax mode: true as soon as some item satisfies the comparison. */
  function SomeItem(items: seq<Json>, op: Comparison, value: Json): Truth
    decreases |items|
  {
    if items == [] then FALSE else Or(CompareItems(items[0], op, value), SomeItem(items[1..], op, value))
  }

  function Evaluate(p: Predicate, o: map<string, Json>): Truth {
    match p
    case Both(l, r) => And(Evaluate(l, o), Evaluate(r, o))
    case Either(l, r) => Or(Evaluate(l, o), Evaluate(r, o))
    case No(q) => Not(Evaluate(q, o))
    case Has(path) => Of(path.key in o)
    case Compares(path, op, value) => SomeItem(Items(o, path), op, value)
  }

  /** jsonb_path_match(object, path, '{}', silent): NULL when the text is not a predicate. */
  function PathMatch(o: map<string, Json>, ts: seq<Token>): Truth {
    match ParsePredicate(ts)
    case Some(p) => Evaluate(p, o)
    case None => UNKNOWN
  }

  // ---------------------------------------------------------------- what a descriptor asks

  /** Some item at the descriptor's key compares so with `value`. */
  ghost predicate SomeAt(o: map<string, Json>, path: Path, op: Comparison, value: Json) {
    exists k :: 0 <= k < |Items(o, path)| && CompareItems(Items(o, path)[k], op, value) == TRUE
  }

  /** Whether an object meets one descriptor. */
  ghost predicate Meets(o: map<string, Json>, d: Descriptor) {
    var at := Path(StripRoot(d.key), false);
    match d.operator
    case EXISTS => (at.key in o) == (d.value != Bool(false))
    case MATCHES => SomeAt(o, at, EQ, d.value)
    case EQUALS => SomeAt(o, at, EQ, d.value)
    case NOT_EQUALS => SomeAt(o, at, NE, d.value)
    case GTE => SomeAt(o, at, GE, d.value)
    case LTE => SomeAt(o, at, LE, d.value)
    case CONTAINS => SomeAt(o, at.(each := true), EQ, d.value)
    case IN => d.value.Arr? && exists v :: v in d.value.items && SomeAt(o, at, EQ, v)
    case NOT_IN => d.value.Arr? && forall v :: v in d.value.items ==> SomeAt(o, at, NE, v)
  }

  /** The descriptor compiles to a predicate: a usable key, and scalars to compare with, at least one. */
  predicate Comparable(d: Descriptor) {
    && StripRoot(d.key) != ""
    && match d.operator
       case EXISTS => d.value.Null? || d.value.Bool?
       case IN => d.value.Arr? && d.value.items != [] && forall v | v in d.value.items :: IsScalar(v)
       case NOT_IN => d.value.Arr? && d.value.items != [] && forall v | v in d.value.items :: IsScalar(v)
       case _ => IsScalar(d.value)
  }

  // ---------------------------------------------------------------- the text parses back

  function Chain(key: string, op: Comparison, values: seq<Json>, both: bool): Predicate
    requires values != []
    decreases |values|
  {
    var n := |values| - 1;
    var last := Compares(Path(key, false), op, values[n]);
    if n == 0 then last
    else if both then Both(Chain(key, op, values[..n], both), last)
    else Either(Chain(key, op, values[..n], both), last)
  }

  /** The predicate of one descriptor. */
  function Condition(d: Descriptor): Predicate
    requires Comparable(d)
  {
    var at := Path(StripRoot(d.key), false);
    match d.operator
    case EXISTS => if d.value == Bool(false) then No(Has(at)) else Has(at)
    case NOT_EQUALS => Compares(at, NE, d.value)
    case GTE => Compares(at, GE, d.value)
    case LTE => Compares(at, LE, d.value)
    case CONTAINS => Compares(at.(each := true), EQ, d.value)
    case IN => Chain(at.key, EQ, d.value.items, false)
    case NOT_IN => Chain(at.key, NE, d.value.items, true)
    case _ => Compares(at, EQ, d.value)
  }

  predicate AllComparable(ds: seq<Descriptor>) {
    forall d | d in ds :: Comparable(d)
  }

  function Conjunction(ds: seq<Descriptor>): Predicate
    requires ds != [] && AllComparable(ds)
    decreases |ds|
  {
    var n := |ds| - 1;
    if n == 0 then Condition(ds[0]) else Both(Conjunction(ds[..n]), Condition(ds[n]))
  }

  predicate Scalars(values: seq<Json>) {
    forall v | v in values :: IsScalar(v)
  }

  lemma ScalarsInit(values: seq<Json>)
    requires values != []
    ensures var n := |values| - 1; Scalars(values) <==> Scalars(values[..n]) && IsScalar(values[n])
  {
    var n := |values| - 1;
    assert values == values[..n] + [values[n]];
  }

  /** A comparison is one unit, or none when its literal is not a scalar. */
  lemma ComparisonUnit(key: string, op: Comparison, value: Json, tail: seq<Token>)
    ensures var r := ParseUnit([Member(key), Compare(op), Literal(value)] + tail);
      r == if IsScalar(value) then Some((Compares(Path(key, false), op, value), tail)) else None
  {
    assert ([Member(key), Compare(op), Literal(value)] + tail)[3..] == tail;
  }

  lemma AndOfUnit(ts: seq<Token>)
    ensures ParseUnit(ts).None? ==> ParseAnd(ts).None? && ParseOr(ts).None?
    ensures ParseUnit(ts).Some? ==> ParseAnd(ts) == ParseAndTail(ParseUnit(ts).value.0, ParseUnit(ts).value.1)
  {}

  lemma OrOfAnd(ts: seq<Token>)
    ensures ParseAnd(ts).None? ==> ParseOr(ts).None?
    ensures ParseAnd(ts).Some? ==> ParseOr(ts) == ParseOrTail(ParseAnd(ts).value.0, ParseAnd(ts).value.1)
  {}

  /** A joined list, whatever follows it: parsed to its left-nested chain, or refused when a value
      is not a scalar. */
  lemma {:induction false} JoinedOr(key: string, op: Comparison, values: seq<Json>, tail: seq<Token>)
    requires values != [] && (tail == [] || tail[0] != AndAnd)
    ensures ParseOr(Joined(key, op, values, OrOr) + tail)
            == if Scalars(values) then ParseOrTail(Chain(key, op, values, false), tail) else None
    decreases |values|
  {
    var n := |values| - 1;
    var last := [Member(key), Compare(op), Literal(values[n])];
    ScalarsInit(values);
    ComparisonUnit(key, op, values[n], tail);
    AndOfUnit(last + tail);
    OrOfAnd(last + tail);
    if n > 0 {
      var more := [OrOr] + (last + tail);
      assert more[1..] == last + tail;
      assert Joined(key, op, values, OrOr) + tail == Joined(key, op, values[..n], OrOr) + more;
      JoinedOr(key, op, values[..n], more);
    }
  }

  lemma {:induction false} JoinedAnd(key: string, op: Comparison, values: seq<Json>, tail: seq<Token>)
    requires values != []
    ensures ParseAnd(Joined(key, op, values, AndAnd) + tail)
            == if Scalars(values) then ParseAndTail(Chain(key, op, values, true), tail) else None
    decreases |values|
  {
    var n := |values| - 1;
    var last := [Member(key), Compare(op), Literal(values[n])];
    ScalarsInit(values);
    ComparisonUnit(key, op, values[n], tail);
    AndOfUnit(last + tail);
    if n > 0 {
      var more := [AndAnd] + (last + tail);
      assert more[1..] == last + tail;
      assert Joined(key, op, values, AndAnd) + tail == Joined(key, op, values[..n], AndAnd) + more;
      JoinedAnd(key, op, values[..n], more);
    }
  }

  lemma ListUnit(key: string, op: Comparison, values: seq<Json>, glue: Token, tail: seq<Token>)
    requires values != [] && (glue == OrOr || glue == AndAnd)
    ensures ParseUnit([Open] + Joined(key, op, values, glue) + [Close] + tail)
      == if Scalars(values) then Some((Chain(key, op, values, glue == AndAnd), tail)) else None
  {
    var closing := [Close] + tail;
    var inner := Joined(key, op, values, glue) + closing;
    assert closing[1..] == tail;
    assert ([Open] + Joined(key, op, values, glue) + [Close] + tail)[1..] == inner;
    if glue == OrOr {
      JoinedOr(key, op, values, closing);
    } else {
      JoinedAnd(key, op, values, closing);
      OrOfAnd(inner);
    }
  }

  lemma EmptyListUnit(b: bool, tail: seq<Token>)
    ensures ParseUnit([Open, Literal(Bool(b)), Close] + tail) == None
  {
    var inner := [Literal(Bool(b)), Close] + tail;
    assert ([Open, Literal(Bool(b)), Close] + tail)[1..] == inner;
    assert ParseUnit(inner) == None;
    AndOfUnit(inner);
  }

  lemma AbsenceUnit(key: string, tail: seq<Token>)
    ensures ParseUnit([Bang, Open, ExistsWord, Open, Member(key), Close, Close] + tail) == Some((No(Has(Path(key, false))), tail))
  {
    var ts := [Bang, Open, ExistsWord, Open, Member(key), Close, Close] + tail;
    var inner := [ExistsWord, Open, Member(key), Close] + ([Close] + tail);
    assert ts[2..] == inner;
    assert inner[4..] == [Close] + tail && ([Close] + tail)[1..] == tail;
    AndOfUnit(inner);
    OrOfAnd(inner);
  }

  /** One descriptor's lexemes are one unit of the grammar, or none when it is not comparable. */
  lemma UnitOfOne(d: Descriptor, tail: seq<Token>)
    requires CompileOne(d).Ok?
    ensures ParseUnit(CompileOne(d).value + tail) == if Comparable(d) then Some((Condition(d), tail)) else None
  {
    var ts := CompileOne(d).value;
    var key := StripRoot(d.key);
    match d.operator
    case EXISTS =>
      if d.value == Bool(false) {
        AbsenceUnit(key, tail);
      } else {
        assert (ts + tail)[4..] == tail;
      }
    case CONTAINS => assert (ts + tail)[4..] == tail;
    case IN => if d.value.items == [] { EmptyListUnit(false, tail); } else { ListUnit(key, EQ, d.value.items, OrOr, tail); }
    case NOT_IN => if d.value.items == [] { EmptyListUnit(true, tail); } else { ListUnit(key, NE, d.value.items, AndAnd, tail); }
    case NOT_EQUALS => ComparisonUnit(key, NE, d.value, tail);
    case GTE => ComparisonUnit(key, GE, d.value, tail);
    case LTE => ComparisonUnit(key, LE, d.value, tail);
    case _ => ComparisonUnit(key, EQ, d.value, tail);
  }

  /** The conjunction of the descriptors, whatever follows it. */
  lemma {:induction false} ConjunctionOfAll(ds: seq<Descriptor>, tail: seq<Token>)
    requires ds != [] && CompileAll(ds).Ok?
    ensures ParseAnd(CompileAll(ds).value + tail)
            == if AllComparable(ds) then ParseAndTail(Conjunction(ds), tail) else None
    decreases |ds|
  {
    var n := |ds| - 1;
    assert ds == ds[..n] + [ds[n]];
    if n == 0 {
      UnitOfOne(ds[0], tail);
      AndOfUnit(CompileAll(ds).value + tail);
    } else {
      ConjunctionStep(ds, tail);
    }
  }

  lemma {:induction false} ConjunctionStep(ds: seq<Descriptor>, tail: seq<Token>)
    requires |ds| > 1 && CompileAll(ds).Ok?
    ensures ParseAnd(CompileAll(ds).value + tail)
            == if AllComparable(ds) then ParseAndTail(Conjunction(ds), tail) else None
    decreases |ds|, 0
  {
    var n := |ds| - 1;
    assert ds == ds[..n] + [ds[n]];
    assert AllComparable(ds) <==> AllComparable(ds[..n]) && Comparable(ds[n]);
    var first, last := CompileAll(ds[..n]).value, CompileOne(ds[n]).value;
    var more := [AndAnd] + (last + tail);
    assert more[1..] == last + tail;
    assert CompileAll(ds).value + tail == first + more;
    ConjunctionOfAll(ds[..n], more);
    UnitOfOne(ds[n], tail);
  }

  /** Parsing the emitted text by precedence gives back the conjunction of the descriptors'
      conditions; the text is a predicate exactly when every descriptor compares with scalars and
      no list is empty. */
  lemma ParsesBack(ds: seq<Descriptor>)
    requires ds != [] && CompileAll(ds).Ok?
    ensures ParsePredicate(CompileAll(ds).value) == if AllComparable(ds) then Some(Conjunction(ds)) else None
  {
    ConjunctionOfAll(ds, []);
    assert CompileAll(ds).value + [] == CompileAll(ds).value;
    OrOfAnd(CompileAll(ds).value);
  }

  /** Nothing else may follow: the parser reads whole texts. */
  lemma NothingFollows(d: Descriptor, t: Token)
    requires CompileOne(d).Ok? && t != OrOr
    ensures ParsePredicate(CompileOne(d).value + [t]) == None
  {
    var ts := CompileOne(d).value + [t];
    UnitOfOne(d, [t]);
    AndOfUnit(ts);
    OrOfAnd(ts);
    assert t == AndAnd ==> ParseUnit([t][1..]) == None;
  }

  /** What lacks a parenthesis or the `[*]` before its operator is no unit. */
  lemma MalformedIsRefused(key: string, op: Comparison, v: Json, p: Predicate, t: Token)
    ensures t != Open ==> ParseUnit([Bang, t, Member(key), Compare(op), Literal(v), Close]) == None
    ensures t != Open ==> ParseUnit([ExistsWord, t, Member(key), Close]) == None
    ensures t != Close ==> ParseUnit([ExistsWord, Open, Member(key), t]) == None && Closed(Some((p, [t]))) == None
    ensures t != EachItem ==> ParseUnit([Member(key), t, Compare(op), Literal(v)]) == None
  {}

  /** A usable member name, a boolean (or nothing) for EXISTS, a list for IN and NOT_IN. */
  predicate Compilable(d: Descriptor) {
    && StripRoot(d.key) != ""
    && (d.operator == EXISTS ==> d.value.Null? || d.value.Bool?)
    && (d.operator in {IN, NOT_IN} ==> d.value.Arr?)
  }

  lemma CompileOneIff(d: Descriptor)
    ensures CompileOne(d).Ok? <==> Compilable(d)
  {}

  lemma SplitAll(ds: seq<Descriptor>, p: Descriptor -> bool)
    requires ds != []
    ensures (forall d :: d in ds ==> p(d)) <==> (forall d :: d in ds[..|ds| - 1] ==> p(d)) && p(ds[|ds| - 1])
  {
    assert forall d :: d in ds <==> d in ds[..|ds| - 1] || d == ds[|ds| - 1];
  }

  /** Descriptors compile exactly when each one does. */
  lemma {:induction false} CompilesIff(ds: seq<Descriptor>)
    requires ds != []
    ensures CompileAll(ds).Ok? <==> forall d :: d in ds ==> Compilable(d)
    decreases |ds|
  {
    var n := |ds| - 1;
    CompileOneIff(ds[n]);
    SplitAll(ds, d => Compilable(d));
    if n > 0 { CompilesIff(ds[..n]); }
  }

  // ---------------------------------------------------------------- and means its descriptors

  lemma {:induction false} SomeItemIff(items: seq<Json>, op: Comparison, value: Json)
    ensures SomeItem(items, op, value) == TRUE <==> exists k :: 0 <= k < |items| && CompareItems(items[k], op, value) == TRUE
    decreases |items|
  {
    if items != [] {
      SomeItemIff(items[1..], op, value);
      if k :| 0 <= k < |items| && CompareItems(items[k], op, value) == TRUE {
        assert k > 0 ==> items[1..][k - 1] == items[k];
      }
      if k :| 0 <= k < |items[1..]| && CompareItems(items[1..][k], op, value) == TRUE {
        assert items[k + 1] == items[1..][k];
      }
    }
  }

  lemma {:induction false} ChainMeans(key: string, op: Comparison, values: seq<Json>, both: bool, o: map<string, Json>)
    requires values != []
    ensures Evaluate(Chain(key, op, values, both), o) == TRUE <==>
      if both then forall v :: v in values ==> SomeAt(o, Path(key, false), op, v)
      else exists v :: v in values && SomeAt(o, Path(key, false), op, v)
    decreases |values|
  {
    var n := |values| - 1;
    assert values == values[..n] + [values[n]];
    SomeItemIff(Items(o, Path(key, false)), op, values[n]);
    assert Evaluate(Compares(Path(key, false), op, values[n]), o) == TRUE <==> SomeAt(o, Path(key, false), op, values[n]);
    if n > 0 {
      ChainMeans(key, op, values[..n], both, o);
      assert forall v :: v in values <==> v in values[..n] || v == values[n];
    }
  }

  lemma ConditionMeans(d: Descriptor, o: map<string, Json>)
    requires Comparable(d)
    ensures Evaluate(Condition(d), o) == TRUE <==> Meets(o, d)
  {
    var at := Path(StripRoot(d.key), d.operator == CONTAINS);
    match d.operator
    case EXISTS =>
    case IN => ChainMeans(at.key, EQ, d.value.items, false, o);
    case NOT_IN => ChainMeans(at.key, NE, d.value.items, true, o);
    case GTE => SomeItemIff(Items(o, at), GE, d.value);
    case LTE => SomeItemIff(Items(o, at), LE, d.value);
    case NOT_EQUALS => SomeItemIff(Items(o, at), NE, d.value);
    case _ => SomeItemIff(Items(o, at), EQ, d.value);
  }

  lemma MeetsSplit(ds: seq<Descriptor>, o: map<string, Json>)
    requires ds != []
    ensures (forall d :: d in ds ==> Meets(o, d)) <==> (forall d :: d in ds[..|ds| - 1] ==> Meets(o, d)) && Meets(o, ds[|ds| - 1])
  {
    assert forall d :: d in ds <==> d in ds[..|ds| - 1] || d == ds[|ds| - 1];
  }

  lemma {:induction false} ConjunctionMeans(ds: seq<Descriptor>, o: map<string, Json>)
    requires ds != [] && AllComparable(ds)
    ensures Evaluate(Conjunction(ds), o) == TRUE <==> forall d :: d in ds ==> Meets(o, d)
    decreases |ds|
  {
    var n := |ds| - 1;
    assert ds[n] in ds;
    ConditionMeans(ds[n], o);
    MeetsSplit(ds, o);
    if n > 0 { ConjunctionMeans(ds[..n], o); }
  }

  /** The stored path is satisfied by an object exactly when the object meets every descriptor. */
  lemma CompiledMeans(ds: seq<Descriptor>, o: map<string, Json>)
    requires ds != [] && AllComparable(ds)
    ensures CompileAll(ds).Ok? && (PathMatch(o, CompileAll(ds).value) == TRUE <==> forall d :: d in ds ==> Meets(o, d))
  {
    CompilesIff(ds);
    ParsesBack(ds);
    ConjunctionMeans(ds, o);
  }

  // ---------------------------------------------------------------- keys, and single descriptors

  /** What a key is written as reads back, whatever follows it, as `member`. */
  ghost predicate ReadsBackAs(key: string, member: string, tail: string) {
    && NormalizedKey(key).Ok?
    && var text := Quoting.MemberText(NormalizedKey(key).value) + tail;
       text[..2] == "$." && Quoting.ReadQuoted(text[2..]) == Some((member, tail))
  }

  /** A key reads back as itself, or without a leading `$.`: no character of it escapes its quotes. Nothing
      else but the empty member is refused. */
  lemma KeyReadsBack(key: string, tail: string)
    ensures key != "" && !("$." <= key) ==> ReadsBackAs(key, key, tail)
    ensures key != "" ==> ReadsBackAs("$." + key, key, tail)
    ensures NormalizedKey("").Err? && NormalizedKey("$.").Err?
  {
    assert ("$." + key)[2..] == key;
    assert (Quoting.MemberText(key) + tail)[2..] == Quoting.Quoted(key) + tail;
    Quoting.QuotedRoundTrip(key, tail);
  }

  /** The descriptor compiles, and what it compiles to is true of the object exactly when `met`. */
  ghost predicate Decides(d: Descriptor, o: map<string, Json>, met: bool) {
    match Compile([d])
    case Ok(Some(path)) => PathMatch(o, path) == TRUE <==> met
    case _ => false
  }

  lemma OneDescriptor(d: Descriptor, o: map<string, Json>)
    requires Comparable(d)
    ensures Decides(d, o, Meets(o, d))
  {
    CompiledMeans([d], o);
    assert d in [d];
  }

  /** A scalar equals itself at its key, and nothing is at a key the object lacks. */
  lemma EqualsItself(key: string, value: Json, o: map<string, Json>)
    requires key != "" && !("$." <= key) && !value.Arr? && !value.Obj? && key !in o
    ensures Decides(Descriptor(key, EQUALS, value), map[key := value], true)
    ensures Decides(Descriptor(key, EQUALS, value), o, false)
  {
    var d := Descriptor(key, EQUALS, value);
    OneDescriptor(d, map[key := value]);
    OneDescriptor(d, o);
    var at := Path(key, false);
    assert Items(map[key := value], at) == [value];
    assert CompareItems(Items(map[key := value], at)[0], EQ, value) == TRUE;
  }

  /** A number at a key is compared by value. */
  lemma NumberCompared(key: string, operator: Operator, x: int, n: int, o: map<string, Json>)
    requires key != "" && !("$." <= key) && key in o && o[key] == Int(x)
    requires operator in {EQUALS, MATCHES, NOT_EQUALS, GTE, LTE}
    ensures Decides(Descriptor(key, operator, Int(n)), o,
                    if operator == NOT_EQUALS then x != n else if operator == GTE then x >= n else if operator == LTE then x <= n else x == n)
  {
    OneDescriptor(Descriptor(key, operator, Int(n)), o);
    match operator
    case NOT_EQUALS => OneInt(key, NE, x, n, o);
    case GTE => OneInt(key, GE, x, n, o);
    case LTE => OneInt(key, LE, x, n, o);
    case _ => OneInt(key, EQ, x, n, o);
  }

  lemma OneInt(key: string, op: Comparison, x: int, n: int, o: map<string, Json>)
    requires key in o && o[key] == Int(x)
    ensures SomeAt(o, Path(key, false), op, Int(n)) <==> CompareItems(Int(x), op, Int(n)) == TRUE
    ensures CompareItems(Int(x), op, Int(n)) == Of(if op == NE then x != n else if op == GE then x >= n else if op == LE then x <= n else x == n)
  {
    assert Items(o, Path(key, false)) == [Int(x)];
    assert Items(o, Path(key, false))[0] == Int(x);
  }

  function Ints(ns: seq<int>): seq<Json> {
    seq(|ns|, i requires 0 <= i < |ns| => Int(ns[i]))
  }

  /** It is in a list, or in none, by value. */
  lemma NumberListed(key: string, x: int, ns: seq<int>, o: map<string, Json>)
    requires key != "" && !("$." <= key) && key in o && o[key] == Int(x) && ns != []
    ensures Decides(Descriptor(key, IN, Arr(Ints(ns))), o, x in ns)
    ensures Decides(Descriptor(key, NOT_IN, Arr(Ints(ns))), o, x !in ns)
  {
    var at := Path(key, false);
    OneDescriptor(Descriptor(key, IN, Arr(Ints(ns))), o);
    OneDescriptor(Descriptor(key, NOT_IN, Arr(Ints(ns))), o);
    assert Items(o, at) == [Int(x)];
    forall i | 0 <= i < |ns| ensures (SomeAt(o, at, EQ, Ints(ns)[i]) <==> x == ns[i]) && (SomeAt(o, at, NE, Ints(ns)[i]) <==> x != ns[i]) {
      assert CompareItems(Items(o, at)[0], EQ, Ints(ns)[i]) == Of(x == ns[i]);
    }
    if x in ns {
      var i :| 0 <= i < |ns| && ns[i] == x;
      assert Ints(ns)[i] in Ints(ns);
    }
  }

  lemma SomeOfInts(o: map<string, Json>, at: Path, xs: seq<int>, op: Comparison, n: int)
    requires Items(o, at) == Ints(xs)
    ensures SomeAt(o, at, op, Int(n)) <==> exists i :: 0 <= i < |xs| && CompareItems(Int(xs[i]), op, Int(n)) == TRUE
  {
    assert forall i :: 0 <= i < |xs| ==> Items(o, at)[i] == Int(xs[i]);
  }

  /** A list at a key contains a number when one of its items is it, and so is any comparison met. */
  lemma ListContains(key: string, xs: seq<int>, n: int, o: map<string, Json>)
    requires key != "" && !("$." <= key) && key in o && o[key] == Arr(Ints(xs))
    ensures Decides(Descriptor(key, CONTAINS, Int(n)), o, exists i :: 0 <= i < |xs| && xs[i] == n)
    ensures Decides(Descriptor(key, EQUALS, Int(n)), o, exists i :: 0 <= i < |xs| && xs[i] == n)
    ensures Decides(Descriptor(key, GTE, Int(n)), o, exists i :: 0 <= i < |xs| && xs[i] >= n)
  {
    var once, each := Path(key, false), Path(key, true);
    OneDescriptor(Descriptor(key, CONTAINS, Int(n)), o);
    OneDescriptor(Descriptor(key, EQUALS, Int(n)), o);
    OneDescriptor(Descriptor(key, GTE, Int(n)), o);
    FlatInts(Ints(xs));
    SomeOfInts(o, each, xs, EQ, n);
    SomeOfInts(o, once, xs, EQ, n);
    SomeOfInts(o, once, xs, GE, n);
    forall i | 0 <= i < |xs| ensures CompareItems(Int(xs[i]), EQ, Int(n)) == Of(xs[i] == n) && CompareItems(Int(xs[i]), GE, Int(n)) == Of(xs[i] >= n) {}
  }

  /** CONTAINS also looks into the lists in the list, other comparisons do not. */
  lemma NestedListContains(key: string, xs: seq<int>, n: int, o: map<string, Json>)
    requires key != "" && !("$." <= key) && key in o && o[key] == Arr([Arr(Ints(xs))])
    ensures Decides(Descriptor(key, CONTAINS, Int(n)), o, exists i :: 0 <= i < |xs| && xs[i] == n)
    ensures Decides(Descriptor(key, EQUALS, Int(n)), o, false)
  {
    var once, each := Path(key, false), Path(key, true);
    OneDescriptor(Descriptor(key, CONTAINS, Int(n)), o);
    OneDescriptor(Descriptor(key, EQUALS, Int(n)), o);
    assert FlatItems([Arr(Ints(xs))]) == Ints(xs);
    SomeOfInts(o, each, xs, EQ, n);
    forall i | 0 <= i < |xs| ensures CompareItems(Int(xs[i]), EQ, Int(n)) == Of(xs[i] == n) {}
    assert Items(o, once) == [Arr(Ints(xs))];
    assert CompareItems(Items(o, once)[0], EQ, Int(n)) == UNKNOWN;
  }

  lemma {:induction false} FlatInts(js: seq<Json>)
    requires forall j :: j in js ==> !j.Arr?
    ensures FlatItems(js) == js
    decreases |js|
  {
    if js != [] {
      FlatInts(js[1..]);
      assert js == [js[0]] + js[1..];
    }
  }

  /** A key is there, or is not. */
  lemma PresenceDecided(key: string, o: map<string, Json>)
    requires key != "" && !("$." <= key)
    ensures Decides(Descriptor(key, EXISTS, Null), o, key in o)
    ensures Decides(Descriptor(key, EXISTS, Bool(true)), o, key in o)
    ensures Decides(Descriptor(key, EXISTS, Bool(false)), o, key !in o)
  {
    OneDescriptor(Descriptor(key, EXISTS, Null), o);
    OneDescriptor(Descriptor(key, EXISTS, Bool(true)), o);
    OneDescriptor(Descriptor(key, EXISTS, Bool(false)), o);
  }

  /** Texts compare by code points, and values of different types not at all, but for null. */
  lemma OthersCompare(a: Json, b: Json, op: Comparison)
    ensures a.Str? && b.Str? && a.s <= b.s ==> CompareItems(a, LE, b) == TRUE
    ensures a.Str? && b.Str? && a.s != b.s ==> CompareItems(a, EQ, b) == FALSE && CompareItems(a, NE, b) == TRUE
    ensures a.Str? && b.Str? && a.s != "" && b.s != "" && a.s[0] < b.s[0] ==> CompareItems(a, LE, b) == TRUE && CompareItems(a, GE, b) == FALSE
    ensures a.Str? && b.Str? && a.s != b.s ==> (CompareItems(a, LE, b) == TRUE <==> CompareItems(a, GE, b) == FALSE)
    ensures a == Bool(false) && b == Bool(true) ==> CompareItems(a, LE, b) == TRUE && CompareItems(a, GE, b) == FALSE
    ensures a.Str? && !b.Str? && !b.Null? ==> CompareItems(a, op, b) == UNKNOWN
    ensures a.Null? != b.Null? ==> CompareItems(a, op, b) == Of(op == NE)
    ensures a.Null? && b.Null? ==> CompareItems(a, op, b) == Of(op != NE)
    ensures a.Bool? && b == a ==> CompareItems(a, op, b) == Of(op != NE)
  {
    if a.Str? && b.Str? {
      PrefixAtMost(a.s, b.s);
      if a.s != b.s { AtMostOneWay(a.s, b.s); }
    }
  }

  lemma {:induction false} PrefixAtMost(a: string, b: string)
    ensures a <= b ==> TextAtMost(a, b)
    decreases |a|
  {
    if a != "" && a <= b { PrefixAtMost(a[1..], b[1..]); }
  }

  lemma {:induction false} AtMostOneWay(a: string, b: string)
    requires a != b
    ensures TextAtMost(a, b) <==> !TextAtMost(b, a)
    decreases |a|
  {
    if a != "" && b != "" && a[0] == b[0] {
      assert a == [a[0]] + a[1..] && b == [b[0]] + b[1..];
      AtMostOneWay(a[1..], b[1..]);
    }
  }
}
