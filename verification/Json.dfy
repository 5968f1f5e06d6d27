/** JSON values, and SQL's three-valued logic. */
module Json {

  datatype Json =
    | Null
    | Bool(b: bool)
    | Int(i: int)
    | Float(f: real)
    | Str(s: string)
    | Arr(items: seq<Json>)
    | Obj(fields: map<string, Json>)

  predicate IsNumber(j: Json) {
    j.Int? || j.Float?
  }

  function NumberOf(j: Json): real
    requires IsNumber(j)
  {
    if j.Int? then j.i as real else j.f
  }

  predicate IsScalar(j: Json) {
    !j.Arr? && !j.Obj?
  }

  /** Python's `==`: booleans are the integers 0 and 1, and numbers compare by value. */
  predicate PyEqual(a: Json, b: Json)
    decreases a
  {
    match a
    case Null => b.Null?
    case Str(_) => a == b
    case Arr(items) => b.Arr? && |items| == |b.items| && forall i | 0 <= i < |items| :: PyEqual(items[i], b.items[i])
    case Obj(fields) => b.Obj? && fields.Keys == b.fields.Keys && forall k | k in fields :: PyEqual(fields[k], b.fields[k])
    case _ => (b.Bool? || IsNumber(b)) && PyNumber(a) == PyNumber(b)
  }

  function PyNumber(j: Json): real
    requires j.Bool? || IsNumber(j)
  {
    if j.Bool? then (if j.b then 1.0 else 0.0) else NumberOf(j)
  }

  /** Scalars of a kind are equal when they are the same; true is 1, false 0, and an integer its float. */
  lemma PyScalars(x: int, y: int, b: bool, s: string, t: string)
    ensures PyEqual(Int(x), Int(y)) <==> x == y
    ensures PyEqual(Int(x), Float(y as real)) <==> x == y
    ensures PyEqual(Float(x as real), Int(y)) <==> x == y
    ensures PyEqual(Bool(b), Int(x)) <==> x == (if b then 1 else 0)
    ensures PyEqual(Int(x), Bool(b)) <==> x == (if b then 1 else 0)
    ensures PyEqual(Str(s), Str(t)) <==> s == t
    ensures PyEqual(Null, Null) && !PyEqual(Null, Bool(b)) && !PyEqual(Int(x), Null) && !PyEqual(Str(s), Int(x)) && !PyEqual(Int(x), Str(s))
  {}

  /** Lists and objects are equal item by item, and member by member. */
  lemma PyContainers(xs: seq<Json>, ys: seq<Json>, k: string, l: string, a: Json, b: Json)
    requires xs != [] && ys != []
    ensures PyEqual(Arr(xs), Arr(ys)) <==> PyEqual(xs[0], ys[0]) && PyEqual(Arr(xs[1..]), Arr(ys[1..]))
    ensures PyEqual(Obj(map[k := a]), Obj(map[l := b])) <==> k == l && PyEqual(a, b)
    ensures PyEqual(Arr([]), Arr([])) && !PyEqual(Arr([]), Arr(ys)) && !PyEqual(Arr(xs), Arr([])) && !PyEqual(Arr(xs), Obj(map[k := a]))
    ensures PyEqual(Obj(map[]), Obj(map[])) && !PyEqual(Obj(map[]), Obj(map[l := b])) && !PyEqual(Obj(map[k := a]), Arr(xs))
  {
    if PyEqual(xs[0], ys[0]) && PyEqual(Arr(xs[1..]), Arr(ys[1..])) {
      forall i | 0 <= i < |xs| ensures PyEqual(xs[i], ys[i]) {
        if i > 0 { assert xs[1..][i - 1] == xs[i] && ys[1..][i - 1] == ys[i] && PyEqual(xs[1..][i - 1], ys[1..][i - 1]); }
      }
    }
    assert k in map[k := a] && l in map[l := b];
  }
}

module Logic3 {

  /** True, false, or unknown (NULL). */
  datatype Truth = TRUE | FALSE | UNKNOWN

  function Of(b: bool): Truth {
    if b then TRUE else FALSE
  }

  function And(a: Truth, b: Truth): Truth {
    if a == FALSE || b == FALSE then FALSE else if a == UNKNOWN || b == UNKNOWN then UNKNOWN else TRUE
  }

  function Or(a: Truth, b: Truth): Truth {
    if a == TRUE || b == TRUE then TRUE else if a == UNKNOWN || b == UNKNOWN then UNKNOWN else FALSE
  }

  function Not(a: Truth): Truth {
    match a
    case TRUE => FALSE
    case FALSE => TRUE
    case UNKNOWN => UNKNOWN
  }

  /** Kleene's laws: on TRUE and FALSE the connectives are the usual ones, UNKNOWN is its own negation and
      is absorbed only by what decides alone. */
  lemma Kleene(a: Truth, b: Truth)
    ensures And(a, b) == TRUE <==> a == TRUE && b == TRUE
    ensures And(a, b) == FALSE <==> a == FALSE || b == FALSE
    ensures Or(a, b) == TRUE <==> a == TRUE || b == TRUE
    ensures Or(a, b) == FALSE <==> a == FALSE && b == FALSE
    ensures Not(Not(a)) == a && (Not(a) == a <==> a == UNKNOWN) && Not(TRUE) == FALSE
    ensures Not(And(a, b)) == Or(Not(a), Not(b))
  {}
}
