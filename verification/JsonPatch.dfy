/** One-operation JSON patches (RFC 6902), as a state's recorded patches use them: add, remove, replace
    and test at a pointer; an operation that does not apply gives None. */
module JsonPatch {
  import opened Collections
  import opened Json
  import Keys

  datatype Operation = Operation(op: string, path: seq<string>, value: Json)

  predicate AllDigits(token: string) {
    forall i | 0 <= i < |token| :: '0' <= token[i] <= '9'
  }

  predicate IsNumeral(token: string) {
    token != "" && AllDigits(token) && (|token| > 1 ==> token[0] != '0')
  }

  function NumeralValue(token: string): nat
    requires AllDigits(token)
  {
    if token == "" then 0 else NumeralValue(token[..|token| - 1]) * 10 + (token[|token| - 1] as int - '0' as int)
  }

  /** Section 4 of RFC 6901: an array index has no leading zero; None also past `limit`. */
  function IndexIn(token: string, limit: nat): Option<nat> {
    if IsNumeral(token) && NumeralValue(token) < limit then Some(NumeralValue(token)) else None
  }

  /** Where `add` puts an item: before an existing one, or at the end. */
  function InsertionPoint(token: string, length: nat): Option<nat> {
    if token == "-" then Some(length) else IndexIn(token, length + 1)
  }

  /** The value at a pointer, if there is one. */
  function Lookup(v: Json, path: seq<string>): Option<Json>
    decreases |path|
  {
    if path == [] then Some(v)
    else
      match v
      case Obj(fields) => if path[0] in fields then Lookup(fields[path[0]], path[1..]) else None
      case Arr(items) =>
        (match IndexIn(path[0], |items|)
         case Some(i) => Lookup(items[i], path[1..])
         case None => None)
      case _ => None
  }

  /** The operation at the member or item `token` of its target's container. */
  function ApplyAt(v: Json, token: string, o: Operation): Option<Json> {
    match v
    case Obj(fields) =>
      if o.op == "add" then Some(Obj(fields[token := o.value]))
      else if token !in fields then None
      else if o.op == "replace" then Some(Obj(fields[token := o.value]))
      else if o.op == "remove" then Some(Obj(fields - {token}))
      else if o.op == "test" && PyEqual(fields[token], o.value) then Some(v)
      else None
    case Arr(items) =>
      if o.op == "add" then
        match InsertionPoint(token, |items|)
        case Some(i) => Some(Arr(items[..i] + [o.value] + items[i..]))
        case None => None
      else
        (match IndexIn(token, |items|)
         case None => None
         case Some(i) =>
           if o.op == "replace" then Some(Arr(items[i := o.value]))
           else if o.op == "remove" then Some(Arr(items[..i] + items[i + 1..]))
           else if o.op == "test" && PyEqual(items[i], o.value) then Some(v)
           else None)
    case _ => None
  }

  function Apply(v: Json, o: Operation): Option<Json> {
    ApplyBelow(v, o.path, o)
  }

  function ApplyBelow(v: Json, path: seq<string>, o: Operation): Option<Json>
    decreases |path|
  {
    if path == [] then
      if o.op == "add" || o.op == "replace" then Some(o.value) else if o.op == "test" && PyEqual(v, o.value) then Some(v) else None
    else if |path| == 1 then ApplyAt(v, path[0], o)
    else
      match v
      case Obj(fields) =>
        if path[0] !in fields then None
        else
          (match ApplyBelow(fields[path[0]], path[1..], o)
           case Some(inner) => Some(Obj(fields[path[0] := inner]))
           case None => None)
      case Arr(items) =>
        (match IndexIn(path[0], |items|)
         case None => None
         case Some(i) =>
           match ApplyBelow(items[i], path[1..], o)
           case Some(inner) => Some(Arr(items[i := inner]))
           case None => None)
      case _ => None
  }

  /** There is what the operation needs: a place for an add; the value itself for the others, equal to
      a test's, and not the whole document for a remove. */
  predicate Applies(v: Json, path: seq<string>, o: Operation) {
    if o.op == "add" then path == [] || HasPlace(Lookup(v, path[..|path| - 1]), path[|path| - 1])
    else
      && Lookup(v, path).Some?
      && (o.op == "replace" || (o.op == "remove" && path != []) || (o.op == "test" && PyEqual(Lookup(v, path).value, o.value)))
  }

  predicate HasPlace(container: Option<Json>, token: string) {
    container.Some? && (container.value.Obj? || (container.value.Arr? && InsertionPoint(token, |container.value.items|).Some?))
  }

  /** An operation applies exactly then; otherwise it is skipped. */
  lemma {:induction false} AppliesIff(v: Json, path: seq<string>, o: Operation)
    ensures ApplyBelow(v, path, o).Some? <==> Applies(v, path, o)
    decreases |path|
  {
    if |path| == 1 {
      assert path[..0] == [] && path[1..] == [];
      match v {
        case Obj(fields) => if path[0] in fields { assert Lookup(v, path) == Lookup(fields[path[0]], []); }
        case Arr(items) => if IndexIn(path[0], |items|).Some? { assert Lookup(v, path) == Lookup(items[IndexIn(path[0], |items|).value], []); }
        case _ =>
      }
    } else if |path| > 1 {
      assert path[1..][..|path| - 2] == path[..|path| - 1][1..];
      match v {
        case Obj(fields) => if path[0] in fields { AppliesIff(fields[path[0]], path[1..], o); }
        case Arr(items) => if IndexIn(path[0], |items|).Some? { AppliesIff(items[IndexIn(path[0], |items|).value], path[1..], o); }
        case _ =>
      }
    }
  }

  lemma TwoDigits(token: string)
    requires IsNumeral(token) && |token| > 1
    ensures NumeralValue(token[..|token| - 1]) > 0
    decreases |token|
  {
    if |token| > 2 {
      TwoDigits(token[..|token| - 1]);
    } else {
      assert token[..1][..0] == "";
    }
  }

  /** Without leading zeros an index has one spelling. */
  lemma {:induction false} SameNumeral(a: string, b: string)
    requires IsNumeral(a) && IsNumeral(b) && NumeralValue(a) == NumeralValue(b)
    ensures a == b
    decreases |a|
  {
    var m, n := |a| - 1, |b| - 1;
    assert NumeralValue(a) / 10 == NumeralValue(a[..m]) && NumeralValue(b) / 10 == NumeralValue(b[..n]);
    if m > 0 { TwoDigits(a); }
    if n > 0 { TwoDigits(b); }
    assert a == a[..m] + [a[m]] && b == b[..n] + [b[n]];
    if m > 0 && n > 0 { SameNumeral(a[..m], b[..n]); }
  }

  /** The pointer is neither above nor below the operation's, nor, where an item is added to an array or
      removed from it, in that array. */
  predicate Elsewhere(v: Json, o: Operation, q: seq<string>) {
    && !(o.path <= q) && !(q <= o.path)
    && (o.op == "replace" || !(o.path[..|o.path| - 1] <= q) || IsObject(Lookup(v, o.path[..|o.path| - 1])))
  }

  predicate IsObject(v: Option<Json>) {
    v.Some? && v.value.Obj?
  }

  /** An operation changes nothing elsewhere. */
  lemma {:induction false} ElsewhereKept(v: Json, path: seq<string>, o: Operation, q: seq<string>)
    requires ApplyBelow(v, path, o).Some? && !(path <= q) && !(q <= path)
    requires o.op == "replace" || !(path[..|path| - 1] <= q) || IsObject(Lookup(v, path[..|path| - 1]))
    ensures Lookup(ApplyBelow(v, path, o).value, q) == Lookup(v, q)
    decreases |path|
  {
    if |path| == 1 {
      assert path[..0] == [];
      OtherMemberKept(v, path[0], o, q);
    } else if path[0] == q[0] {
      assert path[1..][..|path| - 2] == path[..|path| - 1][1..];
      match v {
        case Obj(fields) => ElsewhereKept(fields[path[0]], path[1..], o, q[1..]);
        case Arr(items) => ElsewhereKept(items[IndexIn(path[0], |items|).value], path[1..], o, q[1..]);
        case _ =>
      }
    } else {
      OtherIndex(v, path[0], q[0]);
    }
  }

  /** Different tokens are different items. */
  lemma OtherIndex(v: Json, token: string, other: string)
    requires token != other
    ensures v.Arr? && IndexIn(token, |v.items|).Some? && IndexIn(other, |v.items|).Some? ==> IndexIn(token, |v.items|) != IndexIn(other, |v.items|)
  {
    if v.Arr? && IndexIn(other, |v.items|).Some? && IndexIn(other, |v.items|) == IndexIn(token, |v.items|) { SameNumeral(token, other); }
  }

  lemma OtherMemberKept(v: Json, token: string, o: Operation, q: seq<string>)
    requires ApplyAt(v, token, o).Some? && q != [] && q[0] != token && (o.op == "replace" || v.Obj?)
    ensures Lookup(ApplyAt(v, token, o).value, q) == Lookup(v, q)
  {
    OtherIndex(v, token, q[0]);
  }

  /** What a replace, or an add elsewhere than at an array's end, writes is found at its pointer. */
  lemma {:induction false} WrittenIsFound(v: Json, path: seq<string>, o: Operation)
    requires o.op == "add" || o.op == "replace"
    requires ApplyBelow(v, path, o).Some? && (path != [] ==> path[|path| - 1] != "-")
    ensures Lookup(ApplyBelow(v, path, o).value, path) == Some(o.value)
    decreases |path|
  {
    if |path| == 1 {
      WrittenAt(v, path[0], o);
    } else if |path| > 1 {
      match v {
        case Obj(fields) => WrittenIsFound(fields[path[0]], path[1..], o);
        case Arr(items) => WrittenIsFound(items[IndexIn(path[0], |items|).value], path[1..], o);
        case _ =>
      }
    }
  }

  lemma WrittenAt(v: Json, token: string, o: Operation)
    requires o.op == "add" || o.op == "replace"
    requires ApplyAt(v, token, o).Some? && token != "-"
    ensures Lookup(ApplyAt(v, token, o).value, [token]) == Some(o.value)
  {
    var w := ApplyAt(v, token, o).value;
    assert forall u :: Lookup(u, [token][1..]) == Some(u);
  }

  /** A test changes nothing. */
  lemma {:induction false} TestChangesNothing(v: Json, path: seq<string>, o: Operation)
    requires o.op == "test" && ApplyBelow(v, path, o).Some?
    ensures ApplyBelow(v, path, o) == Some(v)
    decreases |path|
  {
    if |path| > 1 {
      match v {
        case Obj(fields) =>
          TestChangesNothing(fields[path[0]], path[1..], o);
          assert fields[path[0] := fields[path[0]]] == fields;
        case Arr(items) =>
          var i := IndexIn(path[0], |items|).value;
          TestChangesNothing(items[i], path[1..], o);
          assert items[i := items[i]] == items;
        case _ =>
      }
    }
  }

  /** A remove undoes the add of a new member, or of an item before an existing one. */
  lemma {:induction false} RemoveUndoesAdd(v: Json, path: seq<string>, value: Json)
    requires path != [] && Lookup(v, path[..|path| - 1]).Some?
    requires match Lookup(v, path[..|path| - 1]).value
             case Obj(fields) => path[|path| - 1] !in fields
             case Arr(items) => IndexIn(path[|path| - 1], |items| + 1).Some?
             case _ => false
    ensures ApplyBelow(v, path, Operation("add", path, value)).Some?
    ensures ApplyBelow(ApplyBelow(v, path, Operation("add", path, value)).value, path, Operation("remove", path, Null)) == Some(v)
    decreases |path|
  {
    RemoveUndoesAddAs(v, path, Operation("add", path, value), Operation("remove", path, Null));
  }

  lemma {:induction false} RemoveUndoesAddAs(v: Json, path: seq<string>, add: Operation, remove: Operation)
    requires path != [] && Lookup(v, path[..|path| - 1]).Some? && add.op == "add" && remove.op == "remove"
    requires match Lookup(v, path[..|path| - 1]).value
             case Obj(fields) => path[|path| - 1] !in fields
             case Arr(items) => IndexIn(path[|path| - 1], |items| + 1).Some?
             case _ => false
    ensures ApplyBelow(v, path, add).Some? && ApplyBelow(ApplyBelow(v, path, add).value, path, remove) == Some(v)
    decreases |path|
  {
    if |path| == 1 {
      match v {
        case Obj(fields) => assert fields[path[0] := add.value] - {path[0]} == fields;
        case Arr(items) =>
          var i := IndexIn(path[0], |items| + 1).value;
          var longer := items[..i] + [add.value] + items[i..];
          assert longer[..i] + longer[i + 1..] == items;
        case _ =>
      }
    } else {
      assert path[1..][..|path[1..]| - 1] == path[..|path| - 1][1..];
      match v {
        case Obj(fields) =>
          RemoveUndoesAddAs(fields[path[0]], path[1..], add, remove);
          var inner := ApplyBelow(fields[path[0]], path[1..], add).value;
          assert fields[path[0] := inner][path[0] := fields[path[0]]] == fields;
        case Arr(items) =>
          var i := IndexIn(path[0], |items|).value;
          RemoveUndoesAddAs(items[i], path[1..], add, remove);
          var inner := ApplyBelow(items[i], path[1..], add).value;
          assert items[i := inner][i := items[i]] == items;
        case _ =>
      }
    }
  }

  /** An add at an array's end appends. */
  lemma {:induction false} AddAppends(v: Json, path: seq<string>, o: Operation, items: seq<Json>)
    requires o.op == "add" && path != [] && path[|path| - 1] == "-" && Lookup(v, path[..|path| - 1]) == Some(Arr(items))
    ensures ApplyBelow(v, path, o).Some?
    ensures Lookup(ApplyBelow(v, path, o).value, path[..|path| - 1]) == Some(Arr(items + [o.value]))
    decreases |path|
  {
    if |path| == 1 {
      assert path[..0] == [] && items[..|items|] + [o.value] + items[|items|..] == items + [o.value];
    } else {
      assert path[1..][..|path| - 2] == path[..|path| - 1][1..];
      match v {
        case Obj(fields) => AddAppends(fields[path[0]], path[1..], o, items);
        case Arr(others) => AddAppends(others[IndexIn(path[0], |others|).value], path[1..], o, items);
        case _ =>
      }
    }
  }

  /** An item's token is its index in decimal, and nothing else is. */
  lemma {:induction false} DecimalIsNumeral(n: nat)
    ensures IsNumeral(Keys.Decimal(n)) && NumeralValue(Keys.Decimal(n)) == n && (n > 0 ==> Keys.Decimal(n)[0] != '0')
    decreases n
  {
    var s := Keys.Decimal(n);
    var k := |s| - 1;
    if n >= 10 {
      DecimalIsNumeral(n / 10);
      assert s[..k] == Keys.Decimal(n / 10) && s[k] == Keys.Digit(n % 10);
      assert s[0] == s[..k][0];
    } else {
      assert s[..0] == "";
    }
  }

  lemma IndexIsDecimal(token: string, limit: nat, n: nat)
    ensures IndexIn(token, limit) == Some(n) <==> n < limit && token == Keys.Decimal(n)
  {
    DecimalIsNumeral(n);
    if IndexIn(token, limit) == Some(n) { SameNumeral(token, Keys.Decimal(n)); }
  }
}
