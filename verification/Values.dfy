/** Whether a runtime value fits a port (rekuest_core/values.py): the check as written, and the typing
    relation it decides. */
module Values {
  import opened Collections

  datatype Value = Null | Bool(b: bool) | Int(i: int) | Float(f: real) | Str(s: string) | List(items: seq<Value>) | Dict(fields: seq<(string, Value)>)

  datatype Kind = INT | FLOAT | STRING | BOOL | DATE | LIST | DICT | MODEL | ENUM | REFERENCE | QUANTITY | UNION | OTHER

  /** REFERENCE is a STRUCTURE, a MEMORY_STRUCTURE or an INTERFACE; OTHER is a kind nothing is asked of. */
  datatype Port = Port(
    key: string, kind: Kind, nullable: bool, hasDefault: bool, identifier: Option<string>, children: seq<Port>, choices: seq<Value>)

  /** `None`, a reason, or the TypeError of looking a list or a dict up in a set of choices. */
  datatype Outcome = Fits | Mismatch | Raised

  /** Whether a string reads as an ISO-8601 date or datetime. */
  type DateReader = string -> bool

  // ---------------------------------------------------------------- well-formed ports and values

  predicate DistinctKeys(ps: seq<Port>) {
    forall i, j | 0 <= i < j < |ps| :: ps[i].key != ps[j].key
  }

  predicate Hashable(v: Value) {
    !v.List? && !v.Dict?
  }

  predicate WellFormed(p: Port) {
    && (p.kind == LIST ==> |p.children| == 1)
    && (p.kind in {DICT, MODEL} ==> DistinctKeys(p.children))
    && (forall c | c in p.choices :: Hashable(c))
    && forall c | c in p.children :: WellFormed(c)
  }

  // ---------------------------------------------------------------- the check

  predicate IsNumber(v: Value) {
    v.Int? || v.Float?
  }

  function Number(v: Value): real
    requires IsNumber(v) || v.Bool?
  {
    match v
    case Int(i) => i as real
    case Float(f) => f
    case Bool(b) => if b then 1.0 else 0.0
  }

  /** Python's `==` on scalars: a bool is the integer it stands for. */
  predicate SameScalar(a: Value, b: Value) {
    if (IsNumber(a) || a.Bool?) && (IsNumber(b) || b.Bool?) then Number(a) == Number(b) else a == b
  }

  function Get(fields: seq<(string, Value)>, key: string): Option<Value>
    decreases |fields|
  {
    if fields == [] then None
    else if fields[|fields| - 1].0 == key then Some(fields[|fields| - 1].1)
    else Get(fields[..|fields| - 1], key)
  }

  predicate IsId(v: Value) {
    v.Str? || v.Int?
  }

  /** A bare id, or the envelope a client sends, naming the port's identifier where it has one. */
  predicate IsReference(p: Port, v: Value, envelope: bool) {
    if !envelope then IsId(v)
    else
      && v.Dict? && Get(v.fields, "__identifier").Some? && Get(v.fields, "object").Some?
      && (p.identifier.Some? ==> Get(v.fields, "__identifier").value == Str(p.identifier.value))
      && IsId(Get(v.fields, "object").value)
  }

  predicate IsQuantity(v: Value) {
    if v.Dict? then
      Get(v.fields, "value").Some? && IsNumber(Get(v.fields, "value").value)
      && (Get(v.fields, "unit").Some? ==> Get(v.fields, "unit").value.Str?)
    else IsNumber(v)
  }

  function Of(b: bool): Outcome {
    if b then Fits else Mismatch
  }

  /** Outcomes in order, returned from at the first that is not a fit. */
  function All(os: seq<Outcome>): Outcome {
    if os == [] then Fits else if os[0] != Fits then os[0] else All(os[1..])
  }

  /** `any`: stops at the first that fits, and where one raises. */
  function Any(os: seq<Outcome>): Outcome {
    if os == [] then Mismatch else if os[0] != Mismatch then os[0] else Any(os[1..])
  }

  predicate IsHomogeneous(p: Port) {
    |p.children| == 1 && p.children[0].key == "..."
  }

  predicate HasChild(ps: seq<Port>, key: string) {
    exists c | c in ps :: c.key == key
  }

  function ChildAt(ps: seq<Port>, key: string): (c: Port)
    requires HasChild(ps, key)
    ensures c in ps && c.key == key
  {
    var n := |ps| - 1;
    if ps[n].key == key then ps[n]
    else
      assert forall c :: c in ps ==> c in ps[..n] || c == ps[n];
      ChildAt(ps[..n], key)
  }

  predicate KnownKeys(p: Port, fields: seq<(string, Value)>) {
    forall i | 0 <= i < |fields| :: fields[i].0 == "__identifier" || HasChild(p.children, fields[i].0)
  }

  /** value_mismatch. */
  function Check(p: Port, v: Value, envelope: bool, isDate: DateReader): Outcome
    requires WellFormed(p)
    decreases p, 2
  {
    match p.kind
    case INT => Of(v.Int?)
    case FLOAT => Of(IsNumber(v))
    case STRING => Of(v.Str?)
    case BOOL => Of(v.Bool?)
    case DATE => Of(v.Str? && isDate(v.s))
    case LIST =>
      if !v.List? then Mismatch
      else All(Items(p.children[0], v.items, envelope, isDate))
    case DICT =>
      if !v.Dict? then Mismatch
      else All(Entries(p, v.fields, envelope, isDate))
    case MODEL =>
      if !v.Dict? || !KnownKeys(p, v.fields) then Mismatch
      else All(Fields(p, v.fields, envelope, isDate))
    case ENUM => if !Hashable(v) then Raised else Of(exists c | c in p.choices :: SameScalar(c, v))
    case REFERENCE => Of(IsReference(p, v, envelope))
    case QUANTITY => Of(IsQuantity(v))
    case UNION => Any(Variants(p, v, envelope, isDate))
    case OTHER => Fits
  }

  /** An item of a container: null only where the child is nullable. */
  function CheckItem(c: Port, v: Value, envelope: bool, isDate: DateReader): Outcome
    requires WellFormed(c)
    decreases c, 3
  {
    if v == Null then Of(c.nullable) else Check(c, v, envelope, isDate)
  }

  /** An entry of a dict: of the item type, or of the child of its key; other keys pass. */
  function CheckEntry(p: Port, entry: (string, Value), envelope: bool, isDate: DateReader): Outcome
    requires WellFormed(p) && p.kind == DICT
    decreases p, 0
  {
    if IsHomogeneous(p) then CheckItem(p.children[0], entry.1, envelope, isDate)
    else if HasChild(p.children, entry.0) then CheckItem(ChildAt(p.children, entry.0), entry.1, envelope, isDate)
    else Fits
  }

  /** A model's field: missing or null only where the child allows it. */
  function CheckField(c: Port, v: Option<Value>, envelope: bool, isDate: DateReader): Outcome
    requires WellFormed(c)
    decreases c, 3
  {
    if v.None? || v == Some(Null) then Of(c.nullable || c.hasDefault) else Check(c, v.value, envelope, isDate)
  }

  function Items(c: Port, vs: seq<Value>, envelope: bool, isDate: DateReader): seq<Outcome>
    requires WellFormed(c)
    decreases c, 4
  {
    seq(|vs|, i requires 0 <= i < |vs| => CheckItem(c, vs[i], envelope, isDate))
  }

  function Entries(p: Port, fields: seq<(string, Value)>, envelope: bool, isDate: DateReader): seq<Outcome>
    requires WellFormed(p) && p.kind == DICT
    decreases p, 1
  {
    seq(|fields|, i requires 0 <= i < |fields| => CheckEntry(p, fields[i], envelope, isDate))
  }

  function Fields(p: Port, fields: seq<(string, Value)>, envelope: bool, isDate: DateReader): seq<Outcome>
    requires WellFormed(p)
    decreases p, 1
  {
    seq(|p.children|, i requires 0 <= i < |p.children| => CheckField(p.children[i], Get(fields, p.children[i].key), envelope, isDate))
  }

  function Variants(p: Port, v: Value, envelope: bool, isDate: DateReader): seq<Outcome>
    requires WellFormed(p)
    decreases p, 1
  {
    seq(|p.children|, i requires 0 <= i < |p.children| => Check(p.children[i], v, envelope, isDate))
  }

  // ---------------------------------------------------------------- the typing relation

  /** What it is for a value to inhabit a port. */
  ghost predicate Inhabits(p: Port, v: Value, envelope: bool, isDate: DateReader)
    decreases p, 1
  {
    match p.kind
    case INT => v.Int?
    case FLOAT => IsNumber(v)
    case STRING => v.Str?
    case BOOL => v.Bool?
    case DATE => v.Str? && isDate(v.s)
    case LIST => v.List? && forall c, i :: c in p.children && 0 <= i < |v.items| ==> ItemInhabits(c, v.items[i], envelope, isDate)
    case DICT => v.Dict? && forall i :: 0 <= i < |v.fields| ==> EntryInhabits(p, v.fields[i], envelope, isDate)
    case MODEL =>
      v.Dict? && KnownKeys(p, v.fields) && forall c :: c in p.children ==> FieldInhabits(c, Get(v.fields, c.key), envelope, isDate)
    case ENUM => exists c :: c in p.choices && SameScalar(c, v)
    case REFERENCE => IsReference(p, v, envelope)
    case QUANTITY => IsQuantity(v)
    case UNION => exists c :: c in p.children && Inhabits(c, v, envelope, isDate)
    case OTHER => true
  }

  ghost predicate ItemInhabits(c: Port, v: Value, envelope: bool, isDate: DateReader)
    decreases c, 2
  {
    if v == Null then c.nullable else Inhabits(c, v, envelope, isDate)
  }

  /** The child types the entry of a dict under that key. */
  predicate Types(p: Port, c: Port, key: string) {
    c in p.children && (IsHomogeneous(p) || c.key == key)
  }

  ghost predicate EntryInhabits(p: Port, entry: (string, Value), envelope: bool, isDate: DateReader)
    decreases p, 0
  {
    forall c :: Types(p, c, entry.0) && c in p.children ==> ItemInhabits(c, entry.1, envelope, isDate)
  }

  ghost predicate FieldInhabits(c: Port, v: Option<Value>, envelope: bool, isDate: DateReader)
    decreases c, 2
  {
    if v.None? || v == Some(Null) then c.nullable || c.hasDefault else Inhabits(c, v.value, envelope, isDate)
  }

  /** One raises, and all before it hold. */
  ghost predicate FirstRaise(holds: seq<bool>, raises: seq<bool>)
    requires |holds| == |raises|
  {
    exists i :: 0 <= i < |raises| && raises[i] && forall j :: 0 <= j < i ==> holds[j]
  }

  /** Where checking meets a list or a dict on an ENUM before it is done: past fitting items only, and
      past variants that do not fit. */
  ghost predicate Raises(p: Port, v: Value, envelope: bool, isDate: DateReader)
    decreases p, 2
  {
    match p.kind
    case LIST =>
      && v.List? && |p.children| == 1
      && FirstRaise(ItemsHold(p.children[0], v.items, envelope, isDate), ItemsRaise(p.children[0], v.items, envelope, isDate))
    case DICT => v.Dict? && FirstRaise(EntriesHold(p, v.fields, envelope, isDate), EntriesRaise(p, v.fields, envelope, isDate))
    case MODEL =>
      v.Dict? && KnownKeys(p, v.fields) && FirstRaise(FieldsHold(p, v.fields, envelope, isDate), FieldsRaise(p, v.fields, envelope, isDate))
    case ENUM => !Hashable(v)
    case UNION => FirstRaise(VariantsMiss(p, v, envelope, isDate), VariantsRaise(p, v, envelope, isDate))
    case _ => false
  }

  ghost predicate ItemRaises(c: Port, v: Value, envelope: bool, isDate: DateReader)
    decreases c, 3
  {
    v != Null && Raises(c, v, envelope, isDate)
  }

  ghost predicate EntryRaises(p: Port, entry: (string, Value), envelope: bool, isDate: DateReader)
    decreases p, 0
  {
    exists c :: Types(p, c, entry.0) && c in p.children && ItemRaises(c, entry.1, envelope, isDate)
  }

  ghost predicate FieldRaises(c: Port, v: Option<Value>, envelope: bool, isDate: DateReader)
    decreases c, 3
  {
    v.Some? && v != Some(Null) && Raises(c, v.value, envelope, isDate)
  }

  ghost function ItemsHold(c: Port, vs: seq<Value>, envelope: bool, isDate: DateReader): seq<bool> {
    seq(|vs|, i requires 0 <= i < |vs| => ItemInhabits(c, vs[i], envelope, isDate))
  }

  ghost function ItemsRaise(c: Port, vs: seq<Value>, envelope: bool, isDate: DateReader): seq<bool>
    decreases c, 4
  {
    seq(|vs|, i requires 0 <= i < |vs| => ItemRaises(c, vs[i], envelope, isDate))
  }

  ghost function EntriesHold(p: Port, fields: seq<(string, Value)>, envelope: bool, isDate: DateReader): seq<bool> {
    seq(|fields|, i requires 0 <= i < |fields| => EntryInhabits(p, fields[i], envelope, isDate))
  }

  ghost function EntriesRaise(p: Port, fields: seq<(string, Value)>, envelope: bool, isDate: DateReader): seq<bool>
    decreases p, 1
  {
    seq(|fields|, i requires 0 <= i < |fields| => EntryRaises(p, fields[i], envelope, isDate))
  }

  ghost function FieldsHold(p: Port, fields: seq<(string, Value)>, envelope: bool, isDate: DateReader): seq<bool> {
    seq(|p.children|, i requires 0 <= i < |p.children| => FieldInhabits(p.children[i], Get(fields, p.children[i].key), envelope, isDate))
  }

  ghost function FieldsRaise(p: Port, fields: seq<(string, Value)>, envelope: bool, isDate: DateReader): seq<bool>
    decreases p, 1
  {
    seq(|p.children|, i requires 0 <= i < |p.children| => FieldRaises(p.children[i], Get(fields, p.children[i].key), envelope, isDate))
  }

  ghost function VariantsMiss(p: Port, v: Value, envelope: bool, isDate: DateReader): seq<bool> {
    seq(|p.children|, i requires 0 <= i < |p.children| => !Inhabits(p.children[i], v, envelope, isDate))
  }

  ghost function VariantsRaise(p: Port, v: Value, envelope: bool, isDate: DateReader): seq<bool>
    decreases p, 1
  {
    seq(|p.children|, i requires 0 <= i < |p.children| => Raises(p.children[i], v, envelope, isDate))
  }

  // ---------------------------------------------------------------- the check decides it

  /** An outcome is a raise exactly when something raises, and a fit exactly when it holds and nothing does. */
  predicate Answers(o: Outcome, holds: bool, raises: bool) {
    (o == Raised <==> raises) && (o == Fits <==> holds && !raises)
  }

  lemma FirstRaiseShifts(holds: seq<bool>, raises: seq<bool>)
    requires |holds| == |raises| > 0
    ensures FirstRaise(holds, raises) <==> raises[0] || (holds[0] && FirstRaise(holds[1..], raises[1..]))
  {
    if i :| 0 <= i < |raises| && raises[i] && forall j :: 0 <= j < i ==> holds[j] {
      if i > 0 {
        assert raises[1..][i - 1];
        assert forall j :: 0 <= j < i - 1 ==> holds[1..][j] == holds[j + 1];
      }
    }
    if holds[0] && FirstRaise(holds[1..], raises[1..]) {
      var i :| 0 <= i < |raises[1..]| && raises[1..][i] && forall j :: 0 <= j < i ==> holds[1..][j];
      assert raises[i + 1];
      assert forall j :: 0 < j <= i ==> holds[j] == holds[1..][j - 1];
    }
  }

  lemma {:induction false} AllAnswers(os: seq<Outcome>, holds: seq<bool>, raises: seq<bool>)
    requires |os| == |holds| == |raises| && forall i :: 0 <= i < |os| ==> Answers(os[i], holds[i], raises[i])
    ensures Answers(All(os), forall i :: 0 <= i < |holds| ==> holds[i], FirstRaise(holds, raises))
    decreases |os|
  {
    if os != [] {
      AllAnswers(os[1..], holds[1..], raises[1..]);
      FirstRaiseShifts(holds, raises);
      assert (forall i :: 0 <= i < |holds| ==> holds[i]) <==> holds[0] && forall i :: 0 <= i < |holds[1..]| ==> holds[1..][i] by {
        assert forall i :: 0 < i < |holds| ==> holds[i] == holds[1..][i - 1];
      }
    }
  }

  lemma {:induction false} AnyAnswers(os: seq<Outcome>, misses: seq<bool>, raises: seq<bool>)
    requires |os| == |misses| == |raises| && forall i :: 0 <= i < |os| ==> Answers(os[i], !misses[i], raises[i])
    ensures Answers(Any(os), exists i :: 0 <= i < |misses| && !misses[i], FirstRaise(misses, raises))
    decreases |os|
  {
    if os != [] {
      AnyAnswers(os[1..], misses[1..], raises[1..]);
      FirstRaiseShifts(misses, raises);
      assert (exists i :: 0 <= i < |misses| && !misses[i]) <==> !misses[0] || exists i :: 0 <= i < |misses[1..]| && !misses[1..][i] by {
        assert forall i :: 0 < i < |misses| ==> misses[i] == misses[1..][i - 1];
      }
    }
  }

  /** The check accepts exactly the inhabitants on which it does not raise, and refuses exactly the other
      values on which it does not. */
  lemma {:induction false} CheckDecides(p: Port, v: Value, envelope: bool, isDate: DateReader)
    requires WellFormed(p)
    ensures Answers(Check(p, v, envelope, isDate), Inhabits(p, v, envelope, isDate), Raises(p, v, envelope, isDate))
    decreases p, 2
  {
    match p.kind {
      case LIST => if v.List? { ListDecides(p, v, envelope, isDate); }
      case DICT => if v.Dict? { DictDecides(p, v, envelope, isDate); }
      case MODEL => if v.Dict? && KnownKeys(p, v.fields) { ModelDecides(p, v, envelope, isDate); }
      case UNION => UnionDecides(p, v, envelope, isDate);
      case _ =>
    }
  }

  lemma {:induction false} ItemDecides(c: Port, v: Value, envelope: bool, isDate: DateReader)
    requires WellFormed(c)
    ensures Answers(CheckItem(c, v, envelope, isDate), ItemInhabits(c, v, envelope, isDate), ItemRaises(c, v, envelope, isDate))
    decreases c, 3
  {
    CheckDecides(c, v, envelope, isDate);
  }

  lemma {:induction false} FieldDecides(c: Port, v: Option<Value>, envelope: bool, isDate: DateReader)
    requires WellFormed(c)
    ensures Answers(CheckField(c, v, envelope, isDate), FieldInhabits(c, v, envelope, isDate), FieldRaises(c, v, envelope, isDate))
    decreases c, 3
  {
    if v.Some? { CheckDecides(c, v.value, envelope, isDate); }
  }

  /** An entry is typed by one child at most. */
  lemma {:induction false} EntryDecides(p: Port, entry: (string, Value), envelope: bool, isDate: DateReader)
    requires WellFormed(p) && p.kind == DICT
    ensures Answers(CheckEntry(p, entry, envelope, isDate), EntryInhabits(p, entry, envelope, isDate), EntryRaises(p, entry, envelope, isDate))
    decreases p, 0
  {
    if IsHomogeneous(p) || HasChild(p.children, entry.0) {
      var c := if IsHomogeneous(p) then p.children[0] else ChildAt(p.children, entry.0);
      ItemDecides(c, entry.1, envelope, isDate);
      assert Types(p, c, entry.0);
      assert forall d :: Types(p, d, entry.0) ==> d == c;
    }
  }

  lemma {:induction false} ListDecides(p: Port, v: Value, envelope: bool, isDate: DateReader)
    requires WellFormed(p) && p.kind == LIST && v.List?
    ensures Answers(Check(p, v, envelope, isDate), Inhabits(p, v, envelope, isDate), Raises(p, v, envelope, isDate))
    decreases p, 1
  {
    var c, vs := p.children[0], v.items;
    var holds := ItemsHold(c, vs, envelope, isDate);
    forall i | 0 <= i < |vs| ensures Answers(Items(c, vs, envelope, isDate)[i], holds[i], ItemsRaise(c, vs, envelope, isDate)[i]) {
      ItemDecides(c, vs[i], envelope, isDate);
    }
    AllAnswers(Items(c, vs, envelope, isDate), holds, ItemsRaise(c, vs, envelope, isDate));
    ListInhabits(p, v, c, envelope, isDate);
  }

  /** The one child types every item. */
  lemma ListInhabits(p: Port, v: Value, c: Port, envelope: bool, isDate: DateReader)
    requires p.kind == LIST && p.children == [c] && v.List?
    ensures Inhabits(p, v, envelope, isDate) <==>
      forall i :: 0 <= i < |v.items| ==> ItemsHold(c, v.items, envelope, isDate)[i]
  {
    var holds := ItemsHold(c, v.items, envelope, isDate);
    if Inhabits(p, v, envelope, isDate) {
      forall i | 0 <= i < |holds| ensures holds[i] {
        assert c in p.children && ItemInhabits(c, v.items[i], envelope, isDate);
      }
    }
    if forall i :: 0 <= i < |holds| ==> holds[i] {
      forall d, i | d in p.children && 0 <= i < |v.items| ensures ItemInhabits(d, v.items[i], envelope, isDate) {
        assert d == c && holds[i];
      }
    }
  }

  lemma {:induction false} DictDecides(p: Port, v: Value, envelope: bool, isDate: DateReader)
    requires WellFormed(p) && p.kind == DICT && v.Dict?
    ensures Answers(Check(p, v, envelope, isDate), Inhabits(p, v, envelope, isDate), Raises(p, v, envelope, isDate))
    decreases p, 1
  {
    var es := v.fields;
    var holds := EntriesHold(p, es, envelope, isDate);
    forall i | 0 <= i < |es| ensures Answers(Entries(p, es, envelope, isDate)[i], holds[i], EntriesRaise(p, es, envelope, isDate)[i]) {
      EntryDecides(p, es[i], envelope, isDate);
    }
    AllAnswers(Entries(p, es, envelope, isDate), holds, EntriesRaise(p, es, envelope, isDate));
    EntriesInhabit(p, v, envelope, isDate);
  }

  lemma EntriesInhabit(p: Port, v: Value, envelope: bool, isDate: DateReader)
    requires p.kind == DICT && v.Dict?
    ensures Inhabits(p, v, envelope, isDate) <==>
      forall i :: 0 <= i < |v.fields| ==> EntriesHold(p, v.fields, envelope, isDate)[i]
  {
    var holds := EntriesHold(p, v.fields, envelope, isDate);
    assert forall i :: 0 <= i < |holds| ==> holds[i] == EntryInhabits(p, v.fields[i], envelope, isDate);
  }

  lemma {:induction false} ModelDecides(p: Port, v: Value, envelope: bool, isDate: DateReader)
    requires WellFormed(p) && p.kind == MODEL && v.Dict? && KnownKeys(p, v.fields)
    ensures Answers(Check(p, v, envelope, isDate), Inhabits(p, v, envelope, isDate), Raises(p, v, envelope, isDate))
    decreases p, 1
  {
    var cs, fields := p.children, v.fields;
    var holds := FieldsHold(p, fields, envelope, isDate);
    forall i | 0 <= i < |cs| ensures Answers(Fields(p, fields, envelope, isDate)[i], holds[i], FieldsRaise(p, fields, envelope, isDate)[i]) {
      FieldDecides(cs[i], Get(fields, cs[i].key), envelope, isDate);
    }
    AllAnswers(Fields(p, fields, envelope, isDate), holds, FieldsRaise(p, fields, envelope, isDate));
    FieldsInhabit(p, v, envelope, isDate);
  }

  lemma FieldsInhabit(p: Port, v: Value, envelope: bool, isDate: DateReader)
    requires p.kind == MODEL && v.Dict? && KnownKeys(p, v.fields)
    ensures Inhabits(p, v, envelope, isDate) <==>
      forall i :: 0 <= i < |p.children| ==> FieldsHold(p, v.fields, envelope, isDate)[i]
  {
    var cs, holds := p.children, FieldsHold(p, v.fields, envelope, isDate);
    assert forall i :: 0 <= i < |cs| ==> holds[i] == FieldInhabits(cs[i], Get(v.fields, cs[i].key), envelope, isDate);
  }

  lemma {:induction false} UnionDecides(p: Port, v: Value, envelope: bool, isDate: DateReader)
    requires WellFormed(p) && p.kind == UNION
    ensures Answers(Check(p, v, envelope, isDate), Inhabits(p, v, envelope, isDate), Raises(p, v, envelope, isDate))
    decreases p, 1
  {
    var cs, misses := p.children, VariantsMiss(p, v, envelope, isDate);
    forall i | 0 <= i < |cs| ensures Answers(Variants(p, v, envelope, isDate)[i], !misses[i], VariantsRaise(p, v, envelope, isDate)[i]) {
      CheckDecides(cs[i], v, envelope, isDate);
    }
    AnyAnswers(Variants(p, v, envelope, isDate), misses, VariantsRaise(p, v, envelope, isDate));
    SomeVariantInhabited(p, v, envelope, isDate);
  }

  lemma SomeVariantInhabited(p: Port, v: Value, envelope: bool, isDate: DateReader)
    requires p.kind == UNION
    ensures Inhabits(p, v, envelope, isDate) <==>
      exists i :: 0 <= i < |p.children| && !VariantsMiss(p, v, envelope, isDate)[i]
  {
    var cs, misses := p.children, VariantsMiss(p, v, envelope, isDate);
    assert forall i :: 0 <= i < |cs| ==> misses[i] == !Inhabits(cs[i], v, envelope, isDate);
  }

  // ---------------------------------------------------------------- kind by kind

  /** The dict has that entry: of two under one key the later. */
  ghost predicate HasEntry(fields: seq<(string, Value)>, key: string, v: Value) {
    exists i :: 0 <= i < |fields| && fields[i] == (key, v) && forall j :: i < j < |fields| ==> fields[j].0 != key
  }

  lemma {:induction false} GetIs(fields: seq<(string, Value)>, key: string)
    ensures Get(fields, key).None? <==> forall i :: 0 <= i < |fields| ==> fields[i].0 != key
    ensures Get(fields, key).Some? ==> HasEntry(fields, key, Get(fields, key).value)
    ensures forall v :: HasEntry(fields, key, v) ==> Get(fields, key) == Some(v)
    decreases |fields|
  {
    if fields != [] {
      var n := |fields| - 1;
      GetIs(fields[..n], key);
      if fields[n].0 == key {
        assert fields[n] == (key, fields[n].1);
      } else {
        EarlierEntry(fields, key);
      }
    }
  }

  lemma EarlierEntry(fields: seq<(string, Value)>, key: string)
    requires fields != [] && fields[|fields| - 1].0 != key
    ensures forall v :: HasEntry(fields, key, v) <==> HasEntry(fields[..|fields| - 1], key, v)
  {
    var n := |fields| - 1;
    forall v ensures HasEntry(fields, key, v) <==> HasEntry(fields[..n], key, v) {
      if i :| 0 <= i < |fields| && fields[i] == (key, v) && forall j :: i < j < |fields| ==> fields[j].0 != key {
        assert fields[..n][i] == (key, v);
      }
      if i :| 0 <= i < n && fields[..n][i] == (key, v) && forall j :: i < j < n ==> fields[..n][j].0 != key {
        assert fields[i] == (key, v);
        assert forall j :: i < j < n ==> fields[j] == fields[..n][j];
      }
    }
  }

  /** A default's reference is a bare id; an argument's is an envelope, naming the port's identifier where it
      has one, around an id. */
  lemma ReferenceIff(p: Port, v: Value, isDate: DateReader)
    requires WellFormed(p) && p.kind == REFERENCE
    ensures Check(p, v, false, isDate) == Fits <==> v.Str? || v.Int?
    ensures Check(p, v, true, isDate) == Fits <==>
      && v.Dict?
      && (exists id :: HasEntry(v.fields, "__identifier", id) && (p.identifier.Some? ==> id == Str(p.identifier.value)))
      && exists object_ :: HasEntry(v.fields, "object", object_) && (object_.Str? || object_.Int?)
  {
    if v.Dict? {
      GetIs(v.fields, "__identifier");
      GetIs(v.fields, "object");
    }
  }

  /** A quantity is a number, or a dict with a number as its value and a text as its unit, if any. */
  lemma QuantityIff(p: Port, v: Value, envelope: bool, isDate: DateReader)
    requires WellFormed(p) && p.kind == QUANTITY
    ensures Check(p, v, envelope, isDate) == Fits <==>
      || v.Int? || v.Float?
      || (&& v.Dict? && (exists n :: HasEntry(v.fields, "value", n) && (n.Int? || n.Float?))
          && forall u :: HasEntry(v.fields, "unit", u) ==> u.Str?)
  {
    if v.Dict? {
      GetIs(v.fields, "value");
      GetIs(v.fields, "unit");
    }
  }

  /** What a scalar is equal to in Python: itself, and as a number the same number, true being 1 and false 0. */
  function AsNumber(v: Value): Option<real> {
    match v
    case Bool(b) => Some(if b then 1.0 else 0.0)
    case Int(i) => Some(i as real)
    case Float(f) => Some(f)
    case _ => None
  }

  /** An ENUM raises on a list or a dict, and accepts what equals one of its choices. */
  lemma EnumIff(p: Port, v: Value, envelope: bool, isDate: DateReader)
    requires WellFormed(p) && p.kind == ENUM
    ensures Check(p, v, envelope, isDate) == Raised <==> v.List? || v.Dict?
    ensures Check(p, v, envelope, isDate) == Fits <==>
      !v.List? && !v.Dict? && exists c :: c in p.choices && (c == v || (AsNumber(c).Some? && AsNumber(c) == AsNumber(v)))
  {}

  /** A FLOAT takes any number but no boolean, an INT no float. */
  lemma NumbersIff(p: Port, v: Value, envelope: bool, isDate: DateReader)
    requires WellFormed(p)
    ensures p.kind == FLOAT ==> (Check(p, v, envelope, isDate) == Fits <==> v.Int? || v.Float?)
    ensures p.kind == INT ==> (Check(p, v, envelope, isDate) == Fits <==> v.Int?)
  {}

  /** A MODEL knows its children's keys and `__identifier`, and no others. */
  lemma ModelKeys(p: Port, v: Value, envelope: bool, isDate: DateReader)
    requires WellFormed(p) && p.kind == MODEL && v.Dict?
    ensures Check(p, v, envelope, isDate) == Fits ==>
      forall i :: 0 <= i < |v.fields| ==> v.fields[i].0 == "__identifier" || exists c :: c in p.children && c.key == v.fields[i].0
    ensures p.children == [] ==>
      (Check(p, v, envelope, isDate) == Fits <==> forall i :: 0 <= i < |v.fields| ==> v.fields[i].0 == "__identifier")
  {}

  /** A field may be missing or null where its child is nullable or has a default; otherwise it fits the child. */
  lemma ModelFields(p: Port, c: Port, v: Value, envelope: bool, isDate: DateReader)
    requires WellFormed(p) && p.kind == MODEL && p.children == [c] && c.kind == INT && v.Dict?
    ensures Check(p, v, envelope, isDate) == Fits <==>
      && (forall i :: 0 <= i < |v.fields| ==> v.fields[i].0 in ["__identifier", c.key])
      && (c.nullable || c.hasDefault || exists x :: HasEntry(v.fields, c.key, x) && x.Int?)
      && (forall x :: HasEntry(v.fields, c.key, x) ==> x.Int? || (x == Null && (c.nullable || c.hasDefault)))
  {
    GetIs(v.fields, c.key);
    assert p.children[0] == c && c in p.children;
    assert forall key :: HasChild(p.children, key) <==> c.key == key;
    var got := Get(v.fields, c.key);
    var os := Fields(p, v.fields, envelope, isDate);
    assert |os| == 1 && os[0] == CheckField(c, got, envelope, isDate);
    assert got.Some? ==> Check(c, got.value, envelope, isDate) == Of(got.value.Int?);
    AllFit(os);
    assert Check(p, v, envelope, isDate) == if KnownKeys(p, v.fields) then All(os) else Mismatch;
    assert KnownKeys(p, v.fields) <==> forall i :: 0 <= i < |v.fields| ==> v.fields[i].0 in ["__identifier", c.key];
  }

  /** A DICT whose one child is named `...` types every entry by it; any other child only the entry of its key. */
  lemma DictEntries(p: Port, c: Port, v: Value, envelope: bool, isDate: DateReader)
    requires WellFormed(p) && p.kind == DICT && p.children == [c] && c.kind == INT && v.Dict?
    ensures Check(p, v, envelope, isDate) == Fits <==>
      forall i :: 0 <= i < |v.fields| ==> ((c.key == "..." || v.fields[i].0 == c.key) ==> v.fields[i].1.Int? || (v.fields[i].1 == Null && c.nullable))
  {
    var os := Entries(p, v.fields, envelope, isDate);
    forall i | 0 <= i < |v.fields| ensures os[i] ==
      Of((c.key == "..." || v.fields[i].0 == c.key) ==> v.fields[i].1.Int? || (v.fields[i].1 == Null && c.nullable))
    {
      IntEntry(p, c, v.fields[i], envelope, isDate);
    }
    AllFit(os);
    assert Check(p, v, envelope, isDate) == All(os);
  }

  lemma IntEntry(p: Port, c: Port, entry: (string, Value), envelope: bool, isDate: DateReader)
    requires WellFormed(p) && p.kind == DICT && p.children == [c] && c.kind == INT
    ensures CheckEntry(p, entry, envelope, isDate) ==
      Of((c.key == "..." || entry.0 == c.key) ==> entry.1.Int? || (entry.1 == Null && c.nullable))
  {
    assert p.children[0] == c && c in p.children;
    assert HasChild(p.children, entry.0) <==> c.key == entry.0;
    assert Check(c, entry.1, envelope, isDate) == Of(entry.1.Int?);
    if HasChild(p.children, entry.0) { assert ChildAt(p.children, entry.0) == c; }
  }

  lemma {:induction false} AllFit(os: seq<Outcome>)
    ensures All(os) == Fits <==> forall i :: 0 <= i < |os| ==> os[i] == Fits
    decreases |os|
  {
    if os != [] {
      AllFit(os[1..]);
      assert forall i :: 0 < i < |os| ==> os[i] == os[1..][i - 1];
    }
  }

  // ---------------------------------------------------------------- ports on which it never raises

  /** No ENUM anywhere below: nothing to raise. */
  predicate NoEnum(p: Port) {
    p.kind != ENUM && forall c | c in p.children :: NoEnum(c)
  }

  /** Of every UNION's variants only the last may have an ENUM below. */
  predicate Calm(p: Port) {
    && (p.kind == UNION ==> forall i | 0 <= i < |p.children| - 1 :: NoEnum(p.children[i]))
    && forall c | c in p.children :: Calm(c)
  }

  /** A raise comes from a child, and from one the value's part inhabits where the value inhabits the port. */
  lemma RaisesBelow(p: Port, v: Value, envelope: bool, isDate: DateReader) returns (c: Port, x: Value)
    requires Raises(p, v, envelope, isDate) && p.kind != ENUM
    ensures c in p.children && Raises(c, x, envelope, isDate)
    ensures Inhabits(p, v, envelope, isDate) && p.kind != UNION ==> Inhabits(c, x, envelope, isDate)
  {
    match p.kind {
      case LIST =>
        var i :| 0 <= i < |v.items| && ItemsRaise(p.children[0], v.items, envelope, isDate)[i];
        c, x := p.children[0], v.items[i];
        assert ItemRaises(c, x, envelope, isDate);
        assert c in p.children && Raises(c, x, envelope, isDate);
        if Inhabits(p, v, envelope, isDate) { assert ItemInhabits(c, v.items[i], envelope, isDate); }
      case DICT =>
        var i :| 0 <= i < |v.fields| && EntriesRaise(p, v.fields, envelope, isDate)[i];
        assert EntryRaises(p, v.fields[i], envelope, isDate);
        c :| Types(p, c, v.fields[i].0) && c in p.children && ItemRaises(c, v.fields[i].1, envelope, isDate);
        x := v.fields[i].1;
        assert Raises(c, x, envelope, isDate);
        if Inhabits(p, v, envelope, isDate) {
          assert EntryInhabits(p, v.fields[i], envelope, isDate);
          assert ItemInhabits(c, x, envelope, isDate);
        }
      case MODEL =>
        var i :| 0 <= i < |p.children| && FieldsRaise(p, v.fields, envelope, isDate)[i];
        assert FieldRaises(p.children[i], Get(v.fields, p.children[i].key), envelope, isDate);
        c, x := p.children[i], Get(v.fields, p.children[i].key).value;
        assert Raises(c, x, envelope, isDate);
        if Inhabits(p, v, envelope, isDate) { assert FieldInhabits(c, Get(v.fields, c.key), envelope, isDate); }
      case UNION =>
        var i :| 0 <= i < |p.children| && VariantsRaise(p, v, envelope, isDate)[i];
        c, x := p.children[i], v;
    }
  }

  lemma {:induction false} NoEnumNeverRaises(p: Port, v: Value, envelope: bool, isDate: DateReader)
    requires NoEnum(p)
    ensures !Raises(p, v, envelope, isDate)
    decreases p
  {
    if Raises(p, v, envelope, isDate) {
      var c, x := RaisesBelow(p, v, envelope, isDate);
      NoEnumNeverRaises(c, x, envelope, isDate);
    }
  }

  /** Checking an inhabitant of a calm port never raises. */
  lemma {:induction false} CalmNeverRaises(p: Port, v: Value, envelope: bool, isDate: DateReader)
    requires WellFormed(p) && Calm(p) && Inhabits(p, v, envelope, isDate)
    ensures !Raises(p, v, envelope, isDate)
    decreases p
  {
    if p.kind == UNION {
      forall c | c in p.children && Inhabits(c, v, envelope, isDate) ensures !Raises(c, v, envelope, isDate) {
        CalmNeverRaises(c, v, envelope, isDate);
      }
      CalmUnion(p, v, envelope, isDate);
    } else if Raises(p, v, envelope, isDate) && p.kind != ENUM {
      var c, x := RaisesBelow(p, v, envelope, isDate);
      CalmNeverRaises(c, x, envelope, isDate);
    }
  }

  /** So it is accepted. */
  lemma CalmAccepts(p: Port, v: Value, envelope: bool, isDate: DateReader)
    requires WellFormed(p) && Calm(p) && Inhabits(p, v, envelope, isDate)
    ensures Check(p, v, envelope, isDate) == Fits
  {
    CheckDecides(p, v, envelope, isDate);
    CalmNeverRaises(p, v, envelope, isDate);
  }

  lemma CalmUnion(p: Port, v: Value, envelope: bool, isDate: DateReader)
    requires Calm(p) && p.kind == UNION && Inhabits(p, v, envelope, isDate)
    requires forall c :: c in p.children && Inhabits(c, v, envelope, isDate) ==> !Raises(c, v, envelope, isDate)
    ensures !Raises(p, v, envelope, isDate)
  {
    var misses, raises := VariantsMiss(p, v, envelope, isDate), VariantsRaise(p, v, envelope, isDate);
    var c :| c in p.children && Inhabits(c, v, envelope, isDate);
    var k :| 0 <= k < |p.children| && p.children[k] == c;
    assert !misses[k];
    if Raises(p, v, envelope, isDate) {
      var i :| 0 <= i < |raises| && raises[i] && forall j :: 0 <= j < i ==> misses[j];
      assert Raises(p.children[i], v, envelope, isDate);
      if i < |p.children| - 1 { NoEnumNeverRaises(p.children[i], v, envelope, isDate); }
    }
  }

  // ---------------------------------------------------------------- loosening

  /** The port admits more: null, a default, any identifier, more choices, FLOAT for INT, more variants in
      any place, or looser children. */
  ghost predicate Looser(p: Port, q: Port)
    decreases p
  {
    && p.key == q.key && (q.kind == p.kind || (p.kind == INT && q.kind == FLOAT))
    && (p.nullable ==> q.nullable) && (p.hasDefault ==> q.hasDefault)
    && (q.identifier == p.identifier || q.identifier.None?)
    && (forall c :: c in p.choices ==> c in q.choices)
    && if p.kind == UNION then forall c :: c in p.children ==> exists d :: d in q.children && Looser(c, d)
       else |p.children| == |q.children| && forall i :: 0 <= i < |p.children| ==> Looser(p.children[i], q.children[i])
  }

  /** Loosening a port anywhere in the tree keeps every inhabitant. */
  lemma {:induction false} LooserKeeps(p: Port, q: Port, v: Value, envelope: bool, isDate: DateReader)
    requires Looser(p, q) && Inhabits(p, v, envelope, isDate)
    ensures Inhabits(q, v, envelope, isDate)
    decreases p, 0
  {
    match p.kind {
      case LIST =>
        forall c, j | c in q.children && 0 <= j < |v.items| ensures ItemInhabits(c, v.items[j], envelope, isDate) {
          var i :| 0 <= i < |q.children| && q.children[i] == c;
          assert p.children[i] in p.children && ItemInhabits(p.children[i], v.items[j], envelope, isDate);
          if v.items[j] != Null { LooserKeeps(p.children[i], c, v.items[j], envelope, isDate); }
        }
      case DICT =>
        forall j | 0 <= j < |v.fields| ensures EntryInhabits(q, v.fields[j], envelope, isDate) {
          LooserEntry(p, q, v.fields[j], envelope, isDate);
        }
      case MODEL => LooserModel(p, q, v, envelope, isDate);
      case UNION =>
        var c :| c in p.children && Inhabits(c, v, envelope, isDate);
        var d :| d in q.children && Looser(c, d);
        LooserKeeps(c, d, v, envelope, isDate);
      case _ =>
    }
  }

  lemma {:induction false} LooserEntry(p: Port, q: Port, entry: (string, Value), envelope: bool, isDate: DateReader)
    requires Looser(p, q) && p.kind == DICT && EntryInhabits(p, entry, envelope, isDate)
    ensures EntryInhabits(q, entry, envelope, isDate)
    decreases p, 0, 0
  {
    assert IsHomogeneous(p) <==> IsHomogeneous(q);
    forall c | Types(q, c, entry.0) ensures ItemInhabits(c, entry.1, envelope, isDate) {
      var i :| 0 <= i < |q.children| && q.children[i] == c;
      assert Types(p, p.children[i], entry.0) && ItemInhabits(p.children[i], entry.1, envelope, isDate);
      if entry.1 != Null { LooserKeeps(p.children[i], c, entry.1, envelope, isDate); }
    }
  }

  lemma {:induction false} LooserModel(p: Port, q: Port, v: Value, envelope: bool, isDate: DateReader)
    requires Looser(p, q) && p.kind == MODEL && Inhabits(p, v, envelope, isDate)
    ensures Inhabits(q, v, envelope, isDate)
    decreases p, 0, 0
  {
    forall j | 0 <= j < |v.fields| ensures v.fields[j].0 == "__identifier" || HasChild(q.children, v.fields[j].0) {
      if v.fields[j].0 != "__identifier" {
        var c :| c in p.children && c.key == v.fields[j].0;
        var i :| 0 <= i < |p.children| && p.children[i] == c;
        assert q.children[i] in q.children && q.children[i].key == v.fields[j].0;
      }
    }
    forall c | c in q.children ensures FieldInhabits(c, Get(v.fields, c.key), envelope, isDate) {
      var i :| 0 <= i < |q.children| && q.children[i] == c;
      assert p.children[i] in p.children && FieldInhabits(p.children[i], Get(v.fields, c.key), envelope, isDate);
      var item := Get(v.fields, c.key);
      if item.Some? && item != Some(Null) { LooserKeeps(p.children[i], c, item.value, envelope, isDate); }
    }
  }

  /** So a loosened check never refuses what was accepted: it accepts it too, exactly when it does not
      raise, as it never does where it is calm. */
  lemma LooserAccepts(p: Port, q: Port, v: Value, envelope: bool, isDate: DateReader)
    requires WellFormed(p) && WellFormed(q) && Looser(p, q) && Check(p, v, envelope, isDate) == Fits
    ensures Check(q, v, envelope, isDate) == (if Raises(q, v, envelope, isDate) then Raised else Fits)
    ensures Calm(q) ==> Check(q, v, envelope, isDate) == Fits
  {
    CheckDecides(p, v, envelope, isDate);
    LooserKeeps(p, q, v, envelope, isDate);
    CheckDecides(q, v, envelope, isDate);
    if Calm(q) { CalmAccepts(q, v, envelope, isDate); }
  }

  lemma {:induction false} LooserSelf(p: Port)
    ensures Looser(p, p)
  {
    forall c | c in p.children ensures Looser(c, c) {
      LooserSelf(c);
    }
  }

  /** The first variant that does not refuse the value answers for the UNION. */
  lemma FirstVariant(p: Port, v: Value, envelope: bool, isDate: DateReader)
    requires WellFormed(p) && p.kind == UNION && p.children != []
    requires Check(p.children[0], v, envelope, isDate) != Mismatch
    ensures Check(p, v, envelope, isDate) == Check(p.children[0], v, envelope, isDate)
  {
    assert Variants(p, v, envelope, isDate)[0] == Check(p.children[0], v, envelope, isDate);
  }

  /** Putting an ENUM variant first loosens a UNION, and makes it raise on every list and dict, accepted
      before or not. */
  lemma EnumFirstRaises(p: Port, e: Port, v: Value, envelope: bool, isDate: DateReader)
    requires WellFormed(p) && p.kind == UNION && WellFormed(e) && e.kind == ENUM && !Hashable(v)
    ensures var q := p.(children := [e] + p.children);
      WellFormed(q) && Looser(p, q) && Check(q, v, envelope, isDate) == Raised
  {
    var q := p.(children := [e] + p.children);
    assert forall c :: c in q.children ==> c == e || c in p.children;
    FirstVariant(q, v, envelope, isDate);
    forall c | c in p.children ensures c in q.children && Looser(c, c) {
      LooserSelf(c);
    }
  }

  /** So a loosened port can raise on a value it accepted. */
  lemma LooseningCanRaise(l: Port, s: Port, e: Port, isDate: DateReader)
    requires WellFormed(l) && l.kind == LIST && WellFormed(s) && WellFormed(e) && e.kind == ENUM
    ensures var p := Port("x", UNION, false, false, None, [l, s], []);
      var q := p.(children := [e] + p.children);
      && WellFormed(p) && WellFormed(q) && Looser(p, q)
      && Check(p, List([]), true, isDate) == Fits
      && Check(q, List([]), true, isDate) == Raised && Inhabits(q, List([]), true, isDate)
  {
    var p := Port("x", UNION, false, false, None, [l, s], []);
    assert p.children[0] == l && forall c :: c in p.children ==> c == l || c == s;
    FirstVariant(p, List([]), true, isDate);
    EnumFirstRaises(p, e, List([]), true, isDate);
    CheckDecides(p, List([]), true, isDate);
    LooserKeeps(p, p.(children := [e] + p.children), List([]), true, isDate);
  }

  // ---------------------------------------------------------------- assignment arguments

  datatype Verdict = Accepted | Unknown | Missing(key: string) | Bad(key: string) | Failed

  /** What one port of validate_assignment_args does with its argument. */
  function ValidatePort(p: Port, v: Option<Value>, isDate: DateReader): Verdict
    requires WellFormed(p)
  {
    if v.None? || v == Some(Null) then (if p.nullable || p.hasDefault then Accepted else Missing(p.key))
    else
      match Check(p, v.value, true, isDate)
      case Fits => Accepted
      case Mismatch => Bad(p.key)
      case Raised => Failed
  }

  /** The ports in order; the first that does not accept ends it. */
  function ValidatePorts(ports: seq<Port>, args: seq<(string, Value)>, isDate: DateReader): Verdict
    requires forall p :: p in ports ==> WellFormed(p)
  {
    if ports == [] then Accepted
    else
      var verdict := ValidatePort(ports[0], Get(args, ports[0].key), isDate);
      if verdict != Accepted then verdict else ValidatePorts(ports[1..], args, isDate)
  }

  /** validate_assignment_args: unknown keys are refused first. */
  function ValidateArgs(ports: seq<Port>, args: seq<(string, Value)>, isDate: DateReader): Verdict
    requires forall p :: p in ports ==> WellFormed(p)
  {
    if exists i | 0 <= i < |args| :: !HasChild(ports, args[i].0) then Unknown else ValidatePorts(ports, args, isDate)
  }

  /** The port has what it needs, whether or not checking it would raise. */
  ghost predicate Served(p: Port, args: seq<(string, Value)>, isDate: DateReader) {
    FieldInhabits(p, Get(args, p.key), true, isDate)
  }

  ghost predicate Stumbles(p: Port, args: seq<(string, Value)>, isDate: DateReader) {
    FieldRaises(p, Get(args, p.key), true, isDate)
  }

  /** Every port is served, and none stumbles. */
  ghost predicate AllServed(ports: seq<Port>, args: seq<(string, Value)>, isDate: DateReader) {
    forall p :: p in ports ==> Served(p, args, isDate) && !Stumbles(p, args, isDate)
  }

  /** The port at `i` is the first that is not served, or on which checking raises. */
  ghost predicate FirstFault(ports: seq<Port>, i: nat, args: seq<(string, Value)>, isDate: DateReader) {
    && i < |ports| && (!Served(ports[i], args, isDate) || Stumbles(ports[i], args, isDate))
    && AllServed(ports[..i], args, isDate)
  }

  /** The verdict is that of the first fault. */
  ghost predicate FaultAt(ports: seq<Port>, i: nat, args: seq<(string, Value)>, isDate: DateReader, verdict: Verdict)
    requires forall p :: p in ports ==> WellFormed(p)
  {
    FirstFault(ports, i, args, isDate) && verdict == ValidatePort(ports[i], Get(args, ports[i].key), isDate)
  }

  lemma FaultLater(ports: seq<Port>, p: Port, rest: seq<Port>, i: nat, args: seq<(string, Value)>, isDate: DateReader, verdict: Verdict)
    requires ports == [p] + rest && forall q :: q in ports ==> WellFormed(q)
    requires Served(p, args, isDate) && !Stumbles(p, args, isDate)
    requires forall q :: q in rest ==> WellFormed(q)
    requires FaultAt(rest, i, args, isDate, verdict)
    ensures FaultAt(ports, i + 1, args, isDate, verdict)
  {
    assert ports[..i + 1] == [p] + rest[..i];
  }

  lemma PortDecides(p: Port, args: seq<(string, Value)>, isDate: DateReader)
    requires WellFormed(p)
    ensures ValidatePort(p, Get(args, p.key), isDate) ==
      if Stumbles(p, args, isDate) then Failed
      else if Served(p, args, isDate) then Accepted
      else if Get(args, p.key) in {None, Some(Null)} then Missing(p.key)
      else Bad(p.key)
  {
    FieldDecides(p, Get(args, p.key), true, isDate);
  }

  lemma {:induction false} PortsDecide(ports: seq<Port>, args: seq<(string, Value)>, isDate: DateReader)
    requires forall p :: p in ports ==> WellFormed(p)
    ensures ValidatePorts(ports, args, isDate) == Accepted <==> AllServed(ports, args, isDate)
    ensures ValidatePorts(ports, args, isDate) != Accepted ==>
      exists i: nat :: FaultAt(ports, i, args, isDate, ValidatePorts(ports, args, isDate))
    decreases |ports|
  {
    if ports != [] {
      var p, rest := ports[0], ports[1..];
      PortDecides(p, args, isDate);
      PortsDecide(rest, args, isDate);
      assert ports == [p] + rest;
      if ValidatePort(p, Get(args, p.key), isDate) != Accepted {
        assert FaultAt(ports, 0, args, isDate, ValidatePorts(ports, args, isDate));
      } else if ValidatePorts(rest, args, isDate) != Accepted {
        var i: nat :| FaultAt(rest, i, args, isDate, ValidatePorts(rest, args, isDate));
        FaultLater(ports, p, rest, i, args, isDate, ValidatePorts(rest, args, isDate));
      }
    }
  }

  /** Arguments are accepted exactly when each is known and every port is served without a raise; a
      refusal names the first port that is not served, and a raise comes from the first fault. */
  lemma ArgsDecide(ports: seq<Port>, args: seq<(string, Value)>, isDate: DateReader)
    requires forall p :: p in ports ==> WellFormed(p)
    ensures var known := forall i :: 0 <= i < |args| ==> HasChild(ports, args[i].0);
      var verdict := ValidateArgs(ports, args, isDate);
      && (verdict == Unknown <==> !known)
      && (verdict == Accepted <==> known && AllServed(ports, args, isDate))
      && (verdict == Failed ==> exists i: nat :: FirstFault(ports, i, args, isDate) && Stumbles(ports[i], args, isDate))
      && (verdict.Missing? || verdict.Bad? ==> exists i: nat ::
            FirstFault(ports, i, args, isDate) && !Served(ports[i], args, isDate) && verdict.key == ports[i].key)
  {
    PortsDecide(ports, args, isDate);
    var verdict := ValidatePorts(ports, args, isDate);
    if verdict != Accepted {
      var i: nat :| FaultAt(ports, i, args, isDate, verdict);
      PortDecides(ports[i], args, isDate);
    }
  }
}
