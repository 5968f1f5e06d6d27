/** Action demands as one UNION ALL statement (facade/managers.py, _action_demand_clauses). */
module ActionDemands {
  import opened Collections
  import opened Json
  import opened Keys
  import opened Logic3
  import opened Matcher
  import opened Ports
  import opened Statements

  // ---------------------------------------------------------------- demands

  /** ActionDemandInputModel. */
  datatype ActionDemand = ActionDemand(
    hash: Option<string>,
    key: Option<string>,
    app: Option<string>,
    version: Option<string>,
    name: Option<string>,
    argMatches: seq<Match>,
    returnMatches: seq<Match>,
    forceArgLength: Option<int>,
    forceReturnLength: Option<int>,
    protocols: seq<string>,
    pure: Option<bool>,
    idempotent: Option<bool>,
    stateful: Option<bool>)

  /** `if demand.key:` takes the empty text as not given. */
  predicate Truthy(v: Option<string>) {
    v.Some? && v.value != ""
  }

  predicate TextMet(row: OwnerRow, column: string, v: Option<string>) {
    v !in {None, Some("")} ==> At(row.texts, column) == v
  }

  predicate CountMet(row: OwnerRow, column: string, v: Option<int>) {
    v.Some? ==> At(row.counts, column) == v
  }

  predicate FlagMet(row: OwnerRow, column: string, v: Option<bool>) {
    v.Some? ==> At(row.flags, column) == v
  }

  predicate IdentityMet(row: OwnerRow, d: ActionDemand) {
    && TextMet(row, "key", d.key) && (d.app !in {None, Some("")} ==> row.app == d.app)
    && TextMet(row, "version", d.version) && TextMet(row, "name", d.name)
  }

  predicate ProtocolsMet(row: OwnerRow, d: ActionDemand) {
    forall p | p in d.protocols :: p in row.protocols
  }

  predicate LengthsMet(row: OwnerRow, d: ActionDemand) {
    CountMet(row, "arg_count", d.forceArgLength) && CountMet(row, "return_count", d.forceReturnLength)
  }

  predicate FlagsMet(row: OwnerRow, d: ActionDemand) {
    FlagMet(row, "pure", d.pure) && FlagMet(row, "idempotent", d.idempotent) && FlagMet(row, "stateful", d.stateful)
  }

  predicate TraitsMet(row: OwnerRow, d: ActionDemand) {
    LengthsMet(row, d) && ProtocolsMet(row, d) && FlagsMet(row, d)
  }

  /** What the demand asks of an action with these ports: its hash alone, or everything else that is given. */
  ghost predicate ActionMet(db: Database, row: OwnerRow, d: ActionDemand, args: seq<Port>, returns_: seq<Port>, cutoff: int) {
    if d.hash !in {None, Some("")} then At(row.texts, "hash") == d.hash
    else
      && IdentityMet(row, d)
      && MatchesMet(db, row.id, d.argMatches, args, Some(cutoff))
      && MatchesMet(db, row.id, d.returnMatches, returns_, None)
      && TraitsMet(row, d)
  }

  predicate Asks(d: ActionDemand) {
    || d.hash !in {None, Some("")} || d.key !in {None, Some("")} || d.app !in {None, Some("")}
    || d.version !in {None, Some("")} || d.name !in {None, Some("")}
    || d.argMatches != [] || d.returnMatches != [] || d.forceArgLength.Some? || d.forceReturnLength.Some? || d.protocols != []
    || d.pure.Some? || d.idempotent.Some? || d.stateful.Some?
  }

  /** A demand that raises nothing: a hash, or something asked and every object match narrowed. */
  predicate Answerable(d: ActionDemand) {
    d.hash !in {None, Some("")} || (AllNarrowed(d.argMatches) && AllNarrowed(d.returnMatches) && Asks(d))
  }

  // ---------------------------------------------------------------- names

  datatype Field = Hash | KeyText | App | Version | NameText | ArgLength | ReturnLength | Protocol(i: nat) | Pure | Idempotent | Stateful

  function FieldText(f: Field): string {
    match f
    case Hash => "hash"
    case KeyText => "key"
    case App => "app"
    case Version => "version"
    case NameText => "name"
    case ArgLength => "force_arg_length"
    case ReturnLength => "force_return_length"
    case Protocol(i) => "protocol_" + Decimal(i)
    case Pure => "pure"
    case Idempotent => "idempotent"
    case Stateful => "stateful"
  }

  /** `d{index}_{field}`. */
  function FieldName(n: nat, f: Field): string {
    "d" + (Decimal(n) + ("_" + FieldText(f)))
  }

  function ArgsOf(n: nat): Path {
    Path(OfArgs(n), [])
  }

  function ReturnsOf(n: nat): Path {
    Path(OfReturns(n), [])
  }

  function Initial(f: Field): char {
    match f
    case Hash => 'h'
    case KeyText => 'k'
    case App => 'a'
    case Version => 'v'
    case NameText => 'n'
    case ArgLength => 'f'
    case ReturnLength => 'f'
    case Protocol(_) => 'p'
    case Pure => 'p'
    case Idempotent => 'i'
    case Stateful => 's'
  }

  lemma ProtocolText(i: nat)
    ensures |FieldText(Protocol(i))| > 9 && FieldText(Protocol(i))[0] == 'p' && FieldText(Protocol(i))[9..] == Decimal(i)
  {}

  lemma StartsWith(f: Field)
    ensures FieldText(f) != "" && FieldText(f)[0] == Initial(f)
  {
    if f.Protocol? { ProtocolText(f.i); }
  }

  lemma SameField(f: Field, g: Field)
    requires FieldText(f) == FieldText(g)
    ensures f == g
  {
    StartsWith(f);
    StartsWith(g);
    assert Initial(f) == Initial(g);
    if f.Protocol? { ProtocolText(f.i); }
    if g.Protocol? { ProtocolText(g.i); }
    if f.Protocol? && g.Protocol? { SameDecimal(f.i, g.i); }
  }

  lemma SameFieldName(n: nat, f: Field, m: nat, g: Field)
    requires FieldName(n, f) == FieldName(m, g)
    ensures n == m && f == g
  {
    var x, y := "_" + FieldText(f), "_" + FieldText(g);
    assert Decimal(n) + x == FieldName(n, f)[1..] && Decimal(m) + y == FieldName(m, g)[1..];
    NumberEnds(n, x, m, y);
    assert FieldText(f) == x[1..] && FieldText(g) == y[1..];
    SameField(f, g);
  }

  /** No match has a name like a field's, and neither is the organization's. */
  lemma FieldApart(n: nat, f: Field, path: Path)
    ensures !NameBelow(FieldName(n, f), path) && FieldName(n, f) != "org"
  {
    var name := FieldName(n, f);
    assert name[0] == 'd' && name[1] == Decimal(n)[0] && Decimal(n)[0] in Decimal(n);
    forall tag, p | IsTag(tag) ensures name != Key(tag, p) {
      var i := FirstDigit(tag, p);
      assert i != 1 || Key(tag, p)[0] == '_';
    }
  }

  /** A name of the demand at `n`. */
  ghost predicate Mine(k: string, n: nat) {
    IsFieldName(k, n) || NameBelow(k, ArgsOf(n)) || NameBelow(k, ReturnsOf(n))
  }

  ghost predicate IsFieldName(k: string, n: nat) {
    exists f :: k == FieldName(n, f)
  }

  /** Two demands share no name. */
  lemma MineAlone(k: string, n: nat, m: nat)
    requires Mine(k, n) && Mine(k, m)
    ensures n == m && k != "org"
  {
    OrgApart(ArgsOf(n));
    OrgApart(ReturnsOf(n));
    var p := if NameBelow(k, ArgsOf(n)) then ArgsOf(n) else ReturnsOf(n);
    var q := if NameBelow(k, ArgsOf(m)) then ArgsOf(m) else ReturnsOf(m);
    if IsFieldName(k, n) {
      var f :| k == FieldName(n, f);
      FieldApart(n, f, q);
      if IsFieldName(k, m) {
        var g :| k == FieldName(m, g);
        SameFieldName(n, f, m, g);
      }
    } else if IsFieldName(k, m) {
      var g :| k == FieldName(m, g);
      FieldApart(m, g, p);
    } else {
      BelowBoth(k, p, q);
    }
  }

  // ---------------------------------------------------------------- clauses and parameters

  function TextParam(v: Option<string>): Option<Param> {
    if Truthy(v) then AsText(v) else None
  }

  /** What is bound for a field; None where the demand does not give it. */
  function Wanted(d: ActionDemand, f: Field): Option<Param> {
    match f
    case Hash => TextParam(d.hash)
    case KeyText => TextParam(d.key)
    case App => TextParam(d.app)
    case Version => TextParam(d.version)
    case NameText => TextParam(d.name)
    case ArgLength => AsNumber(d.forceArgLength)
    case ReturnLength => AsNumber(d.forceReturnLength)
    case Protocol(i) => if i < |d.protocols| then Some(Text(d.protocols[i])) else None
    case Pure => AsFlag(d.pure)
    case Idempotent => AsFlag(d.idempotent)
    case Stateful => AsFlag(d.stateful)
  }

  function FieldClause(n: nat, f: Field): Clause {
    match f
    case Hash => TextIs("hash", FieldName(n, f))
    case KeyText => TextIs("key", FieldName(n, f))
    case App => AppIs(FieldName(n, f))
    case Version => TextIs("version", FieldName(n, f))
    case NameText => TextIs("name", FieldName(n, f))
    case ArgLength => CountColumnIs("arg_count", FieldName(n, f))
    case ReturnLength => CountColumnIs("return_count", FieldName(n, f))
    case Protocol(_) => ProtocolIs(FieldName(n, f))
    case Pure => FlagIs("pure", FieldName(n, f))
    case Idempotent => FlagIs("idempotent", FieldName(n, f))
    case Stateful => FlagIs("stateful", FieldName(n, f))
  }

  function Asked(d: ActionDemand, n: nat, f: Field): seq<Clause> {
    OneIf(Wanted(d, f).Some?, FieldClause(n, f))
  }

  function IdentityClauses(d: ActionDemand, n: nat): seq<Clause> {
    Asked(d, n, KeyText) + Asked(d, n, App) + Asked(d, n, Version) + Asked(d, n, NameText)
  }

  function ProtocolClauses(n: nat, count: nat): seq<Clause> {
    seq(count, i requires 0 <= i < count => FieldClause(n, Protocol(i)))
  }

  function TraitClauses(d: ActionDemand, n: nat): seq<Clause> {
    LengthClauses(d, n) + ProtocolClauses(n, |d.protocols|) + FlagClauses(d, n)
  }

  function LengthClauses(d: ActionDemand, n: nat): seq<Clause> {
    Asked(d, n, ArgLength) + Asked(d, n, ReturnLength)
  }

  function FlagClauses(d: ActionDemand, n: nat): seq<Clause> {
    Asked(d, n, Pure) + Asked(d, n, Idempotent) + Asked(d, n, Stateful)
  }

  function SideClauses(d: ActionDemand, n: nat): seq<Clause> {
    MatchClauses(d.argMatches, "facade_argport", ArgsOf(n), true) + MatchClauses(d.returnMatches, "facade_returnport", ReturnsOf(n), false)
  }

  function ActionClauses(d: ActionDemand, n: nat): seq<Clause> {
    if Truthy(d.hash) then [FieldClause(n, Hash)] else IdentityClauses(d, n) + SideClauses(d, n) + TraitClauses(d, n)
  }

  predicate FieldBound(params: map<string, Param>, d: ActionDemand, n: nat, f: Field) {
    Wanted(d, f).Some? ==> At(params, FieldName(n, f)) == Wanted(d, f)
  }

  ghost predicate FieldsBound(params: map<string, Param>, d: ActionDemand, n: nat) {
    forall f :: FieldBound(params, d, n, f)
  }

  ghost predicate SidesBound(params: map<string, Param>, d: ActionDemand, n: nat, cutoff: int) {
    && MatchesBound(params, d.argMatches, ArgsOf(n), |d.argMatches|, Some(cutoff))
    && MatchesBound(params, d.returnMatches, ReturnsOf(n), |d.returnMatches|, None)
  }

  /** The demand's parameters are under its own names. */
  ghost predicate ActionBound(params: map<string, Param>, d: ActionDemand, n: nat, cutoff: int) {
    if Truthy(d.hash) then FieldBound(params, d, n, Hash) else FieldsBound(params, d, n) && SidesBound(params, d, n, cutoff)
  }

  // ---------------------------------------------------------------- what one demand selects

  /** The action's ports on both sides are the ones its rows represent. */
  ghost predicate ActionStored(db: Database, row: OwnerRow, args: seq<Port>, returns_: seq<Port>) {
    && Represents(RowsOf(db, "facade_argport"), row.id, None, "", args)
    && Represents(RowsOf(db, "facade_returnport"), row.id, None, "", returns_)
  }

  predicate FieldMet(row: OwnerRow, d: ActionDemand, f: Field) {
    match f
    case Hash => TextMet(row, "hash", d.hash)
    case KeyText => TextMet(row, "key", d.key)
    case App => Truthy(d.app) ==> row.app == d.app
    case Version => TextMet(row, "version", d.version)
    case NameText => TextMet(row, "name", d.name)
    case ArgLength => CountMet(row, "arg_count", d.forceArgLength)
    case ReturnLength => CountMet(row, "return_count", d.forceReturnLength)
    case Protocol(i) => i < |d.protocols| ==> d.protocols[i] in row.protocols
    case Pure => FlagMet(row, "pure", d.pure)
    case Idempotent => FlagMet(row, "idempotent", d.idempotent)
    case Stateful => FlagMet(row, "stateful", d.stateful)
  }

  lemma FieldMeans(db: Database, row: OwnerRow, params: map<string, Param>, d: ActionDemand, n: nat, f: Field)
    requires FieldBound(params, d, n, f)
    ensures Selected(db, row, params, Asked(d, n, f)) <==> FieldMet(row, d, f)
  {
    SelectedOne(db, row, params, Wanted(d, f).Some?, FieldClause(n, f));
  }

  lemma IdentityMeans(db: Database, row: OwnerRow, params: map<string, Param>, d: ActionDemand, n: nat)
    requires FieldsBound(params, d, n)
    ensures Selected(db, row, params, IdentityClauses(d, n)) <==> IdentityMet(row, d)
  {
    var k, a, v := Asked(d, n, KeyText), Asked(d, n, App), Asked(d, n, Version);
    JoinSelected(db, row, params, k + a + v, Asked(d, n, NameText));
    JoinSelected(db, row, params, k + a, v);
    JoinSelected(db, row, params, k, a);
    FieldMeans(db, row, params, d, n, KeyText);
    FieldMeans(db, row, params, d, n, App);
    FieldMeans(db, row, params, d, n, Version);
    FieldMeans(db, row, params, d, n, NameText);
  }

  lemma ProtocolsMean(db: Database, row: OwnerRow, params: map<string, Param>, d: ActionDemand, n: nat)
    requires FieldsBound(params, d, n)
    ensures Selected(db, row, params, ProtocolClauses(n, |d.protocols|)) <==> ProtocolsMet(row, d)
  {
    var cs := ProtocolClauses(n, |d.protocols|);
    SelectedEach(db, row, params, cs);
    forall i | 0 <= i < |cs| ensures Statements.Holds(db, row, params, cs[i]) == TRUE <==> d.protocols[i] in row.protocols {
      assert FieldBound(params, d, n, Protocol(i));
    }
  }

  lemma TraitsMean(db: Database, row: OwnerRow, params: map<string, Param>, d: ActionDemand, n: nat)
    requires FieldsBound(params, d, n)
    ensures Selected(db, row, params, TraitClauses(d, n)) <==> TraitsMet(row, d)
  {
    JoinThree(db, row, params, LengthClauses(d, n), ProtocolClauses(n, |d.protocols|), FlagClauses(d, n));
    LengthsMean(db, row, params, d, n);
    ProtocolsMean(db, row, params, d, n);
    FlagsMean(db, row, params, d, n);
  }

  lemma LengthsMean(db: Database, row: OwnerRow, params: map<string, Param>, d: ActionDemand, n: nat)
    requires FieldsBound(params, d, n)
    ensures Selected(db, row, params, LengthClauses(d, n)) <==> LengthsMet(row, d)
  {
    JoinSelected(db, row, params, Asked(d, n, ArgLength), Asked(d, n, ReturnLength));
    FieldMeans(db, row, params, d, n, ArgLength);
    FieldMeans(db, row, params, d, n, ReturnLength);
  }

  lemma FlagsMean(db: Database, row: OwnerRow, params: map<string, Param>, d: ActionDemand, n: nat)
    requires FieldsBound(params, d, n)
    ensures Selected(db, row, params, FlagClauses(d, n)) <==> FlagsMet(row, d)
  {
    FieldMeans(db, row, params, d, n, Pure);
    FieldMeans(db, row, params, d, n, Idempotent);
    FieldMeans(db, row, params, d, n, Stateful);
    JoinThree(db, row, params, Asked(d, n, Pure), Asked(d, n, Idempotent), Asked(d, n, Stateful));
  }

  lemma JoinThree(db: Database, row: OwnerRow, params: map<string, Param>, a: seq<Clause>, b: seq<Clause>, c: seq<Clause>)
    ensures Selected(db, row, params, a + b + c) <==>
      Selected(db, row, params, a) && Selected(db, row, params, b) && Selected(db, row, params, c)
  {
    JoinSelected(db, row, params, a + b, c);
    JoinSelected(db, row, params, a, b);
  }

  lemma SidesMean(db: Database, row: OwnerRow, params: map<string, Param>, d: ActionDemand, n: nat, cutoff: int, args: seq<Port>, returns_: seq<Port>)
    requires SidesBound(params, d, n, cutoff) && ActionStored(db, row, args, returns_)
    ensures Selected(db, row, params, SideClauses(d, n)) <==>
      MatchesMet(db, row.id, d.argMatches, args, Some(cutoff)) && MatchesMet(db, row.id, d.returnMatches, returns_, None)
  {
    var a := MatchClauses(d.argMatches, "facade_argport", ArgsOf(n), true);
    var r := MatchClauses(d.returnMatches, "facade_returnport", ReturnsOf(n), false);
    JoinSelected(db, row, params, a, r);
    MatchClausesMean(db, row, params, d.argMatches, "facade_argport", ArgsOf(n), Some(cutoff), args, a);
    MatchClausesMean(db, row, params, d.returnMatches, "facade_returnport", ReturnsOf(n), None, returns_, r);
  }

  /** A demand's clauses select exactly the actions that meet it. */
  lemma ActionMeans(db: Database, row: OwnerRow, params: map<string, Param>, d: ActionDemand, n: nat, cutoff: int, args: seq<Port>, returns_: seq<Port>)
    requires ActionBound(params, d, n, cutoff) && ActionStored(db, row, args, returns_)
    ensures Selected(db, row, params, ActionClauses(d, n)) <==> ActionMet(db, row, d, args, returns_, cutoff)
  {
    if Truthy(d.hash) {
      FieldMeans(db, row, params, d, n, Hash);
      assert ActionClauses(d, n) == Asked(d, n, Hash);
    } else {
      JoinThree(db, row, params, IdentityClauses(d, n), SideClauses(d, n), TraitClauses(d, n));
      IdentityMeans(db, row, params, d, n);
      SidesMean(db, row, params, d, n, cutoff, args, returns_);
      TraitsMean(db, row, params, d, n);
    }
  }

  // ---------------------------------------------------------------- the answer, demand by demand

  function SelectOf(organization: Option<int>, d: ActionDemand, n: nat): seq<Clause> {
    OneIf(organization.Some?, OrganizationIs("org")) + ActionClauses(d, n)
  }

  ghost predicate AllBound(params: map<string, Param>, organization: Option<int>, ds: seq<ActionDemand>, cutoff: int) {
    && (organization.Some? ==> At(params, "org") == Some(Number(organization.value)))
    && forall n :: 0 <= n < |ds| ==> ActionBound(params, ds[n], n, cutoff)
  }

  /** The organization's action meets the demand, with the ports it stands for. */
  ghost predicate Answers(db: Database, row: OwnerRow, organization: Option<int>, d: ActionDemand, args: seq<Port>, returns_: seq<Port>, cutoff: int) {
    (organization.Some? ==> row.organization == organization.value) && ActionMet(db, row, d, args, returns_, cutoff)
  }

  lemma SelectMeans(db: Database, row: OwnerRow, params: map<string, Param>, organization: Option<int>, ds: seq<ActionDemand>, n: nat, cutoff: int,
                    args: seq<Port>, returns_: seq<Port>)
    requires n < |ds| && AllBound(params, organization, ds, cutoff) && ActionStored(db, row, args, returns_)
    ensures Selected(db, row, params, SelectOf(organization, ds[n], n)) <==> Answers(db, row, organization, ds[n], args, returns_, cutoff)
  {
    JoinSelected(db, row, params, OneIf(organization.Some?, OrganizationIs("org")), ActionClauses(ds[n], n));
    SelectedOne(db, row, params, organization.Some?, OrganizationIs("org"));
    ActionMeans(db, row, params, ds[n], n, cutoff, args, returns_);
  }

  /** Each action's ports are the ones its rows represent. */
  ghost predicate AllStored(db: Database, rows: seq<OwnerRow>, args: map<nat, seq<Port>>, returns_: map<nat, seq<Port>>) {
    forall row :: row in rows ==> row.id in args && row.id in returns_ && ActionStored(db, row, args[row.id], returns_[row.id])
  }

  ghost predicate SomeRowSelected(db: Database, rows: seq<OwnerRow>, params: map<string, Param>, cs: seq<Clause>, id: nat) {
    exists row :: row in rows && row.id == id && Selected(db, row, params, cs)
  }

  /** What the UNION ALL returns: a pair for each select and each action it selects. */
  ghost predicate Returned(db: Database, rows: seq<OwnerRow>, params: map<string, Param>, selects: seq<seq<Clause>>, pairs: seq<(nat, nat)>) {
    forall n: nat, id: nat :: (n, id) in pairs <==> n < |selects| && SomeRowSelected(db, rows, params, selects[n], id)
  }

  /** The ids paired with one demand, in order. */
  function IdsFor(pairs: seq<(nat, nat)>, n: nat): seq<nat> {
    if pairs == [] then []
    else
      var last := pairs[|pairs| - 1];
      IdsFor(pairs[..|pairs| - 1], n) + (if last.0 == n then [last.1] else [])
  }

  lemma {:induction false} IdsPaired(pairs: seq<(nat, nat)>, n: nat, id: nat)
    ensures id in IdsFor(pairs, n) <==> (n, id) in pairs
    decreases |pairs|
  {
    if pairs != [] {
      var k := |pairs| - 1;
      IdsPaired(pairs[..k], n, id);
      assert pairs == pairs[..k] + [pairs[k]];
    }
  }

  ghost predicate SomeAnswer(db: Database, rows: seq<OwnerRow>, organization: Option<int>, d: ActionDemand, args: map<nat, seq<Port>>,
                             returns_: map<nat, seq<Port>>, cutoff: int, id: nat)
    requires AllStored(db, rows, args, returns_)
  {
    exists row :: row in rows && row.id == id && Answers(db, row, organization, d, args[row.id], returns_[row.id], cutoff)
  }

  /** The selects are the answerable demands', one each, and all their parameters are bound. */
  ghost predicate SelectsBuilt(params: map<string, Param>, organization: Option<int>, ds: seq<ActionDemand>, cutoff: int, selects: seq<seq<Clause>>) {
    SelectsListed(organization, ds, selects) && AllBound(params, organization, ds, cutoff) && forall d :: d in ds ==> Answerable(d)
  }

  predicate SelectsListed(organization: Option<int>, ds: seq<ActionDemand>, selects: seq<seq<Clause>>) {
    |selects| == |ds| && forall n | 0 <= n < |ds| :: selects[n] == SelectOf(organization, ds[n], n)
  }

  /** The list of a demand holds exactly the organization's actions that meet this demand, whatever the
      other demands ask. */
  lemma AnswersAligned(db: Database, rows: seq<OwnerRow>, params: map<string, Param>, organization: Option<int>, ds: seq<ActionDemand>, cutoff: int,
                       args: map<nat, seq<Port>>, returns_: map<nat, seq<Port>>, selects: seq<seq<Clause>>, pairs: seq<(nat, nat)>, n: nat, id: nat)
    requires AllStored(db, rows, args, returns_) && SelectsBuilt(params, organization, ds, cutoff, selects) && n < |ds|
    requires Returned(db, rows, params, selects, pairs)
    ensures id in IdsFor(pairs, n) <==> SomeAnswer(db, rows, organization, ds[n], args, returns_, cutoff, id)
  {
    IdsPaired(pairs, n, id);
    forall row | row in rows
      ensures Selected(db, row, params, selects[n]) <==> Answers(db, row, organization, ds[n], args[row.id], returns_[row.id], cutoff)
    {
      SelectMeans(db, row, params, organization, ds, n, cutoff, args[row.id], returns_[row.id]);
    }
    SelectedAnswers(db, rows, params, organization, ds[n], cutoff, args, returns_, selects[n], id);
  }

  lemma SelectedAnswers(db: Database, rows: seq<OwnerRow>, params: map<string, Param>, organization: Option<int>, d: ActionDemand, cutoff: int,
                        args: map<nat, seq<Port>>, returns_: map<nat, seq<Port>>, cs: seq<Clause>, id: nat)
    requires AllStored(db, rows, args, returns_)
    requires forall row :: row in rows ==>
      (Selected(db, row, params, cs) <==> Answers(db, row, organization, d, args[row.id], returns_[row.id], cutoff))
    ensures SomeRowSelected(db, rows, params, cs, id) <==> SomeAnswer(db, rows, organization, d, args, returns_, cutoff, id)
  {}

  /** `results[demand_index].append(action_id)`. */
  method CollectIds(pairs: seq<(nat, nat)>, count: nat) returns (results: seq<seq<nat>>)
    requires forall p :: p in pairs ==> p.0 < count
    ensures |results| == count && forall n :: 0 <= n < count ==> results[n] == IdsFor(pairs, n)
  {
    results := seq(count, _ => []);
    var i := 0;
    while i < |pairs|
      invariant i <= |pairs| && |results| == count && forall n :: 0 <= n < count ==> results[n] == IdsFor(pairs[..i], n)
    {
      var (n, id) := pairs[i];
      assert pairs[i] in pairs && pairs[..i + 1][..i] == pairs[..i];
      results := results[n := results[n] + [id]];
      i := i + 1;
    }
    assert pairs[..i] == pairs;
  }

  // ---------------------------------------------------------------- building it in place

  /** Only field names of the demand changed, and what was bound stays bound. */
  ghost predicate FieldStep(params: map<string, Param>, params': map<string, Param>, d: ActionDemand, n: nat) {
    && (forall k :: At(params', k) != At(params, k) ==> IsFieldName(k, n))
    && (forall f :: FieldBound(params, d, n, f) ==> FieldBound(params', d, n, f))
  }

  lemma FieldSteps(p: map<string, Param>, q: map<string, Param>, r: map<string, Param>, d: ActionDemand, n: nat)
    requires FieldStep(p, q, d, n) && FieldStep(q, r, d, n)
    ensures FieldStep(p, r, d, n)
  {
    forall k | At(r, k) != At(p, k) ensures IsFieldName(k, n) {
      assert At(r, k) != At(q, k) || At(q, k) != At(p, k);
    }
  }

  lemma FieldGiven(params: map<string, Param>, d: ActionDemand, n: nat, f: Field)
    ensures var params' := Given(params, FieldName(n, f), Wanted(d, f)); FieldStep(params, params', d, n) && FieldBound(params', d, n, f)
  {
    var params' := Given(params, FieldName(n, f), Wanted(d, f));
    forall g | FieldBound(params, d, n, g) ensures FieldBound(params', d, n, g) {
      if FieldName(n, g) == FieldName(n, f) { SameFieldName(n, g, n, f); }
    }
  }

  /** `if value: params[name] = value; clauses.append(...)`. */
  method BindField(st: Statement, ghost d: ActionDemand, n: nat, f: Field, value: Option<Param>, clauses: seq<Clause>) returns (cs: seq<Clause>)
    requires value == Wanted(d, f)
    modifies st
    ensures cs == clauses + Asked(d, n, f) && FieldStep(old(st.params), st.params, d, n) && FieldBound(st.params, d, n, f)
  {
    FieldGiven(st.params, d, n, f);
    cs := clauses;
    if value.Some? {
      st.params := st.params[FieldName(n, f) := value.value];
      cs := cs + [FieldClause(n, f)];
    }
  }

  method BindIdentity(st: Statement, d: ActionDemand, n: nat) returns (cs: seq<Clause>)
    modifies st
    ensures cs == IdentityClauses(d, n) && FieldStep(old(st.params), st.params, d, n)
    ensures forall f :: f in {KeyText, App, Version, NameText} ==> FieldBound(st.params, d, n, f)
  {
    cs := BindField(st, d, n, KeyText, TextParam(d.key), []);
    cs := BindField(st, d, n, App, TextParam(d.app), cs);
    cs := BindField(st, d, n, Version, TextParam(d.version), cs);
    cs := BindField(st, d, n, NameText, TextParam(d.name), cs);
  }

  method BindLengths(st: Statement, d: ActionDemand, n: nat) returns (cs: seq<Clause>)
    modifies st
    ensures cs == LengthClauses(d, n) && FieldStep(old(st.params), st.params, d, n)
    ensures forall f :: f in {ArgLength, ReturnLength} ==> FieldBound(st.params, d, n, f)
  {
    cs := BindField(st, d, n, ArgLength, AsNumber(d.forceArgLength), []);
    cs := BindField(st, d, n, ReturnLength, AsNumber(d.forceReturnLength), cs);
  }

  predicate ProtocolsBound(params: map<string, Param>, d: ActionDemand, n: nat, count: nat) {
    forall j: nat | j < count :: FieldBound(params, d, n, Protocol(j))
  }

  lemma OneMoreProtocol(d: ActionDemand, n: nat, i: nat)
    requires i < |d.protocols|
    ensures ProtocolClauses(n, i) + Asked(d, n, Protocol(i)) == ProtocolClauses(n, i + 1)
  {}

  method BindProtocols(st: Statement, d: ActionDemand, n: nat) returns (cs: seq<Clause>)
    modifies st
    ensures cs == ProtocolClauses(n, |d.protocols|) && FieldStep(old(st.params), st.params, d, n)
    ensures forall i: nat :: FieldBound(st.params, d, n, Protocol(i))
  {
    cs := [];
    var i := 0;
    while i < |d.protocols|
      invariant i <= |d.protocols| && cs == ProtocolClauses(n, i) && FieldStep(old(st.params), st.params, d, n)
      invariant ProtocolsBound(st.params, d, n, i)
    {
      ghost var before := st.params;
      cs := BindField(st, d, n, Protocol(i), Some(Text(d.protocols[i])), cs);
      FieldSteps(old(st.params), before, st.params, d, n);
      OneMoreProtocol(d, n, i);
      i := i + 1;
    }
  }

  method BindFlags(st: Statement, d: ActionDemand, n: nat) returns (cs: seq<Clause>)
    modifies st
    ensures cs == FlagClauses(d, n) && FieldStep(old(st.params), st.params, d, n)
    ensures forall f :: f in {Pure, Idempotent, Stateful} ==> FieldBound(st.params, d, n, f)
  {
    cs := BindField(st, d, n, Pure, AsFlag(d.pure), []);
    cs := BindField(st, d, n, Idempotent, AsFlag(d.idempotent), cs);
    cs := BindField(st, d, n, Stateful, AsFlag(d.stateful), cs);
  }

  method BindTraits(st: Statement, d: ActionDemand, n: nat) returns (cs: seq<Clause>)
    requires !Truthy(d.hash) && forall f :: f in {KeyText, App, Version, NameText} ==> FieldBound(st.params, d, n, f)
    modifies st
    ensures cs == TraitClauses(d, n) && FieldStep(old(st.params), st.params, d, n) && FieldsBound(st.params, d, n)
  {
    var lengths := BindLengths(st, d, n);
    var protocols := BindProtocols(st, d, n);
    var flags := BindFlags(st, d, n);
    cs := lengths + protocols + flags;
    forall f ensures FieldBound(st.params, d, n, f) {}
  }

  lemma SideFieldsKept(params: map<string, Param>, params': map<string, Param>, d: ActionDemand, n: nat, root: Path, f: Field)
    requires OnlyBelow(params, params', root) && FieldBound(params, d, n, f)
    ensures FieldBound(params', d, n, f)
  {
    FieldApart(n, f, root);
  }

  /** A side's parameters are kept while names of fields or of the other side change. */
  lemma SideKept(params: map<string, Param>, params': map<string, Param>, n: nat, ms: seq<Match>, root: Path, other: Path, fits: Option<int>)
    requires root.root != other.root && MatchesBound(params, ms, root, |ms|, fits)
    requires forall k :: At(params', k) != At(params, k) ==> IsFieldName(k, n) || NameBelow(k, other)
    ensures MatchesBound(params', ms, root, |ms|, fits)
  {
    forall k, i: nat | At(params', k) != At(params, k) ensures !NameBelow(k, Child(root, i)) {
      if IsFieldName(k, n) {
        var f :| k == FieldName(n, f);
        FieldApart(n, f, Child(root, i));
      } else if NameBelow(k, Child(root, i)) {
        BelowBoth(k, Child(root, i), other);
      }
    }
    MatchesKept(params, params', ms, root, |ms|, fits);
  }

  /** Only names of the demand changed. */
  ghost predicate OnlyMine(params: map<string, Param>, params': map<string, Param>, n: nat) {
    forall k :: At(params', k) != At(params, k) ==> Mine(k, n)
  }

  /** The matches of both sides, after the identity. */
  method BuildSides(st: Statement, d: ActionDemand, n: nat, cutoff: int) returns (cs: Option<seq<Clause>>)
    modifies st
    ensures cs.Some? <==> AllNarrowed(d.argMatches) && AllNarrowed(d.returnMatches)
    ensures cs.Some? ==> cs.value == SideClauses(d, n) && SidesBound(st.params, d, n, cutoff)
    ensures OnlyMine(old(st.params), st.params, n)
    ensures forall f :: FieldBound(old(st.params), d, n, f) ==> FieldBound(st.params, d, n, f)
  {
    var args := st.BuildMatches(d.argMatches, "facade_argport", ArgsOf(n), Some(cutoff));
    ghost var half := st.params;
    forall f | FieldBound(old(st.params), d, n, f) ensures FieldBound(half, d, n, f) {
      SideFieldsKept(old(st.params), half, d, n, ArgsOf(n), f);
    }
    if args.None? {
      return None;
    }
    var returns_ := st.BuildMatches(d.returnMatches, "facade_returnport", ReturnsOf(n), None);
    forall f | FieldBound(half, d, n, f) ensures FieldBound(st.params, d, n, f) {
      SideFieldsKept(half, st.params, d, n, ReturnsOf(n), f);
    }
    SideKept(half, st.params, n, d.argMatches, ArgsOf(n), ReturnsOf(n), Some(cutoff));
    if returns_.None? {
      return None;
    }
    cs := Some(args.value + returns_.value);
  }

  lemma SidesKept(params: map<string, Param>, params': map<string, Param>, d: ActionDemand, n: nat, cutoff: int)
    requires SidesBound(params, d, n, cutoff) && FieldStep(params, params', d, n)
    ensures SidesBound(params', d, n, cutoff)
  {
    SideKept(params, params', n, d.argMatches, ArgsOf(n), ReturnsOf(n), Some(cutoff));
    SideKept(params, params', n, d.returnMatches, ReturnsOf(n), ArgsOf(n), None);
  }

  lemma TruthyIff(v: Option<string>)
    ensures Truthy(v) <==> v !in {None, Some("")}
  {}

  lemma NothingAsked(d: ActionDemand, n: nat)
    ensures ActionClauses(d, n) == [] <==> !Asks(d)
  {
    forall v: Option<string> ensures Truthy(v) <==> v !in {None, Some("")} {
      TruthyIff(v);
    }
    NoSides(d, n);
    NoTraits(d, n);
  }

  lemma NoTraits(d: ActionDemand, n: nat)
    ensures TraitClauses(d, n) == [] <==>
      d.forceArgLength.None? && d.forceReturnLength.None? && d.protocols == [] && d.pure.None? && d.idempotent.None? && d.stateful.None?
  {
    assert |ProtocolClauses(n, |d.protocols|)| == |d.protocols|;
  }

  lemma NoSides(d: ActionDemand, n: nat)
    ensures SideClauses(d, n) == [] <==> d.argMatches == [] && d.returnMatches == []
  {
    assert |MatchClauses(d.argMatches, "facade_argport", ArgsOf(n), true)| == |d.argMatches|;
    assert |MatchClauses(d.returnMatches, "facade_returnport", ReturnsOf(n), false)| == |d.returnMatches|;
  }

  /** _action_demand_clauses: None where it raises. */
  method ActionDemandClauses(st: Statement, d: ActionDemand, n: nat, cutoff: int) returns (cs: Option<seq<Clause>>)
    modifies st
    ensures cs.Some? <==> Answerable(d)
    ensures cs.Some? ==> cs.value == ActionClauses(d, n) && ActionBound(st.params, d, n, cutoff)
    ensures OnlyMine(old(st.params), st.params, n)
  {
    var clauses: seq<Clause>;
    NothingAsked(d, n);
    if Truthy(d.hash) {
      clauses := BindField(st, d, n, Hash, TextParam(d.hash), []);
    } else {
      clauses := BindIdentity(st, d, n);
      ghost var named := st.params;
      var sides := BuildSides(st, d, n, cutoff);
      if sides.None? {
        return None;
      }
      ghost var sided := st.params;
      var traits := BindTraits(st, d, n);
      SidesKept(sided, st.params, d, n, cutoff);
      clauses := clauses + sides.value + traits;
    }
    cs := if clauses == [] then None else Some(clauses);
  }

  /** A demand's parameters are kept while another demand's names change. */
  lemma ActionKept(params: map<string, Param>, params': map<string, Param>, d: ActionDemand, n: nat, later: nat, cutoff: int)
    requires ActionBound(params, d, n, cutoff) && OnlyMine(params, params', later) && n != later
    ensures ActionBound(params', d, n, cutoff)
  {
    forall f | FieldBound(params, d, n, f) ensures FieldBound(params', d, n, f) {
      assert IsFieldName(FieldName(n, f), n);
      if Mine(FieldName(n, f), later) { MineAlone(FieldName(n, f), n, later); }
    }
    if !Truthy(d.hash) {
      SideAlone(params, params', d.argMatches, ArgsOf(n), n, later, Some(cutoff));
      SideAlone(params, params', d.returnMatches, ReturnsOf(n), n, later, None);
    }
  }

  lemma SideAlone(params: map<string, Param>, params': map<string, Param>, ms: seq<Match>, root: Path, n: nat, later: nat, fits: Option<int>)
    requires root in {ArgsOf(n), ReturnsOf(n)} && n != later && OnlyMine(params, params', later) && MatchesBound(params, ms, root, |ms|, fits)
    ensures MatchesBound(params', ms, root, |ms|, fits)
  {
    forall k, i: nat | At(params', k) != At(params, k) ensures !NameBelow(k, Child(root, i)) {
      if NameBelow(k, Child(root, i)) {
        BelowBelow(k, root, i);
        MineAlone(k, n, later);
      }
    }
    MatchesKept(params, params', ms, root, |ms|, fits);
  }

  lemma DemandBuilt(params: map<string, Param>, params': map<string, Param>, organization: Option<int>, ds: seq<ActionDemand>, d: ActionDemand, cutoff: int)
    requires AllBound(params, organization, ds, cutoff) && ActionBound(params', d, |ds|, cutoff) && OnlyMine(params, params', |ds|)
    ensures AllBound(params', organization, ds + [d], cutoff)
  {
    if Mine("org", |ds|) { MineAlone("org", |ds|, |ds|); }
    forall n | 0 <= n < |ds| ensures ActionBound(params', ds[n], n, cutoff) {
      ActionKept(params, params', ds[n], n, |ds|, cutoff);
    }
  }

  lemma OneMoreListed(organization: Option<int>, ds: seq<ActionDemand>, d: ActionDemand, selects: seq<seq<Clause>>, select: seq<Clause>)
    requires SelectsListed(organization, ds, selects) && select == SelectOf(organization, d, |ds|)
    ensures SelectsListed(organization, ds + [d], selects + [select])
  {}

  lemma OneMoreSelect(params: map<string, Param>, params': map<string, Param>, organization: Option<int>, ds: seq<ActionDemand>, d: ActionDemand,
                      cutoff: int, selects: seq<seq<Clause>>, select: seq<Clause>)
    requires SelectsBuilt(params, organization, ds, cutoff, selects)
    requires Answerable(d) && ActionBound(params', d, |ds|, cutoff) && OnlyMine(params, params', |ds|) && select == SelectOf(organization, d, |ds|)
    ensures SelectsBuilt(params', organization, ds + [d], cutoff, selects + [select])
  {
    DemandBuilt(params, params', organization, ds, d, cutoff);
    OneMoreListed(organization, ds, d, selects, select);
  }

  lemma UpTo(ds: seq<ActionDemand>, n: nat)
    requires n < |ds|
    ensures ds[..n + 1] == ds[..n] + [ds[n]] && |ds[..n]| == n
  {}

  /** The selects of get_action_ids_by_action_demands, one a demand: None where it raises. */
  method BuildSelects(st: Statement, organization: Option<int>, ds: seq<ActionDemand>, cutoff: int) returns (selects: Option<seq<seq<Clause>>>)
    requires st.params == map[]
    modifies st
    ensures selects.Some? <==> forall d :: d in ds ==> Answerable(d)
    ensures selects.Some? ==> SelectsBuilt(st.params, organization, ds, cutoff, selects.value)
  {
    if organization.Some? {
      st.params := st.params["org" := Number(organization.value)];
    }
    var built: seq<seq<Clause>> := [];
    var n := 0;
    while n < |ds|
      invariant n <= |ds| && SelectsBuilt(st.params, organization, ds[..n], cutoff, built)
    {
      ghost var before := st.params;
      var clauses := ActionDemandClauses(st, ds[n], n, cutoff);
      if clauses.None? {
        return None;
      }
      var select := OneIf(organization.Some?, OrganizationIs("org")) + clauses.value;
      UpTo(ds, n);
      OneMoreSelect(before, st.params, organization, ds[..n], ds[n], cutoff, built, select);
      built := built + [select];
      n := n + 1;
    }
    assert ds[..n] == ds;
    selects := Some(built);
  }
}
