/** Port demands as one SQL statement with named parameters (facade/managers.py, _port_demand_sql). */
module Demands {
  import opened Collections
  import opened Json
  import opened Logic3
  import opened Keys
  import opened Ports
  import opened Matcher
  import opened Statements
  import Fits

  // ---------------------------------------------------------------- the whole statement

  /** `{demand_index}`; its matches are at `{demand_index}_{match_index}`. */
  function DemandPath(index: nat): Path {
    Path(OfPorts(index), [])
  }

  /** PortDemand: matches on one side of the owner's ports, and how many root ports there are. */
  datatype Demand = Demand(
    kind: string,
    matches: seq<Match>,
    forceLength: Option<int>,
    forceNonNullable: Option<int>,
    forceStructure: Option<int>)

  datatype PortOwner = PortOwner(table: string, column: string, portTables: map<string, string>, countColumns: Option<map<string, string>>)

  const ACTION_PORTS := PortOwner("facade_action", "action_id", map["args" := "facade_argport", "returns" := "facade_returnport"],
                                  Some(map["args" := "arg_count", "returns" := "return_count"]))

  const BLOK_PORTS := PortOwner("facade_blok", "blok_id", map["args" := "facade_blokargport"], None)

  // ---------------------------------------------------------------- what a demand asks

  function FitsFor(o: PortOwner, table: string, cutoff: int): Option<int> {
    if o.column == "action_id" && table == "facade_argport" then Some(cutoff) else None
  }

  /** Agents are asked for an action's args, and neither for its returns nor for a blok. */
  lemma AgentsAreAsked(table: string, cutoff: int)
    ensures FitsFor(ACTION_PORTS, ACTION_PORTS.portTables["args"], cutoff) == Some(cutoff)
    ensures FitsFor(ACTION_PORTS, ACTION_PORTS.portTables["returns"], cutoff) == None && FitsFor(BLOK_PORTS, table, cutoff) == None
  {}

  /** The owner has the asked numbers of root ports; where the owner's row keeps a count, that one. */
  predicate CountsMet(row: OwnerRow, o: PortOwner, d: Demand, ports: seq<Port>)
    requires o.countColumns.Some? ==> d.kind in o.countColumns.value
  {
    && (d.forceLength.Some? ==>
          if o.countColumns.Some? then At(row.counts, o.countColumns.value[d.kind]) == d.forceLength
          else |PortsIn(ports, AllRoots)| == d.forceLength.value)
    && (d.forceNonNullable.Some? ==> |PortsIn(ports, NonNullable)| == d.forceNonNullable.value)
    && (d.forceStructure.Some? ==> |PortsIn(ports, Structures)| == d.forceStructure.value)
  }

  /** The owner, with these ports on each side, meets the demand. */
  ghost predicate Met(db: Database, row: OwnerRow, o: PortOwner, d: Demand, forests: map<string, seq<Port>>, cutoff: int) {
    && Allowed(o, d) && d.kind in forests
    && MatchesMet(db, row.id, d.matches, forests[d.kind], FitsFor(o, o.portTables[d.kind], cutoff))
    && CountsMet(row, o, d, forests[d.kind])
  }

  /** A demand that raises nothing: of a side the owner has, every object match narrowed. */
  predicate Allowed(o: PortOwner, d: Demand) {
    && d.kind in o.portTables && (o.countColumns.Some? ==> d.kind in o.countColumns.value)
    && AllNarrowed(d.matches)
  }

  function LengthClause(o: PortOwner, d: Demand, index: nat): Clause
    requires d.kind in o.portTables && (o.countColumns.Some? ==> d.kind in o.countColumns.value)
  {
    if o.countColumns.Some? then CountColumnIs(o.countColumns.value[d.kind], Key("force_length", DemandPath(index)))
    else RootCountIs(o.portTables[d.kind], AllRoots, Key("force_length", DemandPath(index)))
  }

  function CountClauses(o: PortOwner, d: Demand, index: nat): seq<Clause>
    requires d.kind in o.portTables && (o.countColumns.Some? ==> d.kind in o.countColumns.value)
  {
    OneIf(d.forceLength.Some?, LengthClause(o, d, index))
    + OneIf(d.forceNonNullable.Some?, RootCountIs(o.portTables[d.kind], NonNullable, Key("force_non_nullable", DemandPath(index))))
    + OneIf(d.forceStructure.Some?, RootCountIs(o.portTables[d.kind], Structures, Key("force_structure", DemandPath(index))))
  }

  function DemandMatchClauses(o: PortOwner, d: Demand, index: nat, cutoff: int): seq<Clause>
    requires d.kind in o.portTables
  {
    MatchClauses(d.matches, o.portTables[d.kind], DemandPath(index), FitsFor(o, o.portTables[d.kind], cutoff).Some?)
  }

  function DemandClauses(o: PortOwner, d: Demand, index: nat, cutoff: int): seq<Clause>
    requires Allowed(o, d)
  {
    DemandMatchClauses(o, d, index, cutoff) + CountClauses(o, d, index)
  }

  predicate AllAllowed(o: PortOwner, ds: seq<Demand>) {
    forall d | d in ds :: Allowed(o, d)
  }

  function Clauses(organization: Option<int>, o: PortOwner, ds: seq<Demand>, cutoff: int): seq<Clause>
    requires AllAllowed(o, ds)
    decreases |ds|
  {
    if ds == [] then OneIf(organization.Some?, OrganizationIs("org"))
    else
      var n := |ds| - 1;
      Clauses(organization, o, ds[..n], cutoff) + DemandClauses(o, ds[n], n, cutoff)
  }

  /** A demand's parameters are under its own names. */
  predicate DemandBound(params: map<string, Param>, o: PortOwner, d: Demand, index: nat, cutoff: int) {
    && d.kind in o.portTables && CountsBound(params, d, index)
    && MatchesBound(params, d.matches, DemandPath(index), |d.matches|, FitsFor(o, o.portTables[d.kind], cutoff))
  }

  predicate CountsBound(params: map<string, Param>, d: Demand, index: nat) {
    && (d.forceLength.Some? ==> At(params, Key("force_length", DemandPath(index))) == Some(Number(d.forceLength.value)))
    && (d.forceNonNullable.Some? ==> At(params, Key("force_non_nullable", DemandPath(index))) == Some(Number(d.forceNonNullable.value)))
    && (d.forceStructure.Some? ==> At(params, Key("force_structure", DemandPath(index))) == Some(Number(d.forceStructure.value)))
  }

  predicate AllBound(params: map<string, Param>, organization: Option<int>, o: PortOwner, ds: seq<Demand>, cutoff: int) {
    && (organization.Some? ==> At(params, "org") == Some(Number(organization.value)))
    && forall index | 0 <= index < |ds| :: DemandBound(params, o, ds[index], index, cutoff)
  }

  // ---------------------------------------------------------------- what the statement means

  lemma CountClausesMean(db: Database, row: OwnerRow, params: map<string, Param>, o: PortOwner, d: Demand, index: nat, ports: seq<Port>)
    requires Allowed(o, d) && CountsBound(params, d, index)
    requires HoldsLevel(RowsOf(db, o.portTables[d.kind]), row.id, None, "", ports)
    ensures Selected(db, row, params, CountClauses(o, d, index)) <==> CountsMet(row, o, d, ports)
  {
    var table := o.portTables[d.kind];
    var names := [Key("force_length", DemandPath(index)), Key("force_non_nullable", DemandPath(index)), Key("force_structure", DemandPath(index))];
    var l0 := OneIf(d.forceLength.Some?, LengthClause(o, d, index));
    var l1 := OneIf(d.forceNonNullable.Some?, RootCountIs(table, NonNullable, names[1]));
    var l2 := OneIf(d.forceStructure.Some?, RootCountIs(table, Structures, names[2]));
    JoinSelected(db, row, params, l0 + l1, l2);
    JoinSelected(db, row, params, l0, l1);
    LengthMeans(db, row, params, o, d, index, ports);
    RootCountMeans(db, row, params, table, ports, NonNullable, names[1], d.forceNonNullable);
    RootCountMeans(db, row, params, table, ports, Structures, names[2], d.forceStructure);
  }

  lemma LengthMeans(db: Database, row: OwnerRow, params: map<string, Param>, o: PortOwner, d: Demand, index: nat, ports: seq<Port>)
    requires Allowed(o, d) && CountsBound(params, d, index)
    requires HoldsLevel(RowsOf(db, o.portTables[d.kind]), row.id, None, "", ports)
    ensures Selected(db, row, params, OneIf(d.forceLength.Some?, LengthClause(o, d, index))) <==>
      (d.forceLength.Some? ==>
         if o.countColumns.Some? then At(row.counts, o.countColumns.value[d.kind]) == d.forceLength
         else |PortsIn(ports, AllRoots)| == d.forceLength.value)
  {
    if o.countColumns.Some? {
      SelectedOne(db, row, params, d.forceLength.Some?, LengthClause(o, d, index));
    } else {
      RootCountMeans(db, row, params, o.portTables[d.kind], ports, AllRoots, Key("force_length", DemandPath(index)), d.forceLength);
    }
  }

  /** Per side of an owner, the forest its rows represent. */
  ghost predicate Stored(db: Database, row: OwnerRow, o: PortOwner, forests: map<string, seq<Port>>) {
    forall kind :: kind in o.portTables ==>
      kind in forests && Represents(RowsOf(db, o.portTables[kind]), row.id, None, "", forests[kind])
  }

  /** One demand's clauses hold just when the owner's ports meet the demand. */
  lemma DemandMeans(db: Database, row: OwnerRow, params: map<string, Param>, o: PortOwner, d: Demand, index: nat, cutoff: int, forests: map<string, seq<Port>>)
    requires Allowed(o, d) && DemandBound(params, o, d, index, cutoff) && Stored(db, row, o, forests)
    ensures Selected(db, row, params, DemandClauses(o, d, index, cutoff)) <==> Met(db, row, o, d, forests, cutoff)
  {
    var ports := forests[d.kind];
    var clauses := DemandMatchClauses(o, d, index, cutoff);
    JoinSelected(db, row, params, clauses, CountClauses(o, d, index));
    MatchClausesMean(db, row, params, d.matches, o.portTables[d.kind], DemandPath(index), FitsFor(o, o.portTables[d.kind], cutoff), ports, clauses);
    CountClausesMean(db, row, params, o, d, index, ports);
  }

  /** The owner is in the organization and meets every demand. */
  ghost predicate AllMet(db: Database, row: OwnerRow, organization: Option<int>, o: PortOwner, ds: seq<Demand>, forests: map<string, seq<Port>>, cutoff: int) {
    && (organization.Some? ==> row.organization == organization.value)
    && forall d :: d in ds ==> Met(db, row, o, d, forests, cutoff)
  }

  lemma OneMoreDemand(db: Database, row: OwnerRow, organization: Option<int>, o: PortOwner, ds: seq<Demand>, d: Demand, forests: map<string, seq<Port>>, cutoff: int)
    ensures AllMet(db, row, organization, o, ds + [d], forests, cutoff) <==>
      AllMet(db, row, organization, o, ds, forests, cutoff) && Met(db, row, o, d, forests, cutoff)
  {
    assert d in ds + [d];
    assert forall e :: e in ds ==> e in ds + [d];
  }

  lemma DemandStep(db: Database, row: OwnerRow, params: map<string, Param>, organization: Option<int>, o: PortOwner, ds: seq<Demand>, d: Demand,
                   cutoff: int, forests: map<string, seq<Port>>, before: seq<Clause>)
    requires Allowed(o, d) && DemandBound(params, o, d, |ds|, cutoff) && Stored(db, row, o, forests)
    requires Selected(db, row, params, before) <==> AllMet(db, row, organization, o, ds, forests, cutoff)
    ensures Selected(db, row, params, before + DemandClauses(o, d, |ds|, cutoff)) <==> AllMet(db, row, organization, o, ds + [d], forests, cutoff)
  {
    JoinSelected(db, row, params, before, DemandClauses(o, d, |ds|, cutoff));
    DemandMeans(db, row, params, o, d, |ds|, cutoff, forests);
    OneMoreDemand(db, row, organization, o, ds, d, forests, cutoff);
  }

  lemma LastDemand(params: map<string, Param>, organization: Option<int>, o: PortOwner, ds: seq<Demand>, first: seq<Demand>, last: Demand, cutoff: int)
    requires AllAllowed(o, ds) && AllBound(params, organization, o, ds, cutoff)
    requires ds != [] && first == ds[..|ds| - 1] && last == ds[|ds| - 1]
    ensures AllAllowed(o, first) && AllBound(params, organization, o, first, cutoff)
    ensures Allowed(o, last) && DemandBound(params, o, last, |first|, cutoff) && ds == first + [last]
    ensures Clauses(organization, o, ds, cutoff) == Clauses(organization, o, first, cutoff) + DemandClauses(o, last, |first|, cutoff)
  {}

  /** The statement selects exactly the organization's owners whose ports meet every demand. */
  lemma {:induction false} StatementMeans(db: Database, row: OwnerRow, params: map<string, Param>, organization: Option<int>, o: PortOwner,
                                          ds: seq<Demand>, cutoff: int, forests: map<string, seq<Port>>)
    requires AllAllowed(o, ds) && AllBound(params, organization, o, ds, cutoff) && Stored(db, row, o, forests)
    ensures Selected(db, row, params, Clauses(organization, o, ds, cutoff)) <==> AllMet(db, row, organization, o, ds, forests, cutoff)
    decreases |ds|
  {
    if ds == [] {
      SelectedOne(db, row, params, organization.Some?, OrganizationIs("org"));
    } else {
      var first, last := ds[..|ds| - 1], ds[|ds| - 1];
      LastDemand(params, organization, o, ds, first, last, cutoff);
      StatementMeans(db, row, params, organization, o, first, cutoff, forests);
      DemandStep(db, row, params, organization, o, first, last, cutoff, forests, Clauses(organization, o, first, cutoff));
    }
  }

  /** As many root ports as the demand asks for, of each sort; `length` is the number it compares with. */
  predicate RootsMet(length: Option<int>, d: Demand, ports: seq<Port>) {
    && (d.forceLength.Some? ==> length == d.forceLength)
    && (d.forceNonNullable.Some? ==> |set i: nat | i < |ports| && !ports[i].nullable| == d.forceNonNullable.value)
    && (d.forceStructure.Some? ==> |set i: nat | i < |ports| && ports[i].kind == "STRUCTURE"| == d.forceStructure.value)
  }

  /** An action meets a demand on its args, of which an object is asked as well whether some agent can
      handle it, or one on its returns, of which it is not. */
  ghost predicate ActionMeets(db: Database, row: OwnerRow, d: Demand, args: seq<Port>, returns_: seq<Port>, cutoff: int) {
    if d.kind == "args" then
      MatchesMet(db, row.id, d.matches, args, Some(cutoff)) && RootsMet(At(row.counts, "arg_count"), d, args)
    else
      d.kind == "returns" && MatchesMet(db, row.id, d.matches, returns_, None) && RootsMet(At(row.counts, "return_count"), d, returns_)
  }

  /** A blok meets demands on its args only, whatever agents can handle. */
  ghost predicate BlokMeets(db: Database, row: OwnerRow, d: Demand, args: seq<Port>) {
    d.kind == "args" && MatchesMet(db, row.id, d.matches, args, None) && RootsMet(Some(|args|), d, args)
  }

  lemma {:induction false} AllRootsAre(ports: seq<Port>)
    ensures |PortsIn(ports, AllRoots)| == |ports|
    decreases |ports|
  {
    if ports != [] {
      var n := |ports| - 1;
      AllRootsAre(ports[..n]);
      assert PortsIn(ports, AllRoots) == PortsIn(ports[..n], AllRoots) + {n};
    }
  }

  lemma SortsAre(ports: seq<Port>)
    ensures PortsIn(ports, NonNullable) == set i: nat | i < |ports| && !ports[i].nullable
    ensures PortsIn(ports, Structures) == set i: nat | i < |ports| && ports[i].kind == "STRUCTURE"
  {}

  lemma ActionMeetsIff(db: Database, row: OwnerRow, d: Demand, args: seq<Port>, returns_: seq<Port>, cutoff: int)
    requires Allowed(ACTION_PORTS, d)
    ensures Met(db, row, ACTION_PORTS, d, map["args" := args, "returns" := returns_], cutoff) <==> ActionMeets(db, row, d, args, returns_, cutoff)
  {
    SortsAre(args);
    SortsAre(returns_);
  }

  lemma BlokMeetsIff(db: Database, row: OwnerRow, d: Demand, args: seq<Port>, cutoff: int)
    requires Allowed(BLOK_PORTS, d)
    ensures Met(db, row, BLOK_PORTS, d, map["args" := args], cutoff) <==> BlokMeets(db, row, d, args)
  {
    SortsAre(args);
    AllRootsAre(args);
  }

  /** A search over bloks whose port rows were just synchronized selects a blok exactly when its declared
      args meet every demand: flattening, compiling and evaluating lose nothing. */
  lemma SyncedBlokSearch(db: Database, before: seq<Row>, first: nat, row: OwnerRow, args: seq<Port>, params: map<string, Param>,
                         organization: Option<int>, ds: seq<Demand>, cutoff: int)
    requires WrittenFor(before, row.id, args, first, RowsOf(db, "facade_blokargport"))
    requires AllAllowed(BLOK_PORTS, ds) && AllBound(params, organization, BLOK_PORTS, ds, cutoff)
    ensures Selected(db, row, params, Clauses(organization, BLOK_PORTS, ds, cutoff)) <==>
      (organization.Some? ==> row.organization == organization.value) && forall d :: d in ds ==> BlokMeets(db, row, d, args)
  {
    StatementMeans(db, row, params, organization, BLOK_PORTS, ds, cutoff, map["args" := args]);
    forall d | d in ds ensures Met(db, row, BLOK_PORTS, d, map["args" := args], cutoff) <==> BlokMeets(db, row, d, args) {
      BlokMeetsIff(db, row, d, args, cutoff);
    }
  }

  /** A search over actions: the organization's action is selected exactly when its args and returns meet
      every demand. */
  lemma ActionSearch(db: Database, row: OwnerRow, args: seq<Port>, returns_: seq<Port>, params: map<string, Param>,
                     organization: Option<int>, ds: seq<Demand>, cutoff: int)
    requires Represents(RowsOf(db, "facade_argport"), row.id, None, "", args)
    requires Represents(RowsOf(db, "facade_returnport"), row.id, None, "", returns_)
    requires AllAllowed(ACTION_PORTS, ds) && AllBound(params, organization, ACTION_PORTS, ds, cutoff)
    ensures Selected(db, row, params, Clauses(organization, ACTION_PORTS, ds, cutoff)) <==>
      && (organization.Some? ==> row.organization == organization.value)
      && forall d :: d in ds ==> ActionMeets(db, row, d, args, returns_, cutoff)
  {
    var forests := map["args" := args, "returns" := returns_];
    StatementMeans(db, row, params, organization, ACTION_PORTS, ds, cutoff, forests);
    forall d | d in ds ensures Met(db, row, ACTION_PORTS, d, forests, cutoff) <==> ActionMeets(db, row, d, args, returns_, cutoff) {
      ActionMeetsIff(db, row, d, args, returns_, cutoff);
    }
  }

  /** An action whose live implementations all refuse an object, on every arg, is not selected by a demand
      that asks it of an arg. */
  lemma RefusedIsHidden(db: Database, row: OwnerRow, args: seq<Port>, returns_: seq<Port>, params: map<string, Param>,
                        organization: Option<int>, ds: seq<Demand>, cutoff: int, d: Demand, m: Match)
    requires Represents(RowsOf(db, "facade_argport"), row.id, None, "", args)
    requires Represents(RowsOf(db, "facade_returnport"), row.id, None, "", returns_)
    requires AllAllowed(ACTION_PORTS, ds) && AllBound(params, organization, ACTION_PORTS, ds, cutoff)
    requires d in ds && d.kind == "args" && m in d.matches && m.descriptors != []
    requires forall p :: p in args ==> Fits.AllRefuse(db.fleet, row.id, p.key, Candidate(m.descriptors), cutoff)
    ensures !Selected(db, row, params, Clauses(organization, ACTION_PORTS, ds, cutoff))
  {
    ActionSearch(db, row, args, returns_, params, organization, ds, cutoff);
    var i :| 0 <= i < |d.matches| && d.matches[i] == m;
    if j :| 0 <= j < |args| && Satisfies(m, args[j], j, AbleIn(db, row.id, Some(cutoff))) {
      assert Fits.AllRefuse(db.fleet, row.id, args[j].key, Candidate(m.descriptors), cutoff);
      Fits.HiddenIff(db.fleet, row.id, Some(args[j].key), Candidate(m.descriptors), cutoff);
    }
    assert !SomeSatisfies(m, args, AbleIn(db, row.id, Some(cutoff)));
  }

  // ---------------------------------------------------------------- building it in place

  predicate SidesCounted(o: PortOwner) {
    o.countColumns.Some? ==> forall kind | kind in o.portTables :: kind in o.countColumns.value
  }

  function CountParams(params: map<string, Param>, d: Demand, index: nat): map<string, Param> {
    Given(Given(Given(params, Key("force_length", DemandPath(index)), AsNumber(d.forceLength)),
                Key("force_non_nullable", DemandPath(index)), AsNumber(d.forceNonNullable)),
          Key("force_structure", DemandPath(index)), AsNumber(d.forceStructure))
  }

  const COUNT_TAGS := {"force_length", "force_non_nullable", "force_structure"}

  lemma CountTagsDiffer(index: nat)
    ensures forall t :: t in COUNT_TAGS ==> IsTag(t)
    ensures Key("force_length", DemandPath(index)) !in {Key("force_non_nullable", DemandPath(index)), Key("force_structure", DemandPath(index))}
    ensures Key("force_non_nullable", DemandPath(index)) != Key("force_structure", DemandPath(index))
  {
    CountTagsAreTags();
    var length, nonNullable, structure := "force_length", "force_non_nullable", "force_structure";
    assert length[6] == 'l' && nonNullable[6] == 'n' && structure[6] == 's';
    var path := DemandPath(index);
    if Key(length, path) == Key(nonNullable, path) { SameKey(length, path, nonNullable, path); }
    if Key(length, path) == Key(structure, path) { SameKey(length, path, structure, path); }
    if Key(nonNullable, path) == Key(structure, path) { SameKey(nonNullable, path, structure, path); }
  }

  lemma CountTagsAreTags()
    ensures forall t :: t in COUNT_TAGS ==> IsTag(t)
  {}

  predicate IsCountName(k: string, index: nat) {
    k in {Key("force_length", DemandPath(index)), Key("force_non_nullable", DemandPath(index)), Key("force_structure", DemandPath(index))}
  }

  lemma CountNameBelow(k: string, index: nat)
    requires IsCountName(k, index)
    ensures NameBelow(k, DemandPath(index)) && forall i: nat :: !NameBelow(k, Child(DemandPath(index), i))
  {
    CountTagsDiffer(index);
    var t :| t in COUNT_TAGS && k == Key(t, DemandPath(index));
    BelowIff(t, DemandPath(index), DemandPath(index));
    forall i: nat ensures !NameBelow(k, Child(DemandPath(index), i)) {
      BelowIff(t, DemandPath(index), Child(DemandPath(index), i));
    }
  }

  lemma CountParamsOnly(params: map<string, Param>, d: Demand, index: nat)
    ensures forall k :: At(CountParams(params, d, index), k) != At(params, k) ==> IsCountName(k, index)
    ensures CountsBound(CountParams(params, d, index), d, index)
  {
    CountTagsDiffer(index);
  }

  lemma CountsBuilt(start: map<string, Param>, params: map<string, Param>, params': map<string, Param>, o: PortOwner, d: Demand, index: nat, cutoff: int)
    requires d.kind in o.portTables && OnlyBelow(start, params, DemandPath(index))
    requires MatchesBound(params, d.matches, DemandPath(index), |d.matches|, FitsFor(o, o.portTables[d.kind], cutoff))
    requires CountsBound(params', d, index) && forall k :: At(params', k) != At(params, k) ==> IsCountName(k, index)
    ensures DemandBound(params', o, d, index, cutoff) && OnlyBelow(start, params', DemandPath(index))
  {
    forall k | At(params', k) != At(start, k) ensures NameBelow(k, DemandPath(index)) {
      if At(params', k) != At(params, k) { CountNameBelow(k, index); }
    }
    forall k, i: nat | At(params', k) != At(params, k) ensures !NameBelow(k, Child(DemandPath(index), i)) {
      CountNameBelow(k, index);
    }
    MatchesKept(params, params', d.matches, DemandPath(index), |d.matches|, FitsFor(o, o.portTables[d.kind], cutoff));
  }

  /** A demand that constrains anything. */
  predicate Asks(d: Demand) {
    d.matches != [] || d.forceLength.Some? || d.forceNonNullable.Some? || d.forceStructure.Some?
  }

  lemma DemandAsks(o: PortOwner, d: Demand, index: nat, cutoff: int)
    requires Allowed(o, d)
    ensures DemandClauses(o, d, index, cutoff) == [] <==> !Asks(d)
  {
    assert |DemandMatchClauses(o, d, index, cutoff)| == |d.matches|;
  }

  lemma AsksSplit(ds: seq<Demand>)
    requires ds != []
    ensures (forall d :: d in ds ==> !Asks(d)) <==> (forall d :: d in ds[..|ds| - 1] ==> !Asks(d)) && !Asks(ds[|ds| - 1])
  {
    assert forall d :: d in ds <==> d in ds[..|ds| - 1] || d == ds[|ds| - 1];
  }

  lemma {:induction false} NothingAsked(organization: Option<int>, o: PortOwner, ds: seq<Demand>, cutoff: int)
    requires AllAllowed(o, ds)
    ensures Clauses(organization, o, ds, cutoff) == [] <==> organization.None? && forall d :: d in ds ==> !Asks(d)
    decreases |ds|
  {
    if ds != [] {
      var n := |ds| - 1;
      assert ds[n] in ds;
      NothingAsked(organization, o, ds[..n], cutoff);
      DemandAsks(o, ds[n], n, cutoff);
      AsksSplit(ds);
    }
  }

  /** A demand's parameters leave the earlier demands' alone. */
  lemma EarlierKept(params: map<string, Param>, params': map<string, Param>, o: PortOwner, d: Demand, index: nat, later: nat, cutoff: int)
    requires DemandBound(params, o, d, index, cutoff) && index < later && OnlyBelow(params, params', DemandPath(later))
    ensures DemandBound(params', o, d, index, cutoff)
  {
    forall k, i: nat | At(params', k) != At(params, k) ensures !NameBelow(k, Child(DemandPath(index), i)) {
      if NameBelow(k, Child(DemandPath(index), i)) { BelowBoth(k, Child(DemandPath(index), i), DemandPath(later)); }
    }
    MatchesKept(params, params', d.matches, DemandPath(index), |d.matches|, FitsFor(o, o.portTables[d.kind], cutoff));
    forall k | IsCountName(k, index) ensures At(params', k) == At(params, k) {
      CountTagsDiffer(index);
      var t :| t in COUNT_TAGS && k == Key(t, DemandPath(index));
      BelowIff(t, DemandPath(index), DemandPath(later));
    }
  }

  /** What is built of a statement: the clauses of these demands, and their parameters. */
  ghost predicate DemandsBuilt(params: map<string, Param>, organization: Option<int>, o: PortOwner, ds: seq<Demand>, cutoff: int, clauses: seq<Clause>) {
    AllAllowed(o, ds) && clauses == Clauses(organization, o, ds, cutoff) && AllBound(params, organization, o, ds, cutoff)
  }

  lemma UpTo(ds: seq<Demand>, index: nat)
    requires index < |ds|
    ensures ds[..index + 1] == ds[..index] + [ds[index]]
  {}

  lemma DemandBuilt(params: map<string, Param>, params': map<string, Param>, organization: Option<int>, o: PortOwner, ds: seq<Demand>, d: Demand,
                    cutoff: int, clauses: seq<Clause>)
    requires DemandsBuilt(params, organization, o, ds, cutoff, clauses)
    requires Allowed(o, d) && DemandBound(params', o, d, |ds|, cutoff) && OnlyBelow(params, params', DemandPath(|ds|))
    ensures DemandsBuilt(params', organization, o, ds + [d], cutoff, clauses + DemandClauses(o, d, |ds|, cutoff))
  {
    AllBoundMore(params, params', organization, o, ds, d, cutoff);
    assert (ds + [d])[..|ds|] == ds;
  }

  lemma AllBoundMore(params: map<string, Param>, params': map<string, Param>, organization: Option<int>, o: PortOwner, ds: seq<Demand>, d: Demand,
                     cutoff: int)
    requires AllBound(params, organization, o, ds, cutoff)
    requires DemandBound(params', o, d, |ds|, cutoff) && OnlyBelow(params, params', DemandPath(|ds|))
    ensures AllBound(params', organization, o, ds + [d], cutoff)
  {
    OrgApart(DemandPath(|ds|));
    forall index | 0 <= index < |ds| ensures DemandBound(params', o, ds[index], index, cutoff) {
      EarlierKept(params, params', o, ds[index], index, |ds|, cutoff);
    }
  }

  method BindCounts(st: Statement, o: PortOwner, d: Demand, index: nat) returns (cs: seq<Clause>)
    requires d.kind in o.portTables && SidesCounted(o)
    modifies st
    ensures st.params == CountParams(old(st.params), d, index) && cs == CountClauses(o, d, index)
  {
    cs := [];
    if d.forceLength.Some? {
      st.params := st.params[Key("force_length", DemandPath(index)) := Number(d.forceLength.value)];
      cs := cs + [LengthClause(o, d, index)];
    }
    if d.forceNonNullable.Some? {
      st.params := st.params[Key("force_non_nullable", DemandPath(index)) := Number(d.forceNonNullable.value)];
      cs := cs + [RootCountIs(o.portTables[d.kind], NonNullable, Key("force_non_nullable", DemandPath(index)))];
    }
    if d.forceStructure.Some? {
      st.params := st.params[Key("force_structure", DemandPath(index)) := Number(d.forceStructure.value)];
      cs := cs + [RootCountIs(o.portTables[d.kind], Structures, Key("force_structure", DemandPath(index)))];
    }
  }

  /** The part of _port_demand_sql for one demand: None where it raises. */
  method BuildDemand(st: Statement, o: PortOwner, d: Demand, index: nat, cutoff: int) returns (cs: Option<seq<Clause>>)
    requires SidesCounted(o)
    modifies st
    ensures cs.Some? <==> Allowed(o, d)
    ensures cs.Some? ==> cs.value == DemandClauses(o, d, index, cutoff) && DemandBound(st.params, o, d, index, cutoff)
    ensures OnlyBelow(old(st.params), st.params, DemandPath(index))
  {
    if d.kind !in o.portTables {
      return None;
    }
    var clauses := st.BuildMatches(d.matches, o.portTables[d.kind], DemandPath(index), FitsFor(o, o.portTables[d.kind], cutoff));
    if clauses.None? {
      return None;
    }
    ghost var matched := st.params;
    var counts := BindCounts(st, o, d, index);
    CountParamsOnly(matched, d, index);
    CountsBuilt(old(st.params), matched, st.params, o, d, index, cutoff);
    cs := Some(clauses.value + counts);
  }

  /** _port_demand_sql: the clauses joined by AND, or None where it raises. */
  method PortDemandSql(st: Statement, organization: Option<int>, o: PortOwner, ds: seq<Demand>, cutoff: int) returns (cs: Option<seq<Clause>>)
    requires SidesCounted(o) && st.params == map[]
    modifies st
    ensures cs.Some? <==> AllAllowed(o, ds) && (organization.Some? || exists d :: d in ds && Asks(d))
    ensures cs.Some? ==> cs.value == Clauses(organization, o, ds, cutoff) && AllBound(st.params, organization, o, ds, cutoff)
  {
    var clauses: seq<Clause> := [];
    if organization.Some? {
      st.params := st.params["org" := Number(organization.value)];
      clauses := [OrganizationIs("org")];
    }
    var index := 0;
    while index < |ds|
      invariant index <= |ds| && DemandsBuilt(st.params, organization, o, ds[..index], cutoff, clauses)
    {
      ghost var before := st.params;
      var built := BuildDemand(st, o, ds[index], index, cutoff);
      if built.None? {
        return None;
      }
      DemandBuilt(before, st.params, organization, o, ds[..index], ds[index], cutoff, clauses);
      UpTo(ds, index);
      clauses := clauses + built.value;
      index := index + 1;
    }
    assert ds[..index] == ds;
    NothingAsked(organization, o, ds, cutoff);
    cs := if clauses == [] then None else Some(clauses);
  }
}
