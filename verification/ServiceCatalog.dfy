/** The catalog of what services host and emit (facade/service_catalog.py): what one pass over the
    services' declarations does to the rows. */
module ServiceCatalog {
  import opened Collections

  datatype DescriptorManifest = DescriptorManifest(key: string, kind: Option<string>, description: Option<string>)

  datatype StructureManifest = StructureManifest(
    identifier: string, label_: Option<string>, description: Option<string>, descriptors: seq<DescriptorManifest>)

  /** A signal in one of its kinds. */
  datatype SignalKind = SignalKind(identifier: string, kind: string)

  datatype SignalManifest = SignalManifest(identifier: string, kinds: seq<string>, descriptors: seq<string>, description: Option<string>)

  /** `structures` is None where the service cannot say what it hosts; `description` is None where the
      declaration states none and leaves the row's. */
  datatype Manifest = Manifest(
    identifier: Option<string>, description: Option<Option<string>>, structures: Option<seq<StructureManifest>>, signals: seq<SignalManifest>)

  /** A configured service; `manifest` is None where it cannot be read and the pass skips it. */
  datatype Entry = Entry(name: string, manifest: Option<Manifest>)

  // ---------------------------------------------------------------- rows under a key

  datatype Row<+C> = Row(id: nat, content: C)

  /** A declaration of a row: its key and its content. */
  datatype Item<+K, +C> = Item(key: K, content: C)

  function Keys<K, C>(items: seq<Item<K, C>>): seq<K> {
    seq(|items|, i requires 0 <= i < |items| => items[i].key)
  }

  /** Of several declarations of one key the last counts. */
  function Last<K(==), C>(items: seq<Item<K, C>>, key: K): C
    requires key in Keys(items)
  {
    var n := |items| - 1;
    assert Keys(items)[..n] == Keys(items[..n]);
    if items[n].key == key then items[n].content else Last(items[..n], key)
  }

  /** The rows are exactly the declared ones, with their last content. */
  ghost predicate Shows<K, C>(rows: map<K, Row<C>>, items: seq<Item<K, C>>) {
    && (forall k :: k in Keys(items) ==> k in rows)
    && forall k :: k in rows ==> k in Keys(items) && rows[k].content == Last(items, k)
  }

  /** Rows that were there keep their id, the others have one from `first` on. */
  ghost predicate IdsKept<K, C>(before: map<K, Row<C>>, first: nat, rows: map<K, Row<C>>, next: nat) {
    first <= next && forall k :: k in rows ==> if k in before then rows[k].id == before[k].id else first <= rows[k].id < next
  }

  /** The declarations so far are written over the rows that were there. */
  ghost predicate Written<K, C>(before: map<K, Row<C>>, first: nat, rows: map<K, Row<C>>, next: nat, items: seq<Item<K, C>>) {
    && IdsKept(before, first, rows, next)
    && (forall k :: k in rows ==> k in before || k in Keys(items))
    && (forall k :: k in before ==> k in rows)
    && (forall k :: k in Keys(items) ==> k in rows && rows[k].content == Last(items, k))
  }

  lemma KeysMore<K, C>(items: seq<Item<K, C>>, item: Item<K, C>)
    ensures Keys(items + [item]) == Keys(items) + [item.key]
    ensures forall k :: k in Keys(items + [item]) ==> Last(items + [item], k) == if k == item.key then item.content else Last(items, k)
  {
    assert (items + [item])[..|items|] == items;
  }

  lemma WriteOne<K, C>(before: map<K, Row<C>>, first: nat, rows: map<K, Row<C>>, next: nat, items: seq<Item<K, C>>, item: Item<K, C>, id: nat)
    requires Written(before, first, rows, next, items) && id == if item.key in rows then rows[item.key].id else next
    ensures Written(before, first, rows[item.key := Row(id, item.content)], if item.key in rows then next else next + 1, items + [item])
  {
    KeysMore(items, item);
  }

  lemma WrittenShows<K, C>(before: map<K, Row<C>>, first: nat, rows: map<K, Row<C>>, next: nat, items: seq<Item<K, C>>, kept: map<K, Row<C>>)
    requires Written(before, first, rows, next, items) && kept == map k | k in rows && k in Keys(items) :: rows[k]
    ensures Shows(kept, items) && IdsKept(before, first, kept, next)
  {}

  // ---------------------------------------------------------------- the tables

  datatype DescriptorContent = DescriptorContent(kind: string, description: Option<string>, position: nat)

  datatype SignalContent = SignalContent(descriptors: seq<string>, description: Option<string>)

  datatype Structure = Structure(
    id: nat, service: string, label_: Option<string>, description: Option<string>, descriptors: map<string, Row<DescriptorContent>>)

  datatype Service = Service(id: nat, identifier: Option<string>, description: Option<string>, signals: map<SignalKind, Row<SignalContent>>)

  /** Services by name, structures by identifier, with the rows below them; ids from `next` on are free. */
  datatype Tables = Tables(services: map<string, Service>, structures: map<string, Structure>, next: nat)

  function DescriptorItems(ds: seq<DescriptorManifest>): seq<Item<string, DescriptorContent>> {
    seq(|ds|, i requires 0 <= i < |ds| =>
      Item(ds[i].key, DescriptorContent(if ds[i].kind.Some? && ds[i].kind.value != "" then ds[i].kind.value else "ANY", ds[i].description, i)))
  }

  function KindItems(g: SignalManifest, kinds: seq<string>): seq<Item<SignalKind, SignalContent>> {
    seq(|kinds|, i requires 0 <= i < |kinds| => Item(SignalKind(g.identifier, kinds[i]), SignalContent(g.descriptors, g.description)))
  }

  /** One declaration a kind; a signal naming none is of kind CREATED. */
  function SignalItems(gs: seq<SignalManifest>): seq<Item<SignalKind, SignalContent>> {
    if gs == [] then []
    else
      var g := gs[|gs| - 1];
      SignalItems(gs[..|gs| - 1]) + KindItems(g, if g.kinds == [] then ["CREATED"] else g.kinds)
  }

  /** The signal declares the kind, by naming it or, naming none, as CREATED. */
  predicate Declares(g: SignalManifest, k: SignalKind) {
    g.identifier == k.identifier && if g.kinds == [] then k.kind == "CREATED" else k.kind in g.kinds
  }

  /** A kind is declared by the signals that declare it. */
  lemma {:induction false} SignalsListed(gs: seq<SignalManifest>, k: SignalKind)
    ensures k in Keys(SignalItems(gs)) <==> exists g :: g in gs && Declares(g, k)
    decreases |gs|
  {
    if gs != [] {
      var n := |gs| - 1;
      SignalsListed(gs[..n], k);
      OneMoreSignal(gs[..n], gs[n], gs, k);
      assert forall g :: g in gs <==> g in gs[..n] || g == gs[n];
    }
  }

  /** The last signal to declare a kind says what is kept of it. */
  lemma {:induction false} SignalsAre(gs: seq<SignalManifest>, k: SignalKind, i: nat)
    requires i < |gs| && Declares(gs[i], k) && forall j :: i < j < |gs| ==> !Declares(gs[j], k)
    ensures k in Keys(SignalItems(gs)) && Last(SignalItems(gs), k) == SignalContent(gs[i].descriptors, gs[i].description)
    decreases |gs|
  {
    var n := |gs| - 1;
    if i < n { SignalsAre(gs[..n], k, i); }
    OneMoreSignal(gs[..n], gs[n], gs, k);
  }

  lemma OneMoreSignal(init: seq<SignalManifest>, g: SignalManifest, gs: seq<SignalManifest>, k: SignalKind)
    requires gs == init + [g]
    ensures k in Keys(SignalItems(gs)) <==> k in Keys(SignalItems(init)) || Declares(g, k)
    ensures Declares(g, k) ==> Last(SignalItems(gs), k) == SignalContent(g.descriptors, g.description)
    ensures !Declares(g, k) && k in Keys(SignalItems(gs)) ==> Last(SignalItems(gs), k) == Last(SignalItems(init), k)
  {
    var kinds := if g.kinds == [] then ["CREATED"] else g.kinds;
    assert gs[..|gs| - 1] == init;
    KindsAre(g, kinds, k);
    LastOfJoin(SignalItems(init), KindItems(g, kinds), k);
  }

  lemma {:induction false} KindsAre(g: SignalManifest, kinds: seq<string>, k: SignalKind)
    ensures k in Keys(KindItems(g, kinds)) <==> g.identifier == k.identifier && k.kind in kinds
    ensures k in Keys(KindItems(g, kinds)) ==> Last(KindItems(g, kinds), k) == SignalContent(g.descriptors, g.description)
    decreases |kinds|
  {
    if kinds != [] {
      var n := |kinds| - 1;
      assert KindItems(g, kinds)[..n] == KindItems(g, kinds[..n]);
      assert Keys(KindItems(g, kinds)) == Keys(KindItems(g, kinds[..n])) + [SignalKind(g.identifier, kinds[n])];
      assert kinds == kinds[..n] + [kinds[n]];
      KindsAre(g, kinds[..n], k);
    }
  }

  lemma {:induction false} LastOfJoin<K, C>(a: seq<Item<K, C>>, b: seq<Item<K, C>>, key: K)
    ensures Keys(a + b) == Keys(a) + Keys(b)
    ensures key in Keys(b) ==> Last(a + b, key) == Last(b, key)
    ensures key in Keys(a) && key !in Keys(b) ==> Last(a + b, key) == Last(a, key)
    decreases |b|
  {
    if b == [] {
      assert a + b == a;
    } else {
      var n := |b| - 1;
      assert (a + b)[..|a| + n] == a + b[..n] && b == b[..n] + [b[n]];
      KeysMore(b[..n], b[n]);
      KeysMore(a + b[..n], b[n]);
      LastOfJoin(a, b[..n], key);
      assert a + b == (a + b[..n]) + [b[n]];
    }
  }

  /** The row of a descriptor holds what the last descriptor of its key states, and its place: the kind it
      names, or ANY where it names none. */
  lemma {:induction false} DescriptorsAre(ds: seq<DescriptorManifest>, key: string, i: nat)
    requires i < |ds| && ds[i].key == key && forall j :: i < j < |ds| ==> ds[j].key != key
    ensures key in Keys(DescriptorItems(ds))
    ensures var content := Last(DescriptorItems(ds), key);
      && content.position == i && content.description == ds[i].description
      && content.kind == (match ds[i].kind case Some(kind) => if kind == "" then "ANY" else kind case None => "ANY")
    decreases |ds|
  {
    var n := |ds| - 1;
    assert Keys(DescriptorItems(ds))[i] == key;
    assert DescriptorItems(ds)[..n] == DescriptorItems(ds[..n]);
    if i < n { DescriptorsAre(ds[..n], key, i); }
  }

  function StructureItems(ss: seq<StructureManifest>): seq<Item<string, StructureManifest>> {
    seq(|ss|, i requires 0 <= i < |ss| => Item(ss[i].identifier, ss[i]))
  }

  function Identifiers(ss: seq<StructureManifest>): seq<string> {
    Keys(StructureItems(ss))
  }

  function LastStructure(ss: seq<StructureManifest>, x: string): StructureManifest
    requires x in Identifiers(ss)
  {
    Last(StructureItems(ss), x)
  }

  /** Another service hosts the structure. */
  predicate Held(structures: map<string, Structure>, service: string, x: string) {
    x in structures && structures[x].service != service
  }

  /** Every declaration of the structure names the descriptor. */
  ghost predicate Throughout(ss: seq<StructureManifest>, x: string, k: string) {
    forall i :: 0 <= i < |ss| && ss[i].identifier == x ==> k in Keys(DescriptorItems(ss[i].descriptors))
  }

  /** The row is as last declared. */
  ghost predicate StructureShows(row: Structure, service: string, sm: StructureManifest) {
    && row.service == service && row.label_ == sm.label_ && row.description == sm.description
    && Shows(row.descriptors, DescriptorItems(sm.descriptors))
  }

  /** A row that was there keeps its id; a descriptor keeps its own just when every declaration of the
      structure names it. */
  ghost predicate StructureIds(before: map<string, Structure>, first: nat, row: Structure, next: nat, ss: seq<StructureManifest>, x: string) {
    && (if x in before then row.id == before[x].id else first <= row.id < next)
    && forall k :: k in row.descriptors ==>
      if x in before && k in before[x].descriptors && Throughout(ss, x, k) then row.descriptors[k].id == before[x].descriptors[k].id
      else first <= row.descriptors[k].id < next
  }

  /** One identifier after the declarations `ss`: held by another it stays; declared it is the
      service's; otherwise it is what it was. */
  ghost predicate Declared(before: map<string, Structure>, first: nat, service: string, ss: seq<StructureManifest>,
                           now: map<string, Structure>, next: nat, x: string) {
    if Held(before, service, x) || x !in Identifiers(ss) then At(now, x) == At(before, x)
    else x in now && StructureShows(now[x], service, LastStructure(ss, x)) && StructureIds(before, first, now[x], next, ss, x)
  }

  ghost predicate AllDeclared(before: map<string, Structure>, first: nat, service: string, ss: seq<StructureManifest>,
                              now: map<string, Structure>, next: nat) {
    first <= next && forall x :: Declared(before, first, service, ss, now, next, x)
  }

  /** What _sync_structures leaves of one identifier. */
  ghost predicate Settled(before: map<string, Structure>, first: nat, service: string, ss: seq<StructureManifest>,
                          after: map<string, Structure>, next: nat, x: string) {
    if Held(before, service, x) then At(after, x) == At(before, x)
    else if x in Identifiers(ss) then
      x in after && StructureShows(after[x], service, LastStructure(ss, x)) && StructureIds(before, first, after[x], next, ss, x)
    else x !in after
  }

  lemma ThroughoutMore(ss: seq<StructureManifest>, sm: StructureManifest, x: string, k: string)
    ensures Throughout(ss + [sm], x, k) <==> Throughout(ss, x, k) && (sm.identifier == x ==> k in Keys(DescriptorItems(sm.descriptors)))
  {
    var ss' := ss + [sm];
    assert ss'[|ss|] == sm;
    if Throughout(ss', x, k) {
      forall i | 0 <= i < |ss| && ss[i].identifier == x ensures k in Keys(DescriptorItems(ss[i].descriptors)) { assert ss'[i] == ss[i]; }
    }
  }

  lemma StructuresMore(ss: seq<StructureManifest>, sm: StructureManifest, x: string)
    ensures x in Identifiers(ss + [sm]) <==> x in Identifiers(ss) || x == sm.identifier
    ensures x in Identifiers(ss + [sm]) ==> LastStructure(ss + [sm], x) == if x == sm.identifier then sm else LastStructure(ss, x)
  {
    assert StructureItems(ss + [sm]) == StructureItems(ss) + [Item(sm.identifier, sm)];
    KeysMore(StructureItems(ss), Item(sm.identifier, sm));
  }

  lemma {:induction false} LastNamesThroughout(ss: seq<StructureManifest>, x: string, k: string)
    requires x in Identifiers(ss) && Throughout(ss, x, k)
    ensures k in Keys(DescriptorItems(LastStructure(ss, x).descriptors))
    decreases |ss|
  {
    var n := |ss| - 1;
    assert ss == ss[..n] + [ss[n]];
    ThroughoutMore(ss[..n], ss[n], x, k);
    StructuresMore(ss[..n], ss[n], x);
    if ss[n].identifier != x { LastNamesThroughout(ss[..n], x, k); }
  }

  /** A declaration another service's hosting does not shut out: the row becomes the service's. */
  lemma DeclareOne(before: map<string, Structure>, first: nat, service: string, ss: seq<StructureManifest>, now: map<string, Structure>, next: nat,
                   sm: StructureManifest, id: nat, mid: nat, rows: map<string, Row<DescriptorContent>>, next': nat, now': map<string, Structure>)
    requires AllDeclared(before, first, service, ss, now, next) && !Held(now, service, sm.identifier)
    requires if sm.identifier in now then id == now[sm.identifier].id && mid == next else id == next && mid == next + 1
    requires Shows(rows, DescriptorItems(sm.descriptors))
    requires IdsKept(if sm.identifier in now then now[sm.identifier].descriptors else map[], mid, rows, next')
    requires now' == now[sm.identifier := Structure(id, service, sm.label_, sm.description, rows)]
    ensures AllDeclared(before, first, service, ss + [sm], now', next')
  {
    forall x ensures Declared(before, first, service, ss + [sm], now', next', x) {
      assert Declared(before, first, service, ss, now, next, x);
      StructuresMore(ss, sm, x);
      if x == sm.identifier {
        DescriptorIdsMore(before, first, service, ss, now, next, sm, id, mid, rows, next');
      } else if !Held(before, service, x) && x in Identifiers(ss) {
        forall k ensures Throughout(ss + [sm], x, k) <==> Throughout(ss, x, k) { ThroughoutMore(ss, sm, x, k); }
      }
    }
  }

  lemma DescriptorIdsMore(before: map<string, Structure>, first: nat, service: string, ss: seq<StructureManifest>, now: map<string, Structure>, next: nat,
                          sm: StructureManifest, id: nat, mid: nat, rows: map<string, Row<DescriptorContent>>, next': nat)
    requires first <= next && Declared(before, first, service, ss, now, next, sm.identifier) && !Held(now, service, sm.identifier)
    requires if sm.identifier in now then id == now[sm.identifier].id && mid == next else id == next && mid == next + 1
    requires Shows(rows, DescriptorItems(sm.descriptors))
    requires IdsKept(if sm.identifier in now then now[sm.identifier].descriptors else map[], mid, rows, next')
    ensures StructureIds(before, first, Structure(id, service, sm.label_, sm.description, rows), next', ss + [sm], sm.identifier)
  {
    var x := sm.identifier;
    forall k | k in rows
      ensures if x in before && k in before[x].descriptors && Throughout(ss + [sm], x, k) then rows[k].id == before[x].descriptors[k].id
              else first <= rows[k].id < next'
    {
      ThroughoutMore(ss, sm, x, k);
      if x !in Identifiers(ss) {
        forall i | 0 <= i < |ss| ensures ss[i].identifier != x { assert Identifiers(ss)[i] == ss[i].identifier; }
      } else if Throughout(ss, x, k) {
        LastNamesThroughout(ss, x, k);
      }
    }
  }

  lemma SkipHeld(before: map<string, Structure>, first: nat, service: string, ss: seq<StructureManifest>, now: map<string, Structure>, next: nat,
                 sm: StructureManifest)
    requires AllDeclared(before, first, service, ss, now, next) && Held(now, service, sm.identifier)
    ensures AllDeclared(before, first, service, ss + [sm], now, next)
  {
    forall x ensures Declared(before, first, service, ss + [sm], now, next, x) {
      assert Declared(before, first, service, ss, now, next, x);
      StructuresMore(ss, sm, x);
      if x != sm.identifier && !Held(before, service, x) && x in Identifiers(ss) {
        forall k ensures Throughout(ss + [sm], x, k) <==> Throughout(ss, x, k) { ThroughoutMore(ss, sm, x, k); }
      }
    }
  }

  lemma DropUndeclared(before: map<string, Structure>, first: nat, service: string, ss: seq<StructureManifest>, now: map<string, Structure>, next: nat,
                       after: map<string, Structure>)
    requires AllDeclared(before, first, service, ss, now, next)
    requires after == map x | x in now && (now[x].service != service || x in Identifiers(ss)) :: now[x]
    ensures forall x :: Settled(before, first, service, ss, after, next, x)
  {
    forall x ensures Settled(before, first, service, ss, after, next, x) {
      assert Declared(before, first, service, ss, now, next, x);
    }
  }

  /** A wider range of new ids. */
  lemma SettledWithin(before: map<string, Structure>, first: nat, first': nat, service: string, ss: seq<StructureManifest>,
                      after: map<string, Structure>, next: nat, next': nat)
    requires first' <= first && next <= next' && forall x :: Settled(before, first, service, ss, after, next, x)
    ensures forall x :: Settled(before, first', service, ss, after, next', x)
  {
    forall x ensures Settled(before, first', service, ss, after, next', x) {
      assert Settled(before, first, service, ss, after, next, x);
    }
  }

  // ---------------------------------------------------------------- one service's step

  /** What catalogue does with one entry. */
  ghost predicate Step(e: Entry, a: Tables, b: Tables) {
    if e.manifest.None? then b == a
    else
      var m := e.manifest.value;
      && a.next <= b.next
      && e.name in b.services && (forall s :: s != e.name ==> At(b.services, s) == At(a.services, s))
      && ServiceShows(m, a.next, At(a.services, e.name), b.services[e.name], b.next)
      && if m.structures.None? then b.structures == a.structures
         else forall x :: Settled(a.structures, a.next, e.name, m.structures.value, b.structures, b.next, x)
  }

  /** The tables before, between and after the services of one pass. */
  ghost predicate Pass(entries: seq<Entry>, ts: seq<Tables>) {
    |ts| == |entries| + 1 && forall i :: 0 <= i < |entries| ==> Step(entries[i], ts[i], ts[i + 1])
  }

  /** The service's own row and its signals after the step. */
  ghost predicate ServiceShows(m: Manifest, first: nat, before: Option<Service>, row: Service, next: nat) {
    && (if before.Some? then row.id == before.value.id else first <= row.id < next)
    && row.identifier == m.identifier
    && row.description == (if m.description.Some? then m.description.value else if before.Some? then before.value.description else None)
    && Shows(row.signals, SignalItems(m.signals))
    && IdsKept(if before.Some? then before.value.signals else map[], first, row.signals, next)
  }

  class Catalog {
    var services: map<string, Service>
    var structures: map<string, Structure>
    var next: nat

    constructor ()
      ensures Now() == Tables(map[], map[], 0)
    {
      services, structures, next := map[], map[], 0;
    }

    function Now(): Tables
      reads this
    {
      Tables(services, structures, next)
    }

    /** _sync_descriptors and _sync_signals: rows upserted by key, the ones not declared deleted; a row
        still declared is updated in place. */
    method SyncRows<K(==), C>(before: map<K, Row<C>>, items: seq<Item<K, C>>) returns (rows: map<K, Row<C>>)
      modifies this`next
      ensures Shows(rows, items) && IdsKept(before, old(next), rows, next)
    {
      rows := before;
      var i := 0;
      while i < |items|
        invariant i <= |items| && Written(before, old(next), rows, next, items[..i])
      {
        var item := items[i];
        var id := if item.key in rows then rows[item.key].id else next;
        WriteOne(before, old(next), rows, next, items[..i], item, id);
        assert items[..i + 1] == items[..i] + [item];
        next := if item.key in rows then next else next + 1;
        rows := rows[item.key := Row(id, item.content)];
        i := i + 1;
      }
      assert items[..i] == items;
      ghost var written := rows;
      rows := map k | k in rows && k in Keys(items) :: rows[k];
      WrittenShows(before, old(next), written, next, items, rows);
    }

    /** _sync_structures: an identifier another service hosts stays that service's. */
    method SyncStructures(service: string, ss: seq<StructureManifest>)
      modifies this`structures, this`next
      ensures next >= old(next)
      ensures forall x :: Settled(old(structures), old(next), service, ss, structures, next, x)
    {
      var i := 0;
      while i < |ss|
        invariant i <= |ss| && AllDeclared(old(structures), old(next), service, ss[..i], structures, next)
      {
        var sm := ss[i];
        ghost var now0, next0 := structures, next;
        assert ss[..i + 1] == ss[..i] + [sm];
        if Held(structures, service, sm.identifier) {
          SkipHeld(old(structures), old(next), service, ss[..i], structures, next, sm);
        } else {
          var known := sm.identifier in structures;
          var id := if known then structures[sm.identifier].id else next;
          var rows := if known then structures[sm.identifier].descriptors else map[];
          next := if known then next else next + 1;
          ghost var mid := next;
          rows := SyncRows(rows, DescriptorItems(sm.descriptors));
          structures := structures[sm.identifier := Structure(id, service, sm.label_, sm.description, rows)];
          DeclareOne(old(structures), old(next), service, ss[..i], now0, next0, sm, id, mid, rows, next, structures);
        }
        i := i + 1;
      }
      assert ss[..i] == ss;
      ghost var now := structures;
      structures := map x | x in structures && (structures[x].service != service || x in Identifiers(ss)) :: structures[x];
      DropUndeclared(old(structures), old(next), service, ss, now, next, structures);
    }

    /** catalogue: nothing is written where the manifest cannot be read. */
    method Catalogue(e: Entry)
      modifies this
      ensures Step(e, old(Now()), Now())
    {
      if e.manifest.None? {
        return;
      }
      var m := e.manifest.value;
      var before := At(services, e.name);
      var id := if before.Some? then before.value.id else next;
      var description := if m.description.Some? then m.description.value else if before.Some? then before.value.description else None;
      var signals := if before.Some? then before.value.signals else map[];
      next := if before.Some? then next else next + 1;
      ghost var mid := next;
      if m.structures.Some? {
        ghost var structures0 := structures;
        SyncStructures(e.name, m.structures.value);
        assert forall x :: Settled(structures0, mid, e.name, m.structures.value, structures, next, x);
        SettledWithin(structures0, mid, old(next), e.name, m.structures.value, structures, next, next);
      }
      ghost var later := next;
      signals := SyncRows(signals, SignalItems(m.signals));
      if m.structures.Some? {
        SettledWithin(old(structures), old(next), old(next), e.name, m.structures.value, structures, later, next);
      }
      services := services[e.name := Service(id, m.identifier, description, signals)];
    }

    /** catalogue_all: every service once; the names of those that could not be read. */
    method CatalogueAll(entries: seq<Entry>) returns (failed: seq<string>, ghost ts: seq<Tables>)
      modifies this
      ensures Pass(entries, ts) && ts[0] == old(Now()) && ts[|entries|] == Now()
      ensures forall name :: name in failed <==> exists e :: e in entries && e.name == name && e.manifest.None?
    {
      failed, ts := [], [Now()];
      var i := 0;
      while i < |entries|
        invariant i <= |entries| && Pass(entries[..i], ts) && ts[0] == old(Now()) && ts[i] == Now()
        invariant forall name :: name in failed <==> exists e :: e in entries[..i] && e.name == name && e.manifest.None?
      {
        ghost var before, ts0 := Now(), ts;
        Catalogue(entries[i]);
        ts := ts + [Now()];
        assert entries[..i + 1] == entries[..i] + [entries[i]];
        forall j | 0 <= j < i + 1 ensures Step(entries[..i + 1][j], ts[j], ts[j + 1]) {
          assert j < i ==> Step(entries[..i][j], ts0[j], ts0[j + 1]);
        }
        if entries[i].manifest.None? {
          failed := failed + [entries[i].name];
        }
        i := i + 1;
      }
      assert entries[..i] == entries;
    }
  }
}
