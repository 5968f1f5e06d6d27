/** Repeated passes over the same services (facade/service_catalog.py, catalogue_all): nothing moves
    between services, and when further passes leave the rows as they are, ids included. */
module CatalogPasses {
  import opened Collections
  import opened ServiceCatalog

  predicate DistinctNames(entries: seq<Entry>) {
    forall i, j | 0 <= i < j < |entries| :: entries[i].name != entries[j].name
  }

  function End(ts: seq<Tables>): Tables
    requires ts != []
  {
    ts[|ts| - 1]
  }

  /** The same rows with the same ids; only the counter of new ids may be further on. */
  predicate Same(a: Tables, b: Tables) {
    a.services == b.services && a.structures == b.structures
  }

  /** No row's id is free. */
  ghost predicate IdsUsed(t: Tables) {
    forall x, k :: x in t.structures && k in t.structures[x].descriptors ==> t.structures[x].descriptors[k].id < t.next
  }

  /** The structures a service hosts. */
  function Hosted(t: Tables, service: string): map<string, Structure> {
    map x | x in t.structures && t.structures[x].service == service :: t.structures[x]
  }

  // ---------------------------------------------------------------- in line

  /** The service's own rows are what it declares. */
  ghost predicate OwnInLine(e: Entry, t: Tables) {
    e.manifest.None? ||
    var m := e.manifest.value;
    && e.name in t.services
    && t.services[e.name].identifier == m.identifier
    && (m.description.Some? ==> t.services[e.name].description == m.description.value)
    && Shows(t.services[e.name].signals, SignalItems(m.signals))
    && (m.structures.Some? ==> HostsDeclared(e.name, m.structures.value, t))
  }

  ghost predicate HostsDeclared(service: string, ss: seq<StructureManifest>, t: Tables) {
    forall x :: x in Hosted(t, service) ==> x in Identifiers(ss) && StructureShows(Hosted(t, service)[x], service, LastStructure(ss, x))
  }

  /** Somebody hosts everything the service declares. */
  ghost predicate Claimed(e: Entry, t: Tables) {
    e.manifest.Some? && e.manifest.value.structures.Some? ==>
      forall x :: x in Identifiers(e.manifest.value.structures.value) ==> x in t.structures
  }

  /** Of the structures the service hosts, every declaration names every descriptor the last one names. */
  ghost predicate Covered(e: Entry, t: Tables) {
    e.manifest.Some? && e.manifest.value.structures.Some? ==>
      forall x, k :: x in Hosted(t, e.name) && k in Hosted(t, e.name)[x].descriptors ==> Throughout(e.manifest.value.structures.value, x, k)
  }

  // ---------------------------------------------------------------- one step

  /** A step never moves an identifier from the service hosting it. */
  lemma NothingMoves(e: Entry, a: Tables, b: Tables, x: string)
    requires Step(e, a, b) && x in a.structures && x in b.structures
    ensures b.structures[x].service == a.structures[x].service
  {
    if e.manifest.Some? && e.manifest.value.structures.Some? {
      assert Settled(a.structures, a.next, e.name, e.manifest.value.structures.value, b.structures, b.next, x);
    }
  }

  /** A step leaves the other services' rows alone. */
  lemma OthersStay(e: Entry, a: Tables, b: Tables, service: string)
    requires Step(e, a, b) && service != e.name
    ensures Hosted(b, service) == Hosted(a, service) && At(b.services, service) == At(a.services, service)
  {
    if e.manifest.Some? && e.manifest.value.structures.Some? {
      forall x ensures At(Hosted(b, service), x) == At(Hosted(a, service), x) {
        assert Settled(a.structures, a.next, e.name, e.manifest.value.structures.value, b.structures, b.next, x);
      }
      assert forall x :: x in Hosted(b, service) <==> At(Hosted(b, service), x).Some?;
      assert forall x :: x in Hosted(a, service) <==> At(Hosted(a, service), x).Some?;
      assert forall x :: x in Hosted(b, service) ==> At(Hosted(b, service), x) == Some(Hosted(b, service)[x]);
      assert forall x :: x in Hosted(a, service) ==> At(Hosted(a, service), x) == Some(Hosted(a, service)[x]);
    }
  }

  /** Afterwards the service hosts exactly what it declares and nobody else holds. */
  lemma StepBringsInLine(e: Entry, a: Tables, b: Tables)
    requires Step(e, a, b)
    ensures OwnInLine(e, b) && Claimed(e, b)
    ensures e.manifest.Some? && e.manifest.value.structures.Some? ==>
      forall x :: x in Hosted(b, e.name) <==> x in Identifiers(e.manifest.value.structures.value) && !Held(a.structures, e.name, x)
  {
    if e.manifest.Some? && e.manifest.value.structures.Some? {
      var ss := e.manifest.value.structures.value;
      forall x
        ensures x in Identifiers(ss) ==> x in b.structures
        ensures x in Hosted(b, e.name) <==> x in Identifiers(ss) && !Held(a.structures, e.name, x)
        ensures x in Hosted(b, e.name) ==> StructureShows(Hosted(b, e.name)[x], e.name, LastStructure(ss, x))
      {
        assert Settled(a.structures, a.next, e.name, ss, b.structures, b.next, x);
      }
    }
  }

  lemma OwnInLineStays(e: Entry, other: Entry, a: Tables, b: Tables)
    requires Step(other, a, b) && OwnInLine(e, a) && e.name != other.name
    ensures OwnInLine(e, b)
  {
    OthersStay(other, a, b, e.name);
  }

  /** A service in line drops nothing. */
  lemma NothingDropped(e: Entry, a: Tables, b: Tables)
    requires Step(e, a, b) && OwnInLine(e, a)
    ensures a.structures.Keys <= b.structures.Keys
  {
    if e.manifest.Some? && e.manifest.value.structures.Some? {
      forall x | x in a.structures ensures x in b.structures {
        assert Settled(a.structures, a.next, e.name, e.manifest.value.structures.value, b.structures, b.next, x);
        assert a.structures[x].service == e.name ==> x in Hosted(a, e.name);
      }
    }
  }

  // ---------------------------------------------------------------- when a step changes nothing

  lemma SameContents<K, C>(a: map<K, Row<C>>, b: map<K, Row<C>>, items: seq<Item<K, C>>)
    requires Shows(a, items) && Shows(b, items) && forall k :: k in a && k in b ==> a[k].id == b[k].id
    ensures a == b
  {
    assert a.Keys == b.Keys;
    forall k | k in a ensures a[k] == b[k] {
      assert a[k] == Row(a[k].id, a[k].content) && b[k] == Row(b[k].id, b[k].content);
    }
  }

  /** A service in line keeps its own row and its signals. */
  lemma ServiceStays(e: Entry, a: Tables, b: Tables)
    requires Step(e, a, b) && OwnInLine(e, a)
    ensures b.services == a.services
  {
    if e.manifest.Some? {
      var m := e.manifest.value;
      SameContents(a.services[e.name].signals, b.services[e.name].signals, SignalItems(m.signals));
      forall s ensures At(b.services, s) == At(a.services, s) {}
      SameMaps(b.services, a.services);
    }
  }

  lemma SameMaps<K(!new), V>(a: map<K, V>, b: map<K, V>)
    requires forall k :: At(a, k) == At(b, k)
    ensures a == b
  {
    forall k ensures k in a <==> k in b { assert At(a, k) == At(b, k); }
    forall k | k in a ensures a[k] == b[k] { assert At(a, k) == At(b, k); }
  }

  /** One structure of a service in line: its row stays just when every declaration names all its descriptors. */
  lemma StructureStaysIff(service: string, ss: seq<StructureManifest>, a: Tables, b: Tables, x: string)
    requires Settled(a.structures, a.next, service, ss, b.structures, b.next, x)
    requires IdsUsed(a) && HostsDeclared(service, ss, a) && x in Hosted(a, service)
    ensures x in b.structures
    ensures b.structures[x] == a.structures[x] <==> forall k :: k in a.structures[x].descriptors ==> Throughout(ss, x, k)
  {
    var row, row' := Hosted(a, service)[x], b.structures[x];
    assert x in Identifiers(ss) && StructureShows(row, service, LastStructure(ss, x));
    if forall k :: k in row.descriptors ==> Throughout(ss, x, k) {
      SameContents(row.descriptors, row'.descriptors, DescriptorItems(LastStructure(ss, x).descriptors));
    }
  }

  /** A step over a service in line changes its hosted rows just when one of them is not covered. */
  lemma HostedStaysIff(e: Entry, a: Tables, b: Tables)
    requires Step(e, a, b) && OwnInLine(e, a) && Claimed(e, a) && IdsUsed(a)
    ensures Hosted(b, e.name) == Hosted(a, e.name) <==> Covered(e, a)
    ensures Covered(e, a) ==> b.structures == a.structures
  {
    if e.manifest.Some? && e.manifest.value.structures.Some? {
      var ss := e.manifest.value.structures.value;
      forall x ensures Settled(a.structures, a.next, e.name, ss, b.structures, b.next, x) {}
      forall x | x in Hosted(a, e.name)
        ensures x in b.structures
        ensures b.structures[x] == a.structures[x] <==> forall k :: k in a.structures[x].descriptors ==> Throughout(ss, x, k)
      {
        StructureStaysIff(e.name, ss, a, b, x);
      }
      if Covered(e, a) {
        forall x ensures At(b.structures, x) == At(a.structures, x) {
          assert Settled(a.structures, a.next, e.name, ss, b.structures, b.next, x);
          if x in Hosted(a, e.name) {
            assert forall k :: k in Hosted(a, e.name)[x].descriptors ==> Throughout(ss, x, k);
          }
        }
        SameMaps(b.structures, a.structures);
      } else {
        var x, k :| x in Hosted(a, e.name) && k in Hosted(a, e.name)[x].descriptors && !Throughout(ss, x, k);
        assert b.structures[x] != a.structures[x];
        NothingMoves(e, a, b, x);
        assert Hosted(b, e.name)[x] == b.structures[x];
      }
    }
  }

  lemma StepKeepsIdsUsed(e: Entry, a: Tables, b: Tables)
    requires Step(e, a, b) && IdsUsed(a)
    ensures IdsUsed(b)
  {
    if e.manifest.Some? && e.manifest.value.structures.Some? {
      forall x, k | x in b.structures && k in b.structures[x].descriptors ensures b.structures[x].descriptors[k].id < b.next {
        assert Settled(a.structures, a.next, e.name, e.manifest.value.structures.value, b.structures, b.next, x);
      }
    }
  }

  // ---------------------------------------------------------------- passes

  ghost predicate AllInLine(entries: seq<Entry>, t: Tables) {
    forall i :: 0 <= i < |entries| ==> OwnInLine(entries[i], t) && Claimed(entries[i], t)
  }

  ghost predicate AllOwnInLine(entries: seq<Entry>, t: Tables) {
    forall i :: 0 <= i < |entries| ==> OwnInLine(entries[i], t)
  }

  ghost predicate AllCovered(entries: seq<Entry>, t: Tables) {
    forall i :: 0 <= i < |entries| ==> Covered(entries[i], t)
  }

  lemma {:induction false} InLineAfter(entries: seq<Entry>, ts: seq<Tables>, i: nat, j: nat)
    requires DistinctNames(entries) && Pass(entries, ts) && i < j <= |entries|
    ensures OwnInLine(entries[i], ts[j])
    decreases j
  {
    assert Step(entries[j - 1], ts[j - 1], ts[j]);
    if i == j - 1 {
      StepBringsInLine(entries[i], ts[i], ts[j]);
    } else {
      InLineAfter(entries, ts, i, j - 1);
      OwnInLineStays(entries[i], entries[j - 1], ts[j - 1], ts[j]);
    }
  }

  lemma {:induction false} InLineThroughout(entries: seq<Entry>, ts: seq<Tables>, j: nat)
    requires DistinctNames(entries) && Pass(entries, ts) && AllOwnInLine(entries, ts[0]) && j <= |entries|
    ensures AllOwnInLine(entries, ts[j])
    decreases j
  {
    if j > 0 {
      InLineThroughout(entries, ts, j - 1);
      forall i | 0 <= i < |entries| ensures OwnInLine(entries[i], ts[j]) {
        assert Step(entries[j - 1], ts[j - 1], ts[j]);
        if i == j - 1 { InLineAfter(entries, ts, i, j); } else { OwnInLineStays(entries[i], entries[j - 1], ts[j - 1], ts[j]); }
      }
    }
  }

  lemma {:induction false} KeysGrow(entries: seq<Entry>, ts: seq<Tables>, i: nat, j: nat)
    requires DistinctNames(entries) && Pass(entries, ts) && AllOwnInLine(entries, ts[0]) && i <= j <= |entries|
    ensures ts[i].structures.Keys <= ts[j].structures.Keys
    decreases j
  {
    if i < j {
      KeysGrow(entries, ts, i, j - 1);
      InLineThroughout(entries, ts, j - 1);
      assert Step(entries[j - 1], ts[j - 1], ts[j]);
      NothingDropped(entries[j - 1], ts[j - 1], ts[j]);
    }
  }

  lemma ClaimedStays(e: Entry, a: Tables, b: Tables)
    requires Claimed(e, a) && a.structures.Keys <= b.structures.Keys
    ensures Claimed(e, b)
  {}

  /** A pass over services in line ends with everything declared hosted by somebody. */
  lemma PassClaims(entries: seq<Entry>, ts: seq<Tables>)
    requires DistinctNames(entries) && Pass(entries, ts) && AllOwnInLine(entries, ts[0])
    ensures AllInLine(entries, End(ts))
  {
    InLineThroughout(entries, ts, |entries|);
    forall i | 0 <= i < |entries| ensures OwnInLine(entries[i], End(ts)) && Claimed(entries[i], End(ts)) {
      assert Step(entries[i], ts[i], ts[i + 1]);
      StepBringsInLine(entries[i], ts[i], ts[i + 1]);
      KeysGrow(entries, ts, i + 1, |entries|);
      ClaimedStays(entries[i], ts[i + 1], End(ts));
    }
  }

  /** Whatever the catalog held, two passes bring every service in line: its own rows are what it
      declares, and what it declares somebody hosts. */
  lemma TwoPassesBringInLine(entries: seq<Entry>, first: seq<Tables>, second: seq<Tables>)
    requires DistinctNames(entries) && Pass(entries, first) && Pass(entries, second) && second[0] == End(first)
    ensures AllInLine(entries, End(second))
  {
    forall i | 0 <= i < |entries| ensures OwnInLine(entries[i], End(first)) {
      InLineAfter(entries, first, i, |entries|);
    }
    PassClaims(entries, second);
  }

  lemma {:induction false} HostedBetween(entries: seq<Entry>, ts: seq<Tables>, service: string, i: nat, j: nat)
    requires Pass(entries, ts) && i <= j <= |entries| && forall l :: i <= l < j ==> entries[l].name != service
    ensures Hosted(ts[j], service) == Hosted(ts[i], service)
    decreases j
  {
    if i < j {
      HostedBetween(entries, ts, service, i, j - 1);
      assert Step(entries[j - 1], ts[j - 1], ts[j]);
      OthersStay(entries[j - 1], ts[j - 1], ts[j], service);
    }
  }

  lemma {:induction false} IdsUsedAlong(entries: seq<Entry>, ts: seq<Tables>, j: nat)
    requires Pass(entries, ts) && IdsUsed(ts[0]) && j <= |entries|
    ensures IdsUsed(ts[j])
    decreases j
  {
    if j > 0 {
      IdsUsedAlong(entries, ts, j - 1);
      assert Step(entries[j - 1], ts[j - 1], ts[j]);
      StepKeepsIdsUsed(entries[j - 1], ts[j - 1], ts[j]);
    }
  }

  lemma {:induction false} CoveredPassChangesNothing(entries: seq<Entry>, ts: seq<Tables>, j: nat)
    requires Pass(entries, ts) && AllInLine(entries, ts[0]) && AllCovered(entries, ts[0]) && IdsUsed(ts[0]) && j <= |entries|
    ensures Same(ts[j], ts[0])
    decreases j
  {
    if j > 0 {
      CoveredPassChangesNothing(entries, ts, j - 1);
      IdsUsedAlong(entries, ts, j - 1);
      var e := entries[j - 1];
      assert Step(e, ts[j - 1], ts[j]) && OwnInLine(e, ts[0]) && Claimed(e, ts[0]) && Covered(e, ts[0]);
      ServiceStays(e, ts[j - 1], ts[j]);
      HostedStaysIff(e, ts[j - 1], ts[j]);
    }
  }

  lemma SameHostedCovered(e: Entry, a: Tables, b: Tables)
    requires Hosted(a, e.name) == Hosted(b, e.name)
    ensures Covered(e, a) <==> Covered(e, b)
  {}

  /** Only its own step changes what a service hosts. */
  lemma HostedAround(entries: seq<Entry>, ts: seq<Tables>, i: nat)
    requires DistinctNames(entries) && Pass(entries, ts) && i < |entries|
    ensures Hosted(ts[i], entries[i].name) == Hosted(ts[0], entries[i].name)
    ensures Hosted(End(ts), entries[i].name) == Hosted(ts[i + 1], entries[i].name)
    ensures Step(entries[i], ts[i], ts[i + 1])
  {
    HostedBetween(entries, ts, entries[i].name, 0, i);
    HostedBetween(entries, ts, entries[i].name, i + 1, |entries|);
  }

  lemma BeforeItsStep(entries: seq<Entry>, ts: seq<Tables>, i: nat)
    requires DistinctNames(entries) && Pass(entries, ts) && AllInLine(entries, ts[0]) && IdsUsed(ts[0])
    requires i < |entries|
    ensures OwnInLine(entries[i], ts[i]) && Claimed(entries[i], ts[i]) && IdsUsed(ts[i])
  {
    InLineThroughout(entries, ts, i);
    KeysGrow(entries, ts, 0, i);
    ClaimedStays(entries[i], ts[0], ts[i]);
    IdsUsedAlong(entries, ts, i);
  }

  lemma UncoveredStepChanges(e: Entry, a: Tables, b: Tables, before: map<string, Structure>)
    requires Step(e, a, b) && OwnInLine(e, a) && Claimed(e, a) && IdsUsed(a)
    requires before == Hosted(a, e.name) && !Covered(e, a)
    ensures Hosted(b, e.name) != before
  {
    HostedStaysIff(e, a, b);
  }

  lemma UncoveredPassChanges(entries: seq<Entry>, ts: seq<Tables>, i: nat)
    requires DistinctNames(entries) && Pass(entries, ts) && AllInLine(entries, ts[0]) && IdsUsed(ts[0])
    requires i < |entries| && !Covered(entries[i], ts[0])
    ensures !Same(End(ts), ts[0])
  {
    var e := entries[i];
    HostedAround(entries, ts, i);
    BeforeItsStep(entries, ts, i);
    SameHostedCovered(e, ts[0], ts[i]);
    UncoveredStepChanges(e, ts[i], ts[i + 1], Hosted(ts[0], e.name));
  }

  /** From then on a pass leaves every row and id as it is exactly when, of each structure a service
      hosts, every declaration in its manifest names all the descriptors the last one names: always so
      where a manifest declares no structure twice. */
  lemma SettledPassIff(entries: seq<Entry>, ts: seq<Tables>)
    requires DistinctNames(entries) && Pass(entries, ts) && AllInLine(entries, ts[0]) && IdsUsed(ts[0])
    ensures Same(End(ts), ts[0]) <==> AllCovered(entries, ts[0])
    ensures AllInLine(entries, End(ts))
  {
    PassClaims(entries, ts);
    if AllCovered(entries, ts[0]) {
      CoveredPassChangesNothing(entries, ts, |entries|);
    } else {
      var i :| 0 <= i < |entries| && !Covered(entries[i], ts[0]);
      UncoveredPassChanges(entries, ts, i);
    }
  }

  /** A manifest that declares no structure twice is covered. */
  lemma OnceIsCovered(e: Entry, t: Tables)
    requires OwnInLine(e, t)
    requires e.manifest.Some? && e.manifest.value.structures.Some? ==>
      forall i, j :: 0 <= i < j < |e.manifest.value.structures.value| ==>
        e.manifest.value.structures.value[i].identifier != e.manifest.value.structures.value[j].identifier
    ensures Covered(e, t)
  {
    if e.manifest.Some? && e.manifest.value.structures.Some? {
      var ss := e.manifest.value.structures.value;
      forall x, k | x in Hosted(t, e.name) && k in Hosted(t, e.name)[x].descriptors ensures Throughout(ss, x, k) {
        OnlyDeclaration(ss, x);
      }
    }
  }

  lemma {:induction false} OnlyDeclaration(ss: seq<StructureManifest>, x: string)
    requires forall i, j :: 0 <= i < j < |ss| ==> ss[i].identifier != ss[j].identifier
    requires x in Identifiers(ss)
    ensures forall i :: 0 <= i < |ss| && ss[i].identifier == x ==> LastStructure(ss, x) == ss[i]
    decreases |ss|
  {
    var n := |ss| - 1;
    assert ss == ss[..n] + [ss[n]];
    StructuresMore(ss[..n], ss[n], x);
    if ss[n].identifier != x { OnlyDeclaration(ss[..n], x); }
  }

  /** A manifest that declares a structure twice, with different descriptors, gets a new descriptor row
      on every pass. */
  lemma TwiceDeclaredChurns(a: Tables, b: Tables)
    requires var e := Entry("s", Some(Manifest(None, None, Some([
      StructureManifest("x", None, None, [DescriptorManifest("first", None, None)]),
      StructureManifest("x", None, None, [DescriptorManifest("second", None, None)])]), [])));
      Step(e, a, b) && OwnInLine(e, a) && Claimed(e, a) && IdsUsed(a) && "x" in Hosted(a, "s")
    ensures b.structures != a.structures
  {
    var ss := [StructureManifest("x", None, None, [DescriptorManifest("first", None, None)]),
               StructureManifest("x", None, None, [DescriptorManifest("second", None, None)])];
    var e := Entry("s", Some(Manifest(None, None, Some(ss), [])));
    StructuresMore(ss[..1], ss[1], "x");
    assert ss == ss[..1] + [ss[1]];
    assert Keys(DescriptorItems(ss[1].descriptors)) == ["second"] && Keys(DescriptorItems(ss[0].descriptors)) == ["first"];
    assert "second" in Hosted(a, "s")["x"].descriptors && !Throughout(ss, "x", "second");
    HostedStaysIff(e, a, b);
  }
}
