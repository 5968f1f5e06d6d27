/** A fork's port rows: copied from its provided blok's in id order (facade/mutations/blok.py, _fork). */
module PortCopies {
  import opened Collections
  import opened Ports

  function Mapped(parent: Option<nat>, copies: map<nat, nat>): Option<nat>
    requires parent.Some? ==> parent.value in copies
  {
    if parent.None? then None else Some(copies[parent.value])
  }

  /** The row and its parent have been copied. */
  predicate Covers(copies: map<nat, nat>, r: Row) {
    r.id in copies && (r.parent.Some? ==> r.parent.value in copies)
  }

  /** The row's copy, under its parent's copy. */
  function Copied(r: Row, target: nat, copies: map<nat, nat>): Row
    requires Covers(copies, r)
  {
    r.(id := copies[r.id], owner := target, parent := Mapped(r.parent, copies))
  }

  ghost predicate IsCopy(q: Row, rows: seq<Row>, source: nat, target: nat, copies: map<nat, nat>) {
    exists r :: r in rows && r.owner == source && Covers(copies, r) && q == Copied(r, target, copies)
  }

  /** New ids, in the order of the old ones. */
  ghost predicate NewIds(copies: map<nat, nat>, first: nat, next: nat) {
    && (forall k :: k in copies ==> first <= copies[k] < next)
    && (forall k, l :: k in copies && l in copies && k < l ==> copies[k] < copies[l])
  }

  /** `made` are the copies of the source's rows among `rows`. */
  ghost predicate Copying(rows: seq<Row>, first: nat, source: nat, target: nat, copies: map<nat, nat>, made: seq<Row>, next: nat) {
    && first <= next && NewIds(copies, first, next) && Ascending(made)
    && (forall k :: k in copies ==> HasRow(rows, k, source))
    && (forall r :: r in rows && r.owner == source ==> Covers(copies, r) && Copied(r, target, copies) in made)
    && (forall q :: q in made ==> IsCopy(q, rows, source, target, copies))
  }

  lemma EarlierRow(rows: seq<Row>, i: nat, q: Row)
    requires Ascending(rows) && i < |rows| && q in rows && q.id < rows[i].id
    ensures q in rows[..i]
  {
    var j :| 0 <= j < |rows| && rows[j] == q;
    if i < j { InOrder(rows, i, j); }
  }

  lemma RowsBefore(rows: seq<Row>, i: nat, source: nat, id: nat)
    requires Ascending(rows) && i < |rows| && HasRow(rows[..i], id, source)
    ensures id < rows[i].id
  {
    var r :| r in rows[..i] && r.id == id && r.owner == source;
    var j :| 0 <= j < i && rows[j] == r;
    InOrder(rows, j, i);
  }

  /** The next row's parent was copied before it. */
  lemma ParentCopied(before: seq<Row>, first: nat, i: nat, source: nat, target: nat, copies: map<nat, nat>, made: seq<Row>, next: nat)
    requires WellKept(before, first) && i < |before| && Copying(before[..i], first, source, target, copies, made, next)
    requires before[i].owner == source && before[i].parent.Some?
    ensures before[i].parent.value in copies
  {
    assert before[i] in before;
    var q :| q in before && q.id == before[i].parent.value && q.owner == source;
    EarlierRow(before, i, q);
  }

  lemma CopyStep(before: seq<Row>, first: nat, i: nat, source: nat, target: nat, copies: map<nat, nat>, made: seq<Row>, next: nat,
                 copies': map<nat, nat>, copy: Row)
    requires WellKept(before, first) && i < |before| && Copying(before[..i], first, source, target, copies, made, next)
    requires before[i].owner == source && copies' == copies[before[i].id := next] && Covers(copies', before[i])
    requires copy == Copied(before[i], target, copies')
    ensures Copying(before[..i + 1], first, source, target, copies', made + [copy], next + 1)
  {
    var rows, r := before[..i], before[i];
    assert before[..i + 1] == rows + [r];
    forall k | k in copies ensures k < r.id {
      RowsBefore(before, i, source, k);
    }
    CopiesStand(rows, r, first, source, target, copies, made, next, copies', copy);
  }

  lemma StillCopy(q: Row, rows: seq<Row>, r: Row, source: nat, target: nat, copies: map<nat, nat>, copies': map<nat, nat>)
    requires IsCopy(q, rows, source, target, copies)
    requires forall k :: k in copies ==> k in copies' && copies'[k] == copies[k]
    ensures IsCopy(q, rows + [r], source, target, copies')
  {
    var p :| p in rows && p.owner == source && Covers(copies, p) && q == Copied(p, target, copies);
    assert p in rows + [r] && q == Copied(p, target, copies');
  }

  lemma IdsStand(rows: seq<Row>, r: Row, first: nat, source: nat, target: nat, copies: map<nat, nat>, made: seq<Row>, next: nat,
                 copies': map<nat, nat>, copy: Row)
    requires Copying(rows, first, source, target, copies, made, next) && copies' == copies[r.id := next] && copy.id == next
    requires forall k :: k in copies ==> k < r.id
    ensures NewIds(copies', first, next + 1) && Ascending(made + [copy])
  {
    forall q | q in made ensures q.id < next {
      assert IsCopy(q, rows, source, target, copies);
    }
    OneMoreAscends(made, copy);
  }

  lemma RowsStand(rows: seq<Row>, r: Row, source: nat, target: nat, copies: map<nat, nat>, made: seq<Row>, copies': map<nat, nat>, copy: Row, p: Row)
    requires (forall q :: q in rows && q.owner == source ==> Covers(copies, q) && Copied(q, target, copies) in made) && r.owner == source
    requires (forall k :: k in copies ==> k in copies' && copies'[k] == copies[k]) && Covers(copies', r) && copy == Copied(r, target, copies')
    requires p in rows + [r] && p.owner == source
    ensures Covers(copies', p) && Copied(p, target, copies') in made + [copy]
  {
    if p in rows { assert Copied(p, target, copies) in made && Copied(p, target, copies') == Copied(p, target, copies); }
  }

  lemma CopiesStand(rows: seq<Row>, r: Row, first: nat, source: nat, target: nat, copies: map<nat, nat>, made: seq<Row>, next: nat,
                    copies': map<nat, nat>, copy: Row)
    requires Copying(rows, first, source, target, copies, made, next) && r.owner == source
    requires copies' == copies[r.id := next] && Covers(copies', r) && copy == Copied(r, target, copies')
    requires forall k :: k in copies ==> k < r.id
    ensures Copying(rows + [r], first, source, target, copies', made + [copy], next + 1)
  {
    IdsStand(rows, r, first, source, target, copies, made, next, copies', copy);
    assert r in rows + [r];
    forall q | q in made + [copy] ensures IsCopy(q, rows + [r], source, target, copies') {
      if q in made { StillCopy(q, rows, r, source, target, copies, copies'); }
    }
    forall k | k in copies' ensures HasRow(rows + [r], k, source) {
      if k in copies { StillSourceRow(rows, r, source, k); }
    }
    forall p | p in rows + [r] && p.owner == source ensures Covers(copies', p) && Copied(p, target, copies') in made + [copy] {
      RowsStand(rows, r, source, target, copies, made, copies', copy, p);
    }
  }

  lemma StillSourceRow(rows: seq<Row>, r: Row, source: nat, k: nat)
    requires HasRow(rows, k, source)
    ensures HasRow(rows + [r], k, source)
  {
    var p :| p in rows && p.id == k && p.owner == source;
    assert p in rows + [r];
  }

  lemma SkipStep(rows: seq<Row>, r: Row, first: nat, source: nat, target: nat, copies: map<nat, nat>, made: seq<Row>, next: nat)
    requires Copying(rows, first, source, target, copies, made, next) && r.owner != source
    ensures Copying(rows + [r], first, source, target, copies, made, next)
  {
    forall q | q in made ensures IsCopy(q, rows + [r], source, target, copies) {
      StillCopy(q, rows, r, source, target, copies, copies);
    }
    forall k | k in copies ensures HasRow(rows + [r], k, source) {
      StillSourceRow(rows, r, source, k);
    }
  }

  // ---------------------------------------------------------------- what the copies represent

  ghost predicate NoneOf(rows: seq<Row>, owner: nat) {
    forall r :: r in rows ==> r.owner != owner
  }

  /** The copy is new, and so is its parent. */
  lemma MadeIsNew(before: seq<Row>, first: nat, source: nat, target: nat, copies: map<nat, nat>, made: seq<Row>, next: nat, q: Row)
    requires Copying(before, first, source, target, copies, made, next) && q in made
    ensures q.owner == target && first <= q.id < next && (q.parent.Some? ==> q.parent.value >= first)
  {
    assert IsCopy(q, before, source, target, copies);
  }

  lemma BelowIsMade(before: seq<Row>, first: nat, target: nat, copies: map<nat, nat>, made: seq<Row>, next: nat, parent: Option<nat>, q: Row)
    requires WellKept(before, first) && NoneOf(before, target) && NewIds(copies, first, next)
    requires parent.Some? ==> parent.value in copies
    requires q in before + made && Under(q, target, Mapped(parent, copies))
    ensures q in made
  {}

  lemma SameMapped(copies: map<nat, nat>, first: nat, next: nat, p: Option<nat>, q: Option<nat>)
    requires NewIds(copies, first, next) && (p.Some? ==> p.value in copies) && (q.Some? ==> q.value in copies)
    requires Mapped(p, copies) == Mapped(q, copies)
    ensures p == q
  {}

  /** A row below a copied one's copy is the copy of a row below it. */
  lemma CopyBelow(before: seq<Row>, first: nat, source: nat, target: nat, copies: map<nat, nat>, made: seq<Row>, next: nat,
                  parent: Option<nat>, q: Row) returns (r: Row)
    requires WellKept(before, first) && NoneOf(before, target) && Copying(before, first, source, target, copies, made, next)
    requires parent.Some? ==> parent.value in copies
    requires q in before + made && Under(q, target, Mapped(parent, copies))
    ensures r in before && r.owner == source && Under(r, source, parent) && Covers(copies, r) && q == Copied(r, target, copies)
  {
    BelowIsMade(before, first, target, copies, made, next, parent, q);
    assert IsCopy(q, before, source, target, copies);
    r :| r in before && r.owner == source && Covers(copies, r) && q == Copied(r, target, copies);
    SameMapped(copies, first, next, r.parent, parent);
  }

  lemma CopyOf(before: seq<Row>, first: nat, source: nat, target: nat, copies: map<nat, nat>, made: seq<Row>, next: nat,
               parent: Option<nat>, r: Row)
    requires WellKept(before, first) && Copying(before, first, source, target, copies, made, next)
    requires (parent.Some? ==> parent.value in copies) && r in before && Under(r, source, parent)
    ensures r.owner == source && Covers(copies, r) && Copied(r, target, copies) in made
    ensures Under(Copied(r, target, copies), target, Mapped(parent, copies))
  {
    if parent.Some? { ParentsOwner(before, first, r, source); }
  }

  lemma CopiesHoldLevel(before: seq<Row>, first: nat, source: nat, target: nat, copies: map<nat, nat>, made: seq<Row>, next: nat,
                        parent: Option<nat>, path: string, ports: seq<Port>)
    requires WellKept(before, first) && NoneOf(before, target) && Copying(before, first, source, target, copies, made, next)
    requires (parent.Some? ==> parent.value in copies) && HoldsLevel(before, source, parent, path, ports)
    ensures HoldsLevel(before + made, target, Mapped(parent, copies), path, ports)
  {
    var rows, up := before + made, Mapped(parent, copies);
    forall j | 0 <= j < |ports| ensures HasChild(rows, target, up, j) {
      var r := ChildStoredAt(before, source, parent, path, ports, j);
      CopyOf(before, first, source, target, copies, made, next, parent, r);
      assert Copied(r, target, copies) in rows;
    }
    forall q, p | q in rows && p in rows && Under(q, target, up) && Under(p, target, up) && q.index == p.index ensures q == p {
      var r := CopyBelow(before, first, source, target, copies, made, next, parent, q);
      var s := CopyBelow(before, first, source, target, copies, made, next, parent, p);
    }
    forall q | q in rows && Under(q, target, up) ensures q.index < |ports| && Describes(q, ports[q.index], path) {
      var r := CopyBelow(before, first, source, target, copies, made, next, parent, q);
    }
  }

  /** The copies represent the same forest. */
  lemma {:induction false} CopiesRepresent(before: seq<Row>, first: nat, source: nat, target: nat, copies: map<nat, nat>, made: seq<Row>, next: nat,
                                           parent: Option<nat>, path: string, ports: seq<Port>)
    requires WellKept(before, first) && NoneOf(before, target) && Copying(before, first, source, target, copies, made, next)
    requires (parent.Some? ==> parent.value in copies) && Represents(before, source, parent, path, ports)
    ensures Represents(before + made, target, Mapped(parent, copies), path, ports)
    decreases ports
  {
    CopiesHoldLevel(before, first, source, target, copies, made, next, parent, path, ports);
    forall q | q in before + made && Under(q, target, Mapped(parent, copies))
      ensures Represents(before + made, target, Some(q.id), q.keyPath, ports[q.index].children)
    {
      var r := CopyBelow(before, first, source, target, copies, made, next, parent, q);
      CopiesRepresent(before, first, source, target, copies, made, next, Some(r.id), r.keyPath, ports[r.index].children);
    }
  }

  lemma OthersStay(before: seq<Row>, first: nat, source: nat, target: nat, copies: map<nat, nat>, made: seq<Row>, next: nat, o: nat, ps: seq<Port>)
    requires WellKept(before, first) && Copying(before, first, source, target, copies, made, next) && o != target
    requires Represents(before, o, None, "", ps)
    ensures Represents(before + made, o, None, "", ps)
  {
    var inside := (id: nat) => id < first;
    forall r: Row | Under(r, o, None) || (r.parent.Some? && inside(r.parent.value))
      ensures (r in before <==> r in before + made) && (r in before ==> inside(r.id))
    {
      if r in made { MadeIsNew(before, first, source, target, copies, made, next, r); }
    }
    SameBelow(before, before + made, o, None, "", ps, inside);
  }

  lemma CopiesAreKept(before: seq<Row>, first: nat, source: nat, target: nat, copies: map<nat, nat>, made: seq<Row>, next: nat)
    requires WellKept(before, first) && NoneOf(before, target) && Copying(before, first, source, target, copies, made, next)
    ensures WellKept(before + made, next)
  {
    forall q | q in made
      ensures q.owner == target && first <= q.id < next
      ensures q.parent.Some? ==> first <= q.parent.value < q.id && HasRow(made, q.parent.value, target)
    {
      assert IsCopy(q, before, source, target, copies);
      var r :| r in before && r.owner == source && Covers(copies, r) && q == Copied(r, target, copies);
      if r.parent.Some? {
        assert HasRow(before, r.parent.value, source);
        var p :| p in before && p.id == r.parent.value && p.owner == source;
        assert Copied(p, target, copies) in made;
      }
    }
    KeptTogether(before, made, target, first, next);
  }

  /** The table after the first `i` rows. */
  ghost predicate Underway(before: seq<Row>, first: nat, i: nat, source: nat, target: nat, copies: map<nat, nat>, made: seq<Row>, rows: seq<Row>, next: nat) {
    i <= |before| && rows == before + made && Copying(before[..i], first, source, target, copies, made, next)
  }

  lemma CopyNext(before: seq<Row>, first: nat, i: nat, source: nat, target: nat, copies: map<nat, nat>, made: seq<Row>, rows: seq<Row>, next: nat,
                 copies': map<nat, nat>, copy: Row, rows': seq<Row>, i': nat)
    requires WellKept(before, first) && i < |before| && Underway(before, first, i, source, target, copies, made, rows, next)
    requires before[i].owner == source && copies' == copies[before[i].id := next] && rows' == rows + [copy] && i' == i + 1
    requires before[i].parent.Some? ==> before[i].parent.value in copies
    requires copy == before[i].(id := next, owner := target, parent := Mapped(before[i].parent, copies))
    ensures Underway(before, first, i', source, target, copies', made + [copy], rows', next + 1)
  {
    CopyMade(before, first, i, source, target, copies, made, next, copies', copy);
    Appended(before, made, copy);
  }

  lemma Appended(before: seq<Row>, made: seq<Row>, copy: Row)
    ensures (before + made) + [copy] == before + (made + [copy])
  {}

  lemma CopyMade(before: seq<Row>, first: nat, i: nat, source: nat, target: nat, copies: map<nat, nat>, made: seq<Row>, next: nat,
                 copies': map<nat, nat>, copy: Row)
    requires WellKept(before, first) && i < |before| && Copying(before[..i], first, source, target, copies, made, next)
    requires before[i].owner == source && copies' == copies[before[i].id := next]
    requires before[i].parent.Some? ==> before[i].parent.value in copies
    requires copy == before[i].(id := next, owner := target, parent := Mapped(before[i].parent, copies))
    ensures Copying(before[..i + 1], first, source, target, copies', made + [copy], next + 1)
  {
    assert before[i] in before;
    CopyAgrees(before[i], target, copies, copies', next, copy);
    CopyStep(before, first, i, source, target, copies, made, next, copies', copy);
  }

  /** A row is not its own parent. */
  lemma CopyAgrees(r: Row, target: nat, copies: map<nat, nat>, copies': map<nat, nat>, next: nat, copy: Row)
    requires r.parent.Some? ==> r.parent.value in copies && r.parent.value < r.id
    requires copies' == copies[r.id := next] && copy == r.(id := next, owner := target, parent := Mapped(r.parent, copies))
    ensures Covers(copies', r) && copy == Copied(r, target, copies')
  {}

  lemma SkipNext(before: seq<Row>, first: nat, i: nat, source: nat, target: nat, copies: map<nat, nat>, made: seq<Row>, rows: seq<Row>, next: nat, i': nat)
    requires i < |before| && Underway(before, first, i, source, target, copies, made, rows, next) && before[i].owner != source && i' == i + 1
    ensures Underway(before, first, i', source, target, copies, made, rows, next)
  {
    assert before[..i + 1] == before[..i] + [before[i]];
    SkipStep(before[..i], before[i], first, source, target, copies, made, next);
  }

  /** What a copy leaves: the target's rows mean what the source's do, everybody else's what they did. */
  ghost predicate Forked(before: seq<Row>, rows: seq<Row>, source: nat, target: nat) {
    && before <= rows
    && (forall ps :: Represents(before, source, None, "", ps) ==> Represents(rows, target, None, "", ps))
    && (forall o, ps :: o != target && Represents(before, o, None, "", ps) ==> Represents(rows, o, None, "", ps))
  }

  lemma CopiesFork(before: seq<Row>, first: nat, source: nat, target: nat, copies: map<nat, nat>, made: seq<Row>, next: nat)
    requires WellKept(before, first) && NoneOf(before, target) && Copying(before, first, source, target, copies, made, next)
    ensures Forked(before, before + made, source, target)
  {
    forall ps | Represents(before, source, None, "", ps) ensures Represents(before + made, target, None, "", ps) {
      CopiesRepresent(before, first, source, target, copies, made, next, None, "", ps);
    }
    forall o, ps | o != target && Represents(before, o, None, "", ps) ensures Represents(before + made, o, None, "", ps) {
      OthersStay(before, first, source, target, copies, made, next, o, ps);
    }
  }

  /** _fork's loop over the provided blok's rows. */
  method CopyRows(table: PortTable, source: nat, target: nat)
    requires WellKept(table.rows, table.next) && NoneOf(table.rows, target)
    modifies table
    ensures WellKept(table.rows, table.next) && Forked(old(table.rows), table.rows, source, target)
  {
    var before, first := table.rows, table.next;
    var copies: map<nat, nat> := map[];
    ghost var made: seq<Row> := [];
    var i := 0;
    while i < |before|
      invariant Underway(before, first, i, source, target, copies, made, table.rows, table.next)
    {
      var port, id := before[i], table.next;
      if port.owner == source {
        if port.parent.Some? { ParentCopied(before, first, i, source, target, copies, made, id); }
        var copy := port.(id := id, owner := target, parent := Mapped(port.parent, copies));
        CopyNext(before, first, i, source, target, copies, made, table.rows, id, copies[port.id := id], copy, table.rows + [copy], i + 1);
        copies, made, i := copies[port.id := id], made + [copy], i + 1;
        table.rows, table.next := table.rows + [copy], id + 1;
      } else {
        SkipNext(before, first, i, source, target, copies, made, table.rows, id, i + 1);
        i := i + 1;
      }
    }
    assert before[..i] == before;
    CopiesAreKept(before, first, source, target, copies, made, table.next);
    CopiesFork(before, first, source, target, copies, made, table.next);
  }
}
