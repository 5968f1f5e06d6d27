/** An agent's states materialized from snapshots and patches (facade/logic.py, get_latest_state). */
module StateLog {
  import opened Collections
  import opened Json
  import opened JsonPatch

  datatype Patch = Patch(id: nat, rev: nat, operation: Operation)

  datatype Snapshot = Snapshot(id: nat, rev: nat, value: Json)

  /** One state of an agent in one session; `patches` in the order of (global_rev, id). */
  datatype State = State(interface: string, snapshots: seq<Snapshot>, patches: seq<Patch>)

  predicate InOrder(patches: seq<Patch>) {
    forall i, j | 0 <= i < j < |patches| :: patches[i].rev <= patches[j].rev
  }

  // ---------------------------------------------------------------- replaying

  /** A patch that does not apply is skipped. */
  function Step(v: Json, p: Patch): Json {
    var applied := Apply(v, p.operation);
    if applied.Some? then applied.value else v
  }

  function Replay(v: Json, patches: seq<Patch>): Json
    decreases |patches|
  {
    if patches == [] then v else Step(Replay(v, patches[..|patches| - 1]), patches[|patches| - 1])
  }

  /** The revision of the last patch that applied, `rev` if none did. */
  function LastApplied(v: Json, rev: nat, patches: seq<Patch>): nat
    decreases |patches|
  {
    if patches == [] then rev
    else
      var n := |patches| - 1;
      if Apply(Replay(v, patches[..n]), patches[n].operation).Some? then patches[n].rev else LastApplied(v, rev, patches[..n])
  }

  /** `global_rev > after` and, with a target, `global_rev <= target`. */
  predicate InRange(rev: nat, after: int, target: Option<nat>) {
    rev > after && (target.Some? ==> rev <= target.value)
  }

  function Between(patches: seq<Patch>, after: int, target: Option<nat>): seq<Patch>
    decreases |patches|
  {
    if patches == [] then []
    else
      var n := |patches| - 1;
      Between(patches[..n], after, target) + if InRange(patches[n].rev, after, target) then [patches[n]] else []
  }

  lemma InitOfJoin(a: seq<Patch>, b: seq<Patch>)
    requires b != []
    ensures (a + b)[..|a| + |b| - 1] == a + b[..|b| - 1] && (a + b)[|a| + |b| - 1] == b[|b| - 1]
  {}

  lemma {:induction false} ReplayJoin(v: Json, a: seq<Patch>, b: seq<Patch>)
    ensures Replay(v, a + b) == Replay(Replay(v, a), b)
    decreases |b|
  {
    if b == [] {
      assert a + b == a;
    } else {
      InitOfJoin(a, b);
      ReplayJoin(v, a, b[..|b| - 1]);
    }
  }

  lemma {:induction false} LastAppliedJoin(v: Json, rev: nat, a: seq<Patch>, b: seq<Patch>)
    ensures LastApplied(v, rev, a + b) == LastApplied(Replay(v, a), LastApplied(v, rev, a), b)
    decreases |b|
  {
    if b == [] {
      assert a + b == a;
    } else {
      InitOfJoin(a, b);
      LastAppliedJoin(v, rev, a, b[..|b| - 1]);
      ReplayJoin(v, a, b[..|b| - 1]);
    }
  }

  lemma {:induction false} BetweenIn(patches: seq<Patch>, after: int, target: Option<nat>)
    ensures forall p :: p in Between(patches, after, target) ==> p in patches && InRange(p.rev, after, target)
    decreases |patches|
  {
    if patches != [] { BetweenIn(patches[..|patches| - 1], after, target); }
  }

  lemma {:induction false} NoneBetween(patches: seq<Patch>, after: int, target: Option<nat>)
    requires forall i :: 0 <= i < |patches| ==> patches[i].rev <= after
    ensures Between(patches, after, target) == []
    decreases |patches|
  {
    if patches != [] { NoneBetween(patches[..|patches| - 1], after, target); }
  }

  /** A range splits at any revision in it: revision order makes the later patches follow the earlier. */
  lemma {:induction false} BetweenSplits(patches: seq<Patch>, after: int, middle: nat, target: Option<nat>)
    requires InOrder(patches) && after <= middle && (target.Some? ==> middle <= target.value)
    ensures Between(patches, after, target) == Between(patches, after, Some(middle)) + Between(patches, middle, target)
    decreases |patches|
  {
    if patches != [] {
      var n := |patches| - 1;
      BetweenSplits(patches[..n], after, middle, target);
      if patches[n].rev <= middle {
        NoneBetween(patches[..n], middle, target);
      }
    }
  }

  // ---------------------------------------------------------------- the anchor

  /** The snapshot holds what the session's patches up to it made of its first value. */
  ghost predicate Faithful(s: Snapshot, initial: Json, patches: seq<Patch>) {
    s.value == Replay(initial, Between(patches, -1, Some(s.rev)))
  }

  /** What is materialized at `target` from one anchor. */
  function FromAnchor(s: Snapshot, patches: seq<Patch>, target: Option<nat>): Json {
    Replay(s.value, Between(patches, s.rev, target))
  }

  /** The value at a revision does not depend on the snapshot it is materialized from. */
  lemma AnchorIrrelevant(s: Snapshot, initial: Json, patches: seq<Patch>, target: Option<nat>)
    requires InOrder(patches) && Faithful(s, initial, patches) && (target.Some? ==> s.rev <= target.value)
    ensures FromAnchor(s, patches, target) == Replay(initial, Between(patches, -1, target))
  {
    BetweenSplits(patches, -1, s.rev, target);
    ReplayJoin(initial, Between(patches, -1, Some(s.rev)), Between(patches, s.rev, target));
  }

  /** Checking out a revision and applying the patches after it is checking out the later one, from
      whichever anchors. */
  lemma CheckoutThenPatches(s: Snapshot, t: Snapshot, initial: Json, patches: seq<Patch>, r1: nat, r2: Option<nat>)
    requires InOrder(patches) && Faithful(s, initial, patches) && Faithful(t, initial, patches)
    requires s.rev <= r1 && (r2.Some? ==> r1 <= r2.value && t.rev <= r2.value)
    ensures Replay(FromAnchor(s, patches, Some(r1)), Between(patches, r1, r2)) == FromAnchor(t, patches, r2)
  {
    AnchorIrrelevant(s, initial, patches, Some(r1));
    AnchorIrrelevant(t, initial, patches, r2);
    BetweenSplits(patches, -1, r1, r2);
    ReplayJoin(initial, Between(patches, -1, Some(r1)), Between(patches, r1, r2));
  }

  /** The revision reported beside the value. */
  function Reported(s: Snapshot, patches: seq<Patch>, target: Option<nat>): nat {
    LastApplied(s.value, s.rev, Between(patches, s.rev, target))
  }

  /** The patches after `rev` leave it: none applies. */
  predicate NoneApplies(v: Json, patches: seq<Patch>)
    decreases |patches|
  {
    patches == [] ||
    (NoneApplies(v, patches[..|patches| - 1]) && Apply(v, patches[|patches| - 1].operation).None?)
  }

  lemma {:induction false} NoneAppliesReplay(v: Json, rev: nat, patches: seq<Patch>)
    ensures NoneApplies(v, patches) ==> Replay(v, patches) == v && LastApplied(v, rev, patches) == rev
    decreases |patches|
  {
    if patches != [] { NoneAppliesReplay(v, rev, patches[..|patches| - 1]); }
  }

  /** Some patch applies: then where the replay started does not show in the reported revision. */
  lemma {:induction false} SomeApplies(v: Json, rev: nat, rev': nat, patches: seq<Patch>)
    requires !NoneApplies(v, patches)
    ensures LastApplied(v, rev, patches) == LastApplied(v, rev', patches)
    decreases |patches|
  {
    var n := |patches| - 1;
    if !NoneApplies(v, patches[..n]) {
      SomeApplies(v, rev, rev', patches[..n]);
    } else {
      NoneAppliesReplay(v, rev, patches[..n]);
    }
  }

  lemma {:induction false} LastAppliedAtMost(v: Json, rev: nat, patches: seq<Patch>, bound: nat)
    requires rev <= bound && forall p :: p in patches ==> p.rev <= bound
    ensures LastApplied(v, rev, patches) <= bound
    decreases |patches|
  {
    if patches != [] { LastAppliedAtMost(v, rev, patches[..|patches| - 1], bound); }
  }

  /** Of patches of one later revision, this one is reported exactly when one of them applies. */
  lemma {:induction false} OneRevision(v: Json, rev: nat, patches: seq<Patch>, r: nat)
    requires rev < r && forall p :: p in patches ==> p.rev == r
    ensures LastApplied(v, rev, patches) == (if NoneApplies(v, patches) then rev else r)
    decreases |patches|
  {
    NoneAppliesReplay(v, rev, patches);
    if patches != [] {
      var n := |patches| - 1;
      NoneAppliesReplay(v, rev, patches[..n]);
      OneRevision(v, rev, patches[..n], r);
    }
  }

  /** Whether, from this snapshot on, a patch of revision `rev` applies. */
  predicate AppliesAt(s: Snapshot, patches: seq<Patch>, rev: nat)
    requires rev > 0
  {
    !NoneApplies(FromAnchor(s, patches, Some(rev - 1)), Between(patches, rev - 1, Some(rev)))
  }

  lemma ReachedIff(s: Snapshot, patches: seq<Patch>, rev: nat)
    requires InOrder(patches) && s.rev < rev
    ensures Reported(s, patches, Some(rev)) == rev <==> AppliesAt(s, patches, rev)
  {
    var before, at := Between(patches, s.rev, Some(rev - 1)), Between(patches, rev - 1, Some(rev));
    BetweenSplits(patches, s.rev, rev - 1, Some(rev));
    LastAppliedJoin(s.value, s.rev, before, at);
    BetweenIn(patches, s.rev, Some(rev - 1));
    BetweenIn(patches, rev - 1, Some(rev));
    LastAppliedAtMost(s.value, s.rev, before, rev - 1);
    OneRevision(Replay(s.value, before), LastApplied(s.value, s.rev, before), at, rev);
  }

  /** The reported revision, unlike the value, can depend on the anchor: two anchors agree exactly when
      they are of one revision, or a patch after the later one applies, or one of its revision does. */
  lemma ReportedAgreesIff(s: Snapshot, t: Snapshot, initial: Json, patches: seq<Patch>, target: Option<nat>)
    requires InOrder(patches) && Faithful(s, initial, patches) && Faithful(t, initial, patches)
    requires s.rev <= t.rev && (target.Some? ==> t.rev <= target.value)
    ensures Reported(s, patches, target) == Reported(t, patches, target) <==>
      || s.rev == t.rev
      || !NoneApplies(t.value, Between(patches, t.rev, target))
      || AppliesAt(s, patches, t.rev)
  {
    AnchorIrrelevant(s, initial, patches, Some(t.rev));
    EmptyRange(patches, t.rev);
    if s.rev < t.rev {
      ReportedSplits(s, t, patches, target);
      ReachedIff(s, patches, t.rev);
    }
  }

  lemma {:induction false} EmptyRange(patches: seq<Patch>, rev: nat)
    ensures Between(patches, rev, Some(rev)) == []
    decreases |patches|
  {
    if patches != [] { EmptyRange(patches[..|patches| - 1], rev); }
  }

  /** The later anchor's report is the earlier one's, unless nothing applies from the later on. */
  lemma ReportedSplits(s: Snapshot, t: Snapshot, patches: seq<Patch>, target: Option<nat>)
    requires InOrder(patches) && FromAnchor(s, patches, Some(t.rev)) == t.value
    requires s.rev <= t.rev && (target.Some? ==> t.rev <= target.value)
    ensures Reported(s, patches, target) == Reported(t, patches, target) <==>
      || !NoneApplies(t.value, Between(patches, t.rev, target))
      || Reported(s, patches, Some(t.rev)) == t.rev
  {
    var upto, after := Between(patches, s.rev, Some(t.rev)), Between(patches, t.rev, target);
    BetweenSplits(patches, s.rev, t.rev, target);
    LastAppliedJoin(s.value, s.rev, upto, after);
    if NoneApplies(t.value, after) {
      NoneAppliesReplay(t.value, t.rev, after);
      NoneAppliesReplay(t.value, LastApplied(s.value, s.rev, upto), after);
    } else {
      SomeApplies(t.value, t.rev, LastApplied(s.value, s.rev, upto), after);
    }
  }

  /** They do differ: one patch that does not apply, and a snapshot taken after it. */
  lemma ReportedCanDiffer() returns (s: Snapshot, t: Snapshot, patches: seq<Patch>)
    ensures InOrder(patches) && Faithful(s, Null, patches) && Faithful(t, Null, patches)
    ensures FromAnchor(s, patches, None) == FromAnchor(t, patches, None)
    ensures Reported(s, patches, None) != Reported(t, patches, None)
  {
    patches := [Patch(0, 1, Operation("remove", ["x"], Null))];
    s, t := Snapshot(0, 0, Null), Snapshot(1, 1, Null);
    assert patches[..0] == [];
    assert Between(patches, -1, Some(0)) == [] && Between(patches, -1, Some(1)) == patches;
    assert Between(patches, 0, None) == patches && Between(patches, 1, None) == [];
  }

  // ---------------------------------------------------------------- the method

  /** The snapshot at or before the target that `order_by("-global_rev", "-id")` puts first. */
  ghost predicate Newest(s: Snapshot, snapshots: seq<Snapshot>, target: Option<nat>) {
    && s in snapshots && (target.Some? ==> s.rev <= target.value)
    && forall t :: t in snapshots && (target.Some? ==> t.rev <= target.value) ==> t.rev < s.rev || (t.rev == s.rev && t.id <= s.id)
  }

  method Anchor(snapshots: seq<Snapshot>, target: Option<nat>) returns (s: Option<Snapshot>)
    ensures s.Some? ==> Newest(s.value, snapshots, target)
    ensures s.None? ==> forall t :: t in snapshots ==> target.Some? && t.rev > target.value
  {
    s := None;
    var i := 0;
    while i < |snapshots|
      invariant i <= |snapshots|
      invariant s.Some? ==> Newest(s.value, snapshots[..i], target)
      invariant s.None? ==> forall t :: t in snapshots[..i] ==> target.Some? && t.rev > target.value
    {
      var t := snapshots[i];
      if (target.Some? ==> t.rev <= target.value)
         && (s.None? || t.rev > s.value.rev || (t.rev == s.value.rev && t.id > s.value.id)) {
        s := Some(t);
      }
      assert snapshots[..i + 1] == snapshots[..i] + [t];
      i := i + 1;
    }
    assert snapshots[..i] == snapshots;
  }

  predicate HasNoAnchor(state: State, target: Option<nat>) {
    forall t | t in state.snapshots :: target.Some? && t.rev > target.value
  }

  /** A value and revision as they follow from the newest snapshot. */
  ghost predicate FromNewest(state: State, target: Option<nat>, value: Json, rev: nat) {
    exists s, vs :: Newest(s, state.snapshots, target) && Materialized(s, state.patches, target, vs, value, rev)
  }

  /** `vs` are the values as the patches are tried in turn: one that applies is applied, one that does not
      leaves the value. */
  ghost predicate Trace(vs: seq<Json>, start: Json, patches: seq<Patch>) {
    && |vs| == |patches| + 1 && vs[0] == start
    && forall i :: 0 <= i < |patches| ==> Tried(vs[i], patches[i], vs[i + 1])
  }

  predicate Tried(v: Json, p: Patch, w: Json) {
    match Apply(v, p.operation)
    case Some(applied) => w == applied
    case None => w == v
  }

  /** The patch is the last that applied. */
  ghost predicate AppliedLast(vs: seq<Json>, patches: seq<Patch>, i: int)
    requires |vs| == |patches| + 1
  {
    && 0 <= i < |patches| && Apply(vs[i], patches[i].operation).Some?
    && forall j :: i < j < |patches| ==> Apply(vs[j], patches[j].operation).None?
  }

  /** The revision is that of the last patch that applied, or `first` where none did. */
  ghost predicate Reports(vs: seq<Json>, first: nat, patches: seq<Patch>, rev: nat)
    requires |vs| == |patches| + 1
  {
    || (rev == first && forall j :: 0 <= j < |patches| ==> Apply(vs[j], patches[j].operation).None?)
    || exists i :: AppliedLast(vs, patches, i) && rev == patches[i].rev
  }

  /** The value and the revision after the patches in range, tried in turn on the snapshot's value. */
  ghost predicate Materialized(s: Snapshot, patches: seq<Patch>, target: Option<nat>, vs: seq<Json>, value: Json, rev: nat) {
    var inRange := Between(patches, s.rev, target);
    Trace(vs, s.value, inRange) && value == vs[|inRange|] && Reports(vs, s.rev, inRange, rev)
  }

  /** Which patches are in range: those after the snapshot's revision, up to the target's, in order. */
  lemma InRangeAre(patches: seq<Patch>, p: Patch, after: int, target: Option<nat>)
    ensures Between([], after, target) == []
    ensures Between(patches + [p], after, target) ==
      Between(patches, after, target) + if p.rev > after && (target.None? || p.rev <= target.value) then [p] else []
  {
    assert (patches + [p])[..|patches|] == patches;
  }

  lemma TraceInit(vs: seq<Json>, start: Json, patches: seq<Patch>)
    requires Trace(vs, start, patches) && patches != []
    ensures Trace(vs[..|vs| - 1], start, patches[..|patches| - 1])
  {
    var ws, qs := vs[..|vs| - 1], patches[..|patches| - 1];
    forall i | 0 <= i < |qs| ensures Tried(ws[i], qs[i], ws[i + 1]) {
      assert Tried(vs[i], patches[i], vs[i + 1]);
    }
  }

  /** A trace ends in the replay. */
  lemma {:induction false} TraceEnds(vs: seq<Json>, start: Json, patches: seq<Patch>)
    requires Trace(vs, start, patches)
    ensures vs[|patches|] == Replay(start, patches)
    decreases |patches|
  {
    if patches != [] {
      var n := |patches| - 1;
      TraceInit(vs, start, patches);
      TraceEnds(vs[..|vs| - 1], start, patches[..n]);
      assert Tried(vs[n], patches[n], vs[n + 1]);
    }
  }

  /** And reports the last patch that applied. */
  lemma {:induction false} TraceReports(vs: seq<Json>, start: Json, first: nat, patches: seq<Patch>, rev: nat)
    requires Trace(vs, start, patches) && Reports(vs, first, patches, rev)
    ensures rev == LastApplied(start, first, patches)
    decreases |patches|
  {
    if patches != [] {
      var n := |patches| - 1;
      var ws, qs := vs[..|vs| - 1], patches[..n];
      TraceInit(vs, start, patches);
      TraceEnds(ws, start, qs);
      assert vs[n] == Replay(start, qs);
      if Apply(vs[n], patches[n].operation).None? {
        ReportsInit(vs, first, patches, rev);
        TraceReports(ws, start, first, qs, rev);
      }
    }
  }

  lemma ReportsInit(vs: seq<Json>, first: nat, patches: seq<Patch>, rev: nat)
    requires patches != [] && |vs| == |patches| + 1 && Reports(vs, first, patches, rev)
    requires Apply(vs[|patches| - 1], patches[|patches| - 1].operation).None?
    ensures Reports(vs[..|vs| - 1], first, patches[..|patches| - 1], rev)
  {
    var ws, qs := vs[..|vs| - 1], patches[..|patches| - 1];
    if i :| AppliedLast(vs, patches, i) && rev == patches[i].rev {
      assert AppliedLast(ws, qs, i) && rev == qs[i].rev;
    }
  }

  /** The trace goes on with one more patch. */
  lemma TraceMore(vs: seq<Json>, start: Json, first: nat, patches: seq<Patch>, rev: nat, p: Patch, w: Json, rev': nat)
    requires Trace(vs, start, patches) && Reports(vs, first, patches, rev) && Tried(vs[|patches|], p, w)
    requires rev' == if Apply(vs[|patches|], p.operation).Some? then p.rev else rev
    ensures Trace(vs + [w], start, patches + [p]) && Reports(vs + [w], first, patches + [p], rev')
  {
    var ws, qs := vs + [w], patches + [p];
    forall i | 0 <= i < |qs| ensures Tried(ws[i], qs[i], ws[i + 1]) {
      if i < |patches| { assert Tried(vs[i], patches[i], vs[i + 1]); }
    }
    if Apply(vs[|patches|], p.operation).Some? {
      assert AppliedLast(ws, qs, |patches|);
    } else if i :| AppliedLast(vs, patches, i) && rev == patches[i].rev {
      assert AppliedLast(ws, qs, i);
    }
  }

  /** The operation, where it applies, leaves what is at the pointer. */
  predicate Leaves(v: Json, o: Operation, q: seq<string>) {
    Apply(v, o).None? || o.op == "test" || Elsewhere(v, o, q)
  }

  /** What an add or a replace in range wrote, not at an array's end, is found at its pointer in the
      materialized value when no later patch in range touches what is there. */
  lemma {:induction false} WrittenIsMaterialized(vs: seq<Json>, start: Json, patches: seq<Patch>, k: nat, j: nat)
    requires Trace(vs, start, patches) && k < j <= |patches|
    requires patches[k].operation.op in {"add", "replace"} && Apply(vs[k], patches[k].operation).Some?
    requires var path := patches[k].operation.path; path != [] ==> path[|path| - 1] != "-"
    requires forall i :: k < i < j ==> Leaves(vs[i], patches[i].operation, patches[k].operation.path)
    ensures Lookup(vs[j], patches[k].operation.path) == Some(patches[k].operation.value)
    decreases j
  {
    var o := patches[k].operation;
    if j == k + 1 {
      assert Tried(vs[k], patches[k], vs[j]);
      WrittenIsFound(vs[k], o.path, o);
    } else {
      WrittenIsMaterialized(vs, start, patches, k, j - 1);
      assert Tried(vs[j - 1], patches[j - 1], vs[j]);
      var later := patches[j - 1].operation;
      if Apply(vs[j - 1], later).Some? {
        if later.op == "test" {
          TestChangesNothing(vs[j - 1], later.path, later);
        } else {
          ElsewhereKept(vs[j - 1], later.path, later, o.path);
        }
      }
    }
  }

  /** One patch in range: its value where it applies, the snapshot's where it does not. */
  lemma OnePatchMaterialized(s: Snapshot, p: Patch, target: Option<nat>, vs: seq<Json>, value: Json, rev: nat)
    requires s.rev < p.rev && (target.Some? ==> p.rev <= target.value) && Materialized(s, [p], target, vs, value, rev)
    ensures match Apply(s.value, p.operation)
            case Some(applied) => value == applied && rev == p.rev
            case None => value == s.value && rev == s.rev
  {
    InRangeAre([], p, s.rev, target);
    assert [] + [p] == [p];
    assert Between([p], s.rev, target) == [p];
    assert Tried(vs[0], [p][0], vs[1]);
  }

  /** One patch further: out of range it is passed over, in range it is tried. */
  lemma OneTried(s: Snapshot, patches: seq<Patch>, i: nat, target: Option<nat>, vs: seq<Json>, value: Json, rev: nat,
                 vs': seq<Json>, value': Json, rev': nat)
    requires i < |patches| && Materialized(s, patches[..i], target, vs, value, rev)
    requires if InRange(patches[i].rev, s.rev, target)
             then Tried(value, patches[i], value') && vs' == vs + [value']
               && rev' == (if Apply(value, patches[i].operation).Some? then patches[i].rev else rev)
             else vs' == vs && value' == value && rev' == rev
    ensures Materialized(s, patches[..i + 1], target, vs', value', rev')
  {
    InRangeAre(patches[..i], patches[i], s.rev, target);
    assert patches[..i + 1] == patches[..i] + [patches[i]];
    var before, after := Between(patches[..i], s.rev, target), Between(patches[..i + 1], s.rev, target);
    if InRange(patches[i].rev, s.rev, target) {
      assert after == before + [patches[i]];
      TraceMore(vs, s.value, s.rev, before, rev, patches[i], value', rev');
    } else {
      assert after == before;
    }
  }

  /** One state's value and revision at the target; None where it has no snapshot to start from. */
  method Materialize(state: State, target: Option<nat>) returns (r: Option<(Json, nat)>)
    ensures r.None? <==> HasNoAnchor(state, target)
    ensures r.Some? ==> FromNewest(state, target, r.value.0, r.value.1)
  {
    var anchor := Anchor(state.snapshots, target);
    if anchor.None? {
      return None;
    }
    var s := anchor.value;
    var value, rev := s.value, s.rev;
    ghost var vs := [s.value];
    var i := 0;
    while i < |state.patches|
      invariant i <= |state.patches| && Materialized(s, state.patches[..i], target, vs, value, rev)
    {
      var patch := state.patches[i];
      ghost var vs0, value0, rev0 := vs, value, rev;
      if InRange(patch.rev, s.rev, target) {
        var applied := Apply(value, patch.operation);
        if applied.Some? {
          value := applied.value;
          rev := patch.rev;
        }
        vs := vs + [value];
      }
      OneTried(s, state.patches, i, target, vs0, value0, rev0, vs, value, rev);
      i := i + 1;
    }
    assert state.patches[..i] == state.patches;
    r := Some((value, rev));
  }

  /** From faithful snapshots the value is the replay of all patches up to the target. */
  lemma NewestIsReplay(state: State, target: Option<nat>, initial: Json, value: Json, rev: nat)
    requires FromNewest(state, target, value, rev) && InOrder(state.patches)
    requires forall s :: s in state.snapshots ==> Faithful(s, initial, state.patches)
    ensures value == Replay(initial, Between(state.patches, -1, target)) && (target.Some? ==> rev <= target.value)
  {
    var s, vs :| Newest(s, state.snapshots, target) && Materialized(s, state.patches, target, vs, value, rev);
    TraceEnds(vs, s.value, Between(state.patches, s.rev, target));
    TraceReports(vs, s.value, s.rev, Between(state.patches, s.rev, target), rev);
    AnchorIrrelevant(s, initial, state.patches, target);
    ReportedInRange(s, state.patches, target);
  }

  predicate DistinctInterfaces(states: seq<State>) {
    forall i, j | 0 <= i < j < |states| :: states[i].interface != states[j].interface
  }

  /** Every state's snapshots are faithful to its patches. */
  ghost predicate AllFaithful(states: seq<State>, initial: map<string, Json>) {
    forall state :: state in states ==>
      && state.interface in initial && InOrder(state.patches)
      && forall s :: s in state.snapshots ==> Faithful(s, initial[state.interface], state.patches)
  }

  /** The values are those of the states at the target revision. */
  ghost predicate ValuesAt(values: map<string, Json>, states: seq<State>, initial: map<string, Json>, target: Option<nat>) {
    && (forall k :: k in values ==> exists state :: state in states && state.interface == k)
    && forall state :: state in states ==> ValueAt(values, state, initial, target)
  }

  ghost predicate ValueAt(values: map<string, Json>, state: State, initial: map<string, Json>, target: Option<nat>) {
    && state.interface in values && state.interface in initial
    && values[state.interface] == Replay(initial[state.interface], Between(state.patches, -1, target))
  }

  /** The highest of them, 0 of none. */
  predicate IsHighest(revision: nat, revs: seq<nat>) {
    && (forall i | 0 <= i < |revs| :: revs[i] <= revision)
    && (if revs == [] then revision == 0 else revision in revs)
  }

  /** The values are the states', each from its newest snapshot, and `revs` their revisions. */
  ghost predicate Collected(states: seq<State>, target: Option<nat>, values: map<string, Json>, revs: seq<nat>) {
    && |revs| == |states|
    && (forall k :: k in values ==> exists i :: 0 <= i < |states| && states[i].interface == k)
    && forall i :: 0 <= i < |states| ==> CollectedAt(states[i], target, values, revs[i])
  }

  ghost predicate CollectedAt(state: State, target: Option<nat>, values: map<string, Json>, rev: nat) {
    state.interface in values && FromNewest(state, target, values[state.interface], rev)
  }

  lemma CollectOne(states: seq<State>, target: Option<nat>, values: map<string, Json>, revs: seq<nat>, state: State, value: Json, rev: nat)
    requires Collected(states, target, values, revs) && FromNewest(state, target, value, rev)
    requires forall i :: 0 <= i < |states| ==> states[i].interface != state.interface
    ensures Collected(states + [state], target, values[state.interface := value], revs + [rev])
  {
    var states', values', revs' := states + [state], values[state.interface := value], revs + [rev];
    forall k | k in values' ensures exists i :: 0 <= i < |states'| && states'[i].interface == k {
      InterfaceListed(states, state, k, k in values);
    }
    forall i | 0 <= i < |states'| ensures CollectedAt(states'[i], target, values', revs'[i]) {
      if i < |states| { assert CollectedAt(states[i], target, values, revs[i]); }
    }
  }

  lemma InterfaceListed(states: seq<State>, state: State, k: string, listed: bool)
    requires if listed then exists i :: 0 <= i < |states| && states[i].interface == k else k == state.interface
    ensures exists i :: 0 <= i < |states + [state]| && (states + [state])[i].interface == k
  {
    if listed {
      var i :| 0 <= i < |states| && states[i].interface == k;
      assert (states + [state])[i] == states[i];
    } else {
      assert (states + [state])[|states|] == state;
    }
  }

  /** What the first `i` states gave. */
  ghost predicate SoFar(states: seq<State>, i: nat, target: Option<nat>, values: map<string, Json>, revision: nat, revs: seq<nat>)
    requires i <= |states|
  {
    && Collected(states[..i], target, values, revs) && IsHighest(revision, revs)
    && forall state :: state in states[..i] ==> !HasNoAnchor(state, target)
  }

  lemma OneFurther(states: seq<State>, i: nat, target: Option<nat>, values: map<string, Json>, revision: nat, revs: seq<nat>, value: Json, rev: nat)
    requires i < |states| && DistinctInterfaces(states) && SoFar(states, i, target, values, revision, revs)
    requires FromNewest(states[i], target, value, rev) && !HasNoAnchor(states[i], target)
    ensures SoFar(states, i + 1, target, values[states[i].interface := value], if rev > revision then rev else revision, revs + [rev])
  {
    assert states[..i + 1] == states[..i] + [states[i]];
    CollectNext(states[..i], target, values, revs, states[i], value, rev, states[..i + 1]);
    HighestMore(revision, revs, rev);
  }

  lemma CollectNext(before: seq<State>, target: Option<nat>, values: map<string, Json>, revs: seq<nat>, state: State, value: Json, rev: nat,
                    after: seq<State>)
    requires Collected(before, target, values, revs) && FromNewest(state, target, value, rev) && after == before + [state]
    requires DistinctInterfaces(after)
    ensures Collected(after, target, values[state.interface := value], revs + [rev])
  {
    assert after[|before|] == state;
    forall i | 0 <= i < |before| ensures before[i].interface != state.interface {
      assert after[i] == before[i];
    }
    CollectOne(before, target, values, revs, state, value, rev);
  }

  function WithRevision(revs: seq<nat>, rev: nat): seq<nat> {
    revs + [rev]
  }

  lemma HighestMore(revision: nat, revs: seq<nat>, rev: nat)
    requires IsHighest(revision, revs)
    ensures IsHighest(if rev > revision then rev else revision, revs + [rev])
  {
    assert (revs + [rev])[|revs|] == rev;
    if revs != [] {
      var i :| 0 <= i < |revs| && revs[i] == revision;
      assert (revs + [rev])[i] == revision;
    }
  }

  /** get_latest_state: every state's value at the target revision and the highest of their revisions;
      None where some state has no snapshot at or before it. */
  method GetLatestState(states: seq<State>, target: Option<nat>) returns (r: Option<map<string, Json>>, revision: nat, ghost revs: seq<nat>)
    requires DistinctInterfaces(states)
    ensures r.None? <==> exists state :: state in states && HasNoAnchor(state, target)
    ensures r.Some? ==> Collected(states, target, r.value, revs) && IsHighest(revision, revs)
  {
    var values: map<string, Json> := map[];
    revision, revs := 0, [];
    var i := 0;
    while i < |states|
      invariant i <= |states| && SoFar(states, i, target, values, revision, revs)
    {
      var found := Materialize(states[i], target);
      if found.None? {
        assert states[i] in states;
        return None, 0, [];
      }
      var rev: nat := found.value.1;
      OneFurther(states, i, target, values, revision, revs, found.value.0, rev);
      values, revs := values[states[i].interface := found.value.0], WithRevision(revs, rev);
      if rev > revision {
        revision := rev;
      }
      i := i + 1;
    }
    assert states[..i] == states;
    r := Some(values);
  }

  /** From faithful snapshots, what is collected is each state's first value with all its patches up to
      the target replayed; no revision is past the target. */
  lemma LatestIsReplay(states: seq<State>, target: Option<nat>, values: map<string, Json>, revision: nat, revs: seq<nat>, initial: map<string, Json>)
    requires Collected(states, target, values, revs) && IsHighest(revision, revs) && AllFaithful(states, initial)
    ensures ValuesAt(values, states, initial, target) && (target.Some? ==> revision <= target.value)
  {
    forall i | 0 <= i < |states| ensures ValueAt(values, states[i], initial, target) && (target.Some? ==> revs[i] <= target.value) {
      assert states[i] in states && CollectedAt(states[i], target, values, revs[i]);
      NewestIsReplay(states[i], target, initial[states[i].interface], values[states[i].interface], revs[i]);
    }
    forall k | k in values ensures exists state :: state in states && state.interface == k {
      var i :| 0 <= i < |states| && states[i].interface == k;
      assert states[i] in states;
    }
  }

  lemma {:induction false} LastAppliedIn(v: Json, rev: nat, patches: seq<Patch>)
    ensures LastApplied(v, rev, patches) == rev || exists p :: p in patches && p.rev == LastApplied(v, rev, patches)
    decreases |patches|
  {
    if patches != [] { LastAppliedIn(v, rev, patches[..|patches| - 1]); }
  }

  lemma ReportedInRange(s: Snapshot, patches: seq<Patch>, target: Option<nat>)
    requires target.Some? ==> s.rev <= target.value
    ensures Reported(s, patches, target) >= s.rev && (target.Some? ==> Reported(s, patches, target) <= target.value)
  {
    LastAppliedIn(s.value, s.rev, Between(patches, s.rev, target));
    BetweenIn(patches, s.rev, target);
  }
}
