/** Wiregrams: declarative documents of schedules and triggers, and the rules they own
    (facade/wiregrams.py). */
module Wiregrams {
  import opened Collections
  import opened Keys
  import opened Json

  // ---------------------------------------------------------------- documents

  /** What a rule runs, as a document names it: an agent's name and one of its interfaces. */
  datatype Named = Named(agent: string, interface: string)

  datatype WireSchedule = WireSchedule(
    key: string, name: string, description: Option<string>, target: Named, args: map<string, Json>, enabled: bool,
    interval: Option<int>, cron: Option<string>, timezone: string, ephemeralRuns: bool, overlap: string, catchUp: bool,
    policy: string, endsAt: Option<int>, maxRuns: Option<int>)

  datatype WireTrigger = WireTrigger(
    key: string, name: string, description: Option<string>, target: Named, args: map<string, Json>, enabled: bool,
    kind: string, identifier: string, port: string, conditions: seq<Json>, debounce: Option<int>,
    policy: string, endsAt: Option<int>, maxRuns: Option<int>)

  datatype Document = Document(
    key: string, name: string, description: Option<string>, schedules: seq<WireSchedule>, triggers: seq<WireTrigger>)

  /** The document's own validator: no key twice. */
  predicate UniqueKeys(d: Document) {
    && (forall i, j | 0 <= i < j < |d.schedules| :: d.schedules[i].key != d.schedules[j].key)
    && (forall i, j | 0 <= i < j < |d.triggers| :: d.triggers[i].key != d.triggers[j].key)
  }

  // ---------------------------------------------------------------- rows

  datatype Target = Target(agent: nat, action: nat, interface: string)

  datatype ScheduleFields = ScheduleFields(
    name: string, description: Option<string>, target: Target, args: map<string, Json>,
    interval: Option<int>, cron: Option<string>, timezone: string, ephemeralRuns: bool, overlap: string, catchUp: bool,
    policy: string, endsAt: Option<int>, maxRuns: Option<int>)

  datatype TriggerFields = TriggerFields(
    name: string, description: Option<string>, target: Target, args: map<string, Json>,
    kind: string, identifier: string, port: string, conditions: seq<Json>, compiled: Option<string>, debounce: Option<int>,
    policy: string, endsAt: Option<int>, maxRuns: Option<int>)

  /** A rule's row; `enabled` is the organization's own switch and `bookkeeping` the runner's. */
  datatype Rule<F> = Rule(id: nat, caller: nat, enabled: bool, bookkeeping: int, fields: F)

  /** Where a rule belongs: to a wiregram, under a key of its document, or to none. */
  datatype Place = Of(wiregram: nat, key: string) | Alone(id: nat)

  type Table<F> = map<Place, Rule<F>>

  /** An implementation in the importing organization. */
  datatype Offer = Offer(name: Named, target: Target)

  /** The implementations, and the validators a single rule is checked by. */
  datatype World = World(offers: seq<Offer>, scheduleValid: ScheduleFields -> bool, compileTrigger: TriggerFields -> Option<TriggerFields>)

  // ---------------------------------------------------------------- checking

  function Found(offers: seq<Offer>, named: Named): seq<Target> {
    if offers == [] then []
    else
      var n := |offers| - 1;
      Found(offers[..n], named) + if offers[n].name == named then [offers[n].target] else []
  }

  /** _target: the one implementation of that name; none and several are both refused. */
  function TargetOf(offers: seq<Offer>, named: Named): Option<Target> {
    if |Found(offers, named)| == 1 then Some(Found(offers, named)[0]) else None
  }

  /** The implementation at `i` is the only one of the name. */
  ghost predicate OnlyOffer(offers: seq<Offer>, named: Named, i: int) {
    0 <= i < |offers| && offers[i].name == named && forall j :: 0 <= j < |offers| && j != i ==> offers[j].name != named
  }

  lemma {:induction false} NoneFound(offers: seq<Offer>, named: Named)
    ensures Found(offers, named) == [] <==> forall i :: 0 <= i < |offers| ==> offers[i].name != named
    decreases |offers|
  {
    if offers != [] {
      var n := |offers| - 1;
      NoneFound(offers[..n], named);
      assert forall j :: 0 <= j < n ==> offers[..n][j] == offers[j];
    }
  }

  lemma {:induction false} OneFound(offers: seq<Offer>, named: Named) returns (i: nat)
    requires |Found(offers, named)| == 1
    ensures OnlyOffer(offers, named, i) && Found(offers, named) == [offers[i].target]
    decreases |offers|
  {
    var n := |offers| - 1;
    assert forall j :: 0 <= j < n ==> offers[..n][j] == offers[j];
    if offers[n].name == named {
      NoneFound(offers[..n], named);
      i := n;
    } else {
      i := OneFound(offers[..n], named);
    }
  }

  lemma {:induction false} OnlyIsFound(offers: seq<Offer>, named: Named, i: nat)
    requires OnlyOffer(offers, named, i)
    ensures Found(offers, named) == [offers[i].target]
    decreases |offers|
  {
    var n := |offers| - 1;
    assert forall j :: 0 <= j < n ==> offers[..n][j] == offers[j];
    if i < n { OnlyIsFound(offers[..n], named, i); } else { NoneFound(offers[..n], named); }
  }

  /** A name finds a target exactly when one implementation has it and no other does. */
  lemma TargetIff(offers: seq<Offer>, named: Named, t: Target)
    ensures TargetOf(offers, named) == Some(t) <==> exists i :: OnlyOffer(offers, named, i) && offers[i].target == t
  {
    if |Found(offers, named)| == 1 { var i := OneFound(offers, named); }
    if i :| OnlyOffer(offers, named, i) && offers[i].target == t { OnlyIsFound(offers, named, i); }
  }

  function ScheduleOf(s: WireSchedule, target: Target): ScheduleFields {
    ScheduleFields(s.name, s.description, target, s.args, s.interval, s.cron, s.timezone, s.ephemeralRuns, s.overlap, s.catchUp,
                   s.policy, s.endsAt, s.maxRuns)
  }

  function TriggerOf(t: WireTrigger, target: Target): TriggerFields {
    TriggerFields(t.name, t.description, target, t.args, t.kind, t.identifier, t.port, t.conditions, None, t.debounce,
                  t.policy, t.endsAt, t.maxRuns)
  }

  function CheckedSchedule(w: World, s: WireSchedule): Option<ScheduleFields> {
    var target := TargetOf(w.offers, s.target);
    if target.Some? && w.scheduleValid(ScheduleOf(s, target.value)) then Some(ScheduleOf(s, target.value)) else None
  }

  function CheckedTrigger(w: World, t: WireTrigger): Option<TriggerFields> {
    var target := TargetOf(w.offers, t.target);
    if target.Some? then w.compileTrigger(TriggerOf(t, target.value)) else None
  }

  predicate Importable(w: World, d: Document) {
    && (forall s | s in d.schedules :: CheckedSchedule(w, s).Some?)
    && (forall t | t in d.triggers :: CheckedTrigger(w, t).Some?)
  }

  /** A rule as wanted: its row's fields, and its switch should it be created. */
  datatype Wanted<F> = Wanted(fields: F, enabled: bool)

  function WantedSchedules(w: World, ss: seq<WireSchedule>): map<string, Wanted<ScheduleFields>>
    requires forall s :: s in ss ==> CheckedSchedule(w, s).Some?
  {
    if ss == [] then map[]
    else
      var s := ss[|ss| - 1];
      WantedSchedules(w, ss[..|ss| - 1])[s.key := Wanted(CheckedSchedule(w, s).value, s.enabled)]
  }

  function WantedTriggers(w: World, ts: seq<WireTrigger>): map<string, Wanted<TriggerFields>>
    requires forall t :: t in ts ==> CheckedTrigger(w, t).Some?
  {
    if ts == [] then map[]
    else
      var t := ts[|ts| - 1];
      WantedTriggers(w, ts[..|ts| - 1])[t.key := Wanted(CheckedTrigger(w, t).value, t.enabled)]
  }

  // ---------------------------------------------------------------- bringing in line

  /** The wiregram's rules are exactly the wanted ones: one that was there keeps its row, its switch and
      its bookkeeping; every other rule is untouched. */
  ghost predicate InLine<F>(before: Table<F>, after: Table<F>, wiregram: nat, wanted: map<string, Wanted<F>>, caller: nat, first: nat, next: nat) {
    && first <= next
    && (forall p: Place :: !(p.Of? && p.wiregram == wiregram) ==> At(after, p) == At(before, p))
    && (forall key: string :: Of(wiregram, key) in after <==> key in wanted)
    && forall key: string :: key in wanted ==> RuleInLine(before, after, wiregram, key, wanted[key], caller, first, next)
  }

  ghost predicate RuleInLine<F>(before: Table<F>, after: Table<F>, wiregram: nat, key: string, wanted: Wanted<F>, caller: nat, first: nat, next: nat) {
    && Of(wiregram, key) in after
    && var rule := after[Of(wiregram, key)];
       if Of(wiregram, key) in before then rule == before[Of(wiregram, key)].(fields := wanted.fields)
       else first <= rule.id < next && rule == Rule(rule.id, caller, wanted.enabled, 0, wanted.fields)
  }

  /** _ScheduleFields.retimes: what the waiting run was planned for changes. Its name, description,
      overlap and catching up are not part of the plan. */
  predicate Retimes(new_: ScheduleFields, was: ScheduleFields) {
    || new_.target != was.target || new_.args != was.args || new_.interval != was.interval || new_.cron != was.cron
    || new_.timezone != was.timezone || new_.ephemeralRuns != was.ephemeralRuns || new_.policy != was.policy
    || new_.endsAt != was.endsAt || new_.maxRuns != was.maxRuns
  }

  /** A schedule keeps its planned run exactly when it differs in nothing but these. */
  lemma RetimesIff(new_: ScheduleFields, was: ScheduleFields)
    ensures !Retimes(new_, was) <==>
      new_ == was.(name := new_.name, description := new_.description, overlap := new_.overlap, catchUp := new_.catchUp)
  {}

  // ---------------------------------------------------------------- notices

  datatype Notice = DropRun(run: nat) | Plan(schedule: nat, replan: bool)

  predicate Lists(order: seq<string>, keys: set<string>) {
    && (forall k | k in order :: k in keys) && (forall k | k in keys :: k in order)
    && forall i, j | 0 <= i < j < |order| :: order[i] != order[j]
  }

  /** drop_waiting_run for each key: the run is named where one waits. */
  function Drops(order: seq<string>, before: Table<ScheduleFields>, wiregram: nat, waiting: map<nat, nat>): seq<Notice>
    requires forall k :: k in order ==> Of(wiregram, k) in before
  {
    if order == [] then []
    else
      var n := |order| - 1;
      Drops(order[..n], before, wiregram, waiting)
      + if before[Of(wiregram, order[n])].id in waiting then [DropRun(waiting[before[Of(wiregram, order[n])].id])] else []
  }

  /** The runs named are those that wait for one of the listed schedules. */
  lemma {:induction false} DropsAre(order: seq<string>, before: Table<ScheduleFields>, wiregram: nat, waiting: map<nat, nat>, notice: Notice)
    requires forall k :: k in order ==> Of(wiregram, k) in before
    ensures notice in Drops(order, before, wiregram, waiting) <==>
      notice.DropRun? && exists k :: k in order && At(waiting, before[Of(wiregram, k)].id) == Some(notice.run)
    decreases |order|
  {
    if order != [] {
      var n := |order| - 1;
      DropsAre(order[..n], before, wiregram, waiting, notice);
      assert order == order[..n] + [order[n]];
      assert order[n] in order;
    }
  }

  /** Whether the schedule of a key was there and its planned terms change. */
  predicate Replanned(before: Table<ScheduleFields>, wiregram: nat, wanted: map<string, Wanted<ScheduleFields>>, key: string) {
    Of(wiregram, key) in before && key in wanted && Retimes(wanted[key].fields, before[Of(wiregram, key)].fields)
  }

  function Plans(order: seq<string>, before: Table<ScheduleFields>, after: Table<ScheduleFields>, wiregram: nat,
                 wanted: map<string, Wanted<ScheduleFields>>): seq<Notice>
    requires forall k :: k in order ==> Of(wiregram, k) in after
  {
    seq(|order|, i requires 0 <= i < |order| => Plan(after[Of(wiregram, order[i])].id, Replanned(before, wiregram, wanted, order[i])))
  }

  /** A schedule is told to be planned, and anew only when it was there before on other terms. */
  lemma PlansAre(order: seq<string>, before: Table<ScheduleFields>, after: Table<ScheduleFields>, wiregram: nat,
                 wanted: map<string, Wanted<ScheduleFields>>, i: nat)
    requires (forall k :: k in order ==> Of(wiregram, k) in after && k in wanted) && i < |order|
    ensures var place := Of(wiregram, order[i]);
      |Plans(order, before, after, wiregram, wanted)| == |order| &&
      match Plans(order, before, after, wiregram, wanted)[i]
      case Plan(schedule, replan) => schedule == after[place].id && (replan <==> place in before && Retimes(wanted[order[i]].fields, before[place].fields))
      case DropRun(_) => false
  {}

  function OwnedKeys<F>(t: Table<F>, wiregram: nat): set<string> {
    set p | p in t && p.Of? && p.wiregram == wiregram :: p.key
  }

  datatype WireKey = WireKey(organization: nat, key: string)

  datatype Wiregram = Wiregram(id: nat, caller: nat, document: Document)

  // ---------------------------------------------------------------- imports

  datatype State = State(
    schedules: Table<ScheduleFields>, triggers: Table<TriggerFields>, wiregrams: map<WireKey, Wiregram>, notices: seq<Notice>, next: nat)

  /** Rules belong to wiregrams whose ids are used. */
  ghost predicate Placed(s: State) {
    && (forall p :: p in s.schedules && p.Of? ==> p.wiregram < s.next)
    && (forall p :: p in s.triggers && p.Of? ==> p.wiregram < s.next)
    && (forall k :: k in s.wiregrams ==> s.wiregrams[k].id < s.next)
  }

  /** What a successful import leaves: the wiregram's rules are the document's, every other rule is as it
      was, and the runner hears first of the waiting runs of schedules that go, then once of every
      schedule, to be planned anew exactly when its planned terms changed. */
  ghost predicate Imported(w: World, d: Document, organization: nat, caller: nat, a: State, b: State, gone: seq<string>, planned: seq<string>, waiting: map<nat, nat>) {
    && Importable(w, d) && a.next <= b.next && WiregramStored(d, organization, caller, a, b)
    && RulesStored(w, d, caller, a, b, b.wiregrams[WireKey(organization, d.key)].id, gone, planned, waiting)
  }

  ghost predicate WiregramStored(d: Document, organization: nat, caller: nat, a: State, b: State) {
    var key := WireKey(organization, d.key);
    && key in b.wiregrams && b.wiregrams == a.wiregrams[key := Wiregram(b.wiregrams[key].id, caller, d)]
    && if key in a.wiregrams then b.wiregrams[key].id == a.wiregrams[key].id else a.next <= b.wiregrams[key].id < b.next
  }

  ghost predicate RulesStored(w: World, d: Document, caller: nat, a: State, b: State, wiregram: nat, gone: seq<string>, planned: seq<string>, waiting: map<nat, nat>)
    requires Importable(w, d)
  {
    var wanted := WantedSchedules(w, d.schedules);
    && InLine(a.schedules, b.schedules, wiregram, wanted, caller, a.next, b.next)
    && InLine(a.triggers, b.triggers, wiregram, WantedTriggers(w, d.triggers), caller, a.next, b.next)
    && Lists(gone, OwnedKeys(a.schedules, wiregram) - wanted.Keys) && Lists(planned, wanted.Keys)
    && (forall k :: k in gone ==> Of(wiregram, k) in a.schedules) && (forall k :: k in planned ==> Of(wiregram, k) in b.schedules)
    && b.notices == a.notices + Drops(gone, a.schedules, wiregram, waiting) + Plans(planned, a.schedules, b.schedules, wiregram, wanted)
  }

  // ---------------------------------------------------------------- the tables

  class Rules {
    var schedules: Table<ScheduleFields>
    var triggers: Table<TriggerFields>
    var wiregrams: map<WireKey, Wiregram>
    var notices: seq<Notice>
    var next: nat

    constructor ()
    {
      schedules, triggers, wiregrams, notices, next := map[], map[], map[], [], 0;
    }

    /** _bring_in_line: delete what is not wanted, then update or create by key. */
    method BringInLine<F>(table: Table<F>, wiregram: nat, wanted: map<string, Wanted<F>>, caller: nat) returns (after: Table<F>)
      modifies this`next
      ensures InLine(table, after, wiregram, wanted, caller, old(next), next)
    {
      after := map p | p in table && !(p.Of? && p.wiregram == wiregram && p.key !in wanted) :: table[p];
      var done: set<string> := {};
      while done != wanted.Keys
        invariant done <= wanted.Keys && next >= old(next)
        invariant forall p: Place :: !(p.Of? && p.wiregram == wiregram) ==> At(after, p) == At(table, p)
        invariant forall key: string :: key in done ==> RuleInLine(table, after, wiregram, key, wanted[key], caller, old(next), next)
        invariant forall key: string :: key !in done ==>
          At(after, Of(wiregram, key)) == if key in wanted then At(table, Of(wiregram, key)) else None
        decreases wanted.Keys - done
      {
        var key :| key in wanted && key !in done;
        var p := Of(wiregram, key);
        ghost var after0, next0 := after, next;
        if p in after {
          after := after[p := after[p].(fields := wanted[key].fields)];
        } else {
          after := after[p := Rule(next, caller, wanted[key].enabled, 0, wanted[key].fields)];
          next := next + 1;
        }
        forall k: string | k in done ensures RuleInLine(table, after, wiregram, k, wanted[k], caller, old(next), next) {
          assert RuleInLine(table, after0, wiregram, k, wanted[k], caller, old(next), next0);
        }
        done := done + {key};
      }
    }

    function Now(): State
      reads this
    {
      State(schedules, triggers, wiregrams, notices, next)
    }

    /** One notice for each waiting run of the listed schedules. */
    method DropWaitingRuns(keys: set<string>, wiregram: nat, waiting: map<nat, nat>) returns (ghost order: seq<string>)
      requires forall k :: k in keys ==> Of(wiregram, k) in schedules
      modifies this`notices
      ensures Lists(order, keys) && notices == old(notices) + Drops(order, schedules, wiregram, waiting)
    {
      order := [];
      var left := keys;
      while left != {}
        invariant left <= keys && Lists(order, keys - left)
        invariant notices == old(notices) + Drops(order, schedules, wiregram, waiting)
        decreases left
      {
        var k :| k in left;
        var id := schedules[Of(wiregram, k)].id;
        if id in waiting {
          notices := notices + [DropRun(waiting[id])];
        }
        assert (order + [k])[..|order|] == order;
        order := order + [k];
        left := left - {k};
      }
    }

    /** One plan notice for each of the wiregram's schedules. */
    method PlanAll(before: Table<ScheduleFields>, wiregram: nat, wanted: map<string, Wanted<ScheduleFields>>) returns (ghost order: seq<string>)
      requires forall k :: k in wanted ==> Of(wiregram, k) in schedules
      modifies this`notices
      ensures Lists(order, wanted.Keys) && notices == old(notices) + Plans(order, before, schedules, wiregram, wanted)
    {
      order := [];
      var left := wanted.Keys;
      while left != {}
        invariant left <= wanted.Keys && Lists(order, wanted.Keys - left)
        invariant notices == old(notices) + Plans(order, before, schedules, wiregram, wanted)
        decreases left
      {
        var k :| k in left;
        notices := notices + [Plan(schedules[Of(wiregram, k)].id, Replanned(before, wiregram, wanted, k))];
        order := order + [k];
        left := left - {k};
      }
    }

    /** import_wiregram: all or nothing. */
    method Import(w: World, d: Document, organization: nat, caller: nat, waiting: map<nat, nat>) returns (ok: bool, ghost gone: seq<string>, ghost planned: seq<string>)
      requires Placed(Now()) && UniqueKeys(d)
      modifies this
      ensures Placed(Now()) && (ok <==> Importable(w, d))
      ensures if ok then Imported(w, d, organization, caller, old(Now()), Now(), gone, planned, waiting) else Now() == old(Now())
    {
      gone, planned := [], [];
      ok := Importable(w, d);
      if !ok {
        return;
      }
      var wantedSchedules, wantedTriggers := WantedSchedules(w, d.schedules), WantedTriggers(w, d.triggers);
      var key := WireKey(organization, d.key);
      var wiregram := if key in wiregrams then wiregrams[key].id else next;
      next := if key in wiregrams then next else next + 1;
      gone := DropWaitingRuns(OwnedKeys(schedules, wiregram) - wantedSchedules.Keys, wiregram, waiting);
      wiregrams := wiregrams[key := Wiregram(wiregram, caller, d)];
      ghost var mid := next;
      var schedules' := BringInLine(schedules, wiregram, wantedSchedules, caller);
      ghost var mid' := next;
      var triggers' := BringInLine(triggers, wiregram, wantedTriggers, caller);
      InLineWithin(schedules, schedules', wiregram, wantedSchedules, caller, mid, mid', old(next), next);
      InLineWithin(triggers, triggers', wiregram, wantedTriggers, caller, mid', next, old(next), next);
      var before := schedules;
      schedules, triggers := schedules', triggers';
      planned := PlanAll(before, wiregram, wantedSchedules);
    }

    /** delete_wiregram: its rules go with it, and their waiting runs. */
    method Delete(key: WireKey, waiting: map<nat, nat>) returns (ghost gone: seq<string>)
      requires key in wiregrams
      modifies this
      ensures wiregrams == old(wiregrams) - {key}
      ensures schedules == old(schedules) - set p | p in old(schedules) && p.Of? && p.wiregram == old(wiregrams)[key].id
      ensures triggers == old(triggers) - set p | p in old(triggers) && p.Of? && p.wiregram == old(wiregrams)[key].id
      ensures Lists(gone, OwnedKeys(old(schedules), old(wiregrams)[key].id))
      ensures (forall k :: k in gone ==> Of(old(wiregrams)[key].id, k) in old(schedules))
        && notices == old(notices) + Drops(gone, old(schedules), old(wiregrams)[key].id, waiting)
    {
      var wiregram := wiregrams[key].id;
      gone := DropWaitingRuns(OwnedKeys(schedules, wiregram), wiregram, waiting);
      schedules := schedules - set p | p in schedules && p.Of? && p.wiregram == wiregram;
      triggers := triggers - set p | p in triggers && p.Of? && p.wiregram == wiregram;
      wiregrams := wiregrams - {key};
    }
  }

  lemma InLineWithin<F>(before: Table<F>, after: Table<F>, wiregram: nat, wanted: map<string, Wanted<F>>, caller: nat, first: nat, next: nat, first': nat, next': nat)
    requires InLine(before, after, wiregram, wanted, caller, first, next) && first' <= first && next <= next'
    ensures InLine(before, after, wiregram, wanted, caller, first', next')
  {
    forall key: string | key in wanted ensures RuleInLine(before, after, wiregram, key, wanted[key], caller, first', next') {
      assert RuleInLine(before, after, wiregram, key, wanted[key], caller, first, next);
    }
  }

  // ---------------------------------------------------------------- what an import is for

  lemma {:induction false} WantedScheduleAt(w: World, ss: seq<WireSchedule>, i: nat)
    requires forall s :: s in ss ==> CheckedSchedule(w, s).Some?
    requires i < |ss| && forall j :: i < j < |ss| ==> ss[i].key != ss[j].key
    ensures ss[i].key in WantedSchedules(w, ss)
    ensures WantedSchedules(w, ss)[ss[i].key] == Wanted(CheckedSchedule(w, ss[i]).value, ss[i].enabled)
    decreases |ss|
  {
    if i < |ss| - 1 { WantedScheduleAt(w, ss[..|ss| - 1], i); }
  }

  lemma {:induction false} WantedScheduleOnly(w: World, ss: seq<WireSchedule>, key: string) returns (i: nat)
    requires forall s :: s in ss ==> CheckedSchedule(w, s).Some?
    requires key in WantedSchedules(w, ss)
    ensures i < |ss| && ss[i].key == key
    decreases |ss|
  {
    i := |ss| - 1;
    if ss[i].key != key { i := WantedScheduleOnly(w, ss[..i], key); }
  }

  /** The wanted rules are the document's, each under its key. */
  lemma {:induction false} WantedAre(w: World, ss: seq<WireSchedule>)
    requires forall s :: s in ss ==> CheckedSchedule(w, s).Some?
    requires forall i, j :: 0 <= i < j < |ss| ==> ss[i].key != ss[j].key
    ensures forall s :: s in ss ==> s.key in WantedSchedules(w, ss) && WantedSchedules(w, ss)[s.key] == Wanted(CheckedSchedule(w, s).value, s.enabled)
    ensures forall k :: k in WantedSchedules(w, ss) ==> exists s :: s in ss && s.key == k
  {
    forall s | s in ss
      ensures s.key in WantedSchedules(w, ss) && WantedSchedules(w, ss)[s.key] == Wanted(CheckedSchedule(w, s).value, s.enabled)
    {
      var i :| 0 <= i < |ss| && ss[i] == s;
      WantedScheduleAt(w, ss, i);
    }
    forall k | k in WantedSchedules(w, ss) ensures exists s :: s in ss && s.key == k {
      var i := WantedScheduleOnly(w, ss, k);
      assert ss[i] in ss;
    }
  }

  lemma {:induction false} WantedTriggerAt(w: World, ts: seq<WireTrigger>, i: nat)
    requires forall t :: t in ts ==> CheckedTrigger(w, t).Some?
    requires i < |ts| && forall j :: i < j < |ts| ==> ts[i].key != ts[j].key
    ensures ts[i].key in WantedTriggers(w, ts)
    ensures WantedTriggers(w, ts)[ts[i].key] == Wanted(CheckedTrigger(w, ts[i]).value, ts[i].enabled)
    decreases |ts|
  {
    if i < |ts| - 1 { WantedTriggerAt(w, ts[..|ts| - 1], i); }
  }

  lemma {:induction false} WantedTriggerOnly(w: World, ts: seq<WireTrigger>, key: string) returns (i: nat)
    requires forall t :: t in ts ==> CheckedTrigger(w, t).Some?
    requires key in WantedTriggers(w, ts)
    ensures i < |ts| && ts[i].key == key
    decreases |ts|
  {
    i := |ts| - 1;
    if ts[i].key != key { i := WantedTriggerOnly(w, ts[..i], key); }
  }

  lemma {:induction false} WantedTriggersAre(w: World, ts: seq<WireTrigger>)
    requires forall t :: t in ts ==> CheckedTrigger(w, t).Some?
    requires forall i, j :: 0 <= i < j < |ts| ==> ts[i].key != ts[j].key
    ensures forall t :: t in ts ==> t.key in WantedTriggers(w, ts) && WantedTriggers(w, ts)[t.key] == Wanted(CheckedTrigger(w, t).value, t.enabled)
    ensures forall k :: k in WantedTriggers(w, ts) ==> exists t :: t in ts && t.key == k
  {
    forall t | t in ts
      ensures t.key in WantedTriggers(w, ts) && WantedTriggers(w, ts)[t.key] == Wanted(CheckedTrigger(w, t).value, t.enabled)
    {
      var i :| 0 <= i < |ts| && ts[i] == t;
      WantedTriggerAt(w, ts, i);
    }
    forall k | k in WantedTriggers(w, ts) ensures exists t :: t in ts && t.key == k {
      var i := WantedTriggerOnly(w, ts, k);
      assert ts[i] in ts;
    }
  }

  lemma NothingLeftToDo<F>(a: Table<F>, b: Table<F>, c: Table<F>, wiregram: nat, wanted: map<string, Wanted<F>>, caller: nat,
                           first: nat, next: nat, first': nat, next': nat)
    requires InLine(a, b, wiregram, wanted, caller, first, next) && InLine(b, c, wiregram, wanted, caller, first', next')
    ensures c == b
  {
    forall p ensures At(c, p) == At(b, p) {
      if p.Of? && p.wiregram == wiregram {
        assert Of(wiregram, p.key) in b <==> p.key in wanted;
        assert Of(wiregram, p.key) in c <==> p.key in wanted;
        if p.key in wanted {
          assert RuleInLine(a, b, wiregram, p.key, wanted[p.key], caller, first, next);
          assert RuleInLine(b, c, wiregram, p.key, wanted[p.key], caller, first', next');
        }
      }
    }
    forall p ensures p in c <==> p in b { assert At(c, p) == At(b, p); }
    forall p | p in c ensures c[p] == b[p] { assert At(c, p) == At(b, p); }
  }

  lemma HasFirst<T>(s: seq<T>)
    ensures s == [] || exists x :: x in s
  {
    if s != [] { assert s[0] in s; }
  }

  /** Importing the same document again changes no rule, drops no run and replans nothing. */
  lemma ImportedTwice(w: World, d: Document, organization: nat, caller: nat, a: State, b: State, c: State,
                      gone: seq<string>, planned: seq<string>, gone': seq<string>, planned': seq<string>, waiting: map<nat, nat>, waiting': map<nat, nat>)
    requires Imported(w, d, organization, caller, a, b, gone, planned, waiting)
    requires Imported(w, d, organization, caller, b, c, gone', planned', waiting')
    ensures c.schedules == b.schedules && c.triggers == b.triggers && c.wiregrams == b.wiregrams && gone' == []
    ensures forall i :: |b.notices| <= i < |c.notices| ==> c.notices[i].Plan? && !c.notices[i].replan
  {
    var key := WireKey(organization, d.key);
    var wiregram, wanted := b.wiregrams[key].id, WantedSchedules(w, d.schedules);
    assert c.wiregrams[key].id == wiregram;
    NothingLeftToDo(a.schedules, b.schedules, c.schedules, wiregram, wanted, caller, a.next, b.next, b.next, c.next);
    NothingLeftToDo(a.triggers, b.triggers, c.triggers, wiregram, WantedTriggers(w, d.triggers), caller, a.next, b.next, b.next, c.next);
    assert OwnedKeys(b.schedules, wiregram) <= wanted.Keys;
    HasFirst(gone');
    forall k | k in planned' ensures !Replanned(b.schedules, wiregram, wanted, k) {
      assert RuleInLine(a.schedules, b.schedules, wiregram, k, wanted[k], caller, a.next, b.next);
    }
  }

  // ---------------------------------------------------------------- exports

  /** A rule to be exported; `agentName` is None where it is not pinned to an agent. */
  datatype Listed<F> = Listed(place: Place, rule: Rule<F>, agentName: Option<string>)

  /** `wire_key or f"schedule-{pk}"`. */
  function DocumentKey(p: Place, prefix: string): string {
    match p
    case Of(_, key) => key
    case Alone(id) => prefix + Decimal(id)
  }

  function ExportedSchedule(l: Listed<ScheduleFields>, agentName: string): WireSchedule {
    var f := l.rule.fields;
    WireSchedule(DocumentKey(l.place, "schedule-"), f.name, f.description, Named(agentName, f.target.interface), f.args, l.rule.enabled,
                 f.interval, f.cron, f.timezone, f.ephemeralRuns, f.overlap, f.catchUp, f.policy, f.endsAt, f.maxRuns)
  }

  function ExportedTrigger(l: Listed<TriggerFields>, agentName: string): WireTrigger {
    var f := l.rule.fields;
    WireTrigger(DocumentKey(l.place, "trigger-"), f.name, f.description, Named(agentName, f.target.interface), f.args, l.rule.enabled,
                f.kind, f.identifier, f.port, f.conditions, f.debounce, f.policy, f.endsAt, f.maxRuns)
  }

  predicate Pinned<F>(ls: seq<Listed<F>>) {
    forall i | 0 <= i < |ls| :: ls[i].agentName.Some?
  }

  function ExportedSchedules(ls: seq<Listed<ScheduleFields>>): seq<WireSchedule>
    requires Pinned(ls)
  {
    seq(|ls|, i requires 0 <= i < |ls| => ExportedSchedule(ls[i], ls[i].agentName.value))
  }

  function ExportedTriggers(ls: seq<Listed<TriggerFields>>): seq<WireTrigger>
    requires Pinned(ls)
  {
    seq(|ls|, i requires 0 <= i < |ls| => ExportedTrigger(ls[i], ls[i].agentName.value))
  }

  /** export_wiregram: None where a rule is not pinned, or the document's validator refuses two rules of
      one key. */
  function Export(key: string, name: string, description: Option<string>, ss: seq<Listed<ScheduleFields>>, ts: seq<Listed<TriggerFields>>): Option<Document> {
    if !Pinned(ss) || !Pinned(ts) then None
    else
      var d := Document(key, name, description, ExportedSchedules(ss), ExportedTriggers(ts));
      if UniqueKeys(d) then Some(d) else None
  }

  /** Two places with one document key: one key in two wiregrams, or a key that looks like the one a rule
      without a wiregram gets from its id. */
  predicate Collide(p: Place, q: Place, prefix: string) {
    match (p, q)
    case (Of(_, k), Of(_, l)) => k == l
    case (Of(_, k), Alone(n)) => k == prefix + Decimal(n)
    case (Alone(n), Of(_, k)) => k == prefix + Decimal(n)
    case (Alone(m), Alone(n)) => m == n
  }

  lemma CollideIff(p: Place, q: Place, prefix: string)
    ensures DocumentKey(p, prefix) == DocumentKey(q, prefix) <==> Collide(p, q, prefix)
  {
    if p.Alone? && q.Alone? && DocumentKey(p, prefix) == DocumentKey(q, prefix) {
      assert Decimal(p.id) == DocumentKey(p, prefix)[|prefix|..] && Decimal(q.id) == DocumentKey(q, prefix)[|prefix|..];
      SameDecimal(p.id, q.id);
    }
  }

  predicate NoneCollide<F>(ls: seq<Listed<F>>, prefix: string) {
    forall i, j | 0 <= i < j < |ls| :: !Collide(ls[i].place, ls[j].place, prefix)
  }

  lemma SchedulesApartIff(ss: seq<Listed<ScheduleFields>>)
    requires Pinned(ss)
    ensures NoneCollide(ss, "schedule-") <==>
      forall i, j :: 0 <= i < j < |ss| ==> ExportedSchedules(ss)[i].key != ExportedSchedules(ss)[j].key
  {
    forall i, j | 0 <= i < j < |ss|
      ensures ExportedSchedules(ss)[i].key == ExportedSchedules(ss)[j].key <==> Collide(ss[i].place, ss[j].place, "schedule-")
    {
      CollideIff(ss[i].place, ss[j].place, "schedule-");
    }
  }

  lemma TriggersApartIff(ts: seq<Listed<TriggerFields>>)
    requires Pinned(ts)
    ensures NoneCollide(ts, "trigger-") <==>
      forall i, j :: 0 <= i < j < |ts| ==> ExportedTriggers(ts)[i].key != ExportedTriggers(ts)[j].key
  {
    forall i, j | 0 <= i < j < |ts|
      ensures ExportedTriggers(ts)[i].key == ExportedTriggers(ts)[j].key <==> Collide(ts[i].place, ts[j].place, "trigger-")
    {
      CollideIff(ts[i].place, ts[j].place, "trigger-");
    }
  }

  /** Rules are exported exactly when each is pinned to an agent and no two places collide. */
  lemma ExportedIff(key: string, name: string, description: Option<string>, ss: seq<Listed<ScheduleFields>>, ts: seq<Listed<TriggerFields>>)
    ensures Export(key, name, description, ss, ts).Some? <==>
      Pinned(ss) && Pinned(ts) && NoneCollide(ss, "schedule-") && NoneCollide(ts, "trigger-")
    ensures match Export(key, name, description, ss, ts)
            case Some(d) => d.key == key && d.name == name && d.description == description && |d.schedules| == |ss| && |d.triggers| == |ts|
            case None => true
  {
    if Pinned(ss) && Pinned(ts) {
      SchedulesApartIff(ss);
      TriggersApartIff(ts);
    }
  }

  /** All of one wiregram, or of none, and no rule twice. */
  predicate Gathered<F>(ls: seq<Listed<F>>) {
    forall i, j | 0 <= i < j < |ls| :: ls[i].place != ls[j].place && Together(ls[i].place, ls[j].place)
  }

  predicate Together(p: Place, q: Place) {
    match p
    case Of(wiregram, _) => q.Of? && q.wiregram == wiregram
    case Alone(_) => q.Alone?
  }

  /** Pinned rules of one wiregram, or of none, are always exported: no two of them share a key. */
  lemma GatheredAreExported(key: string, name: string, description: Option<string>, ss: seq<Listed<ScheduleFields>>, ts: seq<Listed<TriggerFields>>)
    requires Pinned(ss) && Pinned(ts) && Gathered(ss) && Gathered(ts)
    ensures Export(key, name, description, ss, ts).Some?
  {
    ExportedIff(key, name, description, ss, ts);
  }

  /** Rules of two wiregrams can share one, and are refused. */
  lemma MixedRulesCanBeRefused(r: Rule<ScheduleFields>, agentName: string)
    ensures Export("k", "n", None, [Listed(Of(1, "a"), r, Some(agentName)), Listed(Of(2, "a"), r, Some(agentName))], []).None?
  {
    var ls := [Listed(Of(1, "a"), r, Some(agentName)), Listed(Of(2, "a"), r, Some(agentName))];
    assert Collide(ls[0].place, ls[1].place, "schedule-");
    ExportedIff("k", "n", None, ls, []);
  }

  /** The exported name finds the rule's own target again, and the row passes the checks. */
  predicate ScheduleRestores(w: World, l: Listed<ScheduleFields>) {
    && l.agentName.Some? && TargetOf(w.offers, Named(l.agentName.value, l.rule.fields.target.interface)) == Some(l.rule.fields.target)
    && w.scheduleValid(l.rule.fields)
  }

  /** Compiling a trigger's conditions again gives what its row holds. */
  predicate TriggerRestores(w: World, l: Listed<TriggerFields>) {
    && l.agentName.Some? && TargetOf(w.offers, Named(l.agentName.value, l.rule.fields.target.interface)) == Some(l.rule.fields.target)
    && w.compileTrigger(l.rule.fields.(compiled := None)) == Some(l.rule.fields)
  }

  lemma ScheduleReadsBackIff(w: World, l: Listed<ScheduleFields>)
    requires l.agentName.Some?
    ensures CheckedSchedule(w, ExportedSchedule(l, l.agentName.value)) == Some(l.rule.fields) <==> ScheduleRestores(w, l)
  {
    var target := TargetOf(w.offers, Named(l.agentName.value, l.rule.fields.target.interface));
    if target.Some? {
      assert ScheduleOf(ExportedSchedule(l, l.agentName.value), target.value) == l.rule.fields.(target := target.value);
    }
  }

  lemma TriggerReadsBack(w: World, l: Listed<TriggerFields>)
    requires TriggerRestores(w, l)
    ensures CheckedTrigger(w, ExportedTrigger(l, l.agentName.value)) == Some(l.rule.fields)
  {
    assert TriggerOf(ExportedTrigger(l, l.agentName.value), l.rule.fields.target) == l.rule.fields.(compiled := None);
  }

  /** The wiregram has the rule under its document key, with its fields and its switch. */
  ghost predicate Has<F>(rules: Table<F>, wiregram: nat, l: Listed<F>, prefix: string) {
    var place := Of(wiregram, DocumentKey(l.place, prefix));
    place in rules && rules[place].fields == l.rule.fields && rules[place].enabled == l.rule.enabled
  }

  lemma FreshRule<F>(before: Table<F>, after: Table<F>, wiregram: nat, wanted: map<string, Wanted<F>>, caller: nat, first: nat, next: nat,
                     l: Listed<F>, prefix: string)
    requires InLine(before, after, wiregram, wanted, caller, first, next)
    requires Of(wiregram, DocumentKey(l.place, prefix)) !in before && DocumentKey(l.place, prefix) in wanted
    requires wanted[DocumentKey(l.place, prefix)] == Wanted(l.rule.fields, l.rule.enabled)
    ensures Has(after, wiregram, l, prefix)
  {
    var key := DocumentKey(l.place, prefix);
    assert RuleInLine(before, after, wiregram, key, wanted[key], caller, first, next);
  }

  lemma ExportIsImportable(w: World, d: Document, ss: seq<Listed<ScheduleFields>>, ts: seq<Listed<TriggerFields>>)
    requires Export(d.key, d.name, d.description, ss, ts) == Some(d)
    requires (forall l :: l in ss ==> ScheduleRestores(w, l)) && forall l :: l in ts ==> TriggerRestores(w, l)
    ensures Importable(w, d)
    ensures forall l :: l in ss ==> var key := DocumentKey(l.place, "schedule-");
      key in WantedSchedules(w, d.schedules) && WantedSchedules(w, d.schedules)[key] == Wanted(l.rule.fields, l.rule.enabled)
    ensures forall l :: l in ts ==> var key := DocumentKey(l.place, "trigger-");
      key in WantedTriggers(w, d.triggers) && WantedTriggers(w, d.triggers)[key] == Wanted(l.rule.fields, l.rule.enabled)
  {
    forall i | 0 <= i < |ss| ensures CheckedSchedule(w, d.schedules[i]) == Some(ss[i].rule.fields) {
      ScheduleReadsBackIff(w, ss[i]);
    }
    forall i | 0 <= i < |ts| ensures CheckedTrigger(w, d.triggers[i]) == Some(ts[i].rule.fields) {
      TriggerReadsBack(w, ts[i]);
    }
    WantedAre(w, d.schedules);
    WantedTriggersAre(w, d.triggers);
    forall l | l in ss ensures var key := DocumentKey(l.place, "schedule-");
      key in WantedSchedules(w, d.schedules) && WantedSchedules(w, d.schedules)[key] == Wanted(l.rule.fields, l.rule.enabled)
    {
      var i :| 0 <= i < |ss| && ss[i] == l;
      assert d.schedules[i] in d.schedules;
    }
    forall l | l in ts ensures var key := DocumentKey(l.place, "trigger-");
      key in WantedTriggers(w, d.triggers) && WantedTriggers(w, d.triggers)[key] == Wanted(l.rule.fields, l.rule.enabled)
    {
      var i :| 0 <= i < |ts| && ts[i] == l;
      assert d.triggers[i] in d.triggers;
    }
  }

  /** Importing an export as a new wiregram, where each rule's name finds its target again and its row
      passes the checks, makes the same rules again. */
  lemma ExportThenImport(w: World, d: Document, ss: seq<Listed<ScheduleFields>>, ts: seq<Listed<TriggerFields>>,
                         organization: nat, caller: nat, a: State, b: State, gone: seq<string>, planned: seq<string>, waiting: map<nat, nat>)
    requires Export(d.key, d.name, d.description, ss, ts) == Some(d)
    requires (forall l :: l in ss ==> ScheduleRestores(w, l)) && forall l :: l in ts ==> TriggerRestores(w, l)
    requires Placed(a) && WireKey(organization, d.key) !in a.wiregrams
    requires Imported(w, d, organization, caller, a, b, gone, planned, waiting)
    ensures var wiregram := b.wiregrams[WireKey(organization, d.key)].id;
      && (forall l :: l in ss ==> Has(b.schedules, wiregram, l, "schedule-"))
      && (forall l :: l in ts ==> Has(b.triggers, wiregram, l, "trigger-"))
  {
    var wiregram := b.wiregrams[WireKey(organization, d.key)].id;
    ExportIsImportable(w, d, ss, ts);
    forall l | l in ss ensures Has(b.schedules, wiregram, l, "schedule-") {
      FreshRule(a.schedules, b.schedules, wiregram, WantedSchedules(w, d.schedules), caller, a.next, b.next, l, "schedule-");
    }
    forall l | l in ts ensures Has(b.triggers, wiregram, l, "trigger-") {
      FreshRule(a.triggers, b.triggers, wiregram, WantedTriggers(w, d.triggers), caller, a.next, b.next, l, "trigger-");
    }
  }
}
