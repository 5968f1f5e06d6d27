/** Whether a live implementation can handle an object (facade/managers.py, _live_agent_sql and
    _fits_condition). */
module Fits {
  import opened Collections
  import opened Json
  import opened Logic3

  datatype Agent = Agent(id: nat, kind: string, connected: bool, lastSeen: Option<int>, hardware: map<string, Json>)

  datatype Implementation = Implementation(id: nat, action: nat, agent: nat)

  /** jsonb_path_match of a stored formula, on an object and the agent's hardware. */
  type Formula = (map<string, Json>, map<string, Json>) -> Truth

  datatype Fit = Fit(id: nat, implementation: nat, portKey: string, formula: Formula)

  datatype Fleet = Fleet(agents: set<Agent>, implementations: set<Implementation>, ghost fits: iset<Fit>)

  /** `g.kind = 'WEBHOOK' OR (g.connected AND g.last_seen > cutoff)`. */
  function Live(g: Agent, cutoff: int): Truth {
    Or(Of(g.kind == "WEBHOOK"), And(Of(g.connected), if g.lastSeen.Some? then Of(g.lastSeen.value > cutoff) else UNKNOWN))
  }

  /** The rows of `facade_implementation i JOIN facade_agent g` for a live agent of the action. */
  ghost predicate Serves(fleet: Fleet, action: nat, cutoff: int, i: Implementation, g: Agent) {
    i in fleet.implementations && g in fleet.agents && g.id == i.agent && i.action == action && Live(g, cutoff) == TRUE
  }

  /** `f.implementation_id = i.id AND f.port_key = p.key`; a NULL key joins nothing. */
  ghost predicate Joins(fleet: Fleet, f: Fit, i: Implementation, key: Option<string>) {
    f in fleet.fits && f.implementation == i.id && key == Some(f.portKey)
  }

  ghost predicate HasFit(fleet: Fleet, i: Implementation, key: Option<string>) {
    exists f :: Joins(fleet, f, i, key)
  }

  ghost predicate Accepts(fleet: Fleet, i: Implementation, g: Agent, key: Option<string>, o: map<string, Json>) {
    exists f :: Joins(fleet, f, i, key) && f.formula(o, g.hardware) == TRUE
  }

  /** The condition as written: no live implementation has a fit on the port, or one, left joined to
      its fits, has none or one that holds. */
  ghost function Holds(fleet: Fleet, action: nat, key: Option<string>, o: map<string, Json>, cutoff: int): Truth {
    Or(Not(Of(exists i, g :: Serves(fleet, action, cutoff, i, g) && HasFit(fleet, i, key))),
       Of(exists i, g :: Serves(fleet, action, cutoff, i, g) && (!HasFit(fleet, i, key) || Accepts(fleet, i, g, key, o))))
  }

  /** The agent can receive work now: a webhook, or one that is connected and was seen after the cutoff. */
  predicate Receives(g: Agent, cutoff: int) {
    g.kind == "WEBHOOK" || (g.connected && g.lastSeen.Some? && g.lastSeen.value > cutoff)
  }

  /** The agent, one that can receive work, has this implementation of the action. */
  ghost predicate Implements(fleet: Fleet, action: nat, cutoff: int, i: Implementation, g: Agent) {
    g in fleet.agents && Receives(g, cutoff) && i in fleet.implementations && i.agent == g.id && i.action == action
  }

  /** The implementation's fits on the port. */
  ghost function Limits(fleet: Fleet, i: Implementation, key: string): iset<Fit> {
    iset f | f in fleet.fits && f.implementation == i.id && f.portKey == key
  }

  /** It states a limit on the port, and the object meets none of those it states. */
  ghost predicate Refuses(fleet: Fleet, i: Implementation, g: Agent, key: string, o: map<string, Json>) {
    && Limits(fleet, i, key) != iset{}
    && forall f :: f in Limits(fleet, i, key) ==> f.formula(o, g.hardware) != TRUE
  }

  /** A live implementation exists, and every live one refuses the object. */
  ghost predicate AllRefuse(fleet: Fleet, action: nat, key: string, o: map<string, Json>, cutoff: int) {
    && (exists i, g :: Implements(fleet, action, cutoff, i, g))
    && forall i, g :: Implements(fleet, action, cutoff, i, g) ==> Refuses(fleet, i, g, key, o)
  }

  lemma ServesIff(fleet: Fleet, action: nat, cutoff: int, i: Implementation, g: Agent)
    ensures Serves(fleet, action, cutoff, i, g) <==> Implements(fleet, action, cutoff, i, g)
  {}

  lemma RefusesIff(fleet: Fleet, i: Implementation, g: Agent, key: string, o: map<string, Json>)
    ensures HasFit(fleet, i, Some(key)) <==> Limits(fleet, i, key) != iset{}
    ensures HasFit(fleet, i, Some(key)) && !Accepts(fleet, i, g, Some(key), o) <==> Refuses(fleet, i, g, key, o)
    ensures !HasFit(fleet, i, None)
  {
    forall f ensures f in Limits(fleet, i, key) <==> Joins(fleet, f, i, Some(key)) {}
    if f :| f in Limits(fleet, i, key) {
      assert Joins(fleet, f, i, Some(key));
    }
    if f :| Joins(fleet, f, i, Some(key)) {
      assert f in Limits(fleet, i, key);
    }
    if Accepts(fleet, i, g, Some(key), o) {
      var f :| Joins(fleet, f, i, Some(key)) && f.formula(o, g.hardware) == TRUE;
      assert f in Limits(fleet, i, key);
    }
  }

  /** An object is hidden only when a live implementation exists and every live one states a limit on
      the port that refuses it. */
  lemma HiddenIff(fleet: Fleet, action: nat, key: Option<string>, o: map<string, Json>, cutoff: int)
    ensures Holds(fleet, action, key, o, cutoff) != TRUE <==> key.Some? && AllRefuse(fleet, action, key.value, o, cutoff)
  {
    forall i, g ensures Serves(fleet, action, cutoff, i, g) <==> Implements(fleet, action, cutoff, i, g) {
      ServesIff(fleet, action, cutoff, i, g);
    }
    forall i, g
      ensures HasFit(fleet, i, key) && !Accepts(fleet, i, g, key, o) <==> key.Some? && Refuses(fleet, i, g, key.value, o)
    {
      RefusesIff(fleet, i, g, if key.Some? then key.value else "", o);
    }
    if Holds(fleet, action, key, o, cutoff) != TRUE {
      var i, g :| Serves(fleet, action, cutoff, i, g) && HasFit(fleet, i, key);
      assert Implements(fleet, action, cutoff, i, g);
    } else if i, g :| Serves(fleet, action, cutoff, i, g) && (!HasFit(fleet, i, key) || Accepts(fleet, i, g, key, o)) {
      assert Implements(fleet, action, cutoff, i, g);
    } else if i, g :| Implements(fleet, action, cutoff, i, g) {
      assert Serves(fleet, action, cutoff, i, g);
    }
  }
}
