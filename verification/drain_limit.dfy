/** The limits of draining. A route that was edited to be invalid keeps its endpoints when its policy becomes
    inactive; such an edit is possible, since the environment of a route may be the empty string. And a route
    keeps them when no controller is left for it. */
module DrainLimit {
  import opened Objects
  import opened EndpointDiff
  import opened ServiceRouteController
  import opened DnsPolicyController
  import opened RoutingRuns

  const ROUTE := Key("team", "api")
  const TEAM_POLICY := Key("team", "policy")
  const GATEWAY := Key("gateways", "gw")
  const VALID := RouteSpec("api", "gw", "gateways", "prod", "app")
  const INVALID := RouteSpec("api", "gw", "gateways", "", "app")
  const ANYWHERE := PolicySpec(MODE_ACTIVE, "", "")
  const ELSEWHERE := PolicySpec(MODE_ACTIVE, "neu", "")
  const LIVE_GATEWAY := GatewaySpec("ingress", "cert", "internal")
  const CLUSTER := Identity("weu", "aks", "example.com", "p", [])
  const CONFIG: Config := [ExternalDns("dns", "weu")]

  const EMPTY := State(map[], map[], map[], map[])
  const SELECTED := Selection(true, ["dns"])
  const ACTIVE_POLICY := Policy(ANYWHERE, PolicyStatus(PhaseActive, SELECTED, ReconciliationSucceeded))
  const MOVED_POLICY := Policy(ELSEWHERE, PolicyStatus(PhaseActive, SELECTED, ReconciliationSucceeded))
  const INACTIVE_POLICY := Policy(ELSEWHERE, PolicyStatus(PhaseActive, Selection(false, []), PolicyInactive))

  ghost predicate Reachable(s: State) {
    exists states, events :: IsRoutingHistory(states, events, "") && states[0] == EMPTY && states[|events|] == s
  }

  /** The history goes on with one more event. */
  lemma Extended(states: seq<State>, events: seq<Event>, e: Event, s': State)
    requires IsRoutingHistory(states, events, "") && Next(states[|events|], e, s', "")
    ensures IsRoutingHistory(states + [s'], events + [e], "")
  {}

  lemma Reach(s: State, e: Event, s': State)
    requires Reachable(s) && Next(s, e, s', "")
    ensures Reachable(s')
  {
    var states, events :| IsRoutingHistory(states, events, "") && states[0] == EMPTY && states[|events|] == s;
    Extended(states, events, e, s');
  }

  /** A decision to write that is not blocked can be carried out to the end. */
  lemma ReachWanted(s: State, k: Key, id: Option<Identity>, cfg: Option<Config>, first: Option<Selection>)
    requires Reachable(s) && FirstPolicy(s.policies, k.ns, first)
    requires var d := Decide(k, ViewIn(s, k, first, id, cfg, "")); d.Wanted? && !Blocked(k, d, s.endpoints)
    ensures Reachable(s.(endpoints := Effect(k, Decide(k, ViewIn(s, k, first, id, cfg, "")), s.endpoints)))
  {
    var v := ViewIn(s, k, first, id, cfg, "");
    var trace := WantedTrace(k, v, s.endpoints);
    Reach(s, ReconcileRoute(k, id, cfg, first, trace, true), s.(endpoints := trace[|trace|-1]));
  }

  lemma ReachNothing()
    ensures Reachable(EMPTY)
  {
    assert IsRoutingHistory([EMPTY], [], "");
  }

  /** A policy, a Gateway and a valid route. */
  const READY := State(map[TEAM_POLICY := ACTIVE_POLICY], map[ROUTE := VALID], map[GATEWAY := LIVE_GATEWAY], map[])

  lemma ReachReady()
    ensures Reachable(READY)
  {
    ReachNothing();
    var s1 := EMPTY.(policies := map[TEAM_POLICY := Policy(ANYWHERE, FRESH_POLICY_STATUS)]);
    Reach(EMPTY, EditPolicy(TEAM_POLICY, Some(ANYWHERE)), s1);
    SelectedHere();
    var s2 := EMPTY.(policies := map[TEAM_POLICY := ACTIVE_POLICY]);
    assert s1.policies[TEAM_POLICY := ACTIVE_POLICY] == s2.policies;
    Reach(s1, ReconcilePolicy(TEAM_POLICY, Some(CLUSTER), Some(CONFIG)), s2);
    var s3 := s2.(gateways := map[GATEWAY := LIVE_GATEWAY]);
    Reach(s2, EditGateway(GATEWAY, Some(LIVE_GATEWAY)), s3);
    Reach(s3, EditRoute(ROUTE, Some(VALID)), READY);
  }

  lemma SelectedHere()
    ensures Reconciled(Policy(ANYWHERE, FRESH_POLICY_STATUS), Some(CLUSTER), Some(CONFIG)) == ACTIVE_POLICY
    ensures ControllerMap(CONFIG) == map["dns" := CONFIG[0]]
  {}

  /** The endpoint the route then has. */
  lemma ReachReconciled() returns (m: Endpoints)
    ensures Reachable(READY.(endpoints := m)) && !NoEndpoints(ROUTE, m)
  {
    ReachReady();
    SelectedHere();
    var v := ViewIn(READY, ROUTE, Some(SELECTED), Some(CLUSTER), Some(CONFIG), "");
    var d := Decide(ROUTE, v);
    ReachWanted(READY, ROUTE, Some(CLUSTER), Some(CONFIG), Some(SELECTED));
    m := Effect(ROUTE, d, READY.endpoints);
    WantedIsLabelled(ROUTE, v);
    ByKeyMeaning(d.list);
    var scope := Scope(ROUTE, NamespacesOf(d.list));
    GoalMeaning(scope, ByKey(d.list), map[]);
    BuiltForOne();
    var k := d.list[0].key;
    assert d.list[0] in d.list && k in m && Selects(scope, k, m[k]);
  }

  lemma BuiltForOne()
    ensures var hosts := HostsOf(VALID, LIVE_GATEWAY, CLUSTER);
      |BuildAll(ROUTE, map["dns" := CONFIG[0]], ["dns"], hosts)| == 1
  {}

  /** Edited to be invalid, and then the policy made inactive. */
  const STRANDED :=
    State(map[TEAM_POLICY := INACTIVE_POLICY], map[ROUTE := INVALID], map[GATEWAY := LIVE_GATEWAY], map[])

  lemma ReachStranded() returns (m: Endpoints)
    ensures Reachable(STRANDED.(endpoints := m)) && !NoEndpoints(ROUTE, m)
  {
    m := ReachReconciled();
    var s1 := READY.(routes := map[ROUTE := INVALID], endpoints := m);
    assert map[ROUTE := VALID][ROUTE := INVALID] == map[ROUTE := INVALID];
    Reach(READY.(endpoints := m), EditRoute(ROUTE, Some(INVALID)), s1);
    var s2 := s1.(policies := map[TEAM_POLICY := MOVED_POLICY]);
    assert map[TEAM_POLICY := ACTIVE_POLICY][TEAM_POLICY := MOVED_POLICY] == s2.policies;
    Reach(s1, EditPolicy(TEAM_POLICY, Some(ELSEWHERE)), s2);
    assert "weu"[0] != "neu"[0];
    assert Reconciled(MOVED_POLICY, Some(CLUSTER), Some(CONFIG)) == INACTIVE_POLICY;
    assert map[TEAM_POLICY := MOVED_POLICY][TEAM_POLICY := INACTIVE_POLICY] == STRANDED.policies;
    Reach(s2, ReconcilePolicy(TEAM_POLICY, Some(CLUSTER), Some(CONFIG)), STRANDED.(endpoints := m));
  }

  /** The last event of the history reconciled the route to completion, and it still holds an endpoint. */
  ghost predicate StillHeld(states: seq<State>, events: seq<Event>) {
    && IsRoutingHistory(states, events, "") && |events| > 0 && states[0] == EMPTY
    && events[|events|-1].ReconcileRoute? && events[|events|-1].complete && events[|events|-1].k == ROUTE
    && !NoEndpoints(ROUTE, states[|events|].endpoints)
  }

  /** What the last event of such a history decided. */
  ghost function DecidedLast(states: seq<State>, events: seq<Event>): Decision
    requires StillHeld(states, events)
  {
    var e := events[|events|-1];
    Decide(e.k, ViewIn(states[|events|-1], e.k, e.first, e.id, e.cfg, ""))
  }

  /** A reconciliation that changes nothing ends such a history. */
  lemma EndsHistory(s: State, e: Event) returns (states: seq<State>, events: seq<Event>)
    requires Reachable(s) && Next(s, e, s, "") && e.ReconcileRoute? && e.complete && e.k == ROUTE
    requires !NoEndpoints(ROUTE, s.endpoints)
    ensures StillHeld(states, events)
    ensures states[|events|-1] == s && events[|events|-1] == e
  {
    var before, past :| IsRoutingHistory(before, past, "") && before[0] == EMPTY && before[|past|] == s;
    Extended(before, past, e, s);
    states, events := before + [s], past + [e];
    assert states[|events|-1] == before[|past|] && states[|events|] == s;
  }

  /** There is a history from the empty store in which a route is reconciled to completion under an inactive
      policy, the only one of its namespace, and still holds an endpoint. */
  lemma InvalidRouteIsNotDrained()
    ensures exists states: seq<State>, events: seq<Event> ::
      StillHeld(states, events) && Inactive(states[|events|-1], TEAM_POLICY, ELSEWHERE)
  {
    var m := ReachStranded();
    var s := STRANDED.(endpoints := m);
    var e := ReconcileRoute(ROUTE, Some(CLUSTER), Some(CONFIG), Some(Selection(false, [])), [m], true);
    var states, events := EndsHistory(s, e);
    assert Inactive(s, TEAM_POLICY, ELSEWHERE);
  }

  // ---- no controller left ----

  /** The configuration now has a controller of another region only. */
  const MOVED: Config := [ExternalDns("dns2", "neu")]
  const CONTROLLERLESS := Policy(ANYWHERE, PolicyStatus(PhaseActive, Selection(true, []), ReconciliationSucceeded))

  lemma NothingSelected()
    ensures Reconciled(ACTIVE_POLICY, Some(CLUSTER), Some(MOVED)) == CONTROLLERLESS
    ensures ControllerMap(MOVED) == map["dns2" := MOVED[0]] && "dns" !in ControllerMap(MOVED)
  {
    assert MOVED[..0] == [] && "weu"[0] != "neu"[0] && |"dns"| != |"dns2"|;
  }

  /** There is a history in which the policy stays active but selects no controller any more: the route is
      reported as failed and keeps its endpoint. */
  lemma ControllerlessRouteKeepsEndpoints()
    ensures exists states: seq<State>, events: seq<Event> ::
      StillHeld(states, events) && DecidedLast(states, events) == Rejected(DNSEndpointGenerationFailed)
      && states[|events|-1].policies == map[TEAM_POLICY := CONTROLLERLESS]
  {
    var m := ReachReconciled();
    NothingSelected();
    var s := READY.(policies := map[TEAM_POLICY := CONTROLLERLESS], endpoints := m);
    assert map[TEAM_POLICY := ACTIVE_POLICY][TEAM_POLICY := CONTROLLERLESS] == s.policies;
    Reach(READY.(endpoints := m), ReconcilePolicy(TEAM_POLICY, Some(CLUSTER), Some(MOVED)), s);
    var e := ReconcileRoute(ROUTE, Some(CLUSTER), Some(MOVED), Some(Selection(true, [])), [m], true);
    var states, events := EndsHistory(s, e);
  }

  /** And one in which the route is reconciled before the policy is: it selects a controller that is not
      configured any more, so nothing is desired, no namespace is listed and nothing is deleted. */
  lemma UnconfiguredRouteKeepsEndpoints()
    ensures exists states: seq<State>, events: seq<Event> ::
      StillHeld(states, events) && DecidedLast(states, events) == Wanted([])
  {
    var m := ReachReconciled();
    NothingSelected();
    NothingBuilt();
    var e := ReconcileRoute(ROUTE, Some(CLUSTER), Some(MOVED), Some(SELECTED), [m], true);
    assert Effect(ROUTE, Wanted([]), m) == m;
    var states, events := EndsHistory(READY.(endpoints := m), e);
  }

  lemma NothingBuilt()
    ensures var hosts := HostsOf(VALID, LIVE_GATEWAY, CLUSTER);
      BuildAll(ROUTE, ControllerMap(MOVED), ["dns"], hosts) == []
  {
    NothingSelected();
    assert ["dns"][..0] == [];
  }
}
