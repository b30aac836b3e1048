/** What a reconciliation of a route comes to, in terms of the objects that were there: when it leaves the
    endpoints alone, when it removes some, and what the status says. */
module RouteOutcomes {
  import opened Objects
  import opened ApiServer
  import opened EndpointDiff
  import opened ServiceRouteController
  import opened DnsPolicyController
  import opened RoutingRuns

  // ---- what the controller sees ----

  /** A cluster, as the runs see it. */
  ghost function StateOf(api: Cluster): State
    reads api
  {
    State(api.policies, map k | k in api.routes :: api.routes[k].spec,
          map k | k in api.gateways :: api.gateways[k].spec, api.endpoints)
  }

  /** The controller sees what the runs say it sees: the Gateway is looked up in the namespace the route
      gives, or in the default one. */
  lemma ViewsAgree(api: Cluster, route: Key, first: Option<Selection>, id: Option<Identity>, cfg: Option<Config>,
                   defaultNamespace: string)
    ensures var v := ViewOf(api, route, first, id, cfg, defaultNamespace);
      && v == ViewIn(StateOf(api), route, first, id, cfg, defaultNamespace)
      && (v.route.Some? <==> route in api.routes)
      && (route in api.routes ==>
            var spec := api.routes[route].spec;
            var ns := if spec.gatewayNamespace == "" then defaultNamespace else spec.gatewayNamespace;
            && v.route == Some(spec)
            && (v.gateway.Some? <==> Key(ns, spec.gatewayName) in api.gateways)
            && (v.gateway.Some? ==> v.gateway.value == api.gateways[Key(ns, spec.gatewayName)].spec))
  {}

  /** The policy it goes by is one of the route's own namespace, and there is none only if that has none. */
  lemma PolicyIsOfNamespace(policies: map<Key, Policy>, ns: string, first: Option<Selection>)
    requires FirstPolicy(policies, ns, first)
    ensures first.None? <==> forall k | k in policies :: k.ns != ns
    ensures first.Some? ==> exists k :: k in policies && k.ns == ns && policies[k].status.selection == first.value
  {}

  // ---- one reconciliation ----

  /** Only the status of the route differs: by phase and reason. */
  ghost predicate StatusBecame(route: Key, before: map<Key, Route>, after: map<Key, Route>, phase: Phase,
                               reason: Reason)
  {
    route in before && after == before[route := Route(before[route].spec,
                                                      RouteStatus(phase, reason, before[route].status.dnsEndpoint))]
  }

  /** An incomplete route is failed and its endpoints are untouched, whatever else is there. */
  lemma IncompleteRouteIsLeftAlone(route: Key, v: View, m: Endpoints, clean: bool, r: Outcome, trace: seq<Endpoints>,
                                   before: map<Key, Route>, after: map<Key, Route>)
    requires Promised(route, v, m, clean, r, trace, before, after) && v.route.Some? && route in before
    requires var s := v.route.value;
      s.serviceName == "" || s.gatewayName == "" || s.environment == "" || s.application == ""
    ensures trace == [m] && (r == Ok ==> StatusBecame(route, before, after, PhaseFailed, ValidationFailed))
  {}

  /** A complete route without a policy waits for one. */
  lemma PolicylessRouteWaits(route: Key, v: View, m: Endpoints, clean: bool, r: Outcome, trace: seq<Endpoints>,
                             before: map<Key, Route>, after: map<Key, Route>)
    requires Promised(route, v, m, clean, r, trace, before, after) && v.route.Some? && route in before
    requires var s := v.route.value;
      s.serviceName != "" && s.gatewayName != "" && s.environment != "" && s.application != ""
    requires v.policy.None?
    ensures trace == [m] && (r == Ok ==> StatusBecame(route, before, after, PhasePending, DNSPolicyNotFound))
  {}

  /** A complete route under an active policy waits for the first of configuration, Gateway and identity that
      is missing, and keeps its endpoints meanwhile. */
  lemma WaitingRouteIsLeftAlone(route: Key, v: View, m: Endpoints, clean: bool, r: Outcome, trace: seq<Endpoints>,
                                before: map<Key, Route>, after: map<Key, Route>)
    requires Promised(route, v, m, clean, r, trace, before, after) && v.route.Some? && route in before
    requires var s := v.route.value;
      s.serviceName != "" && s.gatewayName != "" && s.environment != "" && s.application != ""
    requires v.policy.Some? && v.policy.value.active && (v.cfg.None? || v.gateway.None? || v.id.None?)
    ensures trace == [m]
    ensures r == Ok ==>
              StatusBecame(route, before, after, PhasePending,
                           if v.cfg.None? then DNSConfigurationNotAvailable
                           else if v.gateway.None? then GatewayNotFound else ClusterIdentityNotAvailable)
  {}

  /** With all of them there but no controller selected the route is failed and keeps its endpoints. */
  lemma ControllerlessRouteIsLeftAlone(route: Key, v: View, m: Endpoints, clean: bool, r: Outcome,
                                       trace: seq<Endpoints>, before: map<Key, Route>, after: map<Key, Route>)
    requires Promised(route, v, m, clean, r, trace, before, after) && v.route.Some? && route in before
    requires var s := v.route.value;
      s.serviceName != "" && s.gatewayName != "" && s.environment != "" && s.application != ""
    requires v.policy == Some(Selection(true, [])) && v.cfg.Some? && v.gateway.Some? && v.id.Some?
    ensures trace == [m] && (r == Ok ==> StatusBecame(route, before, after, PhaseFailed, DNSEndpointGenerationFailed))
  {}

  /** Exactly the endpoints with the three labels of the route, in its namespace, are gone. */
  ghost predicate EmptiedExactly(route: Key, m: Endpoints, m': Endpoints) {
    forall k: Key ::
      Lookup(m', k) ==
      if k in m && k.ns == route.ns && ManagedBy in m[k].labels && m[k].labels[ManagedBy] == "service-router-operator"
         && ServiceRoute in m[k].labels && m[k].labels[ServiceRoute] == route.name
         && SourceNamespace in m[k].labels && m[k].labels[SourceNamespace] == route.ns
      then None else Lookup(m, k)
  }

  /** A deleted route, or one under an inactive policy, loses its endpoints and no others. */
  lemma WithdrawnRouteIsEmptied(route: Key, v: View, m: Endpoints, r: Outcome, trace: seq<Endpoints>,
                                before: map<Key, Route>, after: map<Key, Route>)
    requires Promised(route, v, m, true, r, trace, before, after) && (v.route.Some? <==> route in before)
    requires v.route.None?
             || (var s := v.route.value;
                 s.serviceName != "" && s.gatewayName != "" && s.environment != "" && s.application != ""
                 && v.policy.Some? && !v.policy.value.active)
    ensures r == Ok && EmptiedExactly(route, m, trace[|trace|-1])
    ensures if v.route.None? then after == before
            else StatusBecame(route, before, after, PhasePending, DNSPolicyInactive)
  {}

  /** With everything there the route is reported active, unless a desired name is taken or a call refused;
      the status names the endpoint of the first selected controller that is configured. */
  lemma CompleteRouteIsActive(route: Key, v: View, m: Endpoints, r: Outcome, trace: seq<Endpoints>,
                              before: map<Key, Route>, after: map<Key, Route>)
    requires Promised(route, v, m, true, r, trace, before, after) && v.route.Some? && route in before
    requires var s := v.route.value;
      s.serviceName != "" && s.gatewayName != "" && s.environment != "" && s.application != ""
    requires v.policy.Some? && v.policy.value.active && v.policy.value.controllers != []
    requires v.cfg.Some? && v.gateway.Some? && v.id.Some?
    ensures r == Ok || r == AlreadyExists
    ensures r == Ok ==>
              && route in after && after[route].spec == before[route].spec
              && after[route].status.phase == PhaseActive && after[route].status.reason == ReconciliationSucceeded
              && forall j: Key | j != route :: Lookup(after, j) == Lookup(before, j)
  {}

  // ---- runs ----

  /** The endpoint carries the three labels of the route and lies in its namespace. */
  ghost predicate IsOwn(route: Key, k: Key, e: Endpoint) {
    && k.ns == route.ns
    && ManagedBy in e.labels && e.labels[ManagedBy] == "service-router-operator"
    && ServiceRoute in e.labels && e.labels[ServiceRoute] == route.name
    && SourceNamespace in e.labels && e.labels[SourceNamespace] == route.ns
  }

  /** Policy, configuration, Gateway and identity are there, and the policy is active. */
  ghost predicate AllThere(s: State, e: Event, defaultNamespace: string)
    requires e.ReconcileRoute? && e.k in s.routes
  {
    var spec := s.routes[e.k];
    var ns := if spec.gatewayNamespace == "" then defaultNamespace else spec.gatewayNamespace;
    && spec.serviceName != "" && spec.gatewayName != "" && spec.environment != "" && spec.application != ""
    && e.first.Some? && e.first.value.active && e.first.value.controllers != []
    && e.cfg.Some? && Key(ns, spec.gatewayName) in s.gateways && e.id.Some?
  }

  /** The route is complete and the policy listed for it is inactive. */
  ghost predicate IsWithdrawn(s: State, e: Event)
    requires e.ReconcileRoute? && e.k in s.routes
  {
    var spec := s.routes[e.k];
    && spec.serviceName != "" && spec.gatewayName != "" && spec.environment != "" && spec.application != ""
    && e.first.Some? && !e.first.value.active
  }

  lemma {:induction false} RunTouchesOwn(scope: Scope, desired: Endpoints, trace: seq<Endpoints>, k: Key)
    requires IsRun(scope, desired, trace) && Labelled(scope, desired) && scope.namespaces <= {scope.route.ns}
    ensures var m, m' := trace[0], trace[|trace|-1];
      Lookup(m', k) != Lookup(m, k) ==>
        && (k in m ==> IsOwn(scope.route, k, m[k]))
        && (k in m' ==> k in desired && IsOwn(scope.route, k, m'[k]))
  {
    var n := |trace| - 1;
    if n == 0 {
    } else {
      RunTouchesOwn(scope, desired, trace[..n], k);
      assert Write(scope, desired, trace[n-1], trace[n]);
    }
  }

  /** Whatever a reconciliation of a route did to an endpoint, complete or not: it was an endpoint of that
      route and still is, if it is there. It is removed only if the route is deleted, its policy inactive, or
      all objects are there; it is written only if all are. */
  lemma ChangesAreJustified(s: State, e: Event, s': State, k: Key, defaultNamespace: string)
    requires Next(s, e, s', defaultNamespace) && e.ReconcileRoute?
    requires Lookup(s'.endpoints, k) != Lookup(s.endpoints, k)
    ensures k in s.endpoints ==> IsOwn(e.k, k, s.endpoints[k])
    ensures k in s'.endpoints ==>
              IsOwn(e.k, k, s'.endpoints[k]) && e.k in s.routes && AllThere(s, e, defaultNamespace)
    ensures e.k !in s.routes || IsWithdrawn(s, e) || AllThere(s, e, defaultNamespace)
  {
    var v := ViewIn(s, e.k, e.first, e.id, e.cfg, defaultNamespace);
    var d := Decide(e.k, v);
    match d {
      case Gone => RunTouchesOwn(OwnScope(e.k), map[], e.trace, k);
      case Withdrawn => RunTouchesOwn(OwnScope(e.k), map[], e.trace, k);
      case Wanted(list) =>
        WantedIsLabelled(e.k, v);
        RunTouchesOwn(Scope(e.k, NamespacesOf(list)), ByKey(list), e.trace, k);
      case Rejected(_) =>
      case Waiting(_) =>
    }
  }

  /** Along any history: when an endpoint that nobody else removed is gone, its route was deleted, or was
      complete under an inactive policy, or had all four objects at hand. */
  lemma RemovalsAreJustified(states: seq<State>, events: seq<Event>, i: nat, k: Key, defaultNamespace: string)
    requires IsRoutingHistory(states, events, defaultNamespace) && i < |events| && !events[i].EditForeign?
    requires k in states[i].endpoints && k !in states[i+1].endpoints
    ensures var s, e := states[i], events[i];
      && e.ReconcileRoute? && IsOwn(e.k, k, s.endpoints[k])
      && (e.k !in s.routes || IsWithdrawn(s, e) || AllThere(s, e, defaultNamespace))
  {
    assert Next(states[i], events[i], states[i+1], defaultNamespace);
    if events[i].ReconcileRoute? {
      ChangesAreJustified(states[i], events[i], states[i+1], k, defaultNamespace);
    }
  }

  // ---- policies ----

  /** A policy is active only because some reconciliation since found both identity and configuration there,
      the mode known and every constraint met, and it still has the selection it was given then. */
  lemma {:induction false} ActivityIsJustified(states: seq<State>, events: seq<Event>, j: nat, k: Key,
                                               defaultNamespace: string) returns (i: nat)
    requires IsRoutingHistory(states, events, defaultNamespace) && j <= |events| && states[0].policies == map[]
    requires k in states[j].policies && states[j].policies[k].status.selection.active
    ensures i < j && events[i].ReconcilePolicy? && events[i].k == k && k in states[i].policies
    ensures events[i].id.Some? && events[i].cfg.Some? && events[i].cfg.value != []
    ensures var spec := states[i].policies[k].spec;
      && (spec.mode == "Active" || spec.mode == "RegionBound")
      && (spec.sourceRegion == "" || spec.sourceRegion == events[i].id.value.region)
      && (spec.sourceCluster == "" || spec.sourceCluster == events[i].id.value.cluster)
    ensures k in states[i+1].policies
            && states[i+1].policies[k].status.selection == states[j].policies[k].status.selection
  {
    i := j - 1;
    var s, e := states[i], events[i];
    assert Next(s, e, states[j], defaultNamespace);
    if !(k in s.policies && s.policies[k].status.selection == states[j].policies[k].status.selection) {
      PolicyStepJustified(s, e, states[j], k, defaultNamespace);
    } else {
      i := ActivityIsJustified(states, events, j - 1, k, defaultNamespace);
    }
  }

  lemma PolicyStepJustified(s: State, e: Event, s': State, k: Key, defaultNamespace: string)
    requires Next(s, e, s', defaultNamespace) && k in s'.policies && s'.policies[k].status.selection.active
    requires !(k in s.policies && s.policies[k].status.selection == s'.policies[k].status.selection)
    ensures e.ReconcilePolicy? && e.k == k && k in s.policies
    ensures e.id.Some? && e.cfg.Some? && e.cfg.value != []
    ensures var spec := s.policies[k].spec;
      && (spec.mode == "Active" || spec.mode == "RegionBound")
      && (spec.sourceRegion == "" || spec.sourceRegion == e.id.value.region)
      && (spec.sourceCluster == "" || spec.sourceCluster == e.id.value.cluster)
  {}
}
