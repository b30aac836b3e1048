/** Runs of the DNSPolicy and ServiceRoute controllers over one cluster: user edits and reconciliations
    in any order, each with whatever identity and configuration Fetch returned at that moment, and route
    reconciliations that may stop after any write. */
module RoutingRuns {
  import opened Objects
  import opened ApiServer
  import opened EndpointDiff
  import opened ServiceRouteController
  import opened DnsPolicyController

  datatype State = State(
    policies: map<Key, Policy>, routes: map<Key, RouteSpec>, gateways: map<Key, GatewaySpec>, endpoints: Endpoints)

  datatype Event =
    | EditPolicy(k: Key, policySpec: Option<PolicySpec>)
    | EditRoute(k: Key, routeSpec: Option<RouteSpec>)
    | EditGateway(k: Key, gatewaySpec: Option<GatewaySpec>)
    | EditForeign  // others remove endpoints, or write ones that belong to no route, whatever was there
    | ReconcilePolicy(k: Key, id: Option<Identity>, cfg: Option<Config>)
    | ReconcileRoute(k: Key, id: Option<Identity>, cfg: Option<Config>, first: Option<Selection>,
                     trace: seq<Endpoints>, complete: bool)

  /** A user edit of a policy keeps its status; a new policy has none. */
  function EditedPolicy(policies: map<Key, Policy>, k: Key, spec: PolicySpec): Policy {
    Policy(spec, if k in policies then policies[k].status else FRESH_POLICY_STATUS)
  }

  predicate RouteEndpoint(e: Endpoint) {
    Carries(e.labels, ManagedBy, OPERATOR) && ServiceRoute in e.labels && SourceNamespace in e.labels
  }

  function ViewIn(s: State, k: Key, first: Option<Selection>, id: Option<Identity>, cfg: Option<Config>,
                  defaultNamespace: string): View {
    var spec := Lookup(s.routes, k);
    View(spec, first, cfg,
         if spec.Some? then Lookup(s.gateways, GatewayKey(spec.value, defaultNamespace)) else None, id)
  }

  ghost predicate RouteStep(s: State, e: Event, endpoints: Endpoints, defaultNamespace: string)
    requires e.ReconcileRoute?
  {
    var d := Decide(e.k, ViewIn(s, e.k, e.first, e.id, e.cfg, defaultNamespace));
    && FirstPolicy(s.policies, e.k.ns, e.first)
    && RunOf(e.k, d, e.trace) && e.trace[0] == s.endpoints && e.trace[|e.trace|-1] == endpoints
    && (e.complete ==> !Blocked(e.k, d, s.endpoints) && endpoints == Effect(e.k, d, s.endpoints))
  }

  ghost predicate Next(s: State, e: Event, s': State, defaultNamespace: string) {
    match e
    case EditPolicy(k, spec) =>
      s' == s.(policies := Edited(s.policies, k,
                                  if spec.None? then None else Some(EditedPolicy(s.policies, k, spec.value))))
    case EditRoute(k, spec) => s' == s.(routes := Edited(s.routes, k, spec))
    case EditGateway(k, spec) => s' == s.(gateways := Edited(s.gateways, k, spec))
    case EditForeign =>
      && s' == s.(endpoints := s'.endpoints)
      && forall k | k in s'.endpoints ::
           Lookup(s.endpoints, k) == Some(s'.endpoints[k]) || !RouteEndpoint(s'.endpoints[k])
    case ReconcilePolicy(k, id, cfg) =>
      s' == s.(policies := if k in s.policies then s.policies[k := Reconciled(s.policies[k], id, cfg)] else s.policies)
    case ReconcileRoute(_, _, _, _, _, _) =>
      s' == s.(endpoints := s'.endpoints) && RouteStep(s, e, s'.endpoints, defaultNamespace)
  }

  /** What the controller's reconciliation of a route promises is a step of such a run, complete when it
      ended well and no call was refused. */
  lemma ReconciliationIsStep(s: State, k: Key, id: Option<Identity>, cfg: Option<Config>, first: Option<Selection>,
                             trace: seq<Endpoints>, clean: bool, r: Outcome, defaultNamespace: string,
                             before: map<Key, Route>, after: map<Key, Route>)
    requires FirstPolicy(s.policies, k.ns, first) && |trace| > 0
    requires Promised(k, ViewIn(s, k, first, id, cfg, defaultNamespace), s.endpoints, clean, r, trace, before, after)
    ensures Next(s, ReconcileRoute(k, id, cfg, first, trace, clean && r == Ok), s.(endpoints := trace[|trace|-1]),
                 defaultNamespace)
  {}

  /** A decision to write that is not blocked can be carried out to the end. */
  lemma WantedTrace(k: Key, v: View, m: Endpoints) returns (trace: seq<Endpoints>)
    requires Decide(k, v).Wanted? && !Blocked(k, Decide(k, v), m)
    ensures RunOf(k, Decide(k, v), trace) && trace[0] == m && trace[|trace|-1] == Effect(k, Decide(k, v), m)
  {
    var list := Decide(k, v).list;
    WantedIsLabelled(k, v);
    trace := CompleteRun(Scope(k, NamespacesOf(list)), ByKey(list), [m]);
    CompletedRun(Scope(k, NamespacesOf(list)), ByKey(list), trace);
  }

  ghost predicate IsRoutingHistory(states: seq<State>, events: seq<Event>, defaultNamespace: string) {
    && |states| == |events| + 1
    && forall i | 0 <= i < |events| :: Next(states[i], events[i], states[i+1], defaultNamespace)
  }

  // ---- well-formedness ----

  /** An endpoint of a route lives in the route's namespace, is named after its own labels, is annotated
      for its own region, and holds one CNAME with one target. */
  ghost predicate WellFormed(k: Key, e: Endpoint) {
    && RouteEndpoint(e) && Controller in e.labels && Region in e.labels
    && k == EndpointKey(Key(e.labels[SourceNamespace], e.labels[ServiceRoute]), e.labels[Controller])
    && e.annotation == Some("external-dns-" + e.labels[Region])
    && |e.spec| == 1 && e.spec[0].recordType == CNAME && |e.spec[0].targets| == 1
    && e.owner == RouteOwner(e.labels[ServiceRoute])
  }

  ghost predicate AllWellFormed(m: Endpoints) {
    forall k | k in m && RouteEndpoint(m[k]) :: WellFormed(k, m[k])
  }

  ghost predicate InactiveIsEmpty(policies: map<Key, Policy>) {
    forall k | k in policies :: !policies[k].status.selection.active ==> policies[k].status.selection.controllers == []
  }

  /** Every endpoint is well-formed and belongs to the route. */
  ghost predicate WellFormedFor(route: Key, desired: Endpoints) {
    forall k | k in desired :: WellFormed(k, desired[k]) && BelongsTo(route, desired[k].labels)
  }

  /** What is desired is well-formed and belongs to the route it is desired for. */
  lemma DesiredIsWellFormed(route: Key, v: View)
    requires Decide(route, v).Wanted?
    ensures WellFormedFor(route, ByKey(Decide(route, v).list))
  {
    ControllerMapMeaning(v.cfg.value);
    BuildAllIsDesired(route, ControllerMap(v.cfg.value), v.policy.value.controllers,
                      HostsOf(v.route.value, v.gateway.value, v.id.value));
    BuiltIsWellFormed(route, ControllerMap(v.cfg.value), Names(v.policy.value.controllers),
                      HostsOf(v.route.value, v.gateway.value, v.id.value));
  }

  lemma BuiltIsWellFormed(route: Key, controllers: map<string, ExternalDns>, names: set<string>, hosts: Hosts)
    requires forall n | n in controllers :: controllers[n].name == n
    ensures WellFormedFor(route, Desired(route, controllers, names, hosts))
  {
    var desired := Desired(route, controllers, names, hosts);
    forall k | k in desired ensures WellFormed(k, desired[k]) && BelongsTo(route, desired[k].labels) {
      var n :| n in names && n in controllers && k == EndpointKey(route, n);
      KeyNamesController(route, n);
    }
  }

  lemma {:induction false} RunKeepsWellFormed(scope: Scope, desired: Endpoints, trace: seq<Endpoints>)
    requires IsRun(scope, desired, trace) && AllWellFormed(trace[0])
    requires WellFormedFor(scope.route, desired)
    ensures AllWellFormed(trace[|trace|-1])
  {
    var n := |trace| - 1;
    if n == 0 {
    } else {
      RunKeepsWellFormed(scope, desired, trace[..n]);
      var m, m' := trace[n-1], trace[n];
      assert Write(scope, desired, m, m');
      forall k | k in m' && RouteEndpoint(m'[k]) ensures WellFormed(k, m'[k]) {
        if k !in m || m'[k] != m[k] {
          assert k in desired && m'[k] == Written(m, k, desired[k]);
          if k in m {
            assert Selects(scope, k, m[k]);
            assert WellFormed(k, m[k]);
          }
        }
      }
    }
  }

  lemma DecisionKeepsWellFormed(route: Key, v: View, trace: seq<Endpoints>)
    requires RunOf(route, Decide(route, v), trace) && AllWellFormed(trace[0])
    ensures AllWellFormed(trace[|trace|-1])
  {
    var d := Decide(route, v);
    match d {
      case Gone => RunKeepsWellFormed(OwnScope(route), map[], trace);
      case Withdrawn => RunKeepsWellFormed(OwnScope(route), map[], trace);
      case Wanted(list) =>
        DesiredIsWellFormed(route, v);
        RunKeepsWellFormed(Scope(route, NamespacesOf(list)), ByKey(list), trace);
      case Rejected(_) =>
      case Waiting(_) =>
    }
  }

  lemma NextKeepsInvariant(s: State, e: Event, s': State, defaultNamespace: string)
    requires Next(s, e, s', defaultNamespace) && AllWellFormed(s.endpoints) && InactiveIsEmpty(s.policies)
    ensures AllWellFormed(s'.endpoints) && InactiveIsEmpty(s'.policies)
  {
    if e.ReconcileRoute? {
      DecisionKeepsWellFormed(e.k, ViewIn(s, e.k, e.first, e.id, e.cfg, defaultNamespace), e.trace);
    } else if e.EditForeign? {
      forall k | k in s'.endpoints && RouteEndpoint(s'.endpoints[k]) ensures WellFormed(k, s'.endpoints[k]) {
        assert Lookup(s.endpoints, k) == Some(s'.endpoints[k]);
      }
    }
  }

  /** Every store reachable from one without endpoints and policies is well-formed, and there every
      inactive policy has no controllers: under any edits, any configuration and any cut-off run. */
  lemma ReachableStoresAreWellFormed(states: seq<State>, events: seq<Event>, i: nat, defaultNamespace: string)
    requires IsRoutingHistory(states, events, defaultNamespace) && i <= |events|
    requires states[0].endpoints == map[] && states[0].policies == map[]
    ensures AllWellFormed(states[i].endpoints) && InactiveIsEmpty(states[i].policies)
  {
    InvariantAlong(states, events, i, defaultNamespace);
  }

  lemma {:induction false} InvariantAlong(states: seq<State>, events: seq<Event>, i: nat, defaultNamespace: string)
    requires IsRoutingHistory(states, events, defaultNamespace) && i <= |events|
    requires AllWellFormed(states[0].endpoints) && InactiveIsEmpty(states[0].policies)
    ensures AllWellFormed(states[i].endpoints) && InactiveIsEmpty(states[i].policies)
  {
    if i == 0 {
    } else {
      InvariantAlong(states, events, i - 1, defaultNamespace);
      NextKeepsInvariant(states[i-1], events[i-1], states[i], defaultNamespace);
    }
  }

  /** In a well-formed store a namespace, route and controller have at most one endpoint. */
  lemma OneEndpointPerController(m: Endpoints, j: Key, k: Key)
    requires AllWellFormed(m) && j in m && k in m && RouteEndpoint(m[j]) && RouteEndpoint(m[k])
    requires Label(m[j].labels, SourceNamespace) == Label(m[k].labels, SourceNamespace)
    requires Label(m[j].labels, ServiceRoute) == Label(m[k].labels, ServiceRoute)
    requires Label(m[j].labels, Controller) == Label(m[k].labels, Controller)
    ensures j == k
  {}

  // ---- an inactive policy drains its namespace ----

  ghost predicate NoEndpoints(route: Key, m: Endpoints) {
    forall k | k in m :: !BelongsTo(route, m[k].labels)
  }

  /** The namespace has one policy, and that is inactive. */
  ghost predicate Inactive(s: State, policy: Key, spec: PolicySpec) {
    && policy in s.policies
    && s.policies[policy].spec == spec && !s.policies[policy].status.selection.active
    && forall k | k in s.policies && k.ns == policy.ns :: k == policy
  }

  /** While the mismatch holds nobody edits policies of the namespace, and no identity the policy is
      reconciled with satisfies its source constraint. Everything else may happen. */
  ghost predicate Mismatch(policy: Key, spec: PolicySpec, e: Event) {
    && (e.EditPolicy? ==> e.k.ns != policy.ns)
    && (e.ReconcilePolicy? && e.k == policy && e.id.Some? ==> !Applies(spec, e.id.value))
  }

  /** The event brings a route of the namespace to completion, and the route is valid or deleted. */
  ghost predicate Drains(s: State, policy: Key, e: Event) {
    && e.ReconcileRoute? && e.complete && e.k.ns == policy.ns
    && (e.k in s.routes ==> ValidRoute(s.routes[e.k]))
  }

  /** One step of the policy makes it inactive, whatever it was. */
  lemma MismatchDeactivates(s: State, policy: Key, id: Identity, cfg: Config, s': State, defaultNamespace: string)
    requires Next(s, ReconcilePolicy(policy, Some(id), Some(cfg)), s', defaultNamespace)
    requires policy in s.policies && (forall k | k in s.policies && k.ns == policy.ns :: k == policy)
    requires ValidPolicy(s.policies[policy].spec, cfg) && !Applies(s.policies[policy].spec, id)
    ensures Inactive(s', policy, s.policies[policy].spec) && s'.endpoints == s.endpoints
    ensures s'.policies[policy].status.selection.controllers == []
  {}

  lemma {:induction false} RunKeepsAbsent(scope: Scope, desired: Endpoints, trace: seq<Endpoints>, route: Key)
    requires IsRun(scope, desired, trace) && NoEndpoints(route, trace[0])
    requires desired == map[] || (scope.route != route && WellFormedFor(scope.route, desired))
    ensures NoEndpoints(route, trace[|trace|-1])
  {
    var n := |trace| - 1;
    if n == 0 {
    } else {
      RunKeepsAbsent(scope, desired, trace[..n], route);
      assert Write(scope, desired, trace[n-1], trace[n]);
    }
  }

  /** Reconciling one route gives no endpoint to another. */
  lemma DecisionKeepsAbsent(k: Key, v: View, trace: seq<Endpoints>, route: Key)
    requires RunOf(k, Decide(k, v), trace) && NoEndpoints(route, trace[0])
    requires Decide(k, v).Wanted? ==> k != route
    ensures NoEndpoints(route, trace[|trace|-1])
  {
    var d := Decide(k, v);
    match d {
      case Gone => RunKeepsAbsent(OwnScope(k), map[], trace, route);
      case Withdrawn => RunKeepsAbsent(OwnScope(k), map[], trace, route);
      case Wanted(list) =>
        DesiredIsWellFormed(k, v);
        RunKeepsAbsent(Scope(k, NamespacesOf(list)), ByKey(list), trace, route);
      case Rejected(_) =>
      case Waiting(_) =>
    }
  }

  lemma StepKeepsDrained(s: State, e: Event, s': State, policy: Key, spec: PolicySpec, route: Key,
                         defaultNamespace: string)
    requires Next(s, e, s', defaultNamespace) && Inactive(s, policy, spec) && Mismatch(policy, spec, e)
    requires route.ns == policy.ns && NoEndpoints(route, s.endpoints)
    ensures NoEndpoints(route, s'.endpoints)
  {
    if e.ReconcileRoute? {
      DecisionKeepsAbsent(e.k, ViewIn(s, e.k, e.first, e.id, e.cfg, defaultNamespace), e.trace, route);
    } else if e.EditForeign? {
      forall k | k in s'.endpoints ensures !BelongsTo(route, s'.endpoints[k].labels) {
        assert Lookup(s.endpoints, k) == Some(s'.endpoints[k]) || !RouteEndpoint(s'.endpoints[k]);
      }
    }
  }

  lemma StepKeepsInactive(s: State, e: Event, s': State, policy: Key, spec: PolicySpec, defaultNamespace: string)
    requires Next(s, e, s', defaultNamespace) && Inactive(s, policy, spec) && Mismatch(policy, spec, e)
    ensures Inactive(s', policy, spec)
  {}

  lemma StepDrains(s: State, e: Event, s': State, policy: Key, spec: PolicySpec, defaultNamespace: string)
    requires Next(s, e, s', defaultNamespace) && Inactive(s, policy, spec) && Drains(s, policy, e)
    requires AllWellFormed(s.endpoints)
    ensures NoEndpoints(e.k, s'.endpoints)
    ensures forall k | k in s.endpoints && !BelongsTo(e.k, s.endpoints[k].labels) ::
              k in s'.endpoints && s'.endpoints[k] == s.endpoints[k]
  {
    var d := Decide(e.k, ViewIn(s, e.k, e.first, e.id, e.cfg, defaultNamespace));
    assert d.Gone? || d.Withdrawn?;
    forall k | k in s'.endpoints ensures !BelongsTo(e.k, s'.endpoints[k].labels) {
      assert RouteEndpoint(s.endpoints[k]) ==> WellFormed(k, s.endpoints[k]);
    }
  }

  /** Only validity stands in the way: a completed reconciliation leaves a route of the namespace without
      endpoints exactly when it is valid or deleted, or had none. An invalid route is rejected before its
      policy is looked at. */
  lemma DrainsExactly(s: State, e: Event, s': State, policy: Key, spec: PolicySpec, defaultNamespace: string)
    requires Next(s, e, s', defaultNamespace) && Inactive(s, policy, spec) && AllWellFormed(s.endpoints)
    requires e.ReconcileRoute? && e.complete && e.k.ns == policy.ns
    ensures NoEndpoints(e.k, s'.endpoints) <==>
            (e.k in s.routes ==> ValidRoute(s.routes[e.k])) || NoEndpoints(e.k, s.endpoints)
  {}

  /** A history from an inactive policy in which the mismatch lasts. */
  ghost predicate MismatchHistory(states: seq<State>, events: seq<Event>, policy: Key, spec: PolicySpec,
                                  defaultNamespace: string) {
    && IsRoutingHistory(states, events, defaultNamespace)
    && AllWellFormed(states[0].endpoints) && InactiveIsEmpty(states[0].policies)
    && Inactive(states[0], policy, spec)
    && forall j | 0 <= j < |events| :: Mismatch(policy, spec, events[j])
  }

  lemma {:induction false} InactiveAlong(states: seq<State>, events: seq<Event>, policy: Key, spec: PolicySpec, i: nat,
                                         defaultNamespace: string)
    requires MismatchHistory(states, events, policy, spec, defaultNamespace) && i <= |events|
    ensures Inactive(states[i], policy, spec)
  {
    if i == 0 {
    } else {
      InactiveAlong(states, events, policy, spec, i - 1, defaultNamespace);
      StepKeepsInactive(states[i-1], events[i-1], states[i], policy, spec, defaultNamespace);
    }
  }

  /** Once a valid or deleted route of the namespace is reconciled to completion, it has no endpoint, at
      that moment and ever after, whatever else is edited and reconciled while the mismatch lasts. */
  lemma {:induction false} DrainedForever(states: seq<State>, events: seq<Event>, policy: Key, spec: PolicySpec,
                                          i: nat, j: nat, defaultNamespace: string)
    requires MismatchHistory(states, events, policy, spec, defaultNamespace)
    requires i < j <= |events| && Drains(states[i], policy, events[i])
    ensures NoEndpoints(events[i].k, states[j].endpoints)
    decreases j
  {
    InactiveAlong(states, events, policy, spec, j - 1, defaultNamespace);
    var s, e, s' := states[j-1], events[j-1], states[j];
    assert Next(s, e, s', defaultNamespace);
    if i == j - 1 {
      InvariantAlong(states, events, i, defaultNamespace);
      StepDrains(s, e, s', policy, spec, defaultNamespace);
    } else {
      DrainedForever(states, events, policy, spec, i, j - 1, defaultNamespace);
      StepKeepsDrained(s, e, s', policy, spec, events[i].k, defaultNamespace);
    }
  }
}
