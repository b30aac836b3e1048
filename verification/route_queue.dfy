/** The queue of the ServiceRoute controller, with a fixed identity and configuration: which routes the
    watches queue is enough, every route that is not queued has nothing left to do. */
module RouteQueue {
  import opened Objects
  import opened EndpointDiff
  import opened ServiceRouteController
  import opened DnsPolicyController
  import opened RoutingRuns

  /** What does not change along a run. */
  datatype Fixed = Fixed(id: Option<Identity>, cfg: Option<Config>, defaultNamespace: string)

  // ---- the watches ----

  /** The routes of a namespace, queued for its policies. */
  function RoutesIn(s: State, ns: string): set<Key> {
    set k | k in s.routes && k.ns == ns
  }

  /** The routes that name a Gateway. */
  function RoutesNaming(s: State, gateway: Key, defaultNamespace: string): set<Key> {
    set k | k in s.routes && GatewayKey(s.routes[k], defaultNamespace) == gateway
  }

  /** The route that owns an endpoint, if one does. */
  function OwnerOf(k: Key, e: Endpoint): set<Key> {
    if e.owner.RouteOwner? then {Key(k.ns, e.owner.route)} else {}
  }

  /** The owners of endpoints that were changed or removed. */
  ghost function OwnersOfChanged(m: Endpoints, m': Endpoints): set<Key> {
    set k, r | k in m && Lookup(m', k) != Some(m[k]) && r in OwnerOf(k, m[k]) :: r
  }

  /** What an event queues at least. A completed reconciliation takes its route from the queue, unless its
      own writes queue it again. */
  ghost function RoutesQueued(s: State, queue: set<Key>, e: Event, s': State, defaultNamespace: string): set<Key> {
    match e
    case EditPolicy(k, _) => queue + RoutesIn(s, k.ns)
    case EditRoute(k, _) => queue + {k}
    case EditGateway(k, _) => queue + RoutesNaming(s, k, defaultNamespace)
    case EditForeign => queue + OwnersOfChanged(s.endpoints, s'.endpoints)
    case ReconcilePolicy(k, _, _) => if s'.policies == s.policies then queue else queue + RoutesIn(s, k.ns)
    case ReconcileRoute(k, _, _, _, _, complete) => if complete then queue - {k} else queue
  }

  /** Whom the watches queue besides those queued already: for a policy that is edited, or changed by its own
      reconciliation, the routes of its namespace; for a Gateway the routes that name it; for a route itself;
      for an endpoint that others changed or removed the route that owns it. */
  lemma WatchesQueueExactly(s: State, queue: set<Key>, e: Event, s': State, defaultNamespace: string, r: Key)
    requires Next(s, e, s', defaultNamespace) && r !in queue
    ensures r in RoutesQueued(s, queue, e, s', defaultNamespace) <==>
            match e
            case EditPolicy(k, _) => r in s.routes && r.ns == k.ns
            case EditRoute(k, _) => r == k
            case EditGateway(g, _) =>
              && r in s.routes && s.routes[r].gatewayName == g.name
              && g.ns == if s.routes[r].gatewayNamespace == "" then defaultNamespace else s.routes[r].gatewayNamespace
            case EditForeign =>
              exists j :: j in s.endpoints && Lookup(s'.endpoints, j) != Some(s.endpoints[j])
                          && j.ns == r.ns && s.endpoints[j].owner == RouteOwner(r.name)
            case ReconcilePolicy(k, _, _) => s'.policies != s.policies && r in s.routes && r.ns == k.ns
            case ReconcileRoute(_, _, _, _, _, _) => false
  {
    if e.EditForeign? {
      if j :| j in s.endpoints && Lookup(s'.endpoints, j) != Some(s.endpoints[j])
              && j.ns == r.ns && s.endpoints[j].owner == RouteOwner(r.name) {
        assert r in OwnerOf(j, s.endpoints[j]);
      }
    }
  }

  /** One event; more may be queued at any time. */
  ghost predicate QueueStep(s: State, queue: set<Key>, e: Event, s': State, queue': set<Key>, defaultNamespace: string)
  {
    && Next(s, e, s', defaultNamespace)
    && (e.ReconcileRoute? ==> e.k in queue)
    && RoutesQueued(s, queue, e, s', defaultNamespace) <= queue'
  }

  /** A reconciliation fetches the identity and the configuration. */
  predicate FetchesFixed(e: Event, at: Fixed) {
    (e.ReconcilePolicy? || e.ReconcileRoute?) ==> e.id == at.id && e.cfg == at.cfg
  }

  /** A decision to write that is not blocked is a step when it is carried out to the end, and leaves the route
      unqueued. */
  lemma WantedStep(s: State, queue: set<Key>, k: Key, id: Option<Identity>, cfg: Option<Config>,
                   first: Option<Selection>, defaultNamespace: string) returns (e: Event)
    requires FirstPolicy(s.policies, k.ns, first) && k in queue
    requires var d := Decide(k, ViewIn(s, k, first, id, cfg, defaultNamespace));
      d.Wanted? && !Blocked(k, d, s.endpoints)
    ensures e.ReconcileRoute? && e.complete && e.k == k && e.id == id && e.cfg == cfg
    ensures var d := Decide(k, ViewIn(s, k, first, id, cfg, defaultNamespace));
      QueueStep(s, queue, e, s.(endpoints := Effect(k, d, s.endpoints)), queue - {k}, defaultNamespace)
  {
    var trace := WantedTrace(k, ViewIn(s, k, first, id, cfg, defaultNamespace), s.endpoints);
    e := ReconcileRoute(k, id, cfg, first, trace, true);
  }

  /** A namespace has at most one policy. */
  ghost predicate OnePolicyEach(policies: map<Key, Policy>) {
    forall j, k | j in policies && k in policies && j.ns == k.ns :: j == k
  }

  /** The operator starts with every route and the owner of every endpoint queued; what it wrote before may be
      there. */
  ghost predicate IsQueueStart(s: State, queue: set<Key>) {
    && AllWellFormed(s.endpoints) && InactiveIsEmpty(s.policies) && s.routes.Keys <= queue
    && forall k | k in s.endpoints :: OwnerOf(k, s.endpoints[k]) <= queue
  }

  ghost predicate IsQueueRun(states: seq<State>, queues: seq<set<Key>>, events: seq<Event>, at: Fixed) {
    && |states| == |queues| == |events| + 1
    && IsQueueStart(states[0], queues[0])
    && (forall i | 0 <= i < |events| ::
          && QueueStep(states[i], queues[i], events[i], states[i+1], queues[i+1], at.defaultNamespace)
          && FetchesFixed(events[i], at))
    && (forall i | 0 <= i <= |events| :: OnePolicyEach(states[i].policies))
  }

  // ---- nothing left to do ----

  ghost function DecisionFor(s: State, k: Key, first: Option<Selection>, at: Fixed): Decision {
    Decide(k, ViewIn(s, k, first, at.id, at.cfg, at.defaultNamespace))
  }

  /** Carrying out the decision would write nothing, and it is not blocked. */
  ghost predicate Finished(k: Key, d: Decision, m: Endpoints) {
    match d
    case Gone => Work(OwnScope(k), map[], m) == 0
    case Withdrawn => Work(OwnScope(k), map[], m) == 0
    case Wanted(list) => Work(Scope(k, NamespacesOf(list)), ByKey(list), m) == 0
    case _ => true
  }

  lemma FinishedMeans(k: Key, d: Decision, m: Endpoints)
    requires Finished(k, d, m)
    ensures Effect(k, d, m) == m && !Blocked(k, d, m)
  {
    match d {
      case Gone => PurgedIsGoal(k, m);
        Settled(OwnScope(k), map[], m);
      case Withdrawn => PurgedIsGoal(k, m);
        Settled(OwnScope(k), map[], m);
      case Wanted(list) => Settled(Scope(k, NamespacesOf(list)), ByKey(list), m);
      case Rejected(_) =>
      case Waiting(_) =>
    }
  }

  /** Carried out, a decision is finished. */
  lemma EffectIsFinished(k: Key, v: View, m: Endpoints)
    requires !Blocked(k, Decide(k, v), m)
    ensures Finished(k, Decide(k, v), Effect(k, Decide(k, v), m))
  {
    var d := Decide(k, v);
    match d {
      case Gone => PurgedIsGoal(k, m);
        GoalSettles(OwnScope(k), map[], m);
      case Withdrawn => PurgedIsGoal(k, m);
        GoalSettles(OwnScope(k), map[], m);
      case Wanted(list) => WantedIsLabelled(k, v);
        GoalSettles(Scope(k, NamespacesOf(list)), ByKey(list), m);
      case Rejected(_) =>
      case Waiting(_) =>
    }
  }

  /** The endpoints of the route are the same in both stores. */
  ghost predicate SameOwn(k: Key, m: Endpoints, m': Endpoints) {
    && (forall j | j in m && BelongsTo(k, m[j].labels) :: j in m' && m'[j] == m[j])
    && (forall j | j in m' && BelongsTo(k, m'[j].labels) :: j in m && m'[j] == m[j])
  }

  lemma SameOwnKeepsWork(scope: Scope, desired: Endpoints, m: Endpoints, m': Endpoints)
    requires SameOwn(scope.route, m, m') && Work(scope, desired, m) == 0
    ensures Work(scope, desired, m') == 0
  {
    assert Missing(scope, desired, m) == {} && Stale(scope, desired, m) == {};
    forall j | j in desired ensures Held(scope, desired, m', j) {
      assert j !in Missing(scope, desired, m);
    }
    forall j | j in m' && Selects(scope, j, m'[j]) ensures j in desired {
      assert j !in Stale(scope, desired, m);
    }
    assert Missing(scope, desired, m') == {};
    assert Stale(scope, desired, m') == {};
  }

  lemma SameOwnKeepsFinished(k: Key, d: Decision, m: Endpoints, m': Endpoints)
    requires SameOwn(k, m, m') && Finished(k, d, m)
    ensures Finished(k, d, m')
  {
    match d {
      case Gone => SameOwnKeepsWork(OwnScope(k), map[], m, m');
      case Withdrawn => SameOwnKeepsWork(OwnScope(k), map[], m, m');
      case Wanted(list) => SameOwnKeepsWork(Scope(k, NamespacesOf(list)), ByKey(list), m, m');
      case Rejected(_) =>
      case Waiting(_) =>
    }
  }

  // ---- other routes do not interfere ----

  lemma {:induction false} RunKeepsOthers(scope: Scope, desired: Endpoints, trace: seq<Endpoints>, k: Key)
    requires IsRun(scope, desired, trace) && k != scope.route
    requires forall j | j in desired :: BelongsTo(scope.route, desired[j].labels)
    ensures SameOwn(k, trace[0], trace[|trace|-1])
  {
    var n := |trace| - 1;
    if n == 0 {
    } else {
      RunKeepsOthers(scope, desired, trace[..n], k);
      assert Write(scope, desired, trace[n-1], trace[n]);
      WriteKeepsOthers(scope, desired, trace[n-1], trace[n], k);
    }
  }

  lemma WriteKeepsOthers(scope: Scope, desired: Endpoints, m: Endpoints, m': Endpoints, k: Key)
    requires Write(scope, desired, m, m') && k != scope.route
    requires forall j | j in desired :: BelongsTo(scope.route, desired[j].labels)
    ensures SameOwn(k, m, m')
  {}

  /** Whatever one route's reconciliation wrote, complete or not, the endpoints of another are the same. */
  lemma DecisionKeepsOthers(j: Key, v: View, trace: seq<Endpoints>, k: Key)
    requires RunOf(j, Decide(j, v), trace) && k != j
    ensures SameOwn(k, trace[0], trace[|trace|-1])
  {
    var d := Decide(j, v);
    match d {
      case Gone => RunKeepsOthers(OwnScope(j), map[], trace, k);
      case Withdrawn => RunKeepsOthers(OwnScope(j), map[], trace, k);
      case Wanted(list) => DesiredIsWellFormed(j, v);
        RunKeepsOthers(Scope(j, NamespacesOf(list)), ByKey(list), trace, k);
      case Rejected(_) =>
      case Waiting(_) =>
    }
  }

  /** The owner of a route endpoint is its route. */
  lemma OwnerIsRoute(m: Endpoints, j: Key, k: Key)
    requires AllWellFormed(m) && j in m && BelongsTo(k, m[j].labels)
    ensures k in OwnerOf(j, m[j])
  {
    assert WellFormed(j, m[j]);
  }

  /** Nor do others, without the route being queued. */
  lemma ForeignKeepsUnqueued(m: Endpoints, m': Endpoints, k: Key)
    requires AllWellFormed(m) && k !in OwnersOfChanged(m, m')
    requires forall j | j in m' :: Lookup(m, j) == Some(m'[j]) || !RouteEndpoint(m'[j])
    ensures SameOwn(k, m, m')
  {
    forall j | j in m && BelongsTo(k, m[j].labels) ensures j in m' && m'[j] == m[j] {
      OwnerIsRoute(m, j, k);
      assert Lookup(m', j) == Some(m[j]);
    }
    forall j | j in m' && BelongsTo(k, m'[j].labels) ensures j in m && m'[j] == m[j] {
      assert Lookup(m, j) == Some(m'[j]);
    }
  }

  // ---- the invariant ----

  /** A route that is not queued is finished, whichever policy of the namespace is listed first. */
  ghost predicate Idle(s: State, k: Key, at: Fixed) {
    forall first | FirstPolicy(s.policies, k.ns, first) :: Finished(k, DecisionFor(s, k, first, at), s.endpoints)
  }

  ghost predicate QueueInvariant(s: State, queue: set<Key>, at: Fixed) {
    && AllWellFormed(s.endpoints) && InactiveIsEmpty(s.policies)
    && forall k | k !in queue :: Idle(s, k, at)
  }

  /** What the decision for a route depends on. */
  ghost predicate SameView(s: State, s': State, k: Key, at: Fixed) {
    && Lookup(s'.routes, k) == Lookup(s.routes, k)
    && (k in s.routes ==>
          && (forall first :: FirstPolicy(s'.policies, k.ns, first) <==> FirstPolicy(s.policies, k.ns, first))
          && (var g := GatewayKey(s.routes[k], at.defaultNamespace); Lookup(s'.gateways, g) == Lookup(s.gateways, g)))
  }

  lemma SameViewKeepsIdle(s: State, s': State, k: Key, at: Fixed)
    requires Idle(s, k, at) && SameView(s, s', k, at) && SameOwn(k, s.endpoints, s'.endpoints)
    ensures Idle(s', k, at)
  {
    forall first | FirstPolicy(s'.policies, k.ns, first)
      ensures Finished(k, DecisionFor(s', k, first, at), s'.endpoints)
    {
      if k in s.routes {
        assert DecisionFor(s', k, first, at) == DecisionFor(s, k, first, at);
        SameOwnKeepsFinished(k, DecisionFor(s, k, first, at), s.endpoints, s'.endpoints);
      } else {
        var any := SomeFirst(s.policies, k.ns);
        assert DecisionFor(s', k, first, at) == Gone == DecisionFor(s, k, any, at);
        SameOwnKeepsFinished(k, Gone, s.endpoints, s'.endpoints);
      }
    }
  }

  lemma SomeFirst(policies: map<Key, Policy>, ns: string) returns (first: Option<Selection>)
    ensures FirstPolicy(policies, ns, first)
  {
    if k :| k in policies && k.ns == ns {
      first := Some(policies[k].status.selection);
    } else {
      first := None;
    }
  }

  lemma OnlyFirst(policies: map<Key, Policy>, ns: string, a: Option<Selection>, b: Option<Selection>)
    requires OnePolicyEach(policies) && FirstPolicy(policies, ns, a) && FirstPolicy(policies, ns, b)
    ensures a == b
  {}

  /** A completed reconciliation leaves its route idle. */
  lemma CompletedIsIdle(s: State, e: Event, s': State, at: Fixed)
    requires Next(s, e, s', at.defaultNamespace) && e.ReconcileRoute? && e.complete
    requires e.id == at.id && e.cfg == at.cfg && OnePolicyEach(s.policies)
    ensures Idle(s', e.k, at)
  {
    var v := ViewIn(s, e.k, e.first, at.id, at.cfg, at.defaultNamespace);
    EffectIsFinished(e.k, v, s.endpoints);
    forall first | FirstPolicy(s'.policies, e.k.ns, first)
      ensures Finished(e.k, DecisionFor(s', e.k, first, at), s'.endpoints)
    {
      OnlyFirst(s.policies, e.k.ns, first, e.first);
    }
  }

  lemma PolicyStepKeepsView(s: State, e: Event, s': State, k: Key, at: Fixed)
    requires Next(s, e, s', at.defaultNamespace) && (e.EditPolicy? || e.ReconcilePolicy?)
    requires k in s.routes && e.k.ns == k.ns ==> s'.policies == s.policies
    ensures SameView(s, s', k, at)
  {
    if k in s.routes && e.k.ns != k.ns {
      forall j: Key | j.ns == k.ns ensures Lookup(s'.policies, j) == Lookup(s.policies, j) {
        assert j != e.k;
      }
      SameFirst(s.policies, s'.policies, k.ns);
    }
  }

  lemma SameFirst(policies: map<Key, Policy>, policies': map<Key, Policy>, ns: string)
    requires forall j: Key | j.ns == ns :: Lookup(policies', j) == Lookup(policies, j)
    ensures forall first :: FirstPolicy(policies', ns, first) <==> FirstPolicy(policies, ns, first)
  {}

  lemma StepKeepsIdle(s: State, queue: set<Key>, e: Event, s': State, queue': set<Key>, k: Key, at: Fixed)
    requires QueueStep(s, queue, e, s', queue', at.defaultNamespace) && OnePolicyEach(s.policies)
    requires AllWellFormed(s.endpoints) && k !in queue' && (k !in queue ==> Idle(s, k, at))
    requires e.ReconcileRoute? && e.k == k ==> FetchesFixed(e, at)
    ensures Idle(s', k, at)
  {
    if e.ReconcileRoute? {
      if e.k == k {
        CompletedIsIdle(s, e, s', at);
      } else {
        DecisionKeepsOthers(e.k, ViewIn(s, e.k, e.first, e.id, e.cfg, at.defaultNamespace), e.trace, k);
        SameViewKeepsIdle(s, s', k, at);
      }
    } else if e.EditForeign? {
      ForeignKeepsUnqueued(s.endpoints, s'.endpoints, k);
      SameViewKeepsIdle(s, s', k, at);
    } else {
      if e.EditPolicy? || e.ReconcilePolicy? {
        PolicyStepKeepsView(s, e, s', k, at);
      }
      SameViewKeepsIdle(s, s', k, at);
    }
  }

  lemma {:induction false} InvHolds(states: seq<State>, queues: seq<set<Key>>, events: seq<Event>, at: Fixed, i: nat)
    requires IsQueueRun(states, queues, events, at) && i <= |events|
    ensures QueueInvariant(states[i], queues[i], at)
  {
    if i == 0 {
      StartIsIdle(states[0], queues[0], at);
    } else {
      InvHolds(states, queues, events, at, i - 1);
      NextKeepsInvariant(states[i-1], events[i-1], states[i], at.defaultNamespace);
      forall k | k !in queues[i] ensures Idle(states[i], k, at) {
        StepKeepsIdle(states[i-1], queues[i-1], events[i-1], states[i], queues[i], k, at);
      }
    }
  }

  lemma StartIsIdle(s: State, queue: set<Key>, at: Fixed)
    requires IsQueueStart(s, queue)
    ensures QueueInvariant(s, queue, at)
  {
    forall k | k !in queue ensures Idle(s, k, at) {
      forall j | j in s.endpoints ensures !BelongsTo(k, s.endpoints[j].labels) {
        if BelongsTo(k, s.endpoints[j].labels) {
          OwnerIsRoute(s.endpoints, j, k);
        }
      }
      assert Missing(OwnScope(k), map[], s.endpoints) == {} && Stale(OwnScope(k), map[], s.endpoints) == {};
    }
  }

  /** At every moment of every run, a route that is not queued has nothing left to do: reconciling it would
      change no endpoint, and no name it desires is taken. That holds for deleted routes too. */
  lemma UnqueuedIsFinished(states: seq<State>, queues: seq<set<Key>>, events: seq<Event>, at: Fixed, i: nat, k: Key,
                           first: Option<Selection>)
    requires IsQueueRun(states, queues, events, at) && i <= |events| && k !in queues[i]
    requires FirstPolicy(states[i].policies, k.ns, first)
    ensures var d := DecisionFor(states[i], k, first, at);
      Finished(k, d, states[i].endpoints)
      && Effect(k, d, states[i].endpoints) == states[i].endpoints && !Blocked(k, d, states[i].endpoints)
  {
    InvHolds(states, queues, events, at, i);
    assert Idle(states[i], k, at);
    FinishedMeans(k, DecisionFor(states[i], k, first, at), states[i].endpoints);
  }
}
