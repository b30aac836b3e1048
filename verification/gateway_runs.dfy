/** Runs of the Gateway controller with a fixed identity: the Istio Gateways are an index of route hosts
    by Gateway that is maintained one queued key at a time. */
module GatewayRuns {
  import opened Objects
  import opened GatewayController

  datatype State = State(
    gateways: map<Key, GatewaySpec>, routes: map<Key, RouteSpec>, istio: map<Key, IstioGateway>, queue: set<Key>)

  /** What does not change along a run. */
  datatype Surroundings = Surroundings(id: Identity, defaultNamespace: string)

  datatype Event =
    | EditGateway(k: Key, gatewaySpec: Option<GatewaySpec>)
    | EditRoute(k: Key, routeSpec: Option<RouteSpec>)
    | CollectGarbage(k: Key)  // an Istio Gateway disappears with a former owner
    | Resync(k: Key)
    | Reconcile(k: Key, hosts: seq<string>, written: bool, ok: bool)

  function MapRoute(route: Option<RouteSpec>, defaultNamespace: string): set<Key> {
    match route
    case None => {}
    case Some(spec) => {GatewayKey(spec, defaultNamespace)}
  }

  predicate LiveGateway(s: State, k: Key) {
    k in s.gateways && ValidGateway(s.gateways[k])
  }

  function RecomputedHosts(s: State, k: Key, at: Surroundings): set<string> {
    HostSet(s.routes, k, at.id, at.defaultNamespace)
  }

  /** A reconciliation collects the hosts in any order. One that is not `ok` is retried; it may have written
      the Istio Gateway before its status was refused. */
  ghost predicate Enabled(s: State, e: Event, at: Surroundings) {
    match e
    case Reconcile(k, hosts, _, _) =>
      && k in s.queue
      && (LiveGateway(s, k) ==> NoDuplicates(hosts) && Members(hosts) == RecomputedHosts(s, k, at))
    case _ => true
  }

  function Next(s: State, e: Event, at: Surroundings): State {
    match e
    case EditGateway(k, spec) => s.(gateways := Edited(s.gateways, k, spec), queue := s.queue + {k})
    case EditRoute(k, spec) =>
      s.(routes := Edited(s.routes, k, spec),
         queue := s.queue + MapRoute(Lookup(s.routes, k), at.defaultNamespace) + MapRoute(spec, at.defaultNamespace))
    case CollectGarbage(k) => s.(istio := s.istio - {k}, queue := s.queue + {k})
    case Resync(k) => s.(queue := s.queue + {k})
    case Reconcile(k, hosts, written, ok) =>
      s.(istio := if LiveGateway(s, k) && (written || ok) then IstioWritten(s, k, hosts) else s.istio,
         queue := if ok then s.queue - {k} else s.queue)
  }

  /** A route edit queues exactly the Gateways that the route named before or names now. */
  lemma RouteEditQueuesExactly(s: State, route: Key, spec: Option<RouteSpec>, at: Surroundings, g: Key)
    ensures var named := Lookup(s.routes, route);
      g in Next(s, EditRoute(route, spec), at).queue <==>
      || g in s.queue
      || (named.Some? && named.value.gatewayName == g.name
          && g.ns == if named.value.gatewayNamespace == "" then at.defaultNamespace else named.value.gatewayNamespace)
      || (spec.Some? && spec.value.gatewayName == g.name
          && g.ns == if spec.value.gatewayNamespace == "" then at.defaultNamespace else spec.value.gatewayNamespace)
  {}

  /** The Istio Gateways with the one of a live Gateway brought to the hosts. */
  function IstioWritten(s: State, k: Key, hosts: seq<string>): map<Key, IstioGateway>
    requires k in s.gateways
  {
    Placed(s.istio, k, IstioAfter(k, s.gateways[k], hosts, Lookup(s.istio, k)))
  }

  function GatewaySpecs(gateways: map<Key, Gateway>): map<Key, GatewaySpec> {
    map k | k in gateways :: gateways[k].spec
  }

  /** What the controller's reconciliation of a Gateway promises is a step of such a run. */
  lemma ReconciliationIsStep(gateways: map<Key, Gateway>, routes: map<Key, RouteSpec>, istio: map<Key, IstioGateway>,
                             istio': map<Key, IstioGateway>, queue: set<Key>, k: Key, hosts: seq<string>, ok: bool,
                             at: Surroundings)
    requires k in queue
    requires k !in gateways ==> istio' == istio
    requires k in gateways ==>
      var g := gateways[k];
      var written := IstioMapAfter(k, g, Some(at.id), hosts, istio);
      && (ValidGateway(g.spec) ==>
            NoDuplicates(hosts) && Members(hosts) == HostSet(routes, k, at.id, at.defaultNamespace))
      && (if ok then istio' == written else istio' == istio || istio' == written)
    ensures var s := State(GatewaySpecs(gateways), routes, istio, queue);
      var e := Reconcile(k, hosts, istio' != istio, ok);
      && Enabled(s, e, at)
      && Next(s, e, at) == s.(istio := istio', queue := if ok then queue - {k} else queue)
  {}

  ghost predicate IsGatewayHistory(states: seq<State>, events: seq<Event>, at: Surroundings) {
    && |states| == |events| + 1
    && forall i | 0 <= i < |events| ::
         Enabled(states[i], events[i], at) && states[i+1] == Next(states[i], events[i], at)
  }

  /** Written by the operator for this key, with some valid spec and some duplicate-free hosts. */
  ghost predicate OperatorWritten(k: Key, g: IstioGateway) {
    exists spec: GatewaySpec, hosts: seq<string> :: NoDuplicates(hosts) && g == Generate(k, spec, hosts)
  }

  /** The entry of the index is what a full recomputation gives, up to the order of hosts. */
  ghost predicate Indexed(s: State, k: Key, at: Surroundings)
    requires k in s.gateways
  {
    if RecomputedHosts(s, k, at) == {} then k !in s.istio
    else k in s.istio && exists hosts: seq<string> ::
           && NoDuplicates(hosts) && Members(hosts) == RecomputedHosts(s, k, at)
           && s.istio[k] == Generate(k, s.gateways[k], hosts)
  }

  ghost predicate IndexInvariant(s: State, at: Surroundings) {
    && (forall k | k in s.istio :: OperatorWritten(k, s.istio[k]))
    && (forall k | LiveGateway(s, k) && k !in s.queue :: Indexed(s, k, at))
  }

  /** A route edit can only change the hosts of the Gateways it enqueues. */
  lemma EditKeepsOtherHosts(s: State, route: Key, spec: Option<RouteSpec>, k: Key, at: Surroundings)
    requires k !in MapRoute(Lookup(s.routes, route), at.defaultNamespace) + MapRoute(spec, at.defaultNamespace)
    ensures RecomputedHosts(s.(routes := Edited(s.routes, route, spec)), k, at) == RecomputedHosts(s, k, at)
  {
    var routes' := Edited(s.routes, route, spec);
    assert route in s.routes ==> GatewayKey(s.routes[route], at.defaultNamespace) != k;
    assert route in routes' ==> GatewayKey(routes'[route], at.defaultNamespace) != k;
    forall h | h in RecomputedHosts(s, k, at) ensures h in HostSet(routes', k, at.id, at.defaultNamespace) {
      var r :| r in s.routes && GatewayKey(s.routes[r], at.defaultNamespace) == k
               && SourceHost(s.routes[r], at.id) == h;
      assert r in routes' && routes'[r] == s.routes[r];
    }
    forall h | h in HostSet(routes', k, at.id, at.defaultNamespace) ensures h in RecomputedHosts(s, k, at) {
      var r :| r in routes' && GatewayKey(routes'[r], at.defaultNamespace) == k && SourceHost(routes'[r], at.id) == h;
      assert r in s.routes && routes'[r] == s.routes[r];
    }
  }

  /** Writing the entry of a key makes it right, also when the existing Istio Gateway is kept untouched. */
  lemma ReconcileIndexes(s: State, k: Key, hosts: seq<string>, at: Surroundings)
    requires IndexInvariant(s, at) && LiveGateway(s, k)
    requires NoDuplicates(hosts) && Members(hosts) == RecomputedHosts(s, k, at)
    ensures var s' := s.(istio := IstioWritten(s, k, hosts));
      Indexed(s', k, at) && (k in s'.istio ==> OperatorWritten(k, s'.istio[k]))
  {
    var s', spec := s.(istio := IstioWritten(s, k, hosts)), s.gateways[k];
    if hosts == [] {
      assert RecomputedHosts(s, k, at) == {};
    } else {
      assert hosts[0] in Members(hosts);
      if k in s.istio && !Differs(s.istio[k], Generate(k, spec, hosts)) {
        var spec', hosts' :| NoDuplicates(hosts') && s.istio[k] == Generate(k, spec', hosts');
        TestIsExact(k, spec', hosts', spec, hosts);
        SameMembers(hosts', hosts);
        assert s'.istio[k] == Generate(k, spec, hosts');
      } else {
        assert s'.istio[k] == Generate(k, spec, hosts);
      }
    }
  }

  lemma SameMembers(a: seq<string>, b: seq<string>)
    requires multiset(a) == multiset(b)
    ensures Members(a) == Members(b)
  {
    forall x ensures x in a <==> x in b {
      assert x in a <==> x in multiset(a);
    }
  }

  lemma RouteEditKeepsInv(s: State, route: Key, spec: Option<RouteSpec>, at: Surroundings)
    requires IndexInvariant(s, at)
    ensures IndexInvariant(Next(s, EditRoute(route, spec), at), at)
  {
    var s' := Next(s, EditRoute(route, spec), at);
    forall k | LiveGateway(s', k) && k !in s'.queue ensures Indexed(s', k, at) {
      EditKeepsOtherHosts(s, route, spec, k, at);
      assert Indexed(s, k, at);
    }
  }

  lemma ReconcileKeepsInv(s: State, key: Key, hosts: seq<string>, written: bool, ok: bool, at: Surroundings)
    requires IndexInvariant(s, at) && LiveGateway(s, key)
    requires NoDuplicates(hosts) && Members(hosts) == RecomputedHosts(s, key, at)
    requires key in s.queue && (written || ok)
    ensures IndexInvariant(Next(s, Reconcile(key, hosts, written, ok), at), at)
  {
    var s' := Next(s, Reconcile(key, hosts, written, ok), at);
    ReconcileIndexes(s, key, hosts, at);
    forall k | k in s'.istio ensures OperatorWritten(k, s'.istio[k]) {
      assert k != key ==> s'.istio[k] == s.istio[k];
    }
    forall k | LiveGateway(s', k) && k !in s'.queue ensures Indexed(s', k, at) {
      assert k != key ==> Indexed(s, k, at);
    }
  }

  lemma NextKeepsInv(s: State, e: Event, at: Surroundings)
    requires IndexInvariant(s, at) && Enabled(s, e, at)
    ensures IndexInvariant(Next(s, e, at), at)
  {
    var s' := Next(s, e, at);
    if e.EditRoute? {
      RouteEditKeepsInv(s, e.k, e.routeSpec, at);
    } else if e.Reconcile? && (e.written || e.ok) && LiveGateway(s, e.k) {
      ReconcileKeepsInv(s, e.k, e.hosts, e.written, e.ok, at);
    } else {
      forall k | LiveGateway(s', k) && k !in s'.queue ensures Indexed(s', k, at) {
        assert Indexed(s, k, at);
      }
    }
  }

  /** The operator starts with every Gateway queued; what it wrote before may be there. */
  ghost predicate IsIndexStart(s: State) {
    && s.gateways.Keys <= s.queue
    && forall k | k in s.istio :: OperatorWritten(k, s.istio[k])
  }

  /** At every moment of every run, each valid Gateway that is not queued has an Istio Gateway exactly
      when some route names it, and then one with its controller, its credential and exactly the hosts of
      its routes, each once. */
  lemma {:induction false} IndexAgreesWithRecompute(states: seq<State>, events: seq<Event>, at: Surroundings, i: nat)
    requires IsGatewayHistory(states, events, at) && i <= |events| && IsIndexStart(states[0])
    ensures forall k | LiveGateway(states[i], k) && k !in states[i].queue :: Indexed(states[i], k, at)
    ensures IndexInvariant(states[i], at)
  {
    if i == 0 {
    } else {
      IndexAgreesWithRecompute(states, events, at, i - 1);
      NextKeepsInv(states[i-1], events[i-1], at);
    }
  }
}
