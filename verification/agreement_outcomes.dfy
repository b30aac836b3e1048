/** What agreement with the objects comes to, once the queues are drained: which policies are active, and what
    the CNAMEs of the routes say. */
module AgreementOutcomes {
  import opened Objects
  import opened EndpointDiff
  import opened DnsPolicyController
  import opened ClusterIdentityController
  import opened DnsConfigurationController
  import Singletons = SingletonRuns
  import opened AgreementRuns
  import Routes = ServiceRouteController
  import RouteQueue
  import opened RouteAgreement
  import ServedHosts

  /** With at most one object of each kind, once all queues are drained a policy of a known mode is active
      exactly if the identity object meets every constraint it has. */
  lemma ActiveExactlyWhenDrained(states: seq<System>, changes: seq<Change>, b: Bounds, n: string, c: string, k: Key)
    requires IsAgreementRun(states, changes, b) && Drained(states[|changes|])
    requires forall j | 0 <= j <= |changes| :: Single(states[j])
    requires var s := states[|changes|];
      && n in s.ids.objects && ValidIdentity(s.ids.objects[n].spec)
      && c in s.cfgs.objects && ValidConfig(s.cfgs.objects[c].spec)
      && k in s.policies && (s.policies[k].spec.mode == "Active" || s.policies[k].spec.mode == "RegionBound")
    ensures var s := states[|changes|];
      var p, id := s.policies[k], s.ids.objects[n].spec;
      p.status.selection.active <==>
      && (p.spec.sourceRegion == "" || p.spec.sourceRegion == id.region)
      && (p.spec.sourceCluster == "" || p.spec.sourceCluster == id.cluster)
  {
    AgreesWithOneObject(states, changes, b);
    var s := states[|changes|];
    OneIsSole(s.ids, n);
    OneIsSole(s.cfgs, c);
    ActiveExactly(s.policies[k], s.ids.objects[n].spec, s.cfgs.objects[c].spec);
  }

  /** A step of either singleton worker queues every policy exactly when some object changed, and the identities
      too when the changed one is a configuration. */
  lemma WorkersQueueExactly(s: System, c: Change, k: Key)
    requires Allowed(s, c) && (c.OfIdentity? || c.OfConfig?) && k !in s.queue
    ensures var s' := Moved(s, c);
      && (k in s'.queue <==>
            k in s.policies && (s'.ids.objects != s.ids.objects || s'.cfgs.objects != s.cfgs.objects))
      && s'.policies == s.policies
      && (s'.cfgs.objects != s.cfgs.objects ==> s.ids.objects.Keys <= s'.ids.queue)
  {}

  lemma OneIsSole<S>(w: Singletons.World<S>, n: string)
    requires n in w.objects && |w.objects| <= 1
    ensures Singletons.Sole(w, n)
  {
    Singletons.SubsetSize({n}, w.objects.Keys);
  }

  /** With at most one identity, once its controller is drained every endpoint of an unqueued route that settles
      is the CNAME the identity object demands, whatever the route was reconciled with on the way. */
  lemma CnamesWhenDrained(states: seq<Linked>, events: seq<LinkedEvent>, at: Unchanging, i: nat, n: string, k: Key,
                          first: Option<Selection>, g: Key, j: Key)
    requires IsLinkedRun(states, events, at) && i <= |events|
    requires forall t | 0 <= t <= |events| :: |states[t].ids.objects| <= 1
    requires states[i].ids.queue == {} && states[i].ids.worker.Idle?
    requires n in states[i].ids.objects && ValidIdentity(states[i].ids.objects[n].spec)
    requires var s := states[i].routing;
      && k !in states[i].queue && Routes.FirstPolicy(s.policies, k.ns, first)
      && k in s.routes && ServedHosts.Settles(s.routes[k], first, at.cfg)
      && ServedHosts.NamesGateway(s.routes[k], g, at.defaultNamespace) && g in s.gateways
      && j in s.endpoints && BelongsTo(k, s.endpoints[j].labels)
    ensures var s, id := states[i].routing, states[i].ids.objects[n].spec;
      var spec := s.routes[k];
      s.endpoints[j].spec
      == [Record(spec.serviceName + "-ns-" + id.environmentLetter + "-" + spec.environment + "-" + spec.application
                 + "." + id.domain, CNAME,
                 [id.cluster + "-" + id.region + "-" + s.gateways[g].targetPostfix + "." + id.domain], 0)]
  {
    LinkedAlong(states, events, at, i);
    var l := states[i];
    assert !Unobserved(l.ids.objects[n]);
    assert IdleIfObserved(l, k, at);
    var f := With(l.ids.objects[n].spec, at);
    assert RouteQueue.Idle(l.routing, k, f);
    ServedHosts.UnqueuedCnames(l.routing, k, l.routing.routes[k], l.routing.gateways[g], first, f, j);
  }
}
