/** The ServiceRoute controller beside the ClusterIdentity controller: routes are reconciled against whatever
    Fetch returns, a stale cache included, and still end up as the identity demands. */
module RouteAgreement {
  import opened Objects
  import opened EndpointDiff
  import opened ServiceRouteController
  import opened ClusterIdentityController
  import opened RoutingRuns
  import opened RouteQueue
  import Singletons = SingletonRuns
  import opened AgreementRuns

  /** The worker of the identity controller, the routing resources, and the queue of routes. */
  datatype Linked = Linked(ids: Singletons.World<Identity>, routing: State, queue: set<Key>)

  datatype LinkedEvent =
    | OfWorker(work: Singletons.Event<Identity>)
    | OfRouting(event: Event)

  /** What does not change along a run. */
  datatype Unchanging = Unchanging(cfg: Option<Config>, defaultNamespace: string)

  /** A change of a ClusterIdentity object queues every route. Setting or clearing the cache queues none. A
      reconciliation gets what Fetch returns at that moment. */
  ghost predicate LinkedStep(l: Linked, e: LinkedEvent, l': Linked, at: Unchanging) {
    match e
    case OfWorker(w) =>
      && Singletons.Enabled(l.ids, w) && l'.ids == Singletons.Step(l.ids, w, ValidIdentity)
      && l'.routing == l.routing
      && (if l'.ids.objects == l.ids.objects then l.queue else l.queue + l.routing.routes.Keys) <= l'.queue
    case OfRouting(r) =>
      && l'.ids == l.ids
      && QueueStep(l.routing, l.queue, r, l'.routing, l'.queue, at.defaultNamespace)
      && ((r.ReconcilePolicy? || r.ReconcileRoute?) ==> Singletons.Fetches(l.ids, r.id) && r.cfg == at.cfg)
  }

  ghost predicate IsLinkedRun(states: seq<Linked>, events: seq<LinkedEvent>, at: Unchanging) {
    && |states| == |events| + 1
    && Singletons.Started(states[0].ids) && IsQueueStart(states[0].routing, states[0].queue)
    && (forall i | 0 <= i < |events| :: LinkedStep(states[i], events[i], states[i+1], at))
    && (forall i | 0 <= i <= |events| :: OnePolicyEach(states[i].routing.policies))
  }

  /** What a route is measured against: the spec of an identity object. */
  function With(id: Identity, at: Unchanging): Fixed {
    Fixed(Some(id), at.cfg, at.defaultNamespace)
  }

  /** The route is idle for every valid identity object whose status is written. */
  ghost predicate IdleIfObserved(l: Linked, k: Key, at: Unchanging) {
    forall n | n in l.ids.objects && ValidIdentity(l.ids.objects[n].spec) && !Unobserved(l.ids.objects[n]) ::
      Idle(l.routing, k, With(l.ids.objects[n].spec, at))
  }

  /** A deleted route has no endpoint. */
  ghost predicate GoneIfDeleted(s: State, k: Key) {
    k !in s.routes ==> Finished(k, Gone, s.endpoints)
  }

  ghost predicate LinkedInvariant(l: Linked, at: Unchanging) {
    && Tracked(l.ids, ValidIdentity)
    && AllWellFormed(l.routing.endpoints) && InactiveIsEmpty(l.routing.policies)
    && forall k | k !in l.queue :: IdleIfObserved(l, k, at) && GoneIfDeleted(l.routing, k)
  }

  lemma GoneIsIdle(s: State, k: Key, at: Fixed)
    requires k !in s.routes && Finished(k, Gone, s.endpoints)
    ensures Idle(s, k, at)
  {}

  lemma StartKeepsLinked(l: Linked, at: Unchanging)
    requires Singletons.Started(l.ids) && |l.ids.objects| <= 1 && IsQueueStart(l.routing, l.queue)
    ensures LinkedInvariant(l, at)
  {
    StartedIsTracked(l.ids, ValidIdentity);
    forall k | k !in l.queue ensures IdleIfObserved(l, k, at) && GoneIfDeleted(l.routing, k) {
      forall j | j in l.routing.endpoints ensures !BelongsTo(k, l.routing.endpoints[j].labels) {
        if BelongsTo(k, l.routing.endpoints[j].labels) {
          OwnerIsRoute(l.routing.endpoints, j, k);
        }
      }
      assert Missing(OwnScope(k), map[], l.routing.endpoints) == {};
      assert Stale(OwnScope(k), map[], l.routing.endpoints) == {};
      forall id: Identity ensures Idle(l.routing, k, With(id, at)) {
        GoneIsIdle(l.routing, k, With(id, at));
      }
    }
  }

  /** A step of the worker: a changed object queues the routes there are, and the others are deleted. */
  lemma WorkerKeepsLinked(l: Linked, w: Singletons.Event<Identity>, l': Linked, at: Unchanging)
    requires LinkedInvariant(l, at) && LinkedStep(l, OfWorker(w), l', at) && |l'.ids.objects| <= 1
    ensures LinkedInvariant(l', at)
  {
    StepKeepsTracked(l.ids, w, ValidIdentity);
    forall k | k !in l'.queue ensures IdleIfObserved(l', k, at) && GoneIfDeleted(l'.routing, k) {
      assert IdleIfObserved(l, k, at) && GoneIfDeleted(l.routing, k);
      if l'.ids.objects != l.ids.objects {
        forall id: Identity ensures Idle(l'.routing, k, With(id, at)) {
          GoneIsIdle(l'.routing, k, With(id, at));
        }
      }
    }
  }

  /** A step of the routing resources, seen from one route that is not queued after it: whoever is observed
      is what a reconciliation fetched. */
  lemma RoutingKeepsIdle(l: Linked, e: Event, l': Linked, k: Key, n: string, at: Unchanging)
    requires LinkedInvariant(l, at) && LinkedStep(l, OfRouting(e), l', at) && OnePolicyEach(l.routing.policies)
    requires k !in l'.queue
    requires n in l.ids.objects && ValidIdentity(l.ids.objects[n].spec) && !Unobserved(l.ids.objects[n])
    ensures Idle(l'.routing, k, With(l.ids.objects[n].spec, at))
  {
    if e.ReconcilePolicy? || e.ReconcileRoute? {
      FetchesObserved(l.ids, ValidIdentity, n, e.id);
    }
    StepKeepsIdle(l.routing, l.queue, e, l'.routing, l'.queue, k, With(l.ids.objects[n].spec, at));
  }

  /** A deleted route stays without endpoints while it is not queued. */
  lemma RoutingKeepsGone(s: State, queue: set<Key>, e: Event, s': State, queue': set<Key>, k: Key,
                         defaultNamespace: string)
    requires QueueStep(s, queue, e, s', queue', defaultNamespace) && AllWellFormed(s.endpoints)
    requires k !in queue' && (k !in queue ==> GoneIfDeleted(s, k))
    ensures GoneIfDeleted(s', k)
  {
    if k !in s'.routes {
      if e.ReconcileRoute? {
        var v := ViewIn(s, e.k, e.first, e.id, e.cfg, defaultNamespace);
        if e.k == k {
          EffectIsFinished(k, v, s.endpoints);
        } else {
          DecisionKeepsOthers(e.k, v, e.trace, k);
          SameOwnKeepsFinished(k, Gone, s.endpoints, s'.endpoints);
        }
      } else if e.EditForeign? {
        ForeignKeepsUnqueued(s.endpoints, s'.endpoints, k);
        SameOwnKeepsFinished(k, Gone, s.endpoints, s'.endpoints);
      }
    }
  }

  lemma RoutingKeepsLinked(l: Linked, e: Event, l': Linked, at: Unchanging)
    requires LinkedInvariant(l, at) && LinkedStep(l, OfRouting(e), l', at) && OnePolicyEach(l.routing.policies)
    ensures LinkedInvariant(l', at)
  {
    NextKeepsInvariant(l.routing, e, l'.routing, at.defaultNamespace);
    forall k | k !in l'.queue ensures IdleIfObserved(l', k, at) && GoneIfDeleted(l'.routing, k) {
      RoutingKeepsGone(l.routing, l.queue, e, l'.routing, l'.queue, k, at.defaultNamespace);
      forall n | n in l.ids.objects && ValidIdentity(l.ids.objects[n].spec) && !Unobserved(l.ids.objects[n])
        ensures Idle(l'.routing, k, With(l.ids.objects[n].spec, at))
      {
        RoutingKeepsIdle(l, e, l', k, n, at);
      }
    }
  }

  lemma {:induction false} LinkedAlong(states: seq<Linked>, events: seq<LinkedEvent>, at: Unchanging, i: nat)
    requires IsLinkedRun(states, events, at) && i <= |events|
    requires forall j | 0 <= j <= |events| :: |states[j].ids.objects| <= 1
    ensures LinkedInvariant(states[i], at)
  {
    hide LinkedInvariant, LinkedStep;
    if i == 0 {
      StartKeepsLinked(states[0], at);
    } else {
      LinkedAlong(states, events, at, i - 1);
      match events[i-1] {
        case OfWorker(w) => WorkerKeepsLinked(states[i-1], w, states[i], at);
        case OfRouting(e) => RoutingKeepsLinked(states[i-1], e, states[i], at);
      }
    }
  }

  /** With a fixed configuration and at most one ClusterIdentity at a time: whenever the identity controller
      has nothing queued or in progress and its object is valid, every route that is not queued is as the spec
      of that object demands. Reconciling it would change no endpoint, and no name it desires is taken;
      although it may have been reconciled against a stale cache on the way, and the identity edited at any
      moment. */
  lemma RoutesAgreeWhenDrained(states: seq<Linked>, events: seq<LinkedEvent>, at: Unchanging, i: nat, n: string,
                               k: Key, first: Option<Selection>)
    requires IsLinkedRun(states, events, at) && i <= |events|
    requires forall j | 0 <= j <= |events| :: |states[j].ids.objects| <= 1
    requires states[i].ids.queue == {} && states[i].ids.worker.Idle?
    requires n in states[i].ids.objects && ValidIdentity(states[i].ids.objects[n].spec)
    requires k !in states[i].queue && FirstPolicy(states[i].routing.policies, k.ns, first)
    ensures var s := states[i].routing;
      var d := DecisionFor(s, k, first, With(states[i].ids.objects[n].spec, at));
      Finished(k, d, s.endpoints) && Effect(k, d, s.endpoints) == s.endpoints && !Blocked(k, d, s.endpoints)
  {
    LinkedAlong(states, events, at, i);
    var l := states[i];
    assert !Unobserved(l.ids.objects[n]);
    assert IdleIfObserved(l, k, at);
    var f := With(l.ids.objects[n].spec, at);
    assert Idle(l.routing, k, f);
    FinishedMeans(k, DecisionFor(l.routing, k, first, f), l.routing.endpoints);
  }
}
