/** The DNSPolicy controller beside the two singleton controllers it reads the caches of: its policies may
    be reconciled against a stale cache, and still agree with the objects in the end. */
module AgreementRuns {
  import opened Objects
  import opened SingletonRuns
  import opened DnsPolicyController
  import opened ClusterIdentityController
  import opened DnsConfigurationController
  import opened Admission

  datatype System = System(ids: World<Identity>, cfgs: World<Config>, policies: map<Key, Policy>, queue: set<Key>)

  datatype Change =
    | OfIdentity(idEvent: Event<Identity>)
    | OfConfig(cfgEvent: Event<Config>)
    | EditPolicy(k: Key, spec: PolicySpec)
    | DeletePolicy(k: Key)
    | ResyncPolicy(k: Key)
    | ReconcilePolicy(k: Key, id: Option<Identity>, cfg: Option<Config>, ok: bool)

  /** A spec that is created or written passes the schema. */
  ghost predicate Admits<S>(e: Event<S>, admitted: S -> bool) {
    (e.Create? || e.Update?) ==> admitted(e.spec)
  }

  ghost predicate Allowed(s: System, c: Change) {
    match c
    case OfIdentity(e) => Enabled(s.ids, e) && Admits(e, AdmittedIdentity)
    case OfConfig(e) => Enabled(s.cfgs, e) && Admits(e, AdmittedConfig)
    case EditPolicy(_, _) => true
    case DeletePolicy(k) => k in s.policies
    case ResyncPolicy(_) => true
    case ReconcilePolicy(k, id, cfg, _) => k in s.queue && Fetches(s.ids, id) && Fetches(s.cfgs, cfg)
  }

  /** A change of a ClusterIdentity or DNSConfiguration object queues every policy; a status write that
      changes nothing is no change, and clearing or setting a cache is none either. */
  function PoliciesQueued(s: System, changed: bool): set<Key> {
    if changed then s.queue + s.policies.Keys else s.queue
  }

  function Moved(s: System, c: Change): System
    requires c.OfIdentity? ==> Enabled(s.ids, c.idEvent)
    requires c.OfConfig? ==> Enabled(s.cfgs, c.cfgEvent)
  {
    match c
    case OfIdentity(e) =>
      var ids := Step(s.ids, e, ValidIdentity);
      s.(ids := ids, queue := PoliciesQueued(s, ids.objects != s.ids.objects))
    case OfConfig(e) =>
      var cfgs := Step(s.cfgs, e, ValidConfig);
      var changed := cfgs.objects != s.cfgs.objects;
      s.(cfgs := cfgs, queue := PoliciesQueued(s, changed),
         ids := if changed then s.ids.(queue := s.ids.queue + s.ids.objects.Keys) else s.ids)
    case EditPolicy(k, spec) =>
      var status := if k in s.policies then s.policies[k].status else FRESH_POLICY_STATUS;
      s.(policies := s.policies[k := Policy(spec, status)],
         queue := s.queue + {k})
    case DeletePolicy(k) => s.(policies := s.policies - {k}, queue := s.queue + {k})
    case ResyncPolicy(k) => s.(queue := s.queue + {k})
    case ReconcilePolicy(k, id, cfg, ok) =>
      if !ok then s
      else s.(policies := if k in s.policies then s.policies[k := Reconciled(s.policies[k], id, cfg)] else s.policies,
              queue := s.queue - {k})
  }

  ghost predicate Begun(s: System) {
    && Started(s.ids) && Started(s.cfgs) && s.queue == s.policies.Keys
    && (forall n | n in s.ids.objects :: AdmittedIdentity(s.ids.objects[n].spec))
    && (forall n | n in s.cfgs.objects :: AdmittedConfig(s.cfgs.objects[n].spec))
  }

  /** At most one object has a valid spec. */
  ghost predicate OneValid<S>(w: World<S>, valid: S -> bool) {
    forall n, m | n in w.objects && m in w.objects && valid(w.objects[n].spec) && valid(w.objects[m].spec) :: n == m
  }

  /** How many objects of each kind there may be at a time, and whether no two of a kind may be valid. */
  datatype Bounds = Bounds(ids: nat, cfgs: nat, oneValid: bool)

  ghost predicate Within<S>(w: World<S>, limit: nat, oneValid: bool, valid: S -> bool) {
    |w.objects| <= limit && (oneValid ==> OneValid(w, valid))
  }

  ghost predicate WithinBounds(s: System, b: Bounds) {
    Within(s.ids, b.ids, b.oneValid, ValidIdentity) && Within(s.cfgs, b.cfgs, b.oneValid, ValidConfig)
  }

  ghost predicate IsAgreementRun(states: seq<System>, changes: seq<Change>, b: Bounds) {
    && |states| == |changes| + 1 && Begun(states[0])
    && (forall i | 0 <= i < |changes| :: Allowed(states[i], changes[i]) && states[i+1] == Moved(states[i], changes[i]))
    && (forall i | 0 <= i <= |changes| :: WithinBounds(states[i], b))
  }

  ghost predicate Drained(s: System) {
    && s.queue == {} && s.ids.queue == {} && s.cfgs.queue == {} && s.ids.worker.Idle? && s.cfgs.worker.Idle?
  }

  predicate ValidMode(spec: PolicySpec) {
    spec.mode == MODE_ACTIVE || spec.mode == MODE_REGION_BOUND
  }

  /** Every policy has the selection that its spec and the one identity and configuration determine. */
  ghost predicate Agrees(s: System) {
    forall n, c, k |
      && Sole(s.ids, n) && ValidIdentity(s.ids.objects[n].spec)
      && Sole(s.cfgs, c) && ValidConfig(s.cfgs.objects[c].spec)
      && k in s.policies && ValidMode(s.policies[k].spec) ::
      s.policies[k].status.selection == Select(s.policies[k].spec, s.ids.objects[n].spec, s.cfgs.objects[c].spec)
  }

  /** Whatever the run within the bounds, if it drains then every policy agrees in the end. */
  ghost predicate AlwaysAgrees(b: Bounds) {
    forall states, changes | IsAgreementRun(states, changes, b) && Drained(states[|changes|]) ::
      Agrees(states[|changes|])
  }

  // ---- with at most one object of each kind ----

  predicate Unobserved<S>(o: Object<S>) {
    o.ready != ReadyAt(o.generation)
  }

  predicate Working<S>(w: World<S>, name: string) {
    !w.worker.Idle? && w.worker.name == name
  }

  /** What the worker has read, if anything. */
  function InHand<S>(w: World<S>): Option<Object<S>> {
    match w.worker
    case Idle => None
    case Got(_, read) => read
    case Cached(_, o) => Some(o)
  }

  /** A stale cache, or a stale object in the worker's hand, goes with an unobserved object; and a valid
      unobserved object is queued or being worked on, so that its status will still change. */
  ghost predicate Tracked<S>(w: World<S>, valid: S -> bool) {
    && |w.objects| <= 1
    && (forall n | n in w.objects :: WellObserved(w.objects[n]))
    && (!w.worker.Idle? && w.worker.name !in w.queue ==> InHand(w) == Lookup(w.objects, w.worker.name))
    && (forall n | n in w.objects && InHand(w).Some? ::
          Unobserved(w.objects[n]) || (w.worker.name == n && InHand(w).value == w.objects[n]))
    && (w.worker.Cached? ==> w.cache == Some(w.worker.done.spec))
    && (forall n | n in w.objects && valid(w.objects[n].spec) && Unobserved(w.objects[n]) ::
          n in w.queue || Working(w, n))
    && (w.cache.Some? ==> forall n | n in w.objects && valid(w.objects[n].spec) ::
          w.cache.value == w.objects[n].spec || Unobserved(w.objects[n]))
  }

  lemma StartedIsTracked<S>(w: World<S>, valid: S -> bool)
    requires Started(w) && |w.objects| <= 1
    ensures Tracked(w, valid)
  {}

  lemma StepKeepsTracked<S>(w: World<S>, e: Event<S>, valid: S -> bool)
    requires Enabled(w, e) && Tracked(w, valid) && |Step(w, e, valid).objects| <= 1
    ensures Tracked(Step(w, e, valid), valid)
  {
    assert e.Create? ==> |Step(w, e, valid).objects| == |w.objects| + 1;
    forall n, m | n in w.objects && m in w.objects ensures n == m {
      SoleIsOnly(w, n);
    }
    match e {
      case Proceed(ok) =>
        var read := w.worker.read;
        if read.Some? && !valid(read.value.spec) {
          ReportKeepsTracked(w, read.value, FailedAt(read.value.generation, InvalidSpec), ok, valid);
        } else {
          CachingKeepsTracked(w, valid);
        }
      case Finish(ok) =>
        ReportKeepsTracked(w, w.worker.done, ReadyAt(w.worker.done.generation), ok, valid);
      case Update(_, _) => UpdateKeepsTracked(w, e, valid);
      case _ => EditKeepsTracked(w, e, valid);
    }
  }

  /** Edits, and taking a name from the queue. */
  lemma EditKeepsTracked<S>(w: World<S>, e: Event<S>, valid: S -> bool)
    requires Enabled(w, e) && Tracked(w, valid) && (e.Create? ==> |w.objects| < 1)
    requires !e.Proceed? && !e.Finish? && !e.Update?
    requires forall n, m | n in w.objects && m in w.objects :: n == m
    ensures Tracked(Step(w, e, valid), valid)
  {}

  lemma UpdateKeepsTracked<S>(w: World<S>, e: Event<S>, valid: S -> bool)
    requires Enabled(w, e) && Tracked(w, valid) && e.Update?
    requires forall n, m | n in w.objects && m in w.objects :: n == m
    ensures Tracked(Step(w, e, valid), valid)
  {}

  /** Clearing the cache, or filling it from the object in hand. */
  lemma CachingKeepsTracked<S>(w: World<S>, valid: S -> bool)
    requires Tracked(w, valid) && w.worker.Got? && (w.worker.read.Some? ==> valid(w.worker.read.value.spec))
    ensures Tracked(Step(w, Proceed(true), valid), valid) && Tracked(Step(w, Proceed(false), valid), valid)
  {}

  /** Reporting on the object in hand: it fails, or it has been cached. */
  lemma ReportKeepsTracked<S>(w: World<S>, read: Object<S>, ready: Ready, ok: bool, valid: S -> bool)
    requires Tracked(w, valid) && !w.worker.Idle? && InHand(w) == Some(read)
    requires forall n, m | n in w.objects && m in w.objects :: n == m
    requires if w.worker.Cached? then ready == ReadyAt(read.generation) else ready.FailedAt? && !valid(read.spec)
    ensures Tracked(ObjectReported(w, w.worker.name, read, ready, ok), valid)
  {}

  /** An observed valid object is what Fetch returns. */
  lemma FetchesObserved<S>(w: World<S>, valid: S -> bool, n: string, v: Option<S>)
    requires Tracked(w, valid) && n in w.objects && valid(w.objects[n].spec) && !Unobserved(w.objects[n])
    requires Fetches(w, v)
    ensures v == Some(w.objects[n].spec)
  {
    SoleIsOnly(w, n);
  }

  /** The policy agrees, unless an object is still unobserved. */
  ghost predicate AgreesIfObserved(ids: World<Identity>, cfgs: World<Config>, p: Policy) {
    forall n, c |
      && n in ids.objects && ValidIdentity(ids.objects[n].spec) && !Unobserved(ids.objects[n])
      && c in cfgs.objects && ValidConfig(cfgs.objects[c].spec) && !Unobserved(cfgs.objects[c]) ::
      p.status.selection == Select(p.spec, ids.objects[n].spec, cfgs.objects[c].spec)
  }

  ghost predicate Pursued(s: System) {
    forall k | k in s.policies && k !in s.queue && ValidMode(s.policies[k].spec) ::
      AgreesIfObserved(s.ids, s.cfgs, s.policies[k])
  }

  ghost predicate Sound(s: System) {
    Tracked(s.ids, ValidIdentity) && Tracked(s.cfgs, ValidConfig) && Pursued(s)
  }

  /** At most one object of each kind. */
  predicate Single(s: System) {
    |s.ids.objects| <= 1 && |s.cfgs.objects| <= 1
  }

  lemma MoveKeepsSound(s: System, c: Change, s': System)
    requires Allowed(s, c) && Sound(s) && s' == Moved(s, c) && Single(s')
    ensures Sound(s')
  {
    match c {
      case OfIdentity(e) => IdentityMoveKeepsSound(s, e, s');
      case OfConfig(e) => ConfigMoveKeepsSound(s, e, s');
      case ReconcilePolicy(k, id, cfg, ok) => ReconcileKeepsPursued(s, k, id, cfg, ok);
      case EditPolicy(_, _) =>
      case DeletePolicy(_) =>
      case ResyncPolicy(_) =>
    }
  }

  lemma IdentityMoveKeepsSound(s: System, e: Event<Identity>, s': System)
    requires Sound(s) && Enabled(s.ids, e) && s' == Moved(s, OfIdentity(e)) && |s'.ids.objects| <= 1
    ensures Sound(s')
  {
    StepKeepsTracked(s.ids, e, ValidIdentity);
    ObjectsKeepPursued(s, s');
  }

  lemma ConfigMoveKeepsSound(s: System, e: Event<Config>, s': System)
    requires Sound(s) && Enabled(s.cfgs, e) && s' == Moved(s, OfConfig(e)) && |s'.cfgs.objects| <= 1
    ensures Sound(s')
  {
    StepKeepsTracked(s.cfgs, e, ValidConfig);
    RequeueKeepsTracked(s.ids, s.ids.queue + s.ids.objects.Keys);
    ObjectsKeepPursued(s, s');
  }

  lemma RequeueKeepsTracked(w: World<Identity>, queue: set<string>)
    requires Tracked(w, ValidIdentity) && w.queue <= queue
    ensures Tracked(w.(queue := queue), ValidIdentity)
  {}

  lemma ObjectsKeepPursued(s: System, s': System)
    requires Pursued(s) && s'.policies == s.policies && s.queue <= s'.queue
    requires (s'.ids.objects == s.ids.objects && s'.cfgs.objects == s.cfgs.objects) || s.policies.Keys <= s'.queue
    ensures Pursued(s')
  {}

  lemma ReconcileKeepsPursued(s: System, k: Key, id: Option<Identity>, cfg: Option<Config>, ok: bool)
    requires Sound(s) && Fetches(s.ids, id) && Fetches(s.cfgs, cfg)
    ensures Pursued(Moved(s, ReconcilePolicy(k, id, cfg, ok)))
  {
    if k in s.policies && ValidMode(s.policies[k].spec) {
      ReconciledAgrees(s.ids, s.cfgs, s.policies[k], id, cfg);
    }
  }

  lemma ReconciledAgrees(ids: World<Identity>, cfgs: World<Config>, p: Policy, id: Option<Identity>,
                         cfg: Option<Config>)
    requires Tracked(ids, ValidIdentity) && Tracked(cfgs, ValidConfig) && ValidMode(p.spec)
    requires Fetches(ids, id) && Fetches(cfgs, cfg)
    ensures AgreesIfObserved(ids, cfgs, Reconciled(p, id, cfg))
  {
    forall n | n in ids.objects && ValidIdentity(ids.objects[n].spec) && !Unobserved(ids.objects[n])
      ensures id == Some(ids.objects[n].spec)
    {
      FetchesObserved(ids, ValidIdentity, n, id);
    }
    forall c | c in cfgs.objects && ValidConfig(cfgs.objects[c].spec) && !Unobserved(cfgs.objects[c])
      ensures cfg == Some(cfgs.objects[c].spec)
    {
      FetchesObserved(cfgs, ValidConfig, c, cfg);
    }
  }

  lemma {:induction false} SoundAlong(states: seq<System>, changes: seq<Change>, b: Bounds, i: nat)
    requires IsAgreementRun(states, changes, b) && i <= |changes|
    requires forall j | 0 <= j <= |changes| :: Single(states[j])
    ensures Sound(states[i])
  {
    if i == 0 {
      StartedIsTracked(states[0].ids, ValidIdentity);
      StartedIsTracked(states[0].cfgs, ValidConfig);
    } else {
      SoundAlong(states, changes, b, i - 1);
      MoveKeepsSound(states[i-1], changes[i-1], states[i]);
    }
  }

  /** With at most one object of each kind at a time, every policy agrees once all queues are drained,
      although policies are reconciled against stale caches on the way. */
  lemma AgreesWithOneObject(states: seq<System>, changes: seq<Change>, b: Bounds)
    requires IsAgreementRun(states, changes, b) && Drained(states[|changes|])
    requires forall j | 0 <= j <= |changes| :: Single(states[j])
    ensures Agrees(states[|changes|])
  {
    SoundAlong(states, changes, b, |changes|);
    var s := states[|changes|];
    forall k | k in s.policies && ValidMode(s.policies[k].spec)
      ensures AgreesIfObserved(s.ids, s.cfgs, s.policies[k])
    {}
  }
}
