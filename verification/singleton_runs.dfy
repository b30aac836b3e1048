/** A singleton resource with an in-memory cache: any number of objects may be created, edited and
    deleted, while one worker takes names from a coalescing queue and reads, checks, caches and reports
    them in separate steps. ClusterIdentity and DNSConfiguration are both of this kind. */
module SingletonRuns {
  import opened Objects

  /** The Ready condition with the generation it was observed at. */
  datatype Ready = NotReported | ReadyAt(generation: nat) | FailedAt(generation: nat, reason: Failure)

  datatype Failure = SingletonViolation | InvalidSpec

  datatype Object<S> = Object(spec: S, generation: nat, ready: Ready)

  /** Where the worker is: it has read an object, or has also cached its spec. */
  datatype Worker<S> = Idle | Got(name: string, read: Option<Object<S>>) | Cached(name: string, done: Object<S>)

  datatype World<S> = World(objects: map<string, Object<S>>, queue: set<string>, cache: Option<S>, worker: Worker<S>)

  /** `ok` says whether the status write of the step is accepted; it never is when the object changed
      since it was read. */
  datatype Event<S> =
    | Create(name: string, spec: S)
    | Update(name: string, spec: S)
    | Delete(name: string)
    | Resync(name: string)
    | Begin(name: string)
    | Proceed(ok: bool)
    | Finish(ok: bool)

  predicate Enabled<S>(w: World<S>, e: Event<S>) {
    match e
    case Create(n, _) => n !in w.objects
    case Update(n, _) => n in w.objects
    case Delete(n) => n in w.objects
    case Resync(_) => true
    case Begin(n) => w.worker.Idle? && n in w.queue
    case Proceed(_) => w.worker.Got?
    case Finish(_) => w.worker.Cached?
  }

  /** A status write. An unchanged status is no write at all; a refused one is retried. */
  function ObjectReported<S(==)>(w: World<S>, name: string, read: Object<S>, ready: Ready, ok: bool): World<S> {
    if ok && Lookup(w.objects, name) == Some(read) then
      if ready == read.ready then w.(worker := Idle)
      else w.(objects := w.objects[name := read.(ready := ready)], queue := w.queue + {name}, worker := Idle)
    else w.(queue := w.queue + {name}, worker := Idle)
  }

  function Step<S(==)>(w: World<S>, e: Event<S>, valid: S -> bool): World<S>
    requires Enabled(w, e)
  {
    match e
    case Create(n, spec) => w.(objects := w.objects[n := Object(spec, 1, NotReported)], queue := w.queue + {n})
    case Update(n, spec) =>
      var o := w.objects[n];
      if o.spec == spec then w
      else w.(objects := w.objects[n := o.(spec := spec, generation := o.generation + 1)], queue := w.queue + {n})
    case Delete(n) => w.(objects := w.objects - {n}, queue := w.queue + {n})
    case Resync(n) => w.(queue := w.queue + {n})
    case Begin(n) => w.(queue := w.queue - {n}, worker := Got(n, Lookup(w.objects, n)))
    case Proceed(ok) =>
      if w.worker.read.None? then w.(cache := None, worker := Idle)
      else
        var n, o := w.worker.name, w.worker.read.value;
        if |w.objects| > 1 then ObjectReported(w, n, o, FailedAt(o.generation, SingletonViolation), ok)
        else if !valid(o.spec) then ObjectReported(w, n, o, FailedAt(o.generation, InvalidSpec), ok)
        else w.(cache := Some(o.spec), worker := Cached(n, o))
    case Finish(ok) => ObjectReported(w, w.worker.name, w.worker.done, ReadyAt(w.worker.done.generation), ok)
  }

  /** One uninterrupted reconciliation of a name. */
  function Pass<S(==)>(w: World<S>, name: string, ok: bool, valid: S -> bool): World<S>
    requires w.worker.Idle? && name in w.queue
  {
    var w' := Step(Step(w, Begin(name), valid), Proceed(ok), valid);
    if w'.worker.Cached? then Step(w', Finish(ok), valid) else w'
  }

  /** What a reconciliation of a name promises: objects and cache become what one pass of the worker makes of
      them, and the name is queued again by a retry or by the change of its object. */
  ghost predicate PassMade<S>(name: string, objects: map<string, Object<S>>, cache: Option<S>, accepted: bool,
                              valid: S -> bool, objects': map<string, Object<S>>, cache': Option<S>, retry: bool)
  {
    var after := Pass(World(objects, {name}, cache, Idle), name, accepted, valid);
    && objects' == after.objects && cache' == after.cache
    && (name in after.queue <==> retry || objects' != objects)
  }

  lemma AbsentPass<S>(name: string, objects: map<string, Object<S>>, cache: Option<S>, valid: S -> bool)
    requires name !in objects
    ensures PassMade(name, objects, cache, true, valid, objects, None, false)
  {}

  /** What a reconciliation reports on an object. */
  function Verdict<S>(objects: map<string, Object<S>>, o: Object<S>, valid: S -> bool): Ready {
    if |objects| > 1 then FailedAt(o.generation, SingletonViolation)
    else if !valid(o.spec) then FailedAt(o.generation, InvalidSpec)
    else ReadyAt(o.generation)
  }

  lemma ReportedPass<S>(name: string, objects: map<string, Object<S>>, cache: Option<S>, valid: S -> bool,
                        objects': map<string, Object<S>>, retry: bool)
    requires name in objects
    requires var w := ObjectReported(World(objects, {}, None, Idle), name, objects[name],
                                     Verdict(objects, objects[name], valid), !retry);
      objects' == w.objects && (name in w.queue <==> retry || objects' != objects)
    ensures PassMade(name, objects, cache, !retry, valid, objects',
                     if Verdict(objects, objects[name], valid).ReadyAt? then Some(objects[name].spec) else cache, retry)
  {}

  /** The operator starts with an empty cache and every object queued. */
  ghost predicate Started<S>(w: World<S>) {
    w.cache == None && w.worker == Idle && w.queue == w.objects.Keys
    && forall n | n in w.objects :: WellObserved(w.objects[n])
  }

  /** A generation is observed only once it exists. */
  predicate WellObserved<S>(o: Object<S>) {
    o.ready.ReadyAt? ==> o.ready.generation <= o.generation
  }

  ghost predicate IsWorkerHistory<S(!new)>(states: seq<World<S>>, events: seq<Event<S>>, valid: S -> bool) {
    && |states| == |events| + 1 && Started(states[0])
    && forall i | 0 <= i < |events| :: Enabled(states[i], events[i]) && states[i+1] == Step(states[i], events[i], valid)
  }

  /** What Fetch may return: the cached spec, else that of some listed object. */
  ghost predicate Fetches<S>(w: World<S>, v: Option<S>) {
    match w.cache
    case Some(_) => v == w.cache
    case None =>
      if v.None? then w.objects == map[] else exists n :: n in w.objects && w.objects[n].spec == v.value
  }

  /** `name` is the one object. */
  predicate Sole<S>(w: World<S>, name: string) {
    |w.objects| == 1 && name in w.objects
  }

  lemma SoleIsOnly<S>(w: World<S>, name: string)
    requires name in w.objects && |w.objects| <= 1
    ensures forall n | n in w.objects :: n == name
  {
    forall n | n in w.objects ensures n == name {
      assert {n, name} <= w.objects.Keys;
      if n != name {
        assert |{n, name}| == 2;
        SubsetSize({n, name}, w.objects.Keys);
      }
    }
  }

  lemma {:induction false} SubsetSize<T>(a: set<T>, b: set<T>)
    requires a <= b
    ensures |a| <= |b|
  {
    if a == {} {
    } else {
      var x :| x in a;
      SubsetSize(a - {x}, b - {x});
    }
  }

  /** When nothing is queued, no edit happened since the worker read its object. */
  ghost predicate Coherent<S>(w: World<S>, valid: S -> bool) {
    w.queue == {} ==>
      match w.worker
      case Idle =>
        w.cache.Some? ==> forall n | Sole(w, n) && valid(w.objects[n].spec) :: w.cache.value == w.objects[n].spec
      case Got(n, read) => read == Lookup(w.objects, n)
      case Cached(n, o) => Sole(w, n) && w.objects[n] == o && w.cache == Some(o.spec)
  }

  lemma StepKeepsCoherent<S>(w: World<S>, e: Event<S>, valid: S -> bool)
    requires Enabled(w, e) && Coherent(w, valid)
    ensures Coherent(Step(w, e, valid), valid)
  {
    var w' := Step(w, e, valid);
    if w'.queue == {} && w'.worker.Idle? {
      forall n | Sole(w', n) && w'.cache.Some? && valid(w'.objects[n].spec)
        ensures w'.cache.value == w'.objects[n].spec
      {
        if w.worker.Got? || w.worker.Cached? {
          assert w.worker.name in w.objects || w'.cache.None?;
          if w.worker.name in w.objects { SoleIsOnly(w, n); }
        }
      }
    }
  }

  /** The cache may be stale while work is pending, but whenever nothing is queued or in progress and one
      valid object exists, Fetch returns exactly its spec: through any history of creates, edits, renames,
      deletes and singleton violations, with edits between any two steps of the worker. */
  lemma {:induction false} FetchAgreesWhenDrained<S(!new)>(
      states: seq<World<S>>, events: seq<Event<S>>, valid: S -> bool, i: nat, name: string, v: Option<S>)
    requires IsWorkerHistory(states, events, valid) && i <= |events|
    requires states[i].queue == {} && states[i].worker.Idle?
    requires Sole(states[i], name) && valid(states[i].objects[name].spec) && Fetches(states[i], v)
    ensures v == Some(states[i].objects[name].spec)
  {
    CoherentAlong(states, events, valid, i);
    SoleIsOnly(states[i], name);
  }

  lemma {:induction false} CoherentAlong<S(!new)>(states: seq<World<S>>, events: seq<Event<S>>,
                                           valid: S -> bool, i: nat)
    requires IsWorkerHistory(states, events, valid) && i <= |events|
    ensures Coherent(states[i], valid)
  {
    if i == 0 {
    } else {
      CoherentAlong(states, events, valid, i - 1);
      StepKeepsCoherent(states[i-1], events[i-1], valid);
    }
  }
}
