/** What a reconciliation of the singleton resources comes to, case by case, and what the cache holds when
    nothing is pending. */
module SingletonOutcomes {
  import opened Objects
  import opened SingletonRuns
  import opened ClusterIdentityController
  import opened DnsConfigurationController

  /** Only the condition of one object changed, if the write was accepted; if not, the name is retried. */
  ghost predicate ConditionBecame<S>(name: string, objects: map<string, Object<S>>, accepted: bool, ready: Ready,
                                     objects': map<string, Object<S>>, retry: bool)
  {
    && name in objects
    && (if accepted then
          && objects' == objects[name := Object(objects[name].spec, objects[name].generation, ready)]
          && (objects[name].ready == ready ==> !retry)
        else objects' == objects && retry)
  }

  lemma SameCondition<S>(name: string, objects: map<string, Object<S>>)
    requires name in objects
    ensures objects[name := Object(objects[name].spec, objects[name].generation, objects[name].ready)] == objects
  {}

  lemma ReportMeans<S>(name: string, objects: map<string, Object<S>>, cache: Option<S>, accepted: bool, ready: Ready,
                       objects': map<string, Object<S>>, retry: bool)
    requires name in objects
    requires var w := ObjectReported(World(objects, {}, cache, Idle), name, objects[name], ready, accepted);
      objects' == w.objects && (name in w.queue <==> retry || objects' != objects)
    ensures ConditionBecame(name, objects, accepted, ready, objects', retry)
  {
    SameCondition(name, objects);
  }

  /** A deleted object empties the cache and changes no object. */
  lemma AbsentEmptiesCache<S>(name: string, objects: map<string, Object<S>>, cache: Option<S>, accepted: bool,
                              valid: S -> bool, objects': map<string, Object<S>>, cache': Option<S>, retry: bool)
    requires PassMade(name, objects, cache, accepted, valid, objects', cache', retry) && name !in objects
    ensures objects' == objects && cache' == None && !retry
  {}

  /** Beside another object it is refused, however valid, and the cache stays as it is. */
  lemma SecondIsRefused<S>(name: string, objects: map<string, Object<S>>, cache: Option<S>, accepted: bool,
                           valid: S -> bool, objects': map<string, Object<S>>, cache': Option<S>, retry: bool,
                           other: string)
    requires PassMade(name, objects, cache, accepted, valid, objects', cache', retry)
    requires name in objects && other in objects && other != name
    ensures cache' == cache
    ensures ConditionBecame(name, objects, accepted, FailedAt(objects[name].generation, SingletonViolation),
                            objects', retry)
  {
    assert {name, other} <= objects.Keys && |{name, other}| == 2;
    SubsetSize({name, other}, objects.Keys);
    ReportMeans(name, objects, cache, accepted, FailedAt(objects[name].generation, SingletonViolation), objects',
                retry);
  }

  lemma OnlyObject<S>(name: string, objects: map<string, Object<S>>)
    requires name in objects && forall n | n in objects :: n == name
    ensures |objects| == 1
  {
    assert objects.Keys == {name};
  }

  /** Alone and invalid it is refused as well. */
  lemma InvalidIsRefused<S>(name: string, objects: map<string, Object<S>>, cache: Option<S>, accepted: bool,
                            valid: S -> bool, objects': map<string, Object<S>>, cache': Option<S>, retry: bool)
    requires PassMade(name, objects, cache, accepted, valid, objects', cache', retry)
    requires name in objects && (forall n | n in objects :: n == name) && !valid(objects[name].spec)
    ensures cache' == cache
    ensures ConditionBecame(name, objects, accepted, FailedAt(objects[name].generation, InvalidSpec), objects', retry)
  {
    OnlyObject(name, objects);
    ReportMeans(name, objects, cache, accepted, FailedAt(objects[name].generation, InvalidSpec), objects', retry);
  }

  /** Alone and valid it is cached, and ready at its generation, even if the write of that is refused. */
  lemma SoleIsCached<S>(name: string, objects: map<string, Object<S>>, cache: Option<S>, accepted: bool,
                        valid: S -> bool, objects': map<string, Object<S>>, cache': Option<S>, retry: bool)
    requires PassMade(name, objects, cache, accepted, valid, objects', cache', retry)
    requires name in objects && (forall n | n in objects :: n == name) && valid(objects[name].spec)
    ensures cache' == Some(objects[name].spec)
    ensures ConditionBecame(name, objects, accepted, ReadyAt(objects[name].generation), objects', retry)
  {
    OnlyObject(name, objects);
    ReportMeans(name, objects, cache', accepted, ReadyAt(objects[name].generation), objects', retry);
  }

  /** So a reconciliation caches an identity exactly when it is the only object and none of region, cluster,
      domain and environment letter is empty; an absent one empties the cache, and any other leaves it. */
  lemma IdentityIsCachedExactly(name: string, objects: map<string, Object<Identity>>, cache: Option<Identity>,
                                accepted: bool, objects': map<string, Object<Identity>>, cache': Option<Identity>,
                                retry: bool)
    requires PassMade(name, objects, cache, accepted, ValidIdentity, objects', cache', retry)
    ensures cache' ==
            if name !in objects then None
            else if (forall n | n in objects :: n == name)
                    && objects[name].spec.region != "" && objects[name].spec.cluster != ""
                    && objects[name].spec.domain != "" && objects[name].spec.environmentLetter != ""
              then Some(objects[name].spec)
            else cache
  {
    if name in objects {
      if other :| other in objects && other != name {
        SecondIsRefused(name, objects, cache, accepted, ValidIdentity, objects', cache', retry, other);
      } else if ValidIdentity(objects[name].spec) {
        SoleIsCached(name, objects, cache, accepted, ValidIdentity, objects', cache', retry);
      } else {
        InvalidIsRefused(name, objects, cache, accepted, ValidIdentity, objects', cache', retry);
      }
    }
  }

  /** And a configuration exactly when it is the only object, is not empty, and no entry lacks its name or
      region. */
  lemma ConfigurationIsCachedExactly(name: string, objects: map<string, Object<Config>>, cache: Option<Config>,
                                     accepted: bool, objects': map<string, Object<Config>>, cache': Option<Config>,
                                     retry: bool)
    requires PassMade(name, objects, cache, accepted, ValidConfig, objects', cache', retry)
    ensures cache' ==
            if name !in objects then None
            else if (forall n | n in objects :: n == name)
                    && |objects[name].spec| > 0
                    && (forall i | 0 <= i < |objects[name].spec| ::
                          objects[name].spec[i].name != "" && objects[name].spec[i].region != "")
              then Some(objects[name].spec)
            else cache
  {
    if name in objects {
      var spec := objects[name].spec;
      assert (forall i | 0 <= i < |spec| :: spec[i].name != "" && spec[i].region != "")
          <==> forall c | c in spec :: c.name != "" && c.region != "";
      if other :| other in objects && other != name {
        SecondIsRefused(name, objects, cache, accepted, ValidConfig, objects', cache', retry, other);
      } else if ValidConfig(spec) {
        SoleIsCached(name, objects, cache, accepted, ValidConfig, objects', cache', retry);
      } else {
        InvalidIsRefused(name, objects, cache, accepted, ValidConfig, objects', cache', retry);
      }
    }
  }

  /** Whatever changes an object queues its name: an edit, and the status write of a reconciliation too. */
  lemma ChangesAreQueued<S>(w: World<S>, e: Event<S>, valid: S -> bool, n: string)
    requires Enabled(w, e) && Lookup(Step(w, e, valid).objects, n) != Lookup(w.objects, n)
    ensures n in Step(w, e, valid).queue
  {}

  /** Only the worker writes the cache: it empties it for an object that is gone, or fills it with a valid spec
      it has read, at a moment when no second object exists. */
  lemma OnlyTheWorkerCaches<S>(w: World<S>, e: Event<S>, valid: S -> bool)
    requires Enabled(w, e) && Step(w, e, valid).cache != w.cache
    ensures e.Proceed? && w.worker.Got?
    ensures match w.worker.read
      case None => Step(w, e, valid).cache == None
      case Some(o) => valid(o.spec) && |w.objects| <= 1 && Step(w, e, valid).cache == Some(o.spec)
  {}

  // ---- without objects ----

  /** With no object left and nothing queued, the cache is empty or about to be emptied. */
  ghost predicate EmptiesOut<S>(w: World<S>) {
    w.objects == map[] && w.queue == {} ==>
      match w.worker
      case Idle => w.cache == None
      case Got(_, read) => read == None
      case Cached(_, _) => false
  }

  lemma StepKeepsEmptying<S>(w: World<S>, e: Event<S>, valid: S -> bool)
    requires Enabled(w, e) && EmptiesOut(w)
    ensures EmptiesOut(Step(w, e, valid))
  {}

  lemma {:induction false} EmptiesOutAlong<S(!new)>(states: seq<World<S>>, events: seq<Event<S>>, valid: S -> bool,
                                                    i: nat)
    requires IsWorkerHistory(states, events, valid) && i <= |events|
    ensures EmptiesOut(states[i])
  {
    if i == 0 {
    } else {
      EmptiesOutAlong(states, events, valid, i - 1);
      StepKeepsEmptying(states[i-1], events[i-1], valid);
    }
  }

  /** Whenever nothing is queued or in progress and no object exists, Fetch returns nothing. */
  lemma {:induction false} FetchesNothingWhenGone<S(!new)>(states: seq<World<S>>, events: seq<Event<S>>,
                                                          valid: S -> bool, i: nat, v: Option<S>)
    requires IsWorkerHistory(states, events, valid) && i <= |events|
    requires states[i].queue == {} && states[i].worker.Idle? && states[i].objects == map[] && Fetches(states[i], v)
    ensures v == None
  {
    EmptiesOutAlong(states, events, valid, i);
  }
}
