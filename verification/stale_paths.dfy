/** How a singleton cache becomes stale: beside a second object the first one is edited and refused, and the
    cache keeps the old spec until the deletion of the second one is handled. */
module StalePaths {
  import opened Objects
  import opened SingletonRuns
  import opened AgreementRuns

  const FIRST := "first"
  const SECOND := "second"

  /** How many objects there may be, whether two may be valid, and what the schema lets through. */
  datatype Rules<!S> = Rules(limit: nat, oneValid: bool, valid: S -> bool, admitted: S -> bool)

  ghost predicate IsWorldPath<S(!new)>(ws: seq<World<S>>, es: seq<Event<S>>, r: Rules<S>) {
    && |ws| == |es| + 1
    && (forall i | 0 <= i < |es| ::
          Enabled(ws[i], es[i]) && Admits(es[i], r.admitted) && ws[i+1] == Step(ws[i], es[i], r.valid))
    && (forall i | 0 <= i <= |es| :: Within(ws[i], r.limit, r.oneValid, r.valid))
  }

  ghost predicate WorldLeads<S(!new)>(w0: World<S>, w: World<S>, r: Rules<S>) {
    exists ws, es :: IsWorldPath(ws, es, r) && ws[0] == w0 && ws[|es|] == w
  }

  /** Without a change of any object. */
  ghost predicate LeadsSilently<S(!new)>(w0: World<S>, w: World<S>, r: Rules<S>) {
    exists ws, es :: IsWorldPath(ws, es, r) && ws[0] == w0 && ws[|es|] == w && IsSilent(ws)
  }

  ghost predicate IsSilent<S>(ws: seq<World<S>>) {
    forall i | 0 <= i < |ws| :: ws[i].objects == ws[0].objects
  }

  lemma Here<S(!new)>(w: World<S>, r: Rules<S>)
    requires Within(w, r.limit, r.oneValid, r.valid)
    ensures WorldLeads(w, w, r) && LeadsSilently(w, w, r)
  {
    var es: seq<Event<S>> := [];
    assert IsWorldPath([w], es, r) && IsSilent([w]);
  }

  lemma PathExtends<S(!new)>(ws: seq<World<S>>, es: seq<Event<S>>, e: Event<S>, w: World<S>, r: Rules<S>)
    requires IsWorldPath(ws, es, r) && Enabled(ws[|es|], e) && Admits(e, r.admitted)
    requires w == Step(ws[|es|], e, r.valid) && Within(w, r.limit, r.oneValid, r.valid)
    ensures IsWorldPath(ws + [w], es + [e], r)
  {}

  lemma Then<S(!new)>(w0: World<S>, w: World<S>, e: Event<S>, w': World<S>, r: Rules<S>)
    requires WorldLeads(w0, w, r) && Enabled(w, e) && Admits(e, r.admitted)
    requires w' == Step(w, e, r.valid) && Within(w', r.limit, r.oneValid, r.valid)
    ensures WorldLeads(w0, w', r)
  {
    var ws, es :| IsWorldPath(ws, es, r) && ws[0] == w0 && ws[|es|] == w;
    PathExtends(ws, es, e, w', r);
    assert (ws + [w'])[0] == w0 && (ws + [w'])[|es + [e]|] == w';
  }

  lemma ThenSilently<S(!new)>(w0: World<S>, w: World<S>, e: Event<S>, w': World<S>, r: Rules<S>)
    requires LeadsSilently(w0, w, r) && Enabled(w, e) && Admits(e, r.admitted)
    requires w' == Step(w, e, r.valid) && w'.objects == w.objects
    ensures LeadsSilently(w0, w', r)
  {
    var ws, es :| IsWorldPath(ws, es, r) && ws[0] == w0 && ws[|es|] == w && IsSilent(ws);
    assert Within(ws[|es|], r.limit, r.oneValid, r.valid);
    PathExtends(ws, es, e, w', r);
    assert (ws + [w'])[0] == w0 && (ws + [w'])[|es + [e]|] == w' && IsSilent(ws + [w']);
  }

  // ---- the objects on the way ----

  function SettledObject<S>(spec: S): Object<S> {
    Object(spec, 1, ReadyAt(1))
  }

  function EditedObject<S>(spec: S): Object<S> {
    Object(spec, 2, ReadyAt(1))
  }

  function RefusedObject<S>(spec: S): Object<S> {
    Object(spec, 2, FailedAt(2, SingletonViolation))
  }

  function One<S>(o: Object<S>): map<string, Object<S>> {
    map[FIRST := o]
  }

  function Two<S>(o: Object<S>, spec: S): map<string, Object<S>> {
    map[FIRST := o, SECOND := Object(spec, 1, NotReported)]
  }

  lemma TwoObjects<S>(a: Object<S>, b: Object<S>, spec: S)
    ensures |One(a)| == 1 && |Two(a, spec)| == 2 && FIRST != SECOND
    ensures Two(a, spec)[FIRST := b] == Two(b, spec)
    ensures One(a)[SECOND := Object(spec, 1, NotReported)] == Two(a, spec) && Two(a, spec) - {SECOND} == One(a)
  {}

  /** An old spec that is cached, a new one, and the spec of a second object that is not valid if there must
      not be two valid ones. */
  ghost predicate Cast<S(!new)>(earlier: S, later: S, second: S, r: Rules<S>) {
    && r.limit >= 2 && r.valid(earlier) && r.admitted(later) && r.admitted(second) && earlier != later
    && (r.oneValid ==> !r.valid(second))
  }

  lemma OneIsWithin<S(!new)>(o: Object<S>, w: World<S>, r: Rules<S>)
    requires r.limit >= 1 && w.objects == One(o)
    ensures Within(w, r.limit, r.oneValid, r.valid)
  {}

  lemma TwoIsWithin<S(!new)>(o: Object<S>, second: S, w: World<S>, r: Rules<S>)
    requires r.limit >= 2 && (r.oneValid ==> !r.valid(second)) && w.objects == Two(o, second)
    ensures Within(w, r.limit, r.oneValid, r.valid)
  {}

  function StartedAt<S>(earlier: S): World<S> {
    World(One(SettledObject(earlier)), {FIRST}, None, Idle)
  }

  function SettledAt<S>(earlier: S): World<S> {
    World(One(SettledObject(earlier)), {}, Some(earlier), Idle)
  }

  /** The worker handles the first object after the start. */
  lemma Settle<S(!new)>(earlier: S, r: Rules<S>)
    requires r.limit >= 1 && r.valid(earlier)
    ensures LeadsSilently(StartedAt(earlier), SettledAt(earlier), r)
    ensures WorldLeads(StartedAt(earlier), SettledAt(earlier), r)
  {
    var o, w0 := SettledObject(earlier), StartedAt(earlier);
    OneIsWithin(o, w0, r);
    Here(w0, r);
    var w1 := World(One(o), {}, None, Got(FIRST, Some(o)));
    ThenSilently(w0, w0, Begin(FIRST), w1, r);
    var w2 := World(One(o), {}, Some(earlier), Cached(FIRST, o));
    assert |One(o)| == 1;
    ThenSilently(w0, w1, Proceed(true), w2, r);
    ThenSilently(w0, w2, Finish(true), SettledAt(earlier), r);
  }

  /** Both objects exist, and the cache holds the old spec. */
  function Beside<S>(o: Object<S>, earlier: S, second: S, queue: set<string>): World<S> {
    World(Two(o, second), queue, Some(earlier), Idle)
  }

  /** A second object is created and the first one edited, ... */
  lemma EditBeside<S(!new)>(earlier: S, later: S, second: S, r: Rules<S>)
    requires Cast(earlier, later, second, r)
    ensures WorldLeads(StartedAt(earlier), Beside(EditedObject(later), earlier, second, {FIRST, SECOND}), r)
  {
    var w0 := StartedAt(earlier);
    Settle(earlier, r);
    TwoObjects(SettledObject(earlier), EditedObject(later), second);
    var w1 := Beside(SettledObject(earlier), earlier, second, {SECOND});
    TwoIsWithin(SettledObject(earlier), second, w1, r);
    Then(w0, SettledAt(earlier), Create(SECOND, second), w1, r);
    var w2 := Beside(EditedObject(later), earlier, second, {FIRST, SECOND});
    TwoIsWithin(EditedObject(later), second, w2, r);
    Then(w0, w1, Update(FIRST, later), w2, r);
  }

  /** The worker has taken the edited first object. */
  function TakenAt<S>(earlier: S, later: S, second: S): World<S> {
    World(Two(EditedObject(later), second), {SECOND}, Some(earlier), Got(FIRST, Some(EditedObject(later))))
  }

  /** ... taken by the worker, ... */
  lemma Take<S(!new)>(w0: World<S>, earlier: S, later: S, second: S, r: Rules<S>)
    requires Cast(earlier, later, second, r)
    requires WorldLeads(w0, Beside(EditedObject(later), earlier, second, {FIRST, SECOND}), r)
    ensures WorldLeads(w0, TakenAt(earlier, later, second), r)
  {
    TwoObjects(EditedObject(later), RefusedObject(later), second);
    TwoIsWithin(EditedObject(later), second, TakenAt(earlier, later, second), r);
    Then(w0, Beside(EditedObject(later), earlier, second, {FIRST, SECOND}), Begin(FIRST),
         TakenAt(earlier, later, second), r);
  }

  lemma RefusalStep<S(!new)>(earlier: S, later: S, second: S, r: Rules<S>)
    ensures Step(TakenAt(earlier, later, second), Proceed(true), r.valid)
            == Beside(RefusedObject(later), earlier, second, {FIRST, SECOND})
  {}

  /** ... refused for the singleton violation, ... */
  lemma Refuse<S(!new)>(w0: World<S>, earlier: S, later: S, second: S, r: Rules<S>)
    requires Cast(earlier, later, second, r) && WorldLeads(w0, TakenAt(earlier, later, second), r)
    ensures WorldLeads(w0, Beside(RefusedObject(later), earlier, second, {FIRST, SECOND}), r)
  {
    RefusalStep(earlier, later, second, r);
    var w := Beside(RefusedObject(later), earlier, second, {FIRST, SECOND});
    TwoIsWithin(RefusedObject(later), second, w, r);
    Then(w0, TakenAt(earlier, later, second), Proceed(true), w, r);
  }

  /** ... refused again with nothing new to report, ... */
  lemma RefuseAgain<S(!new)>(w0: World<S>, earlier: S, later: S, second: S, r: Rules<S>)
    requires Cast(earlier, later, second, r)
    requires WorldLeads(w0, Beside(RefusedObject(later), earlier, second, {FIRST, SECOND}), r)
    ensures WorldLeads(w0, Beside(RefusedObject(later), earlier, second, {SECOND}), r)
  {
    TwoObjects(RefusedObject(later), RefusedObject(later), second);
    var w := World(Two(RefusedObject(later), second), {SECOND}, Some(earlier), Got(FIRST, Some(RefusedObject(later))));
    TwoIsWithin(RefusedObject(later), second, w, r);
    Then(w0, Beside(RefusedObject(later), earlier, second, {FIRST, SECOND}), Begin(FIRST), w, r);
    var w' := Beside(RefusedObject(later), earlier, second, {SECOND});
    TwoIsWithin(RefusedObject(later), second, w', r);
    Then(w0, w, Proceed(true), w', r);
  }

  /** The second object is deleted, and that is still queued. */
  function StaleAt<S>(earlier: S, later: S): World<S> {
    World(One(RefusedObject(later)), {SECOND}, Some(earlier), Idle)
  }

  /** ... and the second one deleted. */
  lemma Strand<S(!new)>(earlier: S, later: S, second: S, r: Rules<S>)
    requires Cast(earlier, later, second, r)
    ensures WorldLeads(StartedAt(earlier), StaleAt(earlier, later), r)
  {
    var w0 := StartedAt(earlier);
    EditBeside(earlier, later, second, r);
    Take(w0, earlier, later, second, r);
    Refuse(w0, earlier, later, second, r);
    RefuseAgain(w0, earlier, later, second, r);
    TwoObjects(RefusedObject(later), RefusedObject(later), second);
    OneIsWithin(RefusedObject(later), StaleAt(earlier, later), r);
    Then(w0, Beside(RefusedObject(later), earlier, second, {SECOND}), Delete(SECOND), StaleAt(earlier, later), r);
  }

  function ClearedAt<S>(later: S): World<S> {
    World(One(RefusedObject(later)), {}, None, Idle)
  }

  /** Handling the deletion clears the cache and changes no object. */
  lemma ClearStale<S(!new)>(earlier: S, later: S, r: Rules<S>)
    requires r.limit >= 1
    ensures LeadsSilently(StaleAt(earlier, later), ClearedAt(later), r)
  {
    var w0 := StaleAt(earlier, later);
    OneIsWithin(RefusedObject(later), w0, r);
    Here(w0, r);
    assert FIRST[0] != SECOND[0];
    var w := World(One(RefusedObject(later)), {}, Some(earlier), Got(SECOND, None));
    ThenSilently(w0, w0, Begin(SECOND), w, r);
    ThenSilently(w0, w, Proceed(true), ClearedAt(later), r);
  }
}
