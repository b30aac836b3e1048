/** Bringing the DNSEndpoints of one ServiceRoute from what the store holds to what is desired:
    the work left, single writes, runs of writes, and the store every complete run ends in. */
module EndpointDiff {
  import opened Objects

  /** The endpoints a reconciliation of `route` may touch: those carrying its labels in `namespaces`. */
  datatype Scope = Scope(route: Key, namespaces: set<string>)

  function RouteSelector(route: Key): Labels {
    map[ManagedBy := OPERATOR, ServiceRoute := route.name, SourceNamespace := route.ns]
  }

  predicate BelongsTo(route: Key, labels: Labels) {
    && Carries(labels, ManagedBy, OPERATOR)
    && Carries(labels, ServiceRoute, route.name)
    && Carries(labels, SourceNamespace, route.ns)
  }

  lemma SelectorMatches(route: Key, labels: Labels)
    ensures MatchesLabels(RouteSelector(route), labels) <==> BelongsTo(route, labels)
  {
    var selector := RouteSelector(route);
    if MatchesLabels(selector, labels) {
      assert ManagedBy in selector && ServiceRoute in selector && SourceNamespace in selector;
    }
  }

  predicate Selects(scope: Scope, k: Key, e: Endpoint) {
    k.ns in scope.namespaces && BelongsTo(scope.route, e.labels)
  }

  /** Every desired endpoint would itself be selected. */
  ghost predicate Labelled(scope: Scope, desired: Endpoints) {
    forall k | k in desired :: Selects(scope, k, desired[k])
  }

  /** The key is already held as desired. Labels are not compared. */
  predicate Held(scope: Scope, desired: Endpoints, m: Endpoints, k: Key)
    requires k in desired
  {
    k in m && Selects(scope, k, m[k]) && m[k].spec == desired[k].spec
  }

  ghost function Missing(scope: Scope, desired: Endpoints, m: Endpoints): set<Key> {
    set k | k in desired && !Held(scope, desired, m, k)
  }

  ghost function Stale(scope: Scope, desired: Endpoints, m: Endpoints): set<Key> {
    set k | k in m && Selects(scope, k, m[k]) && k !in desired
  }

  /** The writes left to do. */
  ghost function Work(scope: Scope, desired: Endpoints, m: Endpoints): nat {
    |Missing(scope, desired, m)| + |Stale(scope, desired, m)|
  }

  /** A desired name is taken by an endpoint of someone else. */
  ghost predicate Clash(scope: Scope, desired: Endpoints, m: Endpoints) {
    exists k :: k in desired && k in m && !Selects(scope, k, m[k])
  }

  /** A patch replaces spec, labels and annotation, and keeps the owner. */
  function Patched(e: Endpoint, wanted: Endpoint): Endpoint {
    wanted.(owner := e.owner)
  }

  function Written(m: Endpoints, k: Key, wanted: Endpoint): Endpoint {
    if k in m then Patched(m[k], wanted) else wanted
  }

  /** The store a complete run leaves. */
  ghost function Goal(scope: Scope, desired: Endpoints, m: Endpoints): Endpoints {
    map k | k in m.Keys + desired.Keys && k !in Stale(scope, desired, m) ::
      if k in Missing(scope, desired, m) then Written(m, k, desired[k]) else m[k]
  }

  /** One accepted write: the upsert of a missing key, or the deletion of a stale one. */
  ghost predicate Write(scope: Scope, desired: Endpoints, m: Endpoints, m': Endpoints) {
    || (exists k :: k in Missing(scope, desired, m)
                    && (k in m ==> Selects(scope, k, m[k]))
                    && m' == m[k := Written(m, k, desired[k])])
    || (exists k :: k in Stale(scope, desired, m) && m' == m - {k})
  }

  /** The successive contents of the store while a run, or several runs cut off anywhere, write to it. */
  ghost predicate IsRun(scope: Scope, desired: Endpoints, trace: seq<Endpoints>) {
    |trace| > 0
    && forall i | 0 < i < |trace| :: Write(scope, desired, trace[i-1], trace[i])
  }

  /** A write is one unit of progress and does not move the goal. */
  lemma WriteProgress(scope: Scope, desired: Endpoints, m: Endpoints, m': Endpoints)
    requires Labelled(scope, desired) && Write(scope, desired, m, m')
    ensures Work(scope, desired, m') == Work(scope, desired, m) - 1
    ensures Goal(scope, desired, m') == Goal(scope, desired, m)
    ensures Clash(scope, desired, m') <==> Clash(scope, desired, m)
  {
    if k :| k in Missing(scope, desired, m) && (k in m ==> Selects(scope, k, m[k]))
            && m' == m[k := Written(m, k, desired[k])] {
      UpsertProgress(scope, desired, m, m', k);
    } else {
      var k :| k in Stale(scope, desired, m) && m' == m - {k};
      DeleteProgress(scope, desired, m, m', k);
    }
  }

  lemma UpsertProgress(scope: Scope, desired: Endpoints, m: Endpoints, m': Endpoints, k: Key)
    requires Labelled(scope, desired) && k in Missing(scope, desired, m)
    requires k in m ==> Selects(scope, k, m[k])
    requires m' == m[k := Written(m, k, desired[k])]
    ensures Work(scope, desired, m') == Work(scope, desired, m) - 1
    ensures Goal(scope, desired, m') == Goal(scope, desired, m)
    ensures Clash(scope, desired, m') <==> Clash(scope, desired, m)
  {
    UpsertSettles(scope, desired, m, m', k);
    GoalKept(scope, desired, m, m', k);
    ClashKept(scope, desired, m, m', k);
  }

  lemma UpsertSettles(scope: Scope, desired: Endpoints, m: Endpoints, m': Endpoints, k: Key)
    requires k in Missing(scope, desired, m) && Selects(scope, k, desired[k])
    requires m' == m[k := Written(m, k, desired[k])]
    ensures Missing(scope, desired, m') == Missing(scope, desired, m) - {k}
    ensures Stale(scope, desired, m') == Stale(scope, desired, m)
  {}

  lemma GoalKept(scope: Scope, desired: Endpoints, m: Endpoints, m': Endpoints, k: Key)
    requires k in Missing(scope, desired, m)
    requires m' == m[k := Written(m, k, desired[k])]
    requires Missing(scope, desired, m') == Missing(scope, desired, m) - {k}
    requires Stale(scope, desired, m') == Stale(scope, desired, m)
    ensures Goal(scope, desired, m') == Goal(scope, desired, m)
  {
    var g, g' := Goal(scope, desired, m), Goal(scope, desired, m');
    assert m'.Keys + desired.Keys == m.Keys + desired.Keys;
    assert g'.Keys == g.Keys;
    forall j | j in g ensures g'[j] == g[j] {
      if j != k && j in Missing(scope, desired, m) {
        assert Written(m', j, desired[j]) == Written(m, j, desired[j]);
      }
    }
  }

  lemma DeleteProgress(scope: Scope, desired: Endpoints, m: Endpoints, m': Endpoints, k: Key)
    requires k in Stale(scope, desired, m) && m' == m - {k}
    ensures Work(scope, desired, m') == Work(scope, desired, m) - 1
    ensures Goal(scope, desired, m') == Goal(scope, desired, m)
    ensures Clash(scope, desired, m') <==> Clash(scope, desired, m)
  {
    DeleteSettles(scope, desired, m, m', k);
    GoalKeptByDelete(scope, desired, m, m', k);
  }

  lemma GoalKeptByDelete(scope: Scope, desired: Endpoints, m: Endpoints, m': Endpoints, k: Key)
    requires k in Stale(scope, desired, m) && m' == m - {k}
    requires Missing(scope, desired, m') == Missing(scope, desired, m)
    requires Stale(scope, desired, m') == Stale(scope, desired, m) - {k}
    ensures Goal(scope, desired, m') == Goal(scope, desired, m)
  {}

  lemma DeleteSettles(scope: Scope, desired: Endpoints, m: Endpoints, m': Endpoints, k: Key)
    requires k in Stale(scope, desired, m) && m' == m - {k}
    ensures Missing(scope, desired, m') == Missing(scope, desired, m)
    ensures Stale(scope, desired, m') == Stale(scope, desired, m) - {k}
    ensures Clash(scope, desired, m') <==> Clash(scope, desired, m)
  {}

  lemma ClashKept(scope: Scope, desired: Endpoints, m: Endpoints, m': Endpoints, k: Key)
    requires k in desired && Selects(scope, k, desired[k])
    requires k in m ==> Selects(scope, k, m[k])
    requires m' == m[k := Written(m, k, desired[k])]
    ensures Clash(scope, desired, m') <==> Clash(scope, desired, m)
  {}

  /** Writes done plus work left is constant over any run, whatever it wrote first and wherever it
      was cut off; and the goal never moves. */
  lemma {:induction false} RunProgress(scope: Scope, desired: Endpoints, trace: seq<Endpoints>)
    requires Labelled(scope, desired) && IsRun(scope, desired, trace)
    ensures |trace| - 1 + Work(scope, desired, trace[|trace|-1]) == Work(scope, desired, trace[0])
    ensures Goal(scope, desired, trace[|trace|-1]) == Goal(scope, desired, trace[0])
    ensures Clash(scope, desired, trace[|trace|-1]) <==> Clash(scope, desired, trace[0])
  {
    var n := |trace| - 1;
    if n == 0 {
    } else {
      RunProgress(scope, desired, trace[..n]);
      WriteProgress(scope, desired, trace[n-1], trace[n]);
    }
  }

  /** No work is left exactly when no write is possible and no name is taken. */
  lemma Settled(scope: Scope, desired: Endpoints, m: Endpoints)
    ensures Work(scope, desired, m) == 0 ==> Goal(scope, desired, m) == m && !Clash(scope, desired, m)
    ensures Work(scope, desired, m) == 0 <==>
            !Clash(scope, desired, m) && !exists m' :: Write(scope, desired, m, m')
  {
    if Work(scope, desired, m) == 0 {
      assert Missing(scope, desired, m) == {} && Stale(scope, desired, m) == {};
      forall k | k in desired && k in m ensures Selects(scope, k, m[k]) {
        assert k !in Missing(scope, desired, m);
      }
    } else if !Clash(scope, desired, m) {
      if k :| k in Missing(scope, desired, m) {
        assert Write(scope, desired, m, m[k := Written(m, k, desired[k])]);
      } else {
        assert Missing(scope, desired, m) == {};
        var k :| k in Stale(scope, desired, m);
        assert Write(scope, desired, m, m - {k});
      }
    }
  }

  /** A run that leaves no work ends in the goal of the store it began with, after as many writes as there
      was work. */
  lemma CompletedRun(scope: Scope, desired: Endpoints, trace: seq<Endpoints>)
    requires Labelled(scope, desired) && IsRun(scope, desired, trace)
    requires Work(scope, desired, trace[|trace|-1]) == 0
    ensures trace[|trace|-1] == Goal(scope, desired, trace[0])
    ensures |trace| - 1 == Work(scope, desired, trace[0]) && !Clash(scope, desired, trace[0])
  {
    RunProgress(scope, desired, trace);
    Settled(scope, desired, trace[|trace|-1]);
  }

  /** What the goal is: the selected endpoints are exactly the desired names with exactly the desired
      specs, those that had the spec already are kept whole, and everything else is as before. */
  lemma GoalMeaning(scope: Scope, desired: Endpoints, m: Endpoints)
    requires Labelled(scope, desired) && !Clash(scope, desired, m)
    ensures var g := Goal(scope, desired, m);
      && (forall k :: k in g && Selects(scope, k, g[k]) <==> k in desired)
      && (forall k | k in desired :: k in g && g[k].spec == desired[k].spec
            && (g[k].labels == desired[k].labels || (k in m && g[k] == m[k])))
      && (forall k, e :: k in g && g[k] == e && !Selects(scope, k, e)
            <==> k in m && m[k] == e && !Selects(scope, k, e))
  {}

  /** The goal leaves no work. */
  lemma GoalSettles(scope: Scope, desired: Endpoints, m: Endpoints)
    requires Labelled(scope, desired) && !Clash(scope, desired, m)
    ensures Work(scope, desired, Goal(scope, desired, m)) == 0
  {}

  /** Each run goes on from the store the one before it left. */
  ghost predicate Consecutive(scope: Scope, desired: Endpoints, runs: seq<seq<Endpoints>>) {
    && |runs| > 0
    && (forall i | 0 <= i < |runs| :: IsRun(scope, desired, runs[i]))
    && (forall i | 0 < i < |runs| :: runs[i][0] == Last(runs[i-1]))
  }

  ghost function Last(trace: seq<Endpoints>): Endpoints
    requires |trace| > 0
  {
    trace[|trace|-1]
  }

  /** The writes accepted in all the runs. */
  ghost function Accepted(runs: seq<seq<Endpoints>>): int {
    if runs == [] then 0 else Accepted(runs[..|runs|-1]) + |runs[|runs|-1]| - 1
  }

  lemma {:induction false} RunsProgress(scope: Scope, desired: Endpoints, runs: seq<seq<Endpoints>>)
    requires Labelled(scope, desired) && Consecutive(scope, desired, runs)
    ensures var first, last := runs[0][0], Last(runs[|runs|-1]);
      && Accepted(runs) + Work(scope, desired, last) == Work(scope, desired, first)
      && Goal(scope, desired, last) == Goal(scope, desired, first)
      && (Clash(scope, desired, last) <==> Clash(scope, desired, first))
  {
    var n := |runs| - 1;
    if n == 0 {
    } else {
      RunsProgress(scope, desired, runs[..n]);
    }
    RunProgress(scope, desired, runs[n]);
  }

  /** Crash safety: of any number of consecutive runs let all but the last be cut off anywhere. If the last
      one leaves no work, the store is the goal of the first store, and all runs together wrote exactly
      the work there was at first. */
  lemma CutOffRunsConverge(scope: Scope, desired: Endpoints, runs: seq<seq<Endpoints>>)
    requires Labelled(scope, desired) && Consecutive(scope, desired, runs)
    requires Work(scope, desired, Last(runs[|runs|-1])) == 0
    ensures Last(runs[|runs|-1]) == Goal(scope, desired, runs[0][0])
    ensures Accepted(runs) == Work(scope, desired, runs[0][0])
    ensures !Clash(scope, desired, runs[0][0])
  {
    RunsProgress(scope, desired, runs);
    Settled(scope, desired, Last(runs[|runs|-1]));
  }

  /** Some run leaves no work exactly when no desired name is taken by someone else. So a blocked
      reconciliation fails however often it is repeated. */
  lemma ConvergesExactly(scope: Scope, desired: Endpoints, m: Endpoints)
    requires Labelled(scope, desired)
    ensures (exists trace :: IsRun(scope, desired, trace) && trace[0] == m && Work(scope, desired, Last(trace)) == 0)
            <==> !Clash(scope, desired, m)
  {
    if trace :| IsRun(scope, desired, trace) && trace[0] == m && Work(scope, desired, Last(trace)) == 0 {
      RunProgress(scope, desired, trace);
      Settled(scope, desired, Last(trace));
    }
    if !Clash(scope, desired, m) {
      assert IsRun(scope, desired, [m]);
      var trace := CompleteRun(scope, desired, [m]);
    }
  }

  lemma {:induction false} CompleteRun(scope: Scope, desired: Endpoints, start: seq<Endpoints>)
    returns (trace: seq<Endpoints>)
    requires Labelled(scope, desired) && IsRun(scope, desired, start) && !Clash(scope, desired, Last(start))
    ensures IsRun(scope, desired, trace) && trace[0] == start[0] && Work(scope, desired, Last(trace)) == 0
    decreases Work(scope, desired, Last(start))
  {
    trace := start;
    Settled(scope, desired, Last(start));
    if Work(scope, desired, Last(start)) == 0 {
    } else {
      var m :| Write(scope, desired, Last(start), m);
      WriteProgress(scope, desired, Last(start), m);
      ExtendRun(scope, desired, start, m);
      trace := CompleteRun(scope, desired, start + [m]);
    }
  }

  /** A run may go on with the upsert of a missing key. */
  lemma RunUpserts(scope: Scope, desired: Endpoints, trace: seq<Endpoints>, k: Key, m: Endpoints)
    requires IsRun(scope, desired, trace) && k in desired && Selects(scope, k, desired[k])
    requires !Held(scope, desired, trace[|trace|-1], k)
    requires k in trace[|trace|-1] ==> Selects(scope, k, trace[|trace|-1][k])
    requires m == trace[|trace|-1][k := Written(trace[|trace|-1], k, desired[k])]
    ensures IsRun(scope, desired, trace + [m]) && Held(scope, desired, m, k)
    ensures forall j | j != k :: Lookup(m, j) == Lookup(trace[|trace|-1], j)
  {}

  /** A run may go on with the deletion of a stale key. */
  lemma RunDeletes(scope: Scope, desired: Endpoints, trace: seq<Endpoints>, k: Key, m: Endpoints)
    requires IsRun(scope, desired, trace) && k in Stale(scope, desired, trace[|trace|-1])
    requires m == trace[|trace|-1] - {k}
    ensures IsRun(scope, desired, trace + [m])
    ensures Missing(scope, desired, m) == Missing(scope, desired, trace[|trace|-1])
    ensures Stale(scope, desired, m) == Stale(scope, desired, trace[|trace|-1]) - {k}
  {}

  lemma ExtendRun(scope: Scope, desired: Endpoints, trace: seq<Endpoints>, m: Endpoints)
    requires IsRun(scope, desired, trace) && Write(scope, desired, trace[|trace|-1], m)
    ensures IsRun(scope, desired, trace + [m])
  {}

  /** Whoever an endpoint out of scope belongs to, no run touches it. */
  lemma {:induction false} RunFrame(scope: Scope, desired: Endpoints, trace: seq<Endpoints>, k: Key)
    requires IsRun(scope, desired, trace)
    requires k in trace[0] && !Selects(scope, k, trace[0][k])
    ensures var last := trace[|trace|-1]; k in last && last[k] == trace[0][k]
  {
    var n := |trace| - 1;
    if n == 0 {
    } else {
      RunFrame(scope, desired, trace[..n], k);
      assert Write(scope, desired, trace[n-1], trace[n]);
    }
  }
}
