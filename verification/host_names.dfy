/** Host names: what tells two routes apart, and the form a target postfix must have. */
module HostNames {
  import opened Objects
  import opened GatewayController

  // ---- names joined by hyphens ----

  /** `longer` goes on after a hyphen where `shorter` ends, and the rests make up for it. */
  ghost predicate Continued(shorter: string, c: string, longer: string, d: string) {
    exists x: string :: longer == shorter + "-" + x && c == x + "-" + d
  }

  lemma ContinuedMeets(shorter: string, c: string, longer: string, d: string)
    requires Continued(shorter, c, longer, d)
    ensures shorter + "-" + c == longer + "-" + d
  {}

  lemma MeetingIsContinued(shorter: string, c: string, longer: string, d: string)
    requires shorter + "-" + c == longer + "-" + d && |shorter| < |longer|
    ensures Continued(shorter, c, longer, d)
  {
    var whole, i, j := shorter + "-" + c, |shorter|, |longer|;
    assert whole == longer + "-" + d;
    var x := whole[i+1..j];
    assert longer == whole[..j] && shorter == whole[..i] && whole[i] == '-' && whole[j] == '-';
    assert whole[..j] == whole[..i] + [whole[i]] + whole[i+1..j];
    assert c == whole[i+1..] && d == whole[j+1..];
    assert whole[i+1..] == whole[i+1..j] + [whole[j]] + whole[j+1..];
  }

  lemma SameLength(a: string, c: string, b: string, d: string)
    requires a + "-" + c == b + "-" + d && |a| == |b|
    ensures a == b && c == d
  {
    var whole := a + "-" + c;
    assert whole == b + "-" + d;
    assert a == whole[..|a|] && b == whole[..|a|] && c == whole[|a|+1..] && d == whole[|a|+1..];
  }

  /** Two joined names are equal exactly when their parts are, or one goes on into the other. */
  lemma JoinedExactly(a: string, c: string, b: string, d: string)
    ensures a + "-" + c == b + "-" + d <==> (a == b && c == d) || Continued(a, c, b, d) || Continued(b, d, a, c)
  {
    if a + "-" + c == b + "-" + d {
      if |a| < |b| {
        MeetingIsContinued(a, c, b, d);
      } else if |b| < |a| {
        MeetingIsContinued(b, d, a, c);
      } else {
        SameLength(a, c, b, d);
      }
    }
    if Continued(a, c, b, d) {
      ContinuedMeets(a, c, b, d);
    }
    if Continued(b, d, a, c) {
      ContinuedMeets(b, d, a, c);
    }
  }

  // ---- source hosts ----

  lemma SameSuffix(x: string, y: string, z: string)
    requires x + z == y + z
    ensures x == y
  {
    assert (x + z)[..|x|] == x && (y + z)[..|y|] == y;
  }

  lemma SamePrefix(x: string, y: string, z: string)
    requires z + x == z + y
    ensures x == y
  {
    assert (z + x)[|z|..] == x && (z + y)[|z|..] == y;
  }

  /** Environment and application, joined. */
  function Place(spec: RouteSpec): string {
    spec.environment + "-" + spec.application
  }

  /** What a host has after the service name, without the domain. */
  function Rest(spec: RouteSpec, letter: string): string {
    "-ns-" + letter + "-" + Place(spec)
  }

  lemma HostIs(spec: RouteSpec, id: Identity)
    ensures SourceHost(spec, id) == (spec.serviceName + Rest(spec, id.environmentLetter)) + ("." + id.domain)
  {}

  /** The service name of `b` goes on where that of `a` ends, and the rests make up for it. */
  ghost predicate ServiceContinued(a: RouteSpec, b: RouteSpec, letter: string) {
    exists x: string :: x != "" && b.serviceName == a.serviceName + x && Rest(a, letter) == x + Rest(b, letter)
  }

  lemma ServiceContinuedMeets(a: RouteSpec, b: RouteSpec, letter: string)
    requires ServiceContinued(a, b, letter)
    ensures a.serviceName + Rest(a, letter) == b.serviceName + Rest(b, letter)
  {}

  lemma MeetingIsServiceContinued(a: RouteSpec, b: RouteSpec, letter: string)
    requires a.serviceName + Rest(a, letter) == b.serviceName + Rest(b, letter) && |a.serviceName| < |b.serviceName|
    ensures ServiceContinued(a, b, letter)
  {
    var whole, i, j := a.serviceName + Rest(a, letter), |a.serviceName|, |b.serviceName|;
    assert whole == b.serviceName + Rest(b, letter);
    var x := whole[i..j];
    assert a.serviceName == whole[..i] && b.serviceName == whole[..j] && whole[..j] == whole[..i] + x;
    assert Rest(a, letter) == whole[i..] && Rest(b, letter) == whole[j..] && whole[i..] == x + whole[j..];
  }

  /** In one cluster two routes have one host exactly when they have one service and their environments and
      applications are equal or go on into each other, or one service name goes on into the other. */
  lemma HostsMeetExactly(a: RouteSpec, b: RouteSpec, id: Identity)
    ensures SourceHost(a, id) == SourceHost(b, id) <==>
            || (a.serviceName == b.serviceName
                && ((a.environment == b.environment && a.application == b.application)
                    || Continued(a.environment, a.application, b.environment, b.application)
                    || Continued(b.environment, b.application, a.environment, a.application)))
            || ServiceContinued(a, b, id.environmentLetter)
            || ServiceContinued(b, a, id.environmentLetter)
  {
    var letter := id.environmentLetter;
    HostIs(a, id);
    HostIs(b, id);
    JoinedExactly(a.environment, a.application, b.environment, b.application);
    if SourceHost(a, id) == SourceHost(b, id) {
      SameSuffix(a.serviceName + Rest(a, letter), b.serviceName + Rest(b, letter), "." + id.domain);
      ServicesMeet(a, b, letter);
    }
    if ServiceContinued(a, b, letter) {
      ServiceContinuedMeets(a, b, letter);
    }
    if ServiceContinued(b, a, letter) {
      ServiceContinuedMeets(b, a, letter);
    }
  }

  lemma ServicesMeet(a: RouteSpec, b: RouteSpec, letter: string)
    requires a.serviceName + Rest(a, letter) == b.serviceName + Rest(b, letter)
    ensures (a.serviceName == b.serviceName && Place(a) == Place(b))
            || ServiceContinued(a, b, letter) || ServiceContinued(b, a, letter)
  {
    if |a.serviceName| < |b.serviceName| {
      MeetingIsServiceContinued(a, b, letter);
    } else if |b.serviceName| < |a.serviceName| {
      MeetingIsServiceContinued(b, a, letter);
    } else {
      var whole := a.serviceName + Rest(a, letter);
      assert a.serviceName == whole[..|a.serviceName|] && b.serviceName == whole[..|a.serviceName|];
      SamePrefix(Rest(a, letter), Rest(b, letter), a.serviceName);
      SamePrefix(Place(a), Place(b), "-ns-" + letter + "-");
    }
  }

  /** With a one-letter environment identifier, as the resource demands, a service name only goes on into
      another if that contains "-ns-" and the letter after it. */
  lemma ServiceContinuedExactly(a: RouteSpec, b: RouteSpec, letter: string)
    requires |letter| == 1 && letter[0] != '-'
    ensures ServiceContinued(a, b, letter) <==>
            exists y: string :: b.serviceName == a.serviceName + ("-ns-" + letter + y)
                                && "-" + Place(a) == y + Rest(b, letter)
  {
    if ServiceContinued(a, b, letter) {
      var x: string :| x != "" && b.serviceName == a.serviceName + x && Rest(a, letter) == x + Rest(b, letter);
      SeparatorStands(x, letter, Place(a), Place(b));
      assert x == "-ns-" + letter + x[5..];
      RestSplits(a, b, letter, x[5..]);
    }
    if y: string :| b.serviceName == a.serviceName + ("-ns-" + letter + y) && "-" + Place(a) == y + Rest(b, letter) {
      RestSplits(a, b, letter, y);
      assert "-ns-" + letter + y != "";
    }
  }

  lemma RestSplits(a: RouteSpec, b: RouteSpec, letter: string, y: string)
    ensures Rest(a, letter) == ("-ns-" + letter + y) + Rest(b, letter) <==> "-" + Place(a) == y + Rest(b, letter)
  {
    var start := "-ns-" + letter;
    assert Rest(a, letter) == start + ("-" + Place(a));
    assert (start + y) + Rest(b, letter) == start + (y + Rest(b, letter));
    if Rest(a, letter) == (start + y) + Rest(b, letter) {
      SamePrefix("-" + Place(a), y + Rest(b, letter), start);
    }
  }

  /** The separator does not overlap itself, but for its last hyphen. */
  lemma SeparatorStands(x: string, letter: string, p: string, q: string)
    requires |letter| == 1 && letter[0] != '-' && x != ""
    requires "-ns-" + letter + "-" + p == x + ("-ns-" + letter + "-" + q)
    ensures |x| >= 5 && x[..5] == "-ns-" + letter
  {
    var whole := "-ns-" + letter + "-" + p;
    assert whole[0] == '-' && whole[1] == 'n' && whole[2] == 's' && whole[3] == '-';
    assert whole[4] == letter[0] && whole[5] == '-' && whole[..5] == "-ns-" + letter;
    var i, rest := |x|, "-ns-" + letter + "-" + q;
    assert whole[i] == rest[0] == '-' && whole[i+1] == rest[1] == 'n' && whole[i+2] == rest[2] == 's';
    assert i != 1 && i != 2 && i != 3 && i != 4;
    assert whole[..5] == x[..5];
  }

  /** That happens: two different routes of one service with one host. */
  lemma HyphensMayMeet(id: Identity)
    ensures SourceHost(RouteSpec("api", "gw", "", "prod-eu", "app"), id)
            == SourceHost(RouteSpec("api", "gw", "", "prod", "eu-app"), id)
  {}

  // ---- target hosts ----

  /** Two clusters of one domain have one target host exactly when cluster, region and postfix are equal, or go
      on into each other. */
  lemma TargetsMeetExactly(a: Identity, p: string, b: Identity, q: string)
    requires a.domain == b.domain
    ensures TargetHost(a, p) == TargetHost(b, q) <==>
            || (a.cluster == b.cluster
                && ((a.region == b.region && p == q)
                    || Continued(a.region, p, b.region, q) || Continued(b.region, q, a.region, p)))
            || Continued(a.cluster, a.region + "-" + p, b.cluster, b.region + "-" + q)
            || Continued(b.cluster, b.region + "-" + q, a.cluster, a.region + "-" + p)
  {
    var x, y := a.cluster + "-" + (a.region + "-" + p), b.cluster + "-" + (b.region + "-" + q);
    assert TargetHost(a, p) == x + ("." + a.domain);
    assert TargetHost(b, q) == y + ("." + a.domain);
    if TargetHost(a, p) == TargetHost(b, q) {
      SameSuffix(x, y, "." + a.domain);
    }
    JoinedExactly(a.cluster, a.region + "-" + p, b.cluster, b.region + "-" + q);
    JoinedExactly(a.region, p, b.region, q);
  }

  predicate HyphenFree(s: string) {
    '-' !in s
  }

  lemma ContinuedHasHyphen(shorter: string, c: string, longer: string, d: string)
    ensures Continued(shorter, c, longer, d) ==> '-' in longer
  {
    if x: string :| longer == shorter + "-" + x && c == x + "-" + d {
      assert longer[|shorter|] == '-';
    }
  }

  /** Without hyphens in cluster names and regions, clusters of one domain share no target host, and one
      cluster has a different one for each postfix. */
  lemma HyphenFreeTargetsDiffer(a: Identity, p: string, b: Identity, q: string)
    requires a.domain == b.domain
    requires HyphenFree(a.cluster) && HyphenFree(a.region) && HyphenFree(b.cluster) && HyphenFree(b.region)
    ensures TargetHost(a, p) == TargetHost(b, q) <==> a.cluster == b.cluster && a.region == b.region && p == q
  {
    TargetsMeetExactly(a, p, b, q);
    ContinuedHasHyphen(a.region, p, b.region, q);
    ContinuedHasHyphen(b.region, q, a.region, p);
    ContinuedHasHyphen(a.cluster, a.region + "-" + p, b.cluster, b.region + "-" + q);
    ContinuedHasHyphen(b.cluster, b.region + "-" + q, a.cluster, a.region + "-" + p);
  }

  /** With hyphens it happens: cluster west-1 of region eu and cluster west of region 1-eu. */
  lemma TargetsMayMeet(domain: string, letter: string, postfix: string)
    ensures TargetHost(Identity("eu", "west-1", domain, letter, []), postfix)
            == TargetHost(Identity("1-eu", "west", domain, letter, []), postfix)
  {}

  // ---- record names ----

  /** Two record names of Gateway configurations are equal exactly when controller, postfix and ExternalDNS
      controller are, or go on into each other. */
  lemma RecordNamesMeetExactly(c: string, p: string, x: string, d: string, q: string, y: string)
    ensures "gateway-controller-" + c + "-" + p + "-" + x == "gateway-controller-" + d + "-" + q + "-" + y <==>
            || (x == y && ((c == d && p == q) || Continued(c, p, d, q) || Continued(d, q, c, p)))
            || Continued(c + "-" + p, x, d + "-" + q, y)
            || Continued(d + "-" + q, y, c + "-" + p, x)
  {
    var start, a, b := "gateway-controller-", c + "-" + p + "-" + x, d + "-" + q + "-" + y;
    assert "gateway-controller-" + c + "-" + p + "-" + x == start + a;
    assert "gateway-controller-" + d + "-" + q + "-" + y == start + b;
    if start + a == start + b {
      SamePrefix(a, b, start);
    }
    JoinedExactly(c + "-" + p, x, d + "-" + q, y);
    JoinedExactly(c, p, d, q);
  }

  // ---- the postfix pattern ----

  predicate Group(s: string) {
    s != "" && forall i | 0 <= i < |s| :: LowerAlphanumeric(s[i])
  }

  /** A group, or a group, a hyphen and a match. */
  predicate MatchesPattern(s: string) {
    Group(s) || exists i | 0 <= i < |s| :: s[i] == '-' && Group(s[..i]) && MatchesPattern(s[i+1..])
  }

  /** The validity test is the pattern: groups of lower-case letters and digits joined by single hyphens. */
  lemma {:induction false} PostfixPattern(s: string)
    ensures ValidPostfix(s) <==> MatchesPattern(s)
    decreases |s|
  {
    if ValidPostfix(s) && !Group(s) {
      var i := FirstHyphen(s);
      var rest := s[i+1..];
      assert forall j | 0 <= j < |rest| :: rest[j] == s[i+1+j];
      assert ValidPostfix(rest);
      PostfixPattern(rest);
    }
    if i :| 0 <= i < |s| && s[i] == '-' && Group(s[..i]) && MatchesPattern(s[i+1..]) {
      PostfixPattern(s[i+1..]);
      JoinedIsValid(s, i);
    }
  }

  lemma FirstHyphen(s: string) returns (i: nat)
    requires ValidPostfix(s) && !Group(s)
    ensures 0 < i < |s| - 1 && s[i] == '-' && Group(s[..i])
  {
    i := 0;
    while s[i] != '-'
      invariant i < |s| && forall j | 0 <= j < i :: LowerAlphanumeric(s[j])
      decreases |s| - i
    {
      i := i + 1;
      assert i == |s| ==> Group(s);
    }
  }

  lemma JoinedIsValid(s: string, i: nat)
    requires i < |s| && s[i] == '-' && Group(s[..i]) && ValidPostfix(s[i+1..])
    ensures ValidPostfix(s)
  {}
}
