/** What the schemas of the two cluster-scoped resources let through to the controllers. */
module Admission {
  import opened Objects
  import opened HostNames
  import opened ClusterIdentityController

  predicate LowerLetters(s: string) {
    forall i | 0 <= i < |s| :: 'a' <= s[i] <= 'z'
  }

  /** Labels of groups joined by hyphens, each followed by a dot, and two or more letters at the end. */
  predicate DomainPattern(s: string) {
    exists i | 0 <= i < |s| :: s[i] == '.' && MatchesPattern(s[..i])
                               && ((|s[i+1..]| >= 2 && LowerLetters(s[i+1..])) || DomainPattern(s[i+1..]))
  }

  /** What an object without a spec is read as. */
  const SPECLESS := Identity("", "", "", "", [])

  /** The spec may be left out altogether; one that is given must have all four fields in their form. */
  predicate AdmittedIdentity(id: Identity) {
    || id == SPECLESS
    || (&& id.region != "" && id.cluster != "" && DomainPattern(id.domain)
        && |id.environmentLetter| == 1 && LowerLetters(id.environmentLetter))
  }

  /** Left out the spec is an empty list. One that is given has at least one entry, whose name and region may
      be empty; so every list is admitted. */
  predicate AdmittedConfig(cfg: Config) {
    cfg == [] || |cfg| >= 1
  }

  /** The controller refuses exactly one of the admitted identities: the one without a spec. */
  lemma RefusedIdentityExactly(id: Identity)
    requires AdmittedIdentity(id)
    ensures ValidIdentity(id) <==> id != SPECLESS
  {}

  lemma ExampleDomain()
    ensures DomainPattern("example.com")
  {
    var s := "example.com";
    assert s[..7] == "example" && Group(s[..7]) && s[7] == '.';
    assert s[8..] == "com" && LowerLetters(s[8..]);
    assert MatchesPattern(s[..7]);
  }
}
