/**
 `modules.latest_version`: bumped by every create, recomputed over whatever row
 order the database yields by every delete. Both keep a greatest version.
 */
module LatestVersion {
  import opened Text
  import opened Version
  import opened VersionOrder

  /** latestVersionWithCandidate: a blank value stands for "none yet". */
  function WithCandidate(current: string, candidate: string): string
  {
    if TrimSpace(current) == "" then candidate
    else if CompareVersions(candidate, current) > 0 then candidate
    else current
  }

  /** `latest` is a greatest member of `versions`, or "" when there is none. */
  predicate IsLatest(latest: string, versions: set<string>)
  {
    if versions == {} then latest == ""
    else latest in versions && forall v :: v in versions ==> CompareVersions(v, latest) <= 0
  }

  /** A blank version has no precedence above any other. */
  lemma BlankIsLeast(blank: string, v: string)
    requires TrimSpace(blank) == ""
    ensures CompareVersions(blank, v) <= 0
  {
    assert Normalized(blank) == None;
  }

  /** Creating a release keeps the latest version right. */
  lemma CandidateKeepsLatest(latest: string, versions: set<string>, v: string)
    requires IsLatest(latest, versions)
    ensures IsLatest(WithCandidate(latest, v), versions + {v})
  {
    var next := WithCandidate(latest, v);
    forall x | x in versions + {v} ensures CompareVersions(x, next) <= 0 {
      ComparisonIsTotalPreorder(x, latest, next);
      ComparisonIsTotalPreorder(v, latest, next);
      if TrimSpace(latest) == "" { BlankIsLeast(latest, v); }
    }
  }

  /** Any two ways of finding the latest version agree up to precedence. */
  lemma LatestIsUniqueUpToPrecedence(a: string, b: string, versions: set<string>)
    requires versions != {} && IsLatest(a, versions) && IsLatest(b, versions)
    ensures CompareVersions(a, b) == 0
  {
    ComparisonIsTotalPreorder(a, b, a);
  }

  /** Dropping a version that is not the stored latest never lowers the maximum. */
  lemma DroppingAnotherVersionKeepsThePrecedence(latest: string, versions: set<string>, dropped: string, after: string)
    requires versions != {} && IsLatest(latest, versions) && dropped != latest
    requires IsLatest(after, versions - {dropped})
    ensures latest in versions - {dropped}
    ensures CompareVersions(after, latest) == 0
  {
    assert latest in versions - {dropped};
    ComparisonIsTotalPreorder(after, latest, after);
  }

  /** A way of comparing versions; the comparison itself does not matter to the scan. */
  type Order = (string, string) -> int

  ghost predicate TotalPreorder(compare: Order)
  {
    && (forall a :: compare(a, a) == 0)
    && (forall a, b :: compare(a, b) > 0 ==> compare(b, a) < 0)
    && (forall a, b, c :: compare(a, b) <= 0 && compare(b, c) < 0 ==> compare(a, c) < 0)
  }

  lemma VersionsAreOrdered()
    ensures TotalPreorder(CompareVersions)
  {
    forall a, b, c
      ensures CompareVersions(a, a) == 0 && (CompareVersions(a, b) > 0 ==> CompareVersions(b, a) < 0)
      ensures CompareVersions(a, b) <= 0 && CompareVersions(b, c) < 0 ==> CompareVersions(a, c) < 0
    {
      ComparisonIsTotalPreorder(a, b, c);
      ComparisonIsTotalPreorder(b, c, a);
      ComparisonIsTotalPreorder(c, a, b);
    }
  }

  /** Position k holds the first of the greatest versions. */
  predicate FirstGreatest(compare: Order, versions: seq<string>, k: nat)
    requires k < |versions|
  {
    && (forall i :: 0 <= i < k ==> compare(versions[i], versions[k]) < 0)
    && (forall i :: k <= i < |versions| ==> compare(versions[i], versions[k]) <= 0)
  }

  lemma FirstGreatestStep(compare: Order, versions: seq<string>, n: nat, k: nat)
    requires TotalPreorder(compare) && k < n < |versions| && FirstGreatest(compare, versions[..n], k)
    ensures FirstGreatest(compare, versions[..n + 1], if compare(versions[n], versions[k]) > 0 then n else k)
  {
    var all := versions[..n + 1];
    assert forall i :: 0 <= i < n ==> all[i] == versions[..n][i];
    if compare(versions[n], versions[k]) > 0 {
      forall i | 0 <= i < n ensures compare(all[i], all[n]) < 0 { assert compare(all[i], all[k]) <= 0; }
    }
  }

  /** latestVersion over a slice: the first of the greatest versions. */
  method LatestOf(versions: seq<string>) returns (latest: string)
    ensures versions == [] ==> latest == ""
    ensures versions != [] ==> exists k :: 0 <= k < |versions| && latest == versions[k] && FirstGreatest(CompareVersions, versions, k)
  {
    if |versions| == 0 { return ""; }
    latest := versions[0];
    ghost var k := 0;
    VersionsAreOrdered();
    for n := 1 to |versions|
      invariant 0 <= k < n && latest == versions[k] && FirstGreatest(CompareVersions, versions[..n], k)
    {
      FirstGreatestStep(CompareVersions, versions, n, k);
      if CompareVersions(versions[n], latest) > 0 {
        latest, k := versions[n], n;
      }
    }
    assert versions[..|versions|] == versions;
  }

  /** sqliteLatestVersion: the rows arrive in no particular order. */
  method LatestOfRows(versions: set<string>) returns (latest: string)
    ensures IsLatest(latest, versions)
  {
    latest := "";
    var rest := versions;
    while rest != {}
      invariant rest <= versions
      invariant IsLatest(latest, versions - rest)
    {
      var v :| v in rest;
      CandidateKeepsLatest(latest, versions - rest, v);
      assert versions - rest + {v} == versions - (rest - {v});
      latest := WithCandidate(latest, v);
      rest := rest - {v};
    }
    assert versions - rest == versions;
  }
}
