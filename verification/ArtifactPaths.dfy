/**
 Object names as strings: the name a publisher builds with path.Join, and the
 owner and name that reconciliation parses back out of it before it locks a
 module. Lifecycle relies on names being injective and on repair locking the
 publisher's own module.
 */
module ArtifactPaths {
  import opened Text
  import opened ModuleNames
  import opened Version
  import opened VersionGrammar

  /* ---------- path.Join ---------- */

  /** One segment handed to path.Clean. */
  function Push(out: seq<string>, segment: string, rooted: bool): seq<string>
  {
    if segment == "" || segment == "." then out
    else if segment != ".." then out + [segment]
    else if out != [] && out[|out| - 1] != ".." then out[..|out| - 1]
    else if rooted then out else out + [".."]
  }

  function Resolve(parts: seq<string>, rooted: bool): seq<string>
  {
    if parts == [] then [] else Push(Resolve(parts[..|parts| - 1], rooted), parts[|parts| - 1], rooted)
  }

  predicate Rooted(p: string) { p != "" && p[0] == '/' }

  function Render(out: seq<string>, rooted: bool): string
  {
    if out == [] then (if rooted then "/" else ".") else (if rooted then "/" else "") + Join(out, '/')
  }

  function Clean(p: string): string { Render(Resolve(Split(p, '/'), Rooted(p)), Rooted(p)) }

  /** path.Join of the prefix and some segments. */
  function Below(prefix: string, tail: seq<string>): string
    requires tail != []
  {
    Clean((if prefix == "" then "" else prefix + ['/']) + Join(tail, '/'))
  }

  /** The object name of a published artifact. */
  function ReleasePath(prefix: string, owner: string, name: string, version: string, sha: string): string
  {
    Below(prefix, Tail(owner, name, version, sha))
  }

  /** The object that a readiness check writes and removes again; it stays behind when its removal fails. */
  function ProbePath(prefix: string, probe: string): string { Below(prefix, [PROBES, probe]) }

  const PROBES := ".readiness-probes"

  /* ---------- what the publisher may pass ---------- */

  predicate ValidVersion(v: string)
  {
    v != "" && v == TrimSpace(v) && v[0] != 'v'
    && |Split(Before(Before(v, '+'), '-'), '.')| == 3 && Parse("v" + v).Some?
  }

  predicate HexDigest(s: string) { |s| == 64 && forall c :: c in s ==> IsDigit(c) || 'a' <= c <= 'f' }

  predicate Publishable(owner: string, name: string, version: string, sha: string)
  {
    ValidOwner(owner) && ValidName(name) && ValidVersion(version) && HexDigest(sha)
  }

  /** A segment that path.Clean keeps as it is. */
  predicate Plain(segment: string) { segment != "" && segment != "." && segment != ".." && '/' !in segment }

  /** The versions that may be published are the full texts without `v` and blanks: no shorthand, any identifiers. */
  lemma ValidVersionsAreReleases(text: string)
    ensures ValidVersion(text) <==> exists v: Semver, build :: v.Valid() && BuildIdentifiers(build) && text == FullText(v, build)
  {
    if ValidVersion(text) {
      var v := Parse("v" + text).value;
      ParsesExactly(text, v);
      if text == v.major || text == v.major + "." + v.minor { ShorthandsHaveFewerParts(text, v); }
    }
    if v: Semver, build :| v.Valid() && BuildIdentifiers(build) && text == FullText(v, build) { FullTextIsValid(text, v, build); }
  }

  lemma FullTextIsValid(text: string, v: Semver, build: seq<string>)
    requires v.Valid() && BuildIdentifiers(build) && text == FullText(v, build)
    ensures ValidVersion(text)
  {
    FullTextParses(v, build);
    FullTextIsTrimmed(text, v);
    FullTextHasThreeParts(v, build);
  }

  lemma FullTextIsTrimmed(text: string, v: Semver)
    requires Spells(text, v)
    ensures text != "" && text == TrimSpace(text) && text[0] != 'v'
  {
    SpelledChars(text, v);
    BlanksAreTrimmed("", text, "");
    assert "" + text + "" == text;
  }

  lemma FullTextHasThreeParts(v: Semver, build: seq<string>)
    requires v.Valid() && BuildIdentifiers(build)
    ensures |Split(Before(Before(FullText(v, build), '+'), '-'), '.')| == 3
  {
    BuildCut(v, build);
    PlainCut(v);
  }

  lemma ShorthandsHaveFewerParts(text: string, v: Semver)
    requires v.Valid() && (text == v.major || text == v.major + "." + v.minor)
    ensures |Split(Before(Before(text, '+'), '-'), '.')| < 3
  {
    BeforeWithout(text, '+');
    BeforeWithout(text, '-');
    if text == v.major {
      SplitWithout(text, '.');
    } else {
      SplitSeparated(v.major, '.', v.minor);
      SplitWithout(v.minor, '.');
    }
  }

  /** A valid version is one plain path segment. */
  lemma VersionIsPlain(v: string)
    requires ValidVersion(v)
    ensures Plain(v)
  {
    ValidVersionsAreReleases(v);
    var release: Semver, build :| release.Valid() && BuildIdentifiers(build) && v == FullText(release, build);
    SpelledChars(v, release);
    forall c | c in v ensures c != '/' { FullTextChars(release, build, c); }
  }

  lemma FileIsPlain(sha: string)
    requires HexDigest(sha)
    ensures Plain(sha + ".tar.gz")
  {
    var f := sha + ".tar.gz";
    assert forall i :: 0 <= i < |f| ==> f[i] == if i < 64 then sha[i] else ".tar.gz"[i - 64];
    assert forall i :: 0 <= i < 64 ==> sha[i] in sha;
  }

  lemma OwnerAndNameArePlain(owner: string, name: string)
    requires ValidOwner(owner) && ValidName(name)
    ensures Plain(owner) && Plain(name)
  {
    assert owner[0] in owner && name[0] in name;
  }

  /* ---------- splitting and joining ---------- */

  lemma {:induction false} SplitConcat(a: string, sep: char, b: string)
    ensures Split(a + [sep] + b, sep) == Split(a, sep) + Split(b, sep)
  {
    if a == "" {
      assert a + [sep] + b == [sep] + b;
    } else {
      assert (a + [sep] + b)[1..] == a[1..] + [sep] + b;
      SplitConcat(a[1..], sep, b);
    }
  }

  lemma {:induction false} JoinConcat(a: seq<string>, b: seq<string>, sep: char)
    requires a != [] && b != []
    ensures Join(a + b, sep) == Join(a, sep) + [sep] + Join(b, sep)
  {
    if |a| == 1 {
      assert (a + b)[1..] == b;
    } else {
      assert (a + b)[1..] == a[1..] + b;
      JoinConcat(a[1..], b, sep);
    }
  }

  /* ---------- cleaning ---------- */

  /** Leading `..` segments, then plain ones: what path.Clean makes of a relative path. */
  predicate Normal(out: seq<string>)
  {
    && (forall i :: 0 <= i < |out| ==> Plain(out[i]) || out[i] == "..")
    && (forall i, j :: 0 <= i < j < |out| && out[j] == ".." ==> out[i] == "..")
  }

  lemma {:induction false} ResolveIsNormal(parts: seq<string>, rooted: bool)
    requires forall p :: p in parts ==> '/' !in p
    ensures Normal(Resolve(parts, rooted))
    ensures rooted ==> forall i :: 0 <= i < |Resolve(parts, rooted)| ==> Plain(Resolve(parts, rooted)[i])
  {
    if parts != [] {
      ResolveIsNormal(parts[..|parts| - 1], rooted);
      assert parts[|parts| - 1] in parts;
    }
  }

  lemma {:induction false} ResolveNormal(parts: seq<string>)
    requires Normal(parts)
    ensures Resolve(parts, false) == parts
  {
    if parts != [] {
      var front := parts[..|parts| - 1];
      ResolveNormal(front);
      assert parts == front + [parts[|parts| - 1]];
    }
  }

  lemma {:induction false} ResolvePlainTail(parts: seq<string>, tail: seq<string>, rooted: bool)
    requires forall s :: s in tail ==> Plain(s)
    ensures Resolve(parts + tail, rooted) == Resolve(parts, rooted) + tail
  {
    if tail == [] {
      assert parts + tail == parts;
    } else {
      var front, last := tail[..|tail| - 1], tail[|tail| - 1];
      ResolvePlainTail(parts, front, rooted);
      assert (parts + tail)[..|parts + tail| - 1] == parts + front;
      assert last in tail && tail == front + [last];
    }
  }

  /** The cleaned segments of the prefix. */
  function Base(prefix: string): seq<string>
  {
    if prefix == "" then [] else Resolve(Split(prefix, '/'), Rooted(prefix))
  }

  function Tail(owner: string, name: string, version: string, sha: string): seq<string>
  {
    [owner, name, version, sha + ".tar.gz"]
  }

  lemma TailIsPlain(owner: string, name: string, version: string, sha: string)
    requires Publishable(owner, name, version, sha)
    ensures forall s :: s in Tail(owner, name, version, sha) ==> Plain(s)
  {
    VersionIsPlain(version);
    FileIsPlain(sha);
    OwnerAndNameArePlain(owner, name);
  }

  predicate PlainTail(tail: seq<string>) { tail != [] && forall s :: s in tail ==> Plain(s) }

  /** A name is its prefix's cleaned segments followed by its own. */
  lemma BelowSegments(prefix: string, tail: seq<string>)
    requires PlainTail(tail)
    ensures Below(prefix, tail) == (if Rooted(prefix) then "/" else "") + Join(Base(prefix) + tail, '/')
  {
    var rest := Join(tail, '/');
    SplitOfJoin(tail, '/');
    if prefix == "" {
      BelowNothing(tail);
    } else {
      assert prefix + ['/'] + rest == (prefix + ['/']) + rest;
      SplitConcat(prefix, '/', rest);
      ResolvePlainTail(Split(prefix, '/'), tail, Rooted(prefix));
      assert (prefix + ['/'] + rest)[0] == prefix[0];
    }
  }

  lemma BelowNothing(tail: seq<string>)
    requires PlainTail(tail)
    ensures Below("", tail) == Join(tail, '/') == "" + Join([] + tail, '/')
  {
    var rest := Join(tail, '/');
    assert "" + rest == rest && [] + tail == tail;
    SplitOfJoin(tail, '/');
    ResolvePlainTail([], tail, false);
    assert tail[0] in tail;
    SplitStart(rest, '/');
    assert rest[0] == tail[0][0] && tail[0][0] in tail[0];
  }

  lemma ReleasePathSegments(prefix: string, owner: string, name: string, version: string, sha: string)
    requires Publishable(owner, name, version, sha)
    ensures ReleasePath(prefix, owner, name, version, sha)
            == (if Rooted(prefix) then "/" else "") + Join(Base(prefix) + Tail(owner, name, version, sha), '/')
  {
    TailIsPlain(owner, name, version, sha);
    BelowSegments(prefix, Tail(owner, name, version, sha));
  }

  /* ---------- names are injective ---------- */

  /** Two publications share an object name exactly when they share the release and the checksum. */
  lemma ReleasePathsAreInjective(prefix: string, o: string, n: string, v: string, sha: string,
                                 o': string, n': string, v': string, sha': string)
    requires Publishable(o, n, v, sha) && Publishable(o', n', v', sha')
    requires ReleasePath(prefix, o, n, v, sha) == ReleasePath(prefix, o', n', v', sha')
    ensures o == o' && n == n' && v == v' && sha == sha'
  {
    var a, b := Base(prefix) + Tail(o, n, v, sha), Base(prefix) + Tail(o', n', v', sha');
    ReleasePathSegments(prefix, o, n, v, sha);
    ReleasePathSegments(prefix, o', n', v', sha');
    SegmentsAvoidSlash(prefix, o, n, v, sha);
    SegmentsAvoidSlash(prefix, o', n', v', sha');
    assert Join(a, '/') == Join(b, '/') by { SameAfterPrefix(if Rooted(prefix) then "/" else "", Join(a, '/'), Join(b, '/')); }
    SplitOfJoin(a, '/');
    SplitOfJoin(b, '/');
    var k := |Base(prefix)|;
    assert a[k..] == Tail(o, n, v, sha) && b[k..] == Tail(o', n', v', sha');
    assert sha == (sha + ".tar.gz")[..64] && sha' == (sha' + ".tar.gz")[..64];
    assert Tail(o, n, v, sha)[0] == Tail(o', n', v', sha')[0] && Tail(o, n, v, sha)[1] == Tail(o', n', v', sha')[1];
    assert Tail(o, n, v, sha)[2] == Tail(o', n', v', sha')[2] && Tail(o, n, v, sha)[3] == Tail(o', n', v', sha')[3];
  }

  lemma SameAfterPrefix(p: string, a: string, b: string)
    requires p + a == p + b
    ensures a == b
  {
    assert a == (p + a)[|p|..] && b == (p + b)[|p|..];
  }

  lemma SegmentsAvoidSlash(prefix: string, o: string, n: string, v: string, sha: string)
    requires Publishable(o, n, v, sha)
    ensures Normal(Base(prefix))
    ensures forall s :: s in Base(prefix) + Tail(o, n, v, sha) ==> '/' !in s
  {
    TailIsPlain(o, n, v, sha);
    AvoidSlash(prefix, Tail(o, n, v, sha));
  }

  lemma AvoidSlash(prefix: string, tail: seq<string>)
    requires PlainTail(tail)
    ensures Normal(Base(prefix))
    ensures forall s :: s in Base(prefix) + tail ==> '/' !in s
  {
    SplitPartsAvoid(prefix, '/');
    if prefix != "" { ResolveIsNormal(Split(prefix, '/'), Rooted(prefix)); }
  }

  /* ---------- repair parses the name back ---------- */

  function TrimSlashesRight(s: string): (r: string)
    ensures r <= s && (r == "" || r[|r| - 1] != '/')
  {
    if s != "" && s[|s| - 1] == '/' then TrimSlashesRight(s[..|s| - 1]) else s
  }

  function TrimSlashesLeft(s: string): (r: string)
    ensures r == "" || r[0] != '/'
  {
    if s != "" && s[0] == '/' then TrimSlashesLeft(s[1..]) else s
  }

  /** strings.Trim(prefix, "/"). */
  function Trim(s: string): string { TrimSlashesRight(TrimSlashesLeft(s)) }

  /** reconciliationObjectIdentity, with the prefix ReconcileArtifacts passes to it. */
  function RepairIdentity(prefix: string, objectPath: string): Option<(string, string)>
  {
    var p := if Trim(prefix) == "" then "" else Trim(prefix) + ['/'];
    var relative := if p <= objectPath then objectPath[|p|..] else objectPath;
    if relative == objectPath || relative == "" then None
    else
      var parts := Split(relative, '/');
      if |parts| < 2 || parts[0] == "" || parts[1] == "" then None else Some((parts[0], parts[1]))
  }

  lemma {:induction false} TrailingSlashesResolve(s: string)
    requires s != "" && s[0] != '/'
    ensures TrimSlashesRight(s) != "" && Resolve(Split(TrimSlashesRight(s), '/'), false) == Resolve(Split(s, '/'), false)
  {
    if s[|s| - 1] == '/' {
      var front := s[..|s| - 1];
      TrailingSlashesResolve(front);
      assert s == front + ['/'] + "";
      SplitConcat(front, '/', "");
      var parts := Split(s, '/');
      assert parts[..|parts| - 1] == Split(front, '/') && parts[|parts| - 1] == "";
    }
  }

  /** The prefixes for which repair can judge objects at all: those path.Join leaves as they are. */
  predicate RepairablePrefix(prefix: string)
  {
    Trim(prefix) != "" && Trim(prefix) != "." && Clean(prefix) == Trim(prefix)
  }

  /** When an object name starts with the repair prefix, what follows it is the tail it was built from. */
  lemma AfterRepairPrefix(prefix: string, tail: seq<string>)
    requires PlainTail(tail) && Trim(prefix) != "" && Trim(prefix) + ['/'] <= Below(prefix, tail)
    ensures !Rooted(prefix) && Base(prefix) == Split(Trim(prefix), '/')
    ensures Split(Below(prefix, tail)[|Trim(prefix)| + 1..], '/') == tail
  {
    var t, r := Trim(prefix), Below(prefix, tail);
    BelowSegments(prefix, tail);
    AvoidSlash(prefix, tail);
    assert t[0] != '/' && r[0] == t[0];
    assert !Rooted(prefix);
    TrimmedBase(prefix);
    assert r == t + ['/'] + r[|t| + 1..];
    RelativeSegments(t, r[|t| + 1..], Base(prefix), tail);
  }

  lemma TrimmedBase(prefix: string)
    requires !Rooted(prefix) && Trim(prefix) != ""
    ensures Resolve(Split(Trim(prefix), '/'), false) == Base(prefix)
  {
    assert prefix != "" && TrimSlashesLeft(prefix) == prefix;
    TrailingSlashesResolve(prefix);
  }

  lemma RelativeSegments(t: string, rel: string, base: seq<string>, tail: seq<string>)
    requires Normal(base) && tail != [] && (forall s :: s in tail ==> Plain(s)) && (forall s :: s in base + tail ==> '/' !in s)
    requires t + ['/'] + rel == Join(base + tail, '/') && Resolve(Split(t, '/'), false) == base
    ensures Split(t, '/') == base && Split(rel, '/') == tail
  {
    var k := |Split(t, '/')|;
    SplitAtPrefix(t, rel, base + tail);
    BaseIsWhatResolves(base, tail, k);
  }

  lemma BaseIsWhatResolves(base: seq<string>, tail: seq<string>, k: nat)
    requires Normal(base) && (forall s :: s in tail ==> Plain(s)) && k <= |base + tail|
    requires Resolve((base + tail)[..k], false) == base
    ensures (base + tail)[..k] == base && (base + tail)[k..] == tail
  {
    NormalPieces(base, tail, k);
    ResolveNormal((base + tail)[..k]);
  }

  lemma NormalPieces(base: seq<string>, tail: seq<string>, k: nat)
    requires Normal(base) && (forall s :: s in tail ==> Plain(s)) && k <= |base + tail|
    ensures Normal(base + tail) && Normal((base + tail)[..k])
  {
    var all := base + tail;
    forall i | |base| <= i < |all| ensures Plain(all[i]) { assert all[i] in tail; }
  }

  /** A path cut after a slash: both halves split into its segments. */
  lemma SplitAtPrefix(t: string, rel: string, all: seq<string>)
    requires all != [] && t + ['/'] + rel == Join(all, '/') && forall s :: s in all ==> '/' !in s
    ensures var k := |Split(t, '/')|; k <= |all| && Split(t, '/') == all[..k] && Split(rel, '/') == all[k..]
  {
    SplitConcat(t, '/', rel);
    SplitOfJoin(all, '/');
    assert all == Split(t, '/') + Split(rel, '/');
  }

  /**
   Repair either leaves a published object alone or locks the publisher's own
   module. It can judge objects exactly when the configured prefix is one that
   path.Join leaves as it is; with any other prefix no object is ever repaired.
   */
  lemma RepairLocksThePublishersModule(prefix: string, owner: string, name: string, version: string, sha: string)
    requires Publishable(owner, name, version, sha)
    ensures RepairIdentity(prefix, ReleasePath(prefix, owner, name, version, sha))
            == if RepairablePrefix(prefix) then Some((owner, name)) else None
  {
    TailIsPlain(owner, name, version, sha);
    IdentityOfBelow(prefix, Tail(owner, name, version, sha));
  }

  /** With such a prefix repair takes whatever lies two levels below it for an artifact: here, a probe for one of a module of its own. */
  lemma RepairJudgesProbes(prefix: string, probe: string)
    requires Plain(probe)
    ensures RepairIdentity(prefix, ProbePath(prefix, probe)) == if RepairablePrefix(prefix) then Some((PROBES, probe)) else None
  {
    IdentityOfBelow(prefix, [PROBES, probe]);
  }

  lemma IdentityOfBelow(prefix: string, tail: seq<string>)
    requires PlainTail(tail) && |tail| >= 2
    ensures RepairIdentity(prefix, Below(prefix, tail)) == if RepairablePrefix(prefix) then Some((tail[0], tail[1])) else None
  {
    var t, r := Trim(prefix), Below(prefix, tail);
    if t != "" && t + ['/'] <= r {
      RepairJudges(prefix, tail);
      RepairJudgesOnlyCleanPrefixes(prefix, tail);
    } else if RepairablePrefix(prefix) {
      BelowSegments(prefix, tail);
      RepairablePrefixStarts(prefix, tail);
      assert false;
    }
  }

  lemma RepairJudges(prefix: string, tail: seq<string>)
    requires PlainTail(tail) && |tail| >= 2 && Trim(prefix) != "" && Trim(prefix) + ['/'] <= Below(prefix, tail)
    ensures RepairIdentity(prefix, Below(prefix, tail)) == Some((tail[0], tail[1]))
  {
    var r := Below(prefix, tail);
    AfterRepairPrefix(prefix, tail);
    assert r[|Trim(prefix) + ['/']|..] == r[|Trim(prefix)| + 1..];
    assert tail[0] in tail && tail[1] in tail;
  }

  lemma RepairJudgesOnlyCleanPrefixes(prefix: string, tail: seq<string>)
    requires PlainTail(tail) && Trim(prefix) != "" && Trim(prefix) + ['/'] <= Below(prefix, tail)
    ensures RepairablePrefix(prefix)
  {
    AfterRepairPrefix(prefix, tail);
    AvoidSlash(prefix, tail);
    JoinOfSplit(Trim(prefix), '/');
    assert Trim(prefix) != "." by { SplitWithout(".", '/'); assert Plain(Base(prefix)[0]) || Base(prefix)[0] == ".."; }
  }

  /** What repair judges: a name below the prefix with two segments that are not empty, and whatever after them. */
  lemma JudgedNames(prefix: string, objectPath: string, owner: string, name: string)
    ensures RepairIdentity(prefix, objectPath) == Some((owner, name))
            <==> Trim(prefix) != "" && owner != "" && name != "" && '/' !in owner && '/' !in name
                 && Led(objectPath, Trim(prefix) + ['/'] + owner + ['/'] + name)
  {
    var lead := Trim(prefix) + ['/'];
    var whole := lead + owner + ['/'] + name;
    if Trim(prefix) != "" && lead <= objectPath {
      var relative := objectPath[|lead|..];
      assert objectPath == lead + relative && whole == lead + (owner + ['/'] + name);
      assert Led(objectPath, whole) <==> Led(relative, owner + ['/'] + name);
      TwoSegments(relative, owner, name);
    } else {
      assert lead <= whole;
      assert Led(objectPath, whole) ==> lead <= objectPath;
    }
  }

  /** The name itself, or something below it. */
  predicate Led(path: string, dir: string) { path == dir || dir + ['/'] <= path }

  lemma TwoSegments(relative: string, a: string, b: string)
    ensures |Split(relative, '/')| >= 2 && Split(relative, '/')[0] == a && Split(relative, '/')[1] == b
            <==> '/' !in a && '/' !in b && Led(relative, a + ['/'] + b)
  {
    var parts := Split(relative, '/');
    SplitPartsAvoid(relative, '/');
    if '/' !in a && '/' !in b && Led(relative, a + ['/'] + b) { SplitLed(relative, a, b); }
    if |parts| >= 2 && parts[0] == a && parts[1] == b {
      assert a in parts && b in parts;
      JoinLed(relative, a, b);
    }
  }

  lemma SplitLed(relative: string, a: string, b: string)
    requires '/' !in a && '/' !in b && Led(relative, a + ['/'] + b)
    ensures |Split(relative, '/')| >= 2 && Split(relative, '/')[0] == a && Split(relative, '/')[1] == b
  {
    if relative == a + ['/'] + b {
      SplitSeparated(a, '/', b);
      SplitWithout(b, '/');
    } else {
      var rest := relative[|a + ['/'] + b + ['/']|..];
      assert relative == a + ['/'] + (b + ['/'] + rest);
      SplitSeparated(a, '/', b + ['/'] + rest);
      SplitSeparated(b, '/', rest);
    }
  }

  lemma JoinLed(relative: string, a: string, b: string)
    requires |Split(relative, '/')| >= 2 && Split(relative, '/')[0] == a && Split(relative, '/')[1] == b
    ensures Led(relative, a + ['/'] + b)
  {
    var parts := Split(relative, '/');
    JoinOfSplit(relative, '/');
    assert Join([a, b], '/') == a + ['/'] + b by { assert [a, b][1..] == [b]; }
    if |parts| > 2 {
      assert parts == [a, b] + parts[2..];
      JoinConcat([a, b], parts[2..], '/');
    } else {
      assert parts == [a, b];
    }
  }

  lemma RepairablePrefixStarts(prefix: string, tail: seq<string>)
    requires RepairablePrefix(prefix) && tail != []
    ensures !Rooted(prefix) && Trim(prefix) + ['/'] <= Join(Base(prefix) + tail, '/')
  {
    var c := Clean(prefix);
    assert c[0] != '/';
    assert prefix != "";
    JoinConcat(Base(prefix), tail, '/');
    assert Trim(prefix) + ['/'] == Join(Base(prefix), '/') + ['/'];
  }
}
