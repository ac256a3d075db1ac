/**
 Artifacts and cache entries in one object store: when their names, and the
 listings that repair and pruning work from, keep apart.
 */
module ObjectNames {
  import opened Text
  import opened ModuleNames
  import opened Version
  import opened Store
  import opened ArtifactPaths

  const CACHE := "upstream-cache"

  /** The name lies below a directory. */
  predicate InDirectory(name: string, dir: string) { dir + ['/'] <= name }

  /** What the listing of pruning finds. */
  predicate InCache(name: string) { InDirectory(name, CACHE) }

  /** The object name of a cached upstream file: path.Join with the cache directory. */
  function CacheName(file: string): string { Clean(CACHE + ['/'] + file) }

  /* ---------- cache entries ---------- */

  /** Segments below a directory, where the first `..` leaves it. */
  function Under(dir: string, r: seq<string>): seq<string> { if r != [] && r[0] == ".." then r[1..] else [dir] + r }

  lemma {:induction false} ResolveUnder(dir: string, parts: seq<string>)
    requires Plain(dir) && forall p :: p in parts ==> '/' !in p
    ensures Resolve([dir] + parts, false) == Under(dir, Resolve(parts, false))
  {
    if parts == [] {
      assert [dir] + parts == [dir] && [dir][..0] == [];
    } else {
      var front, last := parts[..|parts| - 1], parts[|parts| - 1];
      assert ([dir] + parts)[..|parts|] == [dir] + front;
      ResolveUnder(dir, front);
      ResolveIsNormal(front, false);
      PushUnder(dir, Resolve(front, false), last);
    }
  }

  lemma PushUnder(dir: string, r: seq<string>, segment: string)
    requires Plain(dir) && Normal(r)
    ensures Push(Under(dir, r), segment, false) == Under(dir, Push(r, segment, false))
  {
  }

  /** A cached file's name lies in the cache exactly when its cleaned path does not climb out of it or lead nowhere. */
  lemma CacheNameStaysInCache(file: string)
    ensures var r := Resolve(Split(file, '/'), false);
            InCache(CacheName(file)) <==> |Under(CACHE, r)| > 1 && Under(CACHE, r)[0] == CACHE
  {
    CleanedUnder(CACHE, file);
  }

  lemma CleanedUnder(dir: string, file: string)
    requires Plain(dir)
    ensures var below := Under(dir, Resolve(Split(file, '/'), false));
            InDirectory(Clean(dir + ['/'] + file), dir) <==> |below| > 1 && below[0] == dir
  {
    var parts := Split(file, '/');
    SplitPartsAvoid(file, '/');
    SplitConcat(dir, '/', file);
    SplitWithout(dir, '/');
    ResolveUnder(dir, parts);
    ResolveIsNormal(parts, false);
    var below := Under(dir, Resolve(parts, false));
    assert (dir + ['/'] + file)[0] == dir[0];
    if below != [] { FirstSegment(below, dir); }
  }

  lemma FirstSegment(out: seq<string>, dir: string)
    requires out != [] && (forall s :: s in out ==> '/' !in s) && '/' !in dir
    ensures InDirectory(Join(out, '/'), dir) <==> |out| > 1 && out[0] == dir
  {
    var name := Join(out, '/');
    SplitOfJoin(out, '/');
    if InDirectory(name, dir) {
      assert name == dir + ['/'] + name[|dir| + 1..];
      SplitConcat(dir, '/', name[|dir| + 1..]);
      SplitWithout(dir, '/');
    }
  }

  /* ---------- artifacts ---------- */

  /** The configured artifact prefix leads into the cache. */
  predicate PrefixInCache(prefix: string) { !Rooted(prefix) && Base(prefix) != [] && Base(prefix)[0] == CACHE }

  lemma OwnerIsNotCache(owner: string)
    requires ValidOwner(owner)
    ensures owner != CACHE
  {
    assert !ValidOwner(CACHE) by { assert CACHE[8] == '-' && CACHE[8] in CACHE; }
  }

  /** No artifact has a name in the cache, unless the configured prefix leads there; then all have. */
  lemma ArtifactsStayOutOfCache(prefix: string, owner: string, name: string, version: string, sha: string)
    requires Publishable(owner, name, version, sha)
    ensures InCache(ReleasePath(prefix, owner, name, version, sha)) <==> PrefixInCache(prefix)
  {
    OwnerIsNotCache(owner);
    ArtifactsStayOutOf(CACHE, prefix, owner, name, version, sha);
  }

  lemma ArtifactsStayOutOf(dir: string, prefix: string, owner: string, name: string, version: string, sha: string)
    requires Publishable(owner, name, version, sha) && Plain(dir) && owner != dir
    ensures InDirectory(ReleasePath(prefix, owner, name, version, sha), dir)
            <==> !Rooted(prefix) && Base(prefix) != [] && Base(prefix)[0] == dir
  {
    var out := Base(prefix) + Tail(owner, name, version, sha);
    ReleasePathSegments(prefix, owner, name, version, sha);
    SegmentsAvoidSlash(prefix, owner, name, version, sha);
    if Rooted(prefix) {
      assert ReleasePath(prefix, owner, name, version, sha)[0] == '/' && (dir + ['/'])[0] == dir[0];
    } else {
      assert "" + Join(out, '/') == Join(out, '/');
      FirstSegment(out, dir);
    }
  }

  /* ---------- repair ---------- */

  predicate RepairSpares(prefix: string, name: string) { RepairIdentity(prefix, name) == None }

  /** Repair leaves the whole cache alone exactly when its listing prefix does not lead into it. */
  lemma RepairSparesTheCache(prefix: string)
    ensures (forall name :: InCache(name) ==> RepairSpares(prefix, name))
            <==> !(Trim(prefix) == CACHE || InDirectory(Trim(prefix), CACHE))
  {
    var t := Trim(prefix);
    if t == CACHE || InDirectory(t, CACHE) {
      var name := t + ['/'] + ("a" + ['/'] + "b");
      assert name[|t + ['/']|..] == "a" + ['/'] + "b";
      SplitConcat("a", '/', "b");
      SplitWithout("a", '/');
      SplitWithout("b", '/');
      assert InCache(name) && !RepairSpares(prefix, name);
    } else {
      forall name | InCache(name) ensures RepairSpares(prefix, name) {
        if t != "" && t + ['/'] <= name { NestedDirectories(t, CACHE, name); }
      }
    }
  }

  lemma NestedDirectories(t: string, dir: string, name: string)
    requires InDirectory(name, t) && InDirectory(name, dir) && '/' !in dir
    ensures t == dir || InDirectory(t, dir)
  {
    var rest := name[|t| + 1..];
    assert name == t + ['/'] + rest && name == dir + ['/'] + name[|dir| + 1..];
    BeforeOfSeparated(dir, '/', name[|dir| + 1..]);
    var first := Before(t, '/');
    if |first| < |t| {
      assert name == first + ['/'] + (After(t, '/') + ['/'] + rest);
      BeforeOfSeparated(first, '/', After(t, '/') + ['/'] + rest);
    } else {
      BeforeOfSeparated(t, '/', rest);
    }
  }

  /* ---------- the lifecycle's paths ---------- */

  /** The name of a path: artifacts by their release and digest, everything else by its own. */
  function NameOf(prefix: string, hex: Digest -> string, p: Path): string
  {
    match p
    case Artifact(id, sha) => ReleasePath(prefix, id.mod.owner, id.mod.name, id.version, hex(sha))
    case Cached(file) => file
    case Other(name) => name
  }

  predicate Published(hex: Digest -> string, id: ReleaseId, sha: Digest)
  {
    Publishable(id.mod.owner, id.mod.name, id.version, hex(sha))
  }

  /** The paths that can occur: published artifacts, names in the cache, and names that are neither. */
  ghost predicate Nameable(prefix: string, hex: Digest -> string, p: Path)
  {
    match p
    case Artifact(id, sha) => Published(hex, id, sha)
    case Cached(file) => InCache(file)
    case Other(name) =>
      !InCache(name) && forall id, sha :: Published(hex, id, sha) ==> NameOf(prefix, hex, Artifact(id, sha)) != name
  }

  ghost predicate Injective(hex: Digest -> string) { forall a, b :: hex(a) == hex(b) ==> a == b }

  /** Unless the configured prefix leads into the cache, different paths have different names. */
  lemma NamesTellPathsApart(prefix: string, hex: Digest -> string, p: Path, q: Path)
    requires !PrefixInCache(prefix) && Injective(hex) && Nameable(prefix, hex, p) && Nameable(prefix, hex, q)
    ensures NameOf(prefix, hex, p) == NameOf(prefix, hex, q) <==> p == q
  {
    if p.Artifact? { ArtifactsStayOutOfCache(prefix, p.id.mod.owner, p.id.mod.name, p.id.version, hex(p.sha)); }
    if q.Artifact? { ArtifactsStayOutOfCache(prefix, q.id.mod.owner, q.id.mod.name, q.id.version, hex(q.sha)); }
    if p.Artifact? && q.Artifact? && NameOf(prefix, hex, p) == NameOf(prefix, hex, q) {
      ReleasePathsAreInjective(prefix, p.id.mod.owner, p.id.mod.name, p.id.version, hex(p.sha),
                               q.id.mod.owner, q.id.mod.name, q.id.version, hex(q.sha));
    }
  }
}
