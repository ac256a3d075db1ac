/**
 An object store that keeps objects under cleaned keys, as the S3 store does, and
 lists those keys. Rows hold names as they were built. Where the two differ, repair
 and pruning look for the rows of live artifacts under the wrong names.
 */
module StoreKeys {
  import opened Text
  import opened ModuleNames
  import opened Version
  import opened ArtifactPaths
  import N = ObjectNames

  function WithoutSlash(s: string): string { if Rooted(s) then s[1..] else s }

  /** cleanObjectPath: the key an object is kept under, whatever name it is called by. */
  function Key(name: string): string { if TrimSpace(name) == "" then "" else WithoutSlash(Clean(name)) }

  /* ---------- the keys of artifacts ---------- */

  lemma {:induction false} TrimLeftKeeps(s: string, c: char)
    requires c in s && !IsSpace(c)
    ensures c in TrimLeft(s)
  {
    assert s == [s[0]] + s[1..];
    if IsSpace(s[0]) { TrimLeftKeeps(s[1..], c); }
  }

  lemma {:induction false} TrimRightKeeps(s: string, c: char)
    requires c in s && !IsSpace(c)
    ensures c in TrimRight(s)
  {
    assert s == s[..|s| - 1] + [s[|s| - 1]];
    if IsSpace(s[|s| - 1]) { TrimRightKeeps(s[..|s| - 1], c); }
  }

  lemma NotBlank(s: string)
    requires '/' in s
    ensures TrimSpace(s) != ""
  {
    TrimLeftKeeps(s, '/');
    TrimRightKeeps(TrimLeft(s), '/');
  }

  lemma CleanSegments(out: seq<string>)
    requires out != [] && Normal(out)
    ensures !Rooted(Join(out, '/')) && Clean(Join(out, '/')) == Join(out, '/')
  {
    assert forall s :: s in out ==> '/' !in s;
    SplitOfJoin(out, '/');
    ResolveNormal(out);
    SplitStart(Join(out, '/'), '/');
    assert "" + Join(out, '/') == Join(out, '/');
  }

  lemma CleanRooted(out: seq<string>)
    requires PlainTail(out)
    ensures Clean("/" + Join(out, '/')) == "/" + Join(out, '/')
  {
    assert forall s :: s in out ==> '/' !in s;
    SplitOfJoin(out, '/');
    assert ("/" + Join(out, '/'))[1..] == Join(out, '/');
    assert [""][..0] == [];
    ResolvePlainTail([""], out, true);
    assert [] + out == out;
  }

  /** The segments of a name below a prefix. */
  lemma NormalSegments(prefix: string, tail: seq<string>)
    requires PlainTail(tail)
    ensures Normal(Base(prefix) + tail) && (Rooted(prefix) ==> PlainTail(Base(prefix) + tail))
  {
    AvoidSlash(prefix, tail);
    NormalPieces(Base(prefix), tail, |Base(prefix)|);
    SplitPartsAvoid(prefix, '/');
    if Rooted(prefix) { ResolveIsNormal(Split(prefix, '/'), true); }
  }

  /** The key is the name without a leading slash, and its own key. */
  lemma KeyBelow(prefix: string, tail: seq<string>)
    requires PlainTail(tail) && |tail| >= 2
    ensures var key := Join(Base(prefix) + tail, '/');
            Key(Below(prefix, tail)) == key == Key(key) && !Rooted(key)
    ensures Key(Below(prefix, tail)) == Below(prefix, tail) <==> !Rooted(prefix)
  {
    var out := Base(prefix) + tail;
    BelowSegments(prefix, tail);
    NormalSegments(prefix, tail);
    CleanSegments(out);
    assert '/' in Join(out, '/');
    NotBlank(Join(out, '/'));
    NotBlank(Below(prefix, tail));
    if Rooted(prefix) { CleanRooted(out); } else { assert "" + Join(out, '/') == Join(out, '/'); }
  }

  /** Two releases never share a key. */
  lemma KeysTellReleasesApart(prefix: string, o: string, n: string, v: string, sha: string,
                              o': string, n': string, v': string, sha': string)
    requires Publishable(o, n, v, sha) && Publishable(o', n', v', sha')
    requires Key(ReleasePath(prefix, o, n, v, sha)) == Key(ReleasePath(prefix, o', n', v', sha'))
    ensures o == o' && n == n' && v == v' && sha == sha'
  {
    TailIsPlain(o, n, v, sha);
    TailIsPlain(o', n', v', sha');
    KeyBelow(prefix, Tail(o, n, v, sha));
    KeyBelow(prefix, Tail(o', n', v', sha'));
    BelowSegments(prefix, Tail(o, n, v, sha));
    BelowSegments(prefix, Tail(o', n', v', sha'));
    ReleasePathsAreInjective(prefix, o, n, v, sha, o', n', v', sha');
  }

  /* ---------- repair ---------- */

  /** Prefixes whose own segments are what is left of them when joined and cleaned. */
  predicate KeyedPrefix(prefix: string) { Trim(prefix) != "" && Base(prefix) == Split(Trim(prefix), '/') }

  /** Those that repair needs, but with a leading slash allowed. */
  lemma RepairableIsUnrooted(prefix: string)
    ensures RepairablePrefix(prefix) <==> KeyedPrefix(prefix) && !Rooted(prefix)
  {
    var t := Trim(prefix);
    AvoidSlash(prefix, ["a"]);
    if RepairablePrefix(prefix) {
      assert t[0] != '/' && prefix != "";
      assert forall s :: s in Base(prefix) ==> s in Base(prefix) + ["a"];
      assert "" + Join(Base(prefix), '/') == Join(Base(prefix), '/');
      SplitOfJoin(Base(prefix), '/');
    }
    if KeyedPrefix(prefix) && !Rooted(prefix) {
      JoinOfSplit(t, '/');
      assert prefix != "" && "" + Join(Base(prefix), '/') == Join(Base(prefix), '/');
      assert Plain(Base(prefix)[0]) || Base(prefix)[0] == "..";
      SplitWithout(".", '/');
    }
  }

  lemma {:induction false} LeadingSlashesResolve(s: string, rooted: bool)
    ensures Resolve(Split(TrimSlashesLeft(s), '/'), rooted) == Resolve(Split(s, '/'), rooted)
  {
    if s != "" && s[0] == '/' {
      LeadingSlashesResolve(s[1..], rooted);
      EmptyFirst(Split(s[1..], '/'), rooted);
    }
  }

  lemma {:induction false} EmptyFirst(parts: seq<string>, rooted: bool)
    ensures Resolve([""] + parts, rooted) == Resolve(parts, rooted)
  {
    if parts == [] {
      assert [""] + parts == [""] && [""][..0] == [];
    } else {
      EmptyFirst(parts[..|parts| - 1], rooted);
      assert ([""] + parts)[..|parts|] == [""] + parts[..|parts| - 1];
    }
  }

  lemma {:induction false} TrailingSlashesIgnored(s: string, rooted: bool)
    ensures Resolve(Split(TrimSlashesRight(s), '/'), rooted) == Resolve(Split(s, '/'), rooted)
  {
    if s != "" && s[|s| - 1] == '/' {
      TrailingSlashesIgnored(s[..|s| - 1], rooted);
      EmptyLast(s[..|s| - 1], rooted);
      assert s == s[..|s| - 1] + ['/'];
    }
  }

  lemma EmptyLast(front: string, rooted: bool)
    ensures Resolve(Split(front + ['/'], '/'), rooted) == Resolve(Split(front, '/'), rooted)
  {
    assert front + ['/'] == front + ['/'] + "";
    SplitConcat(front, '/', "");
    var parts := Split(front + ['/'], '/');
    assert parts[..|parts| - 1] == Split(front, '/') && parts[|parts| - 1] == "";
  }

  lemma BaseOfTrimmed(prefix: string)
    requires Trim(prefix) != ""
    ensures Base(prefix) == Resolve(Split(Trim(prefix), '/'), Rooted(prefix))
  {
    LeadingSlashesResolve(prefix, Rooted(prefix));
    TrailingSlashesIgnored(TrimSlashesLeft(prefix), Rooted(prefix));
  }

  /** A key that starts with the repair prefix shows the prefix to be of that kind. */
  lemma KeyUnderPrefix(prefix: string, tail: seq<string>)
    requires PlainTail(tail) && Trim(prefix) != "" && Trim(prefix) + ['/'] <= Join(Base(prefix) + tail, '/')
    ensures KeyedPrefix(prefix)
    ensures Split(Join(Base(prefix) + tail, '/')[|Trim(prefix)| + 1..], '/') == tail
  {
    var t, all := Trim(prefix), Base(prefix) + tail;
    var key := Join(all, '/');
    AvoidSlash(prefix, tail);
    NormalSegments(prefix, tail);
    BaseOfTrimmed(prefix);
    assert key == t + ['/'] + key[|t| + 1..];
    if Rooted(prefix) {
      SplitAtPrefix(t, key[|t| + 1..], all);
      var k := |Split(t, '/')|;
      assert forall s :: s in Split(t, '/') ==> s in all;
      ResolvePlainTail([], Split(t, '/'), true);
      assert [] + Split(t, '/') == Split(t, '/');
      assert all[k..] == tail;
    } else {
      RelativeSegments(t, key[|t| + 1..], Base(prefix), tail);
    }
  }

  lemma KeyStartsWithPrefix(prefix: string, tail: seq<string>)
    requires KeyedPrefix(prefix) && tail != []
    ensures Trim(prefix) != "" && Trim(prefix) + ['/'] <= Join(Base(prefix) + tail, '/')
  {
    JoinConcat(Base(prefix), tail, '/');
    JoinOfSplit(Trim(prefix), '/');
    assert Join(Base(prefix) + tail, '/') == Trim(prefix) + ['/'] + Join(tail, '/');
  }

  /** What repair makes of an artifact's key. */
  lemma KeyIdentity(prefix: string, tail: seq<string>)
    requires PlainTail(tail) && |tail| >= 2
    ensures RepairIdentity(prefix, Join(Base(prefix) + tail, '/')) == if KeyedPrefix(prefix) then Some((tail[0], tail[1])) else None
  {
    var t, key := Trim(prefix), Join(Base(prefix) + tail, '/');
    if KeyedPrefix(prefix) { KeyStartsWithPrefix(prefix, tail); }
    if t != "" && t + ['/'] <= key {
      KeyUnderPrefix(prefix, tail);
      assert key[|t + ['/']|..] == key[|t| + 1..];
      assert tail[0] in tail && tail[1] in tail;
    }
  }

  /** The listing of a directory: all keys that start with its own. */
  predicate Lists(dir: string, key: string) { Key(dir) <= key }

  ghost predicate IsRelease(prefix: string, name: string)
  {
    exists o, n, v, sha :: Publishable(o, n, v, sha) && name == ReleasePath(prefix, o, n, v, sha)
  }

  /** Of the listed keys repair deletes those it judges and finds no row for, once they are old enough. */
  predicate Repairs(prefix: string, recorded: set<string>, key: string)
  {
    Lists(Trim(prefix) + ['/'], key) && RepairIdentity(prefix, key).Some? && key !in recorded
  }

  /**
   Whatever releases are recorded under a prefix: repair takes the object of any of
   them, row and all, exactly when the prefix is one it works with but for a leading
   slash.
   */
  lemma RepairTakesLiveExactly(prefix: string, recorded: set<string>, o: string, n: string, v: string, sha: string)
    requires Publishable(o, n, v, sha) && ReleasePath(prefix, o, n, v, sha) in recorded
    requires forall name :: name in recorded ==> IsRelease(prefix, name)
    ensures Repairs(prefix, recorded, Key(ReleasePath(prefix, o, n, v, sha))) <==> Rooted(prefix) && KeyedPrefix(prefix)
  {
    var tail := Tail(o, n, v, sha);
    var name := ReleasePath(prefix, o, n, v, sha);
    TailIsPlain(o, n, v, sha);
    KeyBelow(prefix, tail);
    KeyIdentity(prefix, tail);
    if KeyedPrefix(prefix) { ListedUnderItsPrefix(prefix, tail); }
    KeysAreNotRooted(prefix, recorded, tail);
  }

  /** No name recorded under a rooted prefix is a key. */
  lemma KeysAreNotRooted(prefix: string, recorded: set<string>, tail: seq<string>)
    requires PlainTail(tail) && |tail| >= 2 && forall name :: name in recorded ==> IsRelease(prefix, name)
    ensures Rooted(prefix) ==> Key(Below(prefix, tail)) !in recorded
  {
    KeyBelow(prefix, tail);
    forall name | name in recorded && Rooted(prefix) ensures Rooted(name) {
      var o, n, v, sha :| Publishable(o, n, v, sha) && name == ReleasePath(prefix, o, n, v, sha);
      ReleasePathSegments(prefix, o, n, v, sha);
    }
  }

  lemma ListedUnderItsPrefix(prefix: string, tail: seq<string>)
    requires PlainTail(tail) && KeyedPrefix(prefix)
    ensures Lists(Trim(prefix) + ['/'], Join(Base(prefix) + tail, '/'))
  {
    var t := Trim(prefix);
    var dir := t + ['/'];
    AvoidSlash(prefix, tail);
    JoinOfSplit(t, '/');
    JoinConcat(Base(prefix), tail, '/');
    NotBlank(dir);
    assert dir == t + ['/'] + "";
    SplitConcat(t, '/', "");
    var parts := Split(dir, '/');
    assert parts[..|parts| - 1] == Base(prefix) && parts[|parts| - 1] == "";
    ResolveNormal(Base(prefix));
    CleanSegments(Base(prefix));
    assert dir[0] == t[0] && "" + t == t;
  }

  lemma RootedModules()
    ensures Rooted("/modules") && KeyedPrefix("/modules")
  {
    var m := "modules";
    assert "/modules" == ['/'] + m && ("/modules")[1..] == m && '/' !in m;
    SplitWithout(m, '/');
    assert TrimSlashesLeft(m) == m && TrimSlashesRight(m) == m;
    assert Split("/modules", '/') == [""] + [m];
    EmptyFirst([m], true);
    ResolvePlainTail([], [m], true);
    assert [] + [m] == [m];
  }

  lemma LosesUnder(prefix: string, o: string, n: string, v: string, sha: string)
    requires Publishable(o, n, v, sha) && Rooted(prefix) && KeyedPrefix(prefix)
    ensures var name := ReleasePath(prefix, o, n, v, sha); Repairs(prefix, {name}, Key(name)) && Key(Key(name)) == Key(name)
  {
    var name := ReleasePath(prefix, o, n, v, sha);
    TailIsPlain(o, n, v, sha);
    KeyBelow(prefix, Tail(o, n, v, sha));
    assert IsRelease(prefix, name);
    RepairTakesLiveExactly(prefix, {name}, o, n, v, sha);
  }

  /** Such a prefix: with it repair loses every release there is. */
  lemma RootedPrefixLosesReleases(o: string, n: string, v: string, sha: string)
    requires Publishable(o, n, v, sha)
    ensures var name := ReleasePath("/modules", o, n, v, sha); Repairs("/modules", {name}, Key(name)) && Key(Key(name)) == Key(name)
  {
    RootedModules();
    LosesUnder("/modules", o, n, v, sha);
  }

  /* ---------- pruning ---------- */

  /** Of the keys its listing finds pruning deletes those without a row, once they are old enough. */
  predicate Prunes(recorded: set<string>, key: string) { Lists(N.CACHE + ['/'], key) && key !in recorded }

  /** The prefix leads to a place whose name starts like the cache's. */
  predicate CacheLike(prefix: string) { Base(prefix) != [] && N.CACHE <= Base(prefix)[0] }

  /** Pruning lists artifacts exactly with such a prefix, in the cache or not; with a leading slash it takes them, row and all. */
  lemma PruningTakesLiveExactly(prefix: string, recorded: set<string>, o: string, n: string, v: string, sha: string)
    requires Publishable(o, n, v, sha) && ReleasePath(prefix, o, n, v, sha) in recorded
    requires forall name :: name in recorded ==> IsRelease(prefix, name)
    ensures var key := Key(ReleasePath(prefix, o, n, v, sha));
            && (Lists(N.CACHE + ['/'], key) <==> CacheLike(prefix))
            && (Prunes(recorded, key) <==> CacheLike(prefix) && Rooted(prefix))
  {
    var tail := Tail(o, n, v, sha);
    TailIsPlain(o, n, v, sha);
    KeyBelow(prefix, tail);
    KeysAreNotRooted(prefix, recorded, tail);
    CacheKey();
    OwnersAreNotCacheLike(o);
    KeyStartsLikeCache(prefix, tail);
  }

  lemma KeyStartsLikeCache(prefix: string, tail: seq<string>)
    requires PlainTail(tail) && !(N.CACHE <= tail[0])
    ensures N.CACHE <= Join(Base(prefix) + tail, '/') <==> CacheLike(prefix)
  {
    assert '/' !in N.CACHE;
    StartsWith(N.CACHE, Base(prefix) + tail);
  }

  lemma OwnersAreNotCacheLike(owner: string)
    requires ValidOwner(owner)
    ensures !(N.CACHE <= owner)
  {
    assert N.CACHE[8] == '-' && (|owner| > 8 ==> owner[8] in owner);
  }

  lemma CacheKey()
    ensures Key(N.CACHE + ['/']) == N.CACHE
  {
    assert Plain(N.CACHE);
    DirectoryKey(N.CACHE);
  }

  lemma DirectoryKey(dir: string)
    requires Plain(dir)
    ensures Key(dir + ['/']) == dir
  {
    NotBlank(dir + ['/']);
    assert dir + ['/'] == dir + ['/'] + "";
    SplitWithout(dir, '/');
    SplitConcat(dir, '/', "");
    var parts := Split(dir + ['/'], '/');
    assert parts[..1] == [dir] && parts[1] == "";
    ResolvePlainTail([], [dir], false);
    assert [] + [dir] == [dir];
    assert (dir + ['/'])[0] == dir[0];
  }

  lemma StartsWith(start: string, out: seq<string>)
    requires '/' !in start && out != []
    ensures start <= Join(out, '/') <==> start <= out[0]
  {
    var name := Join(out, '/');
    assert out[0] <= name;
    if |out[0]| < |start| {
      if |out| > 1 { assert name[|out[0]|] == '/' && start[|out[0]|] in start; }
      assert !(start <= name);
    }
  }
}
