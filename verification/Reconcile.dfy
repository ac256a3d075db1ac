/**
 Reconciliation of the tables with the object store: what the report lists, and
 what a repair removes, whatever its calls answer and whatever others do to the
 tables meanwhile. (How a repair interleaves with publishes is the business of
 Lifecycle.)
 */
module Reconcile {
  import opened Text
  import opened Version
  import opened Store
  import S = SqliteStore
  import P = ArtifactPaths
  import N = ObjectNames
  import D = ArtifactDeletions
  import L = Lifecycle
  import opened LifecycleInvariant
  import T = LifecycleTheorems

  datatype ArtifactRelease = ArtifactRelease(path: Path, sha: Digest, size: nat)

  /** `orphans` keeps what was deleted, too, as the report does. */
  datatype Report = Report(checked: nat, missing: seq<Path>, corrupt: seq<Path>, orphans: seq<Path>, deleted: seq<Path>)

  /** The stored object is not what the row says. An empty checksum is not compared. */
  predicate Contradicts(row: ArtifactRelease, body: Bytes)
  {
    |body| != row.size || (row.sha != NoDigest && row.sha != Sha256(body))
  }

  /** An object as the store lists it; some stores do not say when it was updated. */
  datatype Listed = Listed(path: Path, updatedAt: Option<int>)

  datatype RepairCall = Works | LockFails | CheckFails | DeleteFails(applied: bool)

  /**
   The calls of one reconciliation: which objects can be read, what the tables are
   by the time an object is checked again, and how the calls of its repair turn out.
   */
  datatype Calls = Calls(readable: Path -> bool, tables: Path -> Tables, repairs: Path -> RepairCall)

  /** What repair goes by: the artifact prefix, the objects' names, its own start, when objects were updated, and its calls. */
  datatype Repair = Repair(prefix: string, name: Path -> string, startedAt: int, updated: map<Path, Option<int>>, calls: Calls)

  datatype Fate = Unjudged | Wanted | Recent | Removed | Stopped(removed: bool)

  /** Where verification stops: at the first stored object that cannot be read. */
  function Verified(rows: seq<ArtifactRelease>, objects: map<Path, Bytes>, calls: Calls): (n: nat)
    ensures n <= |rows|
  {
    if rows == [] || (rows[0].path in objects && !calls.readable(rows[0].path)) then 0 else 1 + Verified(rows[1..], objects, calls)
  }

  function Missing(rows: seq<ArtifactRelease>, objects: map<Path, Bytes>): seq<Path>
  {
    if rows == [] then []
    else
      var r := rows[|rows| - 1];
      Missing(rows[..|rows| - 1], objects) + if r.path !in objects then [r.path] else []
  }

  function Corrupt(rows: seq<ArtifactRelease>, objects: map<Path, Bytes>): seq<Path>
  {
    if rows == [] then []
    else
      var r := rows[|rows| - 1];
      Corrupt(rows[..|rows| - 1], objects) + if r.path in objects && Contradicts(r, objects[r.path]) then [r.path] else []
  }

  /** Whether repair finds a module in an object's name; whether there is such a module is not asked. */
  predicate Judged(prefix: string, name: string) { P.RepairIdentity(prefix, name).Some? }

  predicate OldEnough(r: Repair, p: Path) { p in r.updated && r.updated[p].Some? && r.updated[p].value < r.startedAt }

  function FateOf(r: Repair, p: Path): Fate
  {
    var call := r.calls.repairs(p);
    if !Judged(r.prefix, r.name(p)) then Unjudged
    else if call.LockFails? || call.CheckFails? then Stopped(false)
    else if References(r.calls.tables(p), p) then Wanted
    else if !OldEnough(r, p) then Recent
    else if call.DeleteFails? then Stopped(call.applied)
    else Removed
  }

  /** The fates of all objects in one repair. */
  ghost predicate FatesOf(fate: Path -> Fate, r: Repair) { forall p {:trigger FateOf(r, p)} :: fate(p) == FateOf(r, p) }

  lemma FatesExist(r: Repair) returns (fate: Path -> Fate)
    ensures FatesOf(fate, r)
  {
    fate := p => FateOf(r, p);
  }

  /** When each object was updated, by its last mention in the listing. */
  function Updated(listing: seq<Listed>): map<Path, Option<int>>
  {
    if listing == [] then map[]
    else
      var l := listing[|listing| - 1];
      Updated(listing[..|listing| - 1])[l.path := l.updatedAt]
  }

  /** How far a repair has come: the objects, what it deleted, what stays an orphan, and whether a call has failed. */
  datatype Course = Course(objects: map<Path, Bytes>, deleted: seq<Path>, remaining: seq<Path>, error: bool)

  function AfterFate(objects: map<Path, Bytes>, p: Path, fate: Fate): map<Path, Bytes>
  {
    if fate == Removed || fate == Stopped(true) then objects - {p} else objects
  }

  /** One orphan. What is deleted stays among the orphans, as in the report; what a row wants is none. */
  function Next(c: Course, p: Path, fate: Fate): Course
  {
    Course(AfterFate(c.objects, p, fate), if fate.Removed? then c.deleted + [p] else c.deleted,
           if fate.Stopped? || fate.Wanted? then c.remaining else c.remaining + [p], fate.Stopped?)
  }

  /** The repair of all orphans, which ends with the first call that fails. */
  function Repaired(c: Course, orphans: seq<Path>, fate: Path -> Fate): Course
    decreases orphans
  {
    if orphans == [] || c.error then c else Repaired(Next(c, orphans[0], fate(orphans[0])), orphans[1..], fate)
  }

  function Start(objects: map<Path, Bytes>): Course { Course(objects, [], [], false) }

  type Order = (Path, Path) -> bool

  ghost predicate Total(le: Order)
  {
    && (forall p, q :: le(p, q) || le(q, p))
    && (forall p, q, r :: le(p, q) && le(q, r) ==> le(p, r))
  }

  ghost predicate InOrder(le: Order, paths: seq<Path>) { forall i, j :: 0 <= i < j < |paths| ==> le(paths[i], paths[j]) }

  ghost predicate SortedAs(le: Order, sorted: seq<Path>, paths: seq<Path>)
  {
    multiset(sorted) == multiset(paths) && InOrder(le, sorted)
  }

  /** The order of sort.Strings on object names. */
  function ByName(name: Path -> string): Order { (p, q) => Compare(name(p), name(q)) <= 0 }

  lemma ByNameIsTotal(name: Path -> string)
    ensures Total(ByName(name))
  {
    var le := ByName(name);
    forall p, q ensures le(p, q) || le(q, p) { CompareFlip(name(p), name(q)); }
    forall p, q, r | le(p, q) && le(q, r) ensures le(p, r) { CompareTransitive(name(p), name(q), name(r)); }
  }

  /** The rows that name an object, as ListArtifactReleases returns them. */
  ghost predicate Rows(t: Tables, rows: seq<ArtifactRelease>)
  {
    && (forall r <- rows :: exists id :: id in t.releases && Describes(t.releases[id], r))
    && (forall id :: id in t.releases && t.releases[id].path.Some? ==> Described(rows, t.releases[id]))
  }

  predicate Described(rows: seq<ArtifactRelease>, row: Row) { exists r <- rows :: Describes(row, r) }

  predicate Describes(row: Row, r: ArtifactRelease)
  {
    row.path == Some(r.path) && row.sha == r.sha && row.size == r.size
  }

  method ListArtifactReleases(store: S.SqliteStore) returns (rows: seq<ArtifactRelease>)
    ensures Rows(store.Contents(), rows)
  {
    rows := [];
    var rest := store.releases.Keys;
    while rest != {}
      invariant rest <= store.releases.Keys
      invariant forall r <- rows :: exists id :: id in store.releases && Describes(store.releases[id], r)
      invariant forall id :: id in store.releases && id !in rest && store.releases[id].path.Some? ==>
        Described(rows, store.releases[id])
      decreases |rest|
    {
      var id :| id in rest;
      var row := store.releases[id];
      if row.path.Some? {
        var r := ArtifactRelease(row.path.value, row.sha, row.size);
        ghost var before := rows;
        rows := rows + [r];
        assert rows[|before|] == r && r in rows && Describes(row, r);
        forall other: Row | Described(before, other) ensures Described(rows, other) {
          var q :| q in before && Describes(other, q);
          assert q in rows;
        }
      }
      rest := rest - {id};
    }
  }

  /** Nothing fails, and nothing else changes the tables meanwhile. */
  ghost predicate Quiet(calls: Calls, t: Tables) { forall p :: calls.tables(p) == t && calls.repairs(p).Works? }

  /** `error` is whether a call failed; the report then says what was known by then. */
  method ReconcileArtifacts(service: D.ArtifactService, prefix: string, name: Path -> string, startedAt: int,
                            listing: seq<Listed>, calls: Calls, repair: bool)
    returns (report: Report, error: bool, ghost rows: seq<ArtifactRelease>, ghost found: seq<Path>, ghost fate: Path -> Fate)
    modifies service`objects
    ensures Rows(service.store.Contents(), rows) && report.checked == |rows|
    ensures Verified(rows, old(service.objects), calls) < |rows| ==>
              && error && service.objects == old(service.objects) && report.orphans == report.deleted == []
              && report.missing == Missing(rows[..Verified(rows, old(service.objects), calls)], old(service.objects))
              && report.corrupt == Corrupt(rows[..Verified(rows, old(service.objects), calls)], old(service.objects))
    ensures Verified(rows, old(service.objects), calls) == |rows| ==>
              && SortedAs(ByName(name), report.missing, Missing(rows, old(service.objects)))
              && SortedAs(ByName(name), report.corrupt, Corrupt(rows, old(service.objects)))
              && (forall p :: p in found <==> p in Updated(listing) && !References(service.store.Contents(), p))
              && InOrder(ByName(name), found)
              && (!repair ==> !error && report.orphans == found && report.deleted == [] && service.objects == old(service.objects))
              && (repair ==>
                    var r := Repair(prefix, name, startedAt, Updated(listing), calls);
                    var course := Repaired(Start(old(service.objects)), found, fate);
                    && FatesOf(fate, r) && error == course.error && service.objects == course.objects
                    && report.deleted == course.deleted && report.orphans == (if error then found else course.remaining)
                    && (Quiet(calls, service.store.Contents()) ==>
                          && !error
                          && forall p :: p in service.objects <==>
                               p in old(service.objects) && !Removable(service.store.Contents(), r, p)))
  {
    ghost var r := Repair(prefix, name, startedAt, Updated(listing), calls);
    fate := FatesExist(r);
    var releases := ListArtifactReleases(service.store);
    rows, found := releases, [];
    var verified, missing, corrupt := VerifyReleases(service.objects, releases, calls);
    assert releases[..|releases|] == releases;
    report := Report(|releases|, missing, corrupt, [], []);
    if verified < |releases| { return report, true, rows, found, fate; }
    var orphans, updated := Orphans(releases, listing);
    OrphansAreUnreferenced(service.store.Contents(), releases, listing, orphans);
    ByNameIsTotal(name);
    missing := SortPaths(ByName(name), missing);
    corrupt := SortPaths(ByName(name), corrupt);
    orphans := SortPaths(ByName(name), orphans);
    report, found, error := Report(|releases|, missing, corrupt, orphans, []), orphans, false;
    if repair {
      ghost var objects := service.objects;
      var deleted, remaining;
      deleted, remaining, error := RepairOrphans(service, orphans, Repair(prefix, name, startedAt, updated, calls), r, fate);
      report := report.(deleted := deleted, orphans := if error then orphans else remaining);
      if Quiet(calls, service.store.Contents()) { QuietRepair(service.store.Contents(), objects, orphans, r, fate); }
    }
  }

  /** Reads the object of each row, up to the first that cannot be read. */
  method VerifyReleases(objects: map<Path, Bytes>, releases: seq<ArtifactRelease>, calls: Calls)
    returns (verified: nat, missing: seq<Path>, corrupt: seq<Path>)
    ensures verified == Verified(releases, objects, calls)
    ensures missing == Missing(releases[..verified], objects) && corrupt == Corrupt(releases[..verified], objects)
  {
    missing, corrupt := [], [];
    for i := 0 to |releases|
      invariant missing == Missing(releases[..i], objects) && corrupt == Corrupt(releases[..i], objects)
      invariant Verified(releases, objects, calls) == i + Verified(releases[i..], objects, calls)
    {
      var release := releases[i];
      assert releases[..i + 1][..i] == releases[..i] && releases[i..][1..] == releases[i + 1..];
      if release.path !in objects {
        missing := missing + [release.path];
      } else {
        if !calls.readable(release.path) { return i, missing, corrupt; }
        if Contradicts(release, objects[release.path]) { corrupt := corrupt + [release.path]; }
      }
    }
    verified := |releases|;
  }

  method SortPaths(le: Order, paths: seq<Path>) returns (sorted: seq<Path>)
    requires Total(le)
    ensures SortedAs(le, sorted, paths) && forall p :: p in sorted <==> p in paths
  {
    sorted := [];
    for i := 0 to |paths|
      invariant SortedAs(le, sorted, paths[..i])
    {
      assert paths[..i + 1] == paths[..i] + [paths[i]];
      sorted := Insert(le, sorted, paths[i]);
    }
    assert paths[..|paths|] == paths;
    forall p ensures p in sorted <==> p in paths { assert p in sorted <==> p in multiset(sorted); }
  }

  method Insert(le: Order, sorted: seq<Path>, p: Path) returns (more: seq<Path>)
    requires Total(le) && InOrder(le, sorted)
    ensures SortedAs(le, more, sorted + [p])
  {
    var k := 0;
    while k < |sorted| && le(sorted[k], p)
      invariant 0 <= k <= |sorted| && forall i :: 0 <= i < k ==> le(sorted[i], p)
    {
      k := k + 1;
    }
    RestComesAfter(le, sorted, k, p);
    InsertedInOrder(le, sorted, k, p);
    assert sorted == sorted[..k] + sorted[k..];
    more := sorted[..k] + [p] + sorted[k..];
  }

  lemma RestComesAfter(le: Order, sorted: seq<Path>, k: nat, p: Path)
    requires Total(le) && InOrder(le, sorted) && k <= |sorted| && (k < |sorted| ==> !le(sorted[k], p))
    ensures forall i :: k <= i < |sorted| ==> le(p, sorted[i])
  {
    forall i | k <= i < |sorted| ensures le(p, sorted[i]) {
      assert le(p, sorted[k]);
      if k < i { assert le(sorted[k], sorted[i]); }
    }
  }

  lemma InsertedInOrder(le: Order, sorted: seq<Path>, k: nat, p: Path)
    requires InOrder(le, sorted) && k <= |sorted|
    requires (forall i :: 0 <= i < k ==> le(sorted[i], p)) && forall i :: k <= i < |sorted| ==> le(p, sorted[i])
    ensures InOrder(le, sorted[..k] + [p] + sorted[k..])
  {
    var more := sorted[..k] + [p] + sorted[k..];
    assert forall i :: 0 <= i < |more| ==> more[i] == if i < k then sorted[i] else if i == k then p else sorted[i - 1];
  }

  /** The listed objects that no row expects, and when they were updated. */
  method Orphans(releases: seq<ArtifactRelease>, listing: seq<Listed>) returns (orphans: seq<Path>, updated: map<Path, Option<int>>)
    ensures forall p :: p in orphans <==> p in Updated(listing) && forall r <- releases :: r.path != p
    ensures forall p :: p in orphans ==> p in updated && updated[p] == Updated(listing)[p]
  {
    var expected := set r | r in releases :: r.path;
    orphans, updated := [], map[];
    for i := 0 to |listing|
      invariant forall p :: p in orphans <==> p in Updated(listing[..i]) && p !in expected
      invariant forall p :: p in orphans ==> p in updated && updated[p] == Updated(listing[..i])[p]
    {
      var found := listing[i];
      assert listing[..i + 1][..i] == listing[..i];
      if found.path !in expected {
        orphans, updated := orphans + [found.path], updated[found.path := found.updatedAt];
      }
    }
    assert listing[..|listing|] == listing;
  }

  lemma OrphansAreUnreferenced(t: Tables, rows: seq<ArtifactRelease>, listing: seq<Listed>, orphans: seq<Path>)
    requires Rows(t, rows) && forall p :: p in orphans <==> p in Updated(listing) && forall r <- rows :: r.path != p
    ensures forall p :: p in orphans <==> p in Updated(listing) && !References(t, p)
  {
    forall p ensures References(t, p) <==> exists r <- rows :: r.path == p {
      if References(t, p) {
        var id :| id in t.releases && t.releases[id].path == Some(p);
        assert Described(rows, t.releases[id]);
      }
    }
  }

  /** q knows the update times of the orphans, r those of all that is listed. */
  ghost predicate Knows(q: Repair, r: Repair, p: Path)
  {
    q == r.(updated := q.updated) && p in q.updated && p in r.updated && q.updated[p] == r.updated[p]
  }

  lemma SameFate(q: Repair, r: Repair, fate: Path -> Fate, p: Path)
    requires FatesOf(fate, r) && Knows(q, r, p)
    ensures FateOf(q, p) == fate(p)
  {
    assert FateOf(q, p) == FateOf(r, p);
  }

  /** repairOrphanArtifact: the name must lead to a module, and under its lock the reference and the age are checked. */
  method RepairOrphan(service: D.ArtifactService, p: Path, r: Repair) returns (deleted: bool, referenced: bool, error: bool)
    modifies service`objects
    ensures (deleted <==> FateOf(r, p).Removed?) && (referenced <==> FateOf(r, p).Wanted?) && (error <==> FateOf(r, p).Stopped?)
    ensures service.objects == AfterFate(old(service.objects), p, FateOf(r, p))
  {
    var identity, call := P.RepairIdentity(r.prefix, r.name(p)), r.calls.repairs(p);
    if identity.None? { return false, false, false; }
    if call.LockFails? || call.CheckFails? { return false, false, true; }
    referenced := References(r.calls.tables(p), p);
    if referenced { return false, true, false; }
    var updatedAt := if p in r.updated then r.updated[p] else None;
    if updatedAt.None? || updatedAt.value >= r.startedAt { return false, false, false; }
    if call == DeleteFails(false) { return false, false, true; }
    service.objects := service.objects - {p};
    return !call.DeleteFails?, false, call.DeleteFails?;
  }

  method RepairNext(service: D.ArtifactService, p: Path, q: Repair, ghost r: Repair, ghost fate: Path -> Fate)
    returns (deleted: bool, referenced: bool, error: bool)
    requires FatesOf(fate, r) && Knows(q, r, p)
    modifies service`objects
    ensures (deleted <==> fate(p).Removed?) && (referenced <==> fate(p).Wanted?) && (error <==> fate(p).Stopped?)
    ensures service.objects == AfterFate(old(service.objects), p, fate(p))
  {
    SameFate(q, r, fate, p);
    deleted, referenced, error := RepairOrphan(service, p, q);
  }

  /** The loop over the orphans, up to the first failing call. */
  method RepairOrphans(service: D.ArtifactService, orphans: seq<Path>, q: Repair, ghost r: Repair, ghost fate: Path -> Fate)
    returns (deleted: seq<Path>, remaining: seq<Path>, error: bool)
    requires FatesOf(fate, r) && forall p :: p in orphans ==> Knows(q, r, p)
    modifies service`objects
    ensures Course(service.objects, deleted, remaining, error) == Repaired(Start(old(service.objects)), orphans, fate)
  {
    deleted, remaining := [], [];
    assert orphans[0..] == orphans;
    for i := 0 to |orphans|
      invariant Repaired(Course(service.objects, deleted, remaining, false), orphans[i..], fate)
                == Repaired(Start(old(service.objects)), orphans, fate)
    {
      var p := orphans[i];
      assert p in orphans && orphans[i..][1..] == orphans[i + 1..];
      var gone, referenced, failed := RepairNext(service, p, q, r, fate);
      if failed { return deleted, remaining, true; }
      if gone { deleted := deleted + [p]; }
      if !referenced { remaining := remaining + [p]; }
    }
    error := false;
  }

  /** What repair may remove, artifact or not: judged by its name, named by no row, listed as updated before the run. */
  predicate Removable(t: Tables, r: Repair, p: Path)
  {
    && P.RepairIdentity(r.prefix, r.name(p)).Some? && !References(t, p)
    && p in r.updated && r.updated[p].Some? && r.updated[p].value < r.startedAt
  }

  /** What goes in a repair: what was to be removed, and what a failing call removed all the same. */
  lemma {:induction false} GoneByFate(c: Course, orphans: seq<Path>, fate: Path -> Fate, p: Path)
    ensures var e := Repaired(c, orphans, fate);
            && (p in e.objects ==> p in c.objects && e.objects[p] == c.objects[p])
            && (p in c.objects && p !in e.objects ==> p in orphans && (fate(p).Removed? || fate(p) == Stopped(true)))
    decreases orphans
  {
    if orphans != [] && !c.error {
      GoneByFate(Next(c, orphans[0], fate(orphans[0])), orphans[1..], fate, p);
    }
  }

  /** If no call fails, all that was to be removed goes, and is reported so; all the rest stays, and all that no row wants stays an orphan. */
  lemma {:induction false} AllByFate(c: Course, orphans: seq<Path>, fate: Path -> Fate, p: Path)
    requires !c.error && forall q :: q in orphans ==> !fate(q).Stopped?
    ensures var e := Repaired(c, orphans, fate);
            && !e.error
            && (p in e.objects <==> p in c.objects && !(p in orphans && fate(p).Removed?))
            && (p in e.deleted <==> p in c.deleted || (p in orphans && fate(p).Removed?))
            && (p in e.remaining <==> p in c.remaining || (p in orphans && !fate(p).Wanted?))
    decreases orphans
  {
    if orphans != [] {
      assert orphans[0] in orphans && orphans == [orphans[0]] + orphans[1..];
      AllByFate(Next(c, orphans[0], fate(orphans[0])), orphans[1..], fate, p);
    }
  }

  lemma FateMeans(r: Repair, p: Path)
    ensures FateOf(r, p).Removed? ==> Removable(r.calls.tables(p), r, p) && r.calls.repairs(p).Works?
    ensures FateOf(r, p) == Stopped(true) ==> Removable(r.calls.tables(p), r, p) && r.calls.repairs(p) == DeleteFails(true)
    ensures r.calls.repairs(p).Works? ==>
              && !FateOf(r, p).Stopped? && (Removable(r.calls.tables(p), r, p) ==> FateOf(r, p).Removed?)
              && (FateOf(r, p).Wanted? <==>
                    P.RepairIdentity(r.prefix, r.name(p)).Some? && References(r.calls.tables(p), p))
  {
  }

  /**
   Whatever fails and whatever others do to the tables: repair removes nothing but
   orphans that are removable by the tables under the lock. With no failing call it
   removes all of those and reports them deleted, and of all the orphans it no longer
   reports those that a row has come to name.
   */
  lemma RepairRemovesOrphans(objects: map<Path, Bytes>, orphans: seq<Path>, r: Repair, fate: Path -> Fate, p: Path)
    requires p in objects && FatesOf(fate, r)
    ensures var e := Repaired(Start(objects), orphans, fate);
            && (p !in e.objects ==>
                  p in orphans && Removable(r.calls.tables(p), r, p) && r.calls.repairs(p) in {Works, DeleteFails(true)})
            && (p in e.objects ==> e.objects[p] == objects[p])
            && ((forall q :: q in orphans ==> r.calls.repairs(q).Works?) ==>
                  && !e.error && (p !in e.objects <==> p in orphans && Removable(r.calls.tables(p), r, p))
                  && (p in e.deleted <==> p in orphans && Removable(r.calls.tables(p), r, p))
                  && (p in e.remaining <==>
                        p in orphans
                        && !(P.RepairIdentity(r.prefix, r.name(p)).Some? && References(r.calls.tables(p), p))))
  {
    GoneByFate(Start(objects), orphans, fate, p);
    FateMeans(r, p);
    if forall q :: q in orphans ==> r.calls.repairs(q).Works? {
      NothingStops(orphans, r, fate);
      AllByFate(Start(objects), orphans, fate, p);
    }
  }

  lemma NothingStops(orphans: seq<Path>, r: Repair, fate: Path -> Fate)
    requires FatesOf(fate, r) && forall q :: q in orphans ==> r.calls.repairs(q).Works?
    ensures forall q :: q in orphans ==> !fate(q).Stopped?
  {
    forall q | q in orphans ensures !fate(q).Stopped? { FateMeans(r, q); }
  }

  /** A repair that nothing disturbs removes exactly what was listed and is removable. */
  lemma QuietRepair(t: Tables, objects: map<Path, Bytes>, orphans: seq<Path>, r: Repair, fate: Path -> Fate)
    requires FatesOf(fate, r) && Quiet(r.calls, t) && forall p :: p in orphans <==> p in r.updated && !References(t, p)
    ensures var e := Repaired(Start(objects), orphans, fate);
            !e.error && forall p :: p in e.objects <==> p in objects && !Removable(t, r, p)
  {
    var e := Repaired(Start(objects), orphans, fate);
    NothingStops(orphans, r, fate);
    AllByFate(Start(objects), orphans, fate, Other(""));
    forall p ensures p in e.objects <==> p in objects && !Removable(t, r, p) {
      if p in objects { RepairRemovesOrphans(objects, orphans, r, fate, p); } else { GoneByFate(Start(objects), orphans, fate, p); }
    }
  }

  /* ---------- which names repair judges ---------- */

  lemma JudgedExactly(r: Repair, p: Path)
    ensures FateOf(r, p).Unjudged? <==> P.RepairIdentity(r.prefix, r.name(p)).None?
  {
  }

  /** Published artifacts are judged, and by their own module, exactly with a prefix that path.Join leaves as it is. */
  lemma ArtifactsAreJudged(r: Repair, hex: Digest -> string, id: ReleaseId, sha: Digest)
    requires N.Published(hex, id, sha) && r.name(Artifact(id, sha)) == N.NameOf(r.prefix, hex, Artifact(id, sha))
    ensures P.RepairIdentity(r.prefix, r.name(Artifact(id, sha)))
            == if P.RepairablePrefix(r.prefix) then Some((id.mod.owner, id.mod.name)) else None
    ensures FateOf(r, Artifact(id, sha)).Unjudged? <==> !P.RepairablePrefix(r.prefix)
  {
    JudgedExactly(r, Artifact(id, sha));
    P.RepairLocksThePublishersModule(r.prefix, id.mod.owner, id.mod.name, id.version, hex(sha));
  }

  /**
   Not only artifacts go: with such a prefix, a probe that a readiness check could not
   remove is taken for an artifact of a module that does not exist, and removed.
   */
  lemma LeftProbesGo(r: Repair, probe: string)
    requires P.Plain(probe)
    requires var p := Other(P.ProbePath(r.prefix, probe));
             && r.name(p) == P.ProbePath(r.prefix, probe)
             && OldEnough(r, p) && RowsWellFormed(r.calls.tables(p)) && r.calls.repairs(p).Works?
    ensures FateOf(r, Other(P.ProbePath(r.prefix, probe))) == if P.RepairablePrefix(r.prefix) then Removed else Unjudged
  {
    var p := Other(P.ProbePath(r.prefix, probe));
    P.RepairJudgesProbes(r.prefix, probe);
    JudgedExactly(r, p);
    RowsNameNoOthers(r.calls.tables(p), p);
    FateMeans(r, p);
  }

  lemma RowsNameNoOthers(t: Tables, p: Path)
    requires RowsWellFormed(t) && p.Other?
    ensures !References(t, p)
  {
  }

  /** Without a prefix nothing at all is judged. */
  lemma NoPrefixNoRepair(r: Repair, p: Path)
    requires P.Trim(r.prefix) == ""
    ensures FateOf(r, p).Unjudged?
  {
  }

  /* ---------- the lifecycle's repair ---------- */

  function CheckEvent(r: Repair, p: Path): L.Event
  {
    if r.calls.repairs(p).CheckFails? then L.Fault(false) else if FateOf(r, p).Recent? then L.NoMore else L.Go
  }

  function RemoveEvent(call: RepairCall): L.Event { if call.DeleteFails? then L.Fault(call.applied) else L.Go }

  /** A repair thread of the lifecycle that has the lock does to the objects what the fate says. */
  lemma RepairThreadAgrees(w: L.World, th: L.Thread, r: Repair, p: Path)
    requires th.job.Repair? && th.pc == L.Repairing(L.CheckOrphan(p)) && w.tables == r.calls.tables(p)
    requires !FateOf(r, p).Unjudged? && !r.calls.repairs(p).LockFails?
    ensures var check := L.RepairMove(w, th, CheckEvent(r, p));
            && check.Move? && check.world == w
            && var done := if check.pc == L.Repairing(L.RemoveOrphan(p))
                           then L.RepairMove(w, th.(pc := check.pc), RemoveEvent(r.calls.repairs(p))) else check;
               done.Move? && done.world == w.(objects := AfterFate(w.objects, p, FateOf(r, p)))
  {
  }

  /* ---------- what is reported ---------- */

  /** The recorded size is not the object's, or there is a checksum and it is not the object's. */
  predicate Differs(row: Row, body: Bytes) { row.size != |body| || (row.sha != NoDigest && row.sha != Sha256(body)) }

  lemma {:induction false} ListedExactly(rows: seq<ArtifactRelease>, objects: map<Path, Bytes>, p: Path)
    ensures p in Missing(rows, objects) <==> p !in objects && exists r <- rows :: r.path == p
    ensures p in Corrupt(rows, objects) <==>
              p in objects && exists r <- rows :: r.path == p
                                                  && (r.size != |objects[p]| || (r.sha != NoDigest && r.sha != Sha256(objects[p])))
  {
    if rows != [] {
      var front, last := rows[..|rows| - 1], rows[|rows| - 1];
      ListedExactly(front, objects, p);
      assert forall r :: r in rows <==> r in front || r == last;
    }
  }

  /** Verification reads on until the first stored object that cannot be read. */
  lemma {:induction false} VerifiedUpToUnreadable(rows: seq<ArtifactRelease>, objects: map<Path, Bytes>, calls: Calls)
    ensures var n := Verified(rows, objects, calls);
            && (forall i :: 0 <= i < n && rows[i].path in objects ==> calls.readable(rows[i].path))
            && (n < |rows| ==> rows[n].path in objects && !calls.readable(rows[n].path))
  {
    if rows != [] {
      VerifiedUpToUnreadable(rows[1..], objects, calls);
      assert forall i :: 0 < i < |rows| ==> rows[i] == rows[1..][i - 1];
    }
  }

  /** An object's age is that of its last mention. */
  lemma {:induction false} LastMentionCounts(listing: seq<Listed>, i: nat)
    requires i < |listing| && forall j :: i < j < |listing| ==> listing[j].path != listing[i].path
    ensures listing[i].path in Updated(listing) && Updated(listing)[listing[i].path] == listing[i].updatedAt
  {
    if i < |listing| - 1 { LastMentionCounts(listing[..|listing| - 1], i); }
  }

  /** Missing are exactly the objects a row names that are not stored, and corrupt those that differ from what a row records. */
  lemma ReportedExactly(t: Tables, rows: seq<ArtifactRelease>, objects: map<Path, Bytes>, p: Path)
    requires Rows(t, rows)
    ensures p in Missing(rows, objects) <==> References(t, p) && p !in objects
    ensures p in Corrupt(rows, objects) <==>
              p in objects && exists id :: id in t.releases && t.releases[id].path == Some(p) && Differs(t.releases[id], objects[p])
  {
    ListedExactly(rows, objects, p);
    forall id | id in t.releases && t.releases[id].path == Some(p) ensures exists r <- rows :: Describes(t.releases[id], r) {
      assert Described(rows, t.releases[id]);
    }
    forall r | r in rows ensures exists id :: id in t.releases && Describes(t.releases[id], r) {}
  }

  /** In no reachable state is a local release reported missing or corrupt. */
  lemma ReachableWorldsReconcile(states: seq<L.State>, labels: seq<T.Label>, i: nat, rows: seq<ArtifactRelease>,
                                 id: ReleaseId, r: ArtifactRelease)
    requires T.Run(states, labels) && i < |states| && Rows(states[i].world.tables, rows) && r in rows
    requires id in states[i].world.tables.releases && states[i].world.tables.releases[id].source == Local
    requires Describes(states[i].world.tables.releases[id], r)
    ensures r.path in states[i].world.objects && !Contradicts(r, states[i].world.objects[r.path])
  {
    T.ReachableInv(states, labels, i);
    SoundWorldsReconcile(states[i].world, rows, id, r);
  }

  /** In a sound world no local release is ever reported missing or corrupt. */
  lemma SoundWorldsReconcile(w: L.World, rows: seq<ArtifactRelease>, id: ReleaseId, r: ArtifactRelease)
    requires Sound(w) && Rows(w.tables, rows) && r in rows
    requires id in w.tables.releases && w.tables.releases[id].source == Local && Describes(w.tables.releases[id], r)
    ensures r.path in w.objects && !Contradicts(r, w.objects[r.path])
  {
    assert WellFormedRow(id, w.tables.releases[id]);
  }
}
