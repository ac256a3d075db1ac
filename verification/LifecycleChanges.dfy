/**
 Every change and its causes: what may happen to a row, a queue entry, a
 tombstone, a module or an object in one call of a thread, column by column.
 None of this mentions the transactions that bring it about.
 */
module LifecycleChanges {
  import opened Text
  import opened Version
  import opened LatestVersion
  import opened Store
  import opened Lifecycle
  import opened LifecycleInvariant
  import opened LifecycleSafety

  function RowAt(t: Tables, id: ReleaseId): Option<Row> { if id in t.releases then Some(t.releases[id]) else None }

  function LatestAt(t: Tables, m: ModuleId): Option<string> { if m in t.modules then Some(t.modules[m]) else None }

  /* ---------- rows ---------- */

  /** A publish writes its own artifact, which is stored; a row that is replaced keeps its id. */
  ghost predicate PublishesRow(w: World, job: Job, id: ReleaseId, before: Option<Row>, r: Row)
  {
    && job.Publish? && job.id == id && (before.Some? ==> job.replace)
    && r.source == Local && r.sha == Sha256(job.body) && r.size == |job.body| && r.md5 == job.md5 && r.uri == ""
    && r.path == Some(Artifact(id, r.sha)) && Artifact(id, r.sha) in w.objects && w.objects[Artifact(id, r.sha)] == job.body
    && r.id == if before.Some? then before.value.id else job.rowId
  }

  /** Indexing adds a bare upstream row where there is none and no tombstone. */
  ghost predicate IndexesRow(w: World, job: Job, id: ReleaseId, before: Option<Row>, r: Row)
  {
    && job == Index(id.mod) && before.None? && id !in w.tables.tombstones
    && r.source == Source.Upstream && r.id == id.version
    && r.uri == "" && r.sha == NoDigest && r.md5 == "" && r.size == 0 && r.path.None?
  }

  /** Restoring adds an upstream row with what the upstream says. */
  ghost predicate RestoresRow(job: Job, e: Event, id: ReleaseId, before: Option<Row>, r: Row)
  {
    && job == Restore(id) && before.None? && e.Upstream?
    && r.source == Source.Upstream && r.id == id.version
    && r.uri == e.fetched.uri && r.sha == e.fetched.sha && r.md5 == e.fetched.md5 && r.size == e.fetched.size && r.path.None?
  }

  /** A hydration fills an upstream row that has no archive location yet; what the upstream does not say stays. */
  ghost predicate HydratesRow(job: Job, pc: Pc, id: ReleaseId, before: Option<Row>, r: Row)
  {
    && job == Hydrate(id) && pc.Hydrating? && pc.hyd.CommitHydrate? && before.Some?
    && var (b, f) := (before.value, pc.hyd.fetched);
    && b.source == r.source == Source.Upstream && r.id == b.id && r.path == b.path
    && b.uri == "" && r.uri == f.uri
    && r.sha == (if f.sha == NoDigest then b.sha else f.sha)
    && r.md5 == (if f.md5 == "" then b.md5 else f.md5)
    && r.size == if f.size == 0 then b.size else f.size
  }

  /** Checksums describe the stored object, never against what an upstream row recorded before; a local row only gets its MD5. */
  ghost predicate ChecksumsRow(w: World, job: Job, pc: Pc, id: ReleaseId, before: Option<Row>, r: Row)
  {
    && job.Checksum? && job.id == id && pc.Hashing? && pc.sum.CommitChecksum? && before.Some?
    && var b := before.value;
    && r.id == b.id && r.source == b.source && r.uri == b.uri && r.md5 == job.md5
    && r.path.Some? && r.path.value in w.objects
    && r.sha == Sha256(w.objects[r.path.value]) && r.size == |w.objects[r.path.value]|
    && (if b.source == Source.Upstream then b.sha in {NoDigest, r.sha} && b.size in {0, r.size}
        else r == b.(md5 := job.md5))
  }

  ghost predicate DeletesRow(job: Job, id: ReleaseId) { job == DeleteModule(id.mod) || (job.DeleteRelease? && job.id == id) }

  ghost predicate RowCause(w: World, th: Thread, e: Event, w': World, id: ReleaseId)
  {
    var before, after := RowAt(w.tables, id), RowAt(w'.tables, id);
    || after == before
    || (after.None? && DeletesRow(th.job, id))
    || (after.Some?
        && (|| PublishesRow(w, th.job, id, before, after.value) || IndexesRow(w, th.job, id, before, after.value)
            || RestoresRow(th.job, e, id, before, after.value) || HydratesRow(th.job, th.pc, id, before, after.value)
            || ChecksumsRow(w, th.job, th.pc, id, before, after.value)))
  }

  /* ---------- the queue, tombstones and modules ---------- */

  /**
   An artifact is queued exactly when its row lets go of it, and leaves the queue when a
   row names it again or a worker is through with it.
   */
  ghost predicate QueueCause(w: World, th: Thread, w': World, p: Path)
    requires p.Artifact?
  {
    var queued, queued' := p in w.tables.deletions, p in w'.tables.deletions;
    && (!queued && queued' ==> RowHolds(w.tables, p))
    && (RowHolds(w.tables, p) && !RowHolds(w'.tables, p) ==> queued')
    && (queued && !queued' ==>
          RowHolds(w'.tables, p)
          || (th.pc.Working? && th.pc.work.CompleteQueued? && th.pc.work.todo != [] && th.pc.work.todo[0].path == p))
  }

  /** Deleting an upstream release leaves a tombstone, and nothing else does; deleting a module forgets its tombstones. */
  ghost predicate TombstoneCause(w: World, th: Thread, w': World, id: ReleaseId)
  {
    var buried := th.job.DeleteRelease? && th.job.id == id && id in w.tables.releases && id !in w'.tables.releases
                  && w.tables.releases[id].source == Source.Upstream;
    && (id !in w.tables.tombstones ==> (id in w'.tables.tombstones <==> buried))
    && (id in w.tables.tombstones ==> id in w'.tables.tombstones || th.job == DeleteModule(id.mod))
    && (th.job == DeleteModule(id.mod) && w' != w ==> id !in w'.tables.tombstones)
  }

  /**
   A module comes without versions, and goes exactly when it has none left or is dropped
   empty; with the same versions it keeps its latest one, unless that is blank.
   */
  ghost predicate ModuleCause(w: World, th: Thread, w': World, m: ModuleId)
  {
    var before, after := LatestAt(w.tables, m), LatestAt(w'.tables, m);
    && (before.None? && after.Some? ==> after == Some("") && Versions(w'.tables, m) == {} && HomeOf(th.job) == Some(m))
    && (before.Some? && after.None? ==> Versions(w'.tables, m) == {} && HomeOf(th.job) == Some(m))
    && (before.Some? && after.Some? && Versions(w'.tables, m) == Versions(w.tables, m) ==>
          after == before || TrimSpace(before.value) == "")
    && (Versions(w.tables, m) != {} && Versions(w'.tables, m) == {} ==> after.None?)
  }

  /* ---------- objects ---------- */

  /** Objects come by a publish's upload or an upstream download, never change, and go only in the places that delete. */
  ghost predicate ObjectCause(w: World, th: Thread, e: Event, w': World, p: Path)
  {
    && (p in w.objects && p in w'.objects ==> w'.objects[p] == w.objects[p])
    && (p !in w.objects && p in w'.objects ==>
          || (th.job.Publish? && th.pc == Publishing(Upload) && p == Artifact(th.job.id, Sha256(th.job.body))
              && w'.objects[p] == th.job.body)
          || (th.job.EnsureArtifact? && th.pc == Caching(UploadCached) && p == Cached(th.job.file) && e == Event.Bytes(w'.objects[p])))
    && (p in w.objects && p !in w'.objects ==> Deletes(th, p))
  }

  ghost predicate Deletes(th: Thread, p: Path)
  {
    || (th.job.Publish? && th.pc == Publishing(Compensate) && p == Artifact(th.job.id, Sha256(th.job.body)))
    || (th.pc.Working? && th.pc.work.RemoveQueued? && th.pc.work.todo != [] && p == th.pc.work.todo[0].path)
    || th.pc == Repairing(RemoveOrphan(p))
    || th.pc == Pruning(RemoveCached(p))
    || (th.job.EnsureArtifact? && th.pc in {Caching(RemoveCorrupt), Caching(RemoveFetched)} && p == Cached(th.job.file))
  }

  /** All of it, for any release, artifact, module and object. */
  ghost predicate Caused(w: World, th: Thread, e: Event, w': World, id: ReleaseId, a: Path, m: ModuleId, p: Path)
    requires a.Artifact?
  {
    && RowCause(w, th, e, w', id) && QueueCause(w, th, w', a) && TombstoneCause(w, th, w', id)
    && ModuleCause(w, th, w', m) && ObjectCause(w, th, e, w', p)
  }

  /* ---------- calls ---------- */

  lemma NothingCaused(w: World, th: Thread, e: Event, id: ReleaseId, a: Path, m: ModuleId, p: Path)
    requires Sound(w) && a.Artifact?
    ensures Caused(w, th, e, w, id, a, m, p)
  {
    LatestStays(w.tables, m);
  }

  /** A module without versions has no latest version; the others exist. */
  lemma LatestStays(t: Tables, m: ModuleId)
    requires Consistent(t)
    ensures Versions(t, m) != {} ==> m in t.modules
  {
    if v :| v in Versions(t, m) { assert ReleaseId(m, v) in t.releases; }
  }

  ghost predicate CallCaused(w: World, th: Thread, e: Event, move: Move, id: ReleaseId, a: Path, m: ModuleId, p: Path)
    requires a.Artifact?
  {
    move.Move? ==> Caused(w, th, e, move.world, id, a, m, p)
  }

  /** A call that leaves the tables alone. */
  lemma ObjectCallCaused(w: World, th: Thread, e: Event, w': World, id: ReleaseId, a: Path, m: ModuleId, p: Path)
    requires Sound(w) && a.Artifact? && w'.tables == w.tables && ObjectCause(w, th, e, w', p)
    requires th.job.DeleteModule? ==> w' == w
    ensures Caused(w, th, e, w', id, a, m, p)
  {
    LatestStays(w.tables, m);
  }

  lemma RepairCaused(w: World, th: Thread, e: Event, id: ReleaseId, a: Path, m: ModuleId, p: Path)
    requires th.pc.Repairing? && th.job.Repair? && Ready(w, th) && a.Artifact?
    ensures CallCaused(w, th, e, RepairMove(w, th, e), id, a, m, p)
  {
    var move := RepairMove(w, th, e);
    if move.Move? { ObjectCallCaused(w, th, e, move.world, id, a, m, p); }
  }

  lemma PruneCaused(w: World, th: Thread, e: Event, id: ReleaseId, a: Path, m: ModuleId, p: Path)
    requires th.pc.Pruning? && th.job.Prune? && Ready(w, th) && a.Artifact?
    ensures CallCaused(w, th, e, PruneMove(w, th, e), id, a, m, p)
  {
    var move := PruneMove(w, th, e);
    if move.Move? { ObjectCallCaused(w, th, e, move.world, id, a, m, p); }
  }

  lemma EnsureCaused(w: World, th: Thread, e: Event, id: ReleaseId, a: Path, m: ModuleId, p: Path)
    requires th.pc.Caching? && th.job.EnsureArtifact? && Ready(w, th) && a.Artifact?
    ensures CallCaused(w, th, e, EnsureMove(w, th, e), id, a, m, p)
  {
    var move := EnsureMove(w, th, e);
    if move.Move? { ObjectCallCaused(w, th, e, move.world, id, a, m, p); }
  }

  lemma WorkerCaused(w: World, th: Thread, e: Event, id: ReleaseId, a: Path, m: ModuleId, p: Path)
    requires th.pc.Working? && th.job.Worker? && Ready(w, th) && a.Artifact?
    ensures CallCaused(w, th, e, WorkerMove(w, th, e), id, a, m, p)
  {
    var move := WorkerMove(w, th, e);
    if th.pc.work.CompleteQueued? {
      CompleteCaused(w, th, e, id, a, m, p);
    } else if move.Move? {
      ObjectCallCaused(w, th, e, move.world, id, a, m, p);
    }
  }

  lemma CompleteCaused(w: World, th: Thread, e: Event, id: ReleaseId, a: Path, m: ModuleId, p: Path)
    requires th.pc.Working? && th.job.Worker? && Ready(w, th) && a.Artifact? && th.pc.work.CompleteQueued?
    ensures CallCaused(w, th, e, WorkerMove(w, th, e), id, a, m, p)
  {
    var move, done := WorkerMove(w, th, e), CompleteDeletionTx(w.tables, th.pc.work.todo[0].path);
    NothingCaused(w, th, e, id, a, m, p);
    EntryGoes(w, th, e, done, id, a, m, p);
    assert move.Move? ==> move.world == w || move.world == With(w, done);
  }

  lemma EntryGoes(w: World, th: Thread, e: Event, done: Tables, id: ReleaseId, a: Path, m: ModuleId, p: Path)
    requires Sound(w) && a.Artifact? && th.job.Worker?
    requires th.pc.Working? && th.pc.work.CompleteQueued? && th.pc.work.todo != []
    requires done == CompleteDeletionTx(w.tables, th.pc.work.todo[0].path)
    ensures Caused(w, th, e, With(w, done), id, a, m, p)
  {
    assert Versions(done, m) == Versions(w.tables, m);
    LatestStays(w.tables, m);
  }

  lemma DeleteReleaseCaused(w: World, th: Thread, e: Event, id: ReleaseId, a: Path, m: ModuleId, p: Path)
    requires th.pc.Deleting? && th.job.DeleteRelease? && Ready(w, th) && a.Artifact?
    ensures CallCaused(w, th, e, DeleteReleaseMove(w, th, e), id, a, m, p)
  {
    var move := DeleteReleaseMove(w, th, e);
    if move.Move? && move.world != w {
      ReleaseGoes(w, th, e, id, a, m, p, e.latest);
    } else {
      NothingCaused(w, th, e, id, a, m, p);
    }
  }

  lemma ReleaseGoes(w: World, th: Thread, e: Event, id: ReleaseId, a: Path, m: ModuleId, p: Path, latest: string)
    requires Sound(w) && a.Artifact? && th.job.DeleteRelease? && th.job.id in w.tables.releases
    ensures Caused(w, th, e, With(w, DeleteReleaseTx(w.tables, th.job.id, latest)), id, a, m, p)
  {
    var w' := With(w, DeleteReleaseTx(w.tables, th.job.id, latest));
    assert RowCause(w, th, e, w', id) && TombstoneCause(w, th, w', id) && ObjectCause(w, th, e, w', p);
    ReleaseLeavesArtifact(w, th, w', a, latest);
    ReleaseLeavesModule(w, th, w', m, latest);
  }

  lemma ReleaseLeavesArtifact(w: World, th: Thread, w': World, a: Path, latest: string)
    requires Sound(w) && a.Artifact? && th.job.DeleteRelease? && th.job.id in w.tables.releases
    requires w' == With(w, DeleteReleaseTx(w.tables, th.job.id, latest))
    ensures QueueCause(w, th, w', a)
  {
    assert WellFormedRow(th.job.id, w.tables.releases[th.job.id]);
    if a.id in w.tables.releases { assert WellFormedRow(a.id, w.tables.releases[a.id]); }
    QueueAfterDeletion(w.tables, a, th.job.id, latest);
  }

  lemma QueueAfterDeletion(t: Tables, a: Path, id: ReleaseId, latest: string)
    requires a.Artifact? && id in t.releases && WellFormedRow(id, t.releases[id])
    requires a.id in t.releases ==> WellFormedRow(a.id, t.releases[a.id])
    ensures var t' := DeleteReleaseTx(t, id, latest);
            && (a in t.deletions ==> a in t'.deletions)
            && (a !in t.deletions && a in t'.deletions ==> RowHolds(t, a))
            && (RowHolds(t, a) && !RowHolds(t', a) ==> a in t'.deletions)
  {
  }

  lemma ReleaseLeavesModule(w: World, th: Thread, w': World, m: ModuleId, latest: string)
    requires Sound(w) && th.job.DeleteRelease? && th.job.id in w.tables.releases
    requires w' == With(w, DeleteReleaseTx(w.tables, th.job.id, latest))
    ensures ModuleCause(w, th, w', m)
  {
    VersionsAfterDelete(w.tables, w'.tables, th.job.id, m);
    LatestStays(w.tables, m);
    assert th.job.id.mod == m ==> th.job.id.version in Versions(w.tables, m);
  }

  lemma DeleteModuleCaused(w: World, th: Thread, e: Event, id: ReleaseId, a: Path, m: ModuleId, p: Path)
    requires th.pc.Deleting? && th.job.DeleteModule? && Ready(w, th) && a.Artifact?
    ensures CallCaused(w, th, e, DeleteModuleMove(w, th, e), id, a, m, p)
  {
    var move := DeleteModuleMove(w, th, e);
    if move.Move? && move.world != w {
      ModuleGoes(w, th, e, id, a, m, p);
    } else {
      NothingCaused(w, th, e, id, a, m, p);
    }
  }

  lemma ModuleGoes(w: World, th: Thread, e: Event, id: ReleaseId, a: Path, m: ModuleId, p: Path)
    requires Sound(w) && a.Artifact? && th.job.DeleteModule?
    ensures Caused(w, th, e, With(w, DeleteModuleTx(w.tables, th.job.mod)), id, a, m, p)
  {
    var w' := With(w, DeleteModuleTx(w.tables, th.job.mod));
    assert RowCause(w, th, e, w', id) && TombstoneCause(w, th, w', id) && ObjectCause(w, th, e, w', p);
    ModuleLeavesArtifact(w, th, w', a);
    ModuleLeaves(w, th, w', m);
  }

  lemma ModuleLeavesArtifact(w: World, th: Thread, w': World, a: Path)
    requires Sound(w) && a.Artifact? && th.job.DeleteModule? && w' == With(w, DeleteModuleTx(w.tables, th.job.mod))
    ensures QueueCause(w, th, w', a)
  {
    if a.id in w.tables.releases { assert WellFormedRow(a.id, w.tables.releases[a.id]); }
    if a in LocalPaths(w.tables, th.job.mod) { LocalPathIsHeld(w.tables, th.job.mod, a); }
  }

  lemma LocalPathIsHeld(t: Tables, m: ModuleId, a: Path)
    requires RowsWellFormed(t) && a in LocalPaths(t, m)
    ensures a.Artifact? && a.id.mod == m && RowHolds(t, a)
  {
  }

  lemma ModuleLeaves(w: World, th: Thread, w': World, m: ModuleId)
    requires Sound(w) && th.job.DeleteModule? && w' == With(w, DeleteModuleTx(w.tables, th.job.mod))
    ensures ModuleCause(w, th, w', m)
  {
    forall v ensures v in Versions(w'.tables, m) <==> m != th.job.mod && v in Versions(w.tables, m) {
      assert v in Versions(w.tables, m) <==> ReleaseId(m, v) in w.tables.releases;
      assert v in Versions(w'.tables, m) <==> ReleaseId(m, v) in w'.tables.releases;
    }
    LatestStays(w.tables, m);
  }

  /** A version the module has is no better candidate. */
  lemma KnownCandidate(t: Tables, at: ReleaseId)
    requires LatestVersionsRight(t) && at.mod in t.modules && at in t.releases
    ensures WithCandidate(t.modules[at.mod], at.version) == t.modules[at.mod] || TrimSpace(t.modules[at.mod]) == ""
  {
    assert at.version in Versions(t, at.mod);
  }

  /** Writing a row, over another or where there is none. */
  lemma RowComes(w: World, th: Thread, e: Event, id: ReleaseId, a: Path, m: ModuleId, p: Path, at: ReleaseId, row: Row)
    requires Sound(w) && a.Artifact? && at.mod in w.tables.modules && WellFormedRow(at, row)
    requires !th.job.DeleteRelease? && !th.job.DeleteModule?
    requires RowCause(w, th, e, With(w, CreateReleaseTx(w.tables, at, row)), id)
    ensures Caused(w, th, e, With(w, CreateReleaseTx(w.tables, at, row)), id, a, m, p)
  {
    var w' := With(w, CreateReleaseTx(w.tables, at, row));
    assert TombstoneCause(w, th, w', id) && ObjectCause(w, th, e, w', p);
    RowTakesArtifact(w, th, w', a, at, row);
    RowJoinsModule(w, th, w', m, at, row);
  }

  lemma RowTakesArtifact(w: World, th: Thread, w': World, a: Path, at: ReleaseId, row: Row)
    requires Sound(w) && a.Artifact? && at.mod in w.tables.modules && WellFormedRow(at, row)
    requires w' == With(w, CreateReleaseTx(w.tables, at, row))
    ensures QueueCause(w, th, w', a)
  {
    if at in w.tables.releases { assert WellFormedRow(at, w.tables.releases[at]); }
    if a.id in w.tables.releases { assert WellFormedRow(a.id, w.tables.releases[a.id]); }
    QueueAfterRow(w.tables, a, at, row);
  }

  lemma QueueAfterRow(t: Tables, a: Path, at: ReleaseId, row: Row)
    requires at.mod in t.modules && WellFormedRow(at, row) && a.Artifact?
    requires at in t.releases ==> WellFormedRow(at, t.releases[at])
    requires a.id in t.releases ==> WellFormedRow(a.id, t.releases[a.id])
    ensures var t' := CreateReleaseTx(t, at, row);
            && (a in t.deletions && a !in t'.deletions ==> RowHolds(t', a))
            && (a !in t.deletions && a in t'.deletions ==> RowHolds(t, a))
            && (RowHolds(t, a) && !RowHolds(t', a) ==> a in t'.deletions)
  {
  }

  lemma RowJoinsModule(w: World, th: Thread, w': World, m: ModuleId, at: ReleaseId, row: Row)
    requires Sound(w) && at.mod in w.tables.modules && w' == With(w, CreateReleaseTx(w.tables, at, row))
    ensures ModuleCause(w, th, w', m)
  {
    VersionsAfterCreate(w.tables, w'.tables, at, m);
    LatestStays(w.tables, m);
    if at in w.tables.releases {
      KnownCandidate(w.tables, at);
    } else {
      assert at.version !in Versions(w.tables, at.mod);
      assert at.version in Versions(w.tables, at.mod) + {at.version};
    }
  }

  lemma PublishCaused(w: World, th: Thread, e: Event, id: ReleaseId, a: Path, m: ModuleId, p: Path)
    requires th.pc.Publishing? && th.job.Publish? && Ready(w, th) && a.Artifact?
    ensures CallCaused(w, th, e, PublishMove(w, th, e), id, a, m, p)
  {
    if th.pc.pub.CommitPublish? {
      PublishCommits(w, th, e, id, a, m, p);
    } else if th.pc.pub.UpsertForPublish? || th.pc.pub.DropModule? {
      PublishModuleCaused(w, th, e, id, a, m, p);
    } else {
      PublishObjectCaused(w, th, e, id, a, m, p);
    }
  }

  lemma PublishObjectCaused(w: World, th: Thread, e: Event, id: ReleaseId, a: Path, m: ModuleId, p: Path)
    requires th.pc.Publishing? && th.job.Publish? && Ready(w, th) && a.Artifact?
    requires !th.pc.pub.CommitPublish? && !th.pc.pub.UpsertForPublish? && !th.pc.pub.DropModule?
    ensures CallCaused(w, th, e, PublishMove(w, th, e), id, a, m, p)
  {
    var move := PublishMove(w, th, e);
    if move.Move? { ObjectCallCaused(w, th, e, move.world, id, a, m, p); }
  }

  lemma PublishModuleCaused(w: World, th: Thread, e: Event, id: ReleaseId, a: Path, m: ModuleId, p: Path)
    requires th.pc.Publishing? && th.job.Publish? && Ready(w, th) && a.Artifact?
    requires th.pc.pub.UpsertForPublish? || th.pc.pub.DropModule?
    ensures CallCaused(w, th, e, PublishMove(w, th, e), id, a, m, p)
  {
    NothingCaused(w, th, e, id, a, m, p);
    ModuleComes(w, th, e, id, a, m, p);
    EmptyModuleGoes(w, th, e, id, a, m, p);
    PublishModuleWrites(w, th, e);
  }

  lemma PublishModuleWrites(w: World, th: Thread, e: Event)
    requires th.pc.Publishing? && th.job.Publish? && (th.pc.pub.UpsertForPublish? || th.pc.pub.DropModule?)
    ensures var move, home := PublishMove(w, th, e), th.job.id.mod;
            move.Move? ==> || move.world == w || move.world == With(w, UpsertModuleTx(w.tables, home))
                           || move.world == With(w, DeleteModuleIfEmptyTx(w.tables, home))
  {
  }

  lemma PublishCommits(w: World, th: Thread, e: Event, id: ReleaseId, a: Path, m: ModuleId, p: Path)
    requires th.pc == Publishing(CommitPublish) && th.job.Publish? && Ready(w, th) && a.Artifact?
    ensures CallCaused(w, th, e, PublishMove(w, th, e), id, a, m, p)
  {
    var move := PublishMove(w, th, e);
    if move.Move? && move.world != w {
      PublishWrites(w, th, e, id);
      RowComes(w, th, e, id, a, m, p, th.job.id, PublishedRow(th.job));
    } else {
      NothingCaused(w, th, e, id, a, m, p);
    }
  }

  lemma PublishWrites(w: World, th: Thread, e: Event, id: ReleaseId)
    requires th.pc == Publishing(CommitPublish) && th.job.Publish? && Ready(w, th)
    requires PublishMove(w, th, e).Move? && PublishMove(w, th, e).world != w
    ensures th.job.id.mod in w.tables.modules
    ensures PublishMove(w, th, e).world == With(w, CreateReleaseTx(w.tables, th.job.id, PublishedRow(th.job)))
    ensures RowCause(w, th, e, PublishMove(w, th, e).world, id)
  {
  }

  lemma ModuleComes(w: World, th: Thread, e: Event, id: ReleaseId, a: Path, m: ModuleId, p: Path)
    requires Sound(w) && a.Artifact? && (th.job.Publish? || th.job.Index? || th.job.Restore?)
    ensures Caused(w, th, e, With(w, UpsertModuleTx(w.tables, HomeOf(th.job).value)), id, a, m, p)
  {
    var home := HomeOf(th.job).value;
    var t, t' := w.tables, UpsertModuleTx(w.tables, home);
    assert Versions(t', m) == Versions(t, m);
    LatestStays(t, m);
  }

  lemma EmptyModuleGoes(w: World, th: Thread, e: Event, id: ReleaseId, a: Path, m: ModuleId, p: Path)
    requires Sound(w) && a.Artifact? && th.job.Publish?
    ensures Caused(w, th, e, With(w, DeleteModuleIfEmptyTx(w.tables, th.job.id.mod)), id, a, m, p)
  {
    var w' := With(w, DeleteModuleIfEmptyTx(w.tables, th.job.id.mod));
    assert RowCause(w, th, e, w', id) && QueueCause(w, th, w', a) && TombstoneCause(w, th, w', id) && ObjectCause(w, th, e, w', p);
    EmptyModuleLeaves(w, th, w', m);
  }

  lemma EmptyModuleLeaves(w: World, th: Thread, w': World, m: ModuleId)
    requires Sound(w) && th.job.Publish? && w' == With(w, DeleteModuleIfEmptyTx(w.tables, th.job.id.mod))
    ensures ModuleCause(w, th, w', m)
  {
    assert Versions(w'.tables, m) == Versions(w.tables, m);
    LatestStays(w.tables, m);
  }

  lemma HydrateCaused(w: World, th: Thread, e: Event, id: ReleaseId, a: Path, m: ModuleId, p: Path)
    requires th.pc.Hydrating? && th.job.Hydrate? && Ready(w, th) && a.Artifact?
    ensures CallCaused(w, th, e, HydrateMove(w, th, e), id, a, m, p)
  {
    var move := HydrateMove(w, th, e);
    if !move.Move? || move.world == w {
      NothingCaused(w, th, e, id, a, m, p);
    } else {
      HydrateCommits(w, th, e, id, a, m, p);
    }
  }

  lemma HydrateCommits(w: World, th: Thread, e: Event, id: ReleaseId, a: Path, m: ModuleId, p: Path)
    requires th.pc.Hydrating? && th.job.Hydrate? && Ready(w, th) && a.Artifact?
    requires HydrateMove(w, th, e).Move? && HydrateMove(w, th, e).world != w
    ensures Caused(w, th, e, HydrateMove(w, th, e).world, id, a, m, p)
  {
    assert th.pc.hyd.CommitHydrate?;
    HydrateFills(w, th, e, id);
    HydratedRow(w, th.job.id, th.pc.hyd.snapshot, th.pc.hyd.fetched);
    RowComes(w, th, e, id, a, m, p, th.job.id, th.pc.hyd.row);
  }

  lemma HydrateFills(w: World, th: Thread, e: Event, id: ReleaseId)
    requires th.pc.Hydrating? && th.job.Hydrate? && Ready(w, th) && th.pc.hyd.CommitHydrate?
    requires HydrateMove(w, th, e).Move? && HydrateMove(w, th, e).world != w
    ensures th.job.id.mod in w.tables.modules && th.job.id in w.tables.releases
    ensures HydrateMove(w, th, e).world == With(w, CreateReleaseTx(w.tables, th.job.id, th.pc.hyd.row))
    ensures RowCause(w, th, e, HydrateMove(w, th, e).world, id)
  {
    assert HydrateKnows(w, th.job, th.pc.hyd, th.held);
  }

  lemma ChecksumCaused(w: World, th: Thread, e: Event, id: ReleaseId, a: Path, m: ModuleId, p: Path)
    requires th.pc.Hashing? && th.job.Checksum? && Ready(w, th) && a.Artifact?
    ensures CallCaused(w, th, e, ChecksumMove(w, th, e), id, a, m, p)
  {
    var move := ChecksumMove(w, th, e);
    if !move.Move? || move.world == w {
      NothingCaused(w, th, e, id, a, m, p);
    } else {
      ChecksumCommits(w, th, e, id, a, m, p);
    }
  }

  lemma ChecksumCommits(w: World, th: Thread, e: Event, id: ReleaseId, a: Path, m: ModuleId, p: Path)
    requires th.pc.Hashing? && th.job.Checksum? && Ready(w, th) && a.Artifact?
    requires ChecksumMove(w, th, e).Move? && ChecksumMove(w, th, e).world != w
    ensures Caused(w, th, e, ChecksumMove(w, th, e).world, id, a, m, p)
  {
    assert th.pc.sum.CommitChecksum?;
    assert ChecksumKnows(w, th.job, th.pc.sum, th.held, th.lease);
    ChecksumsWritten(w, th, e, id, a);
    RowRewritten(w, th, ChecksumMove(w, th, e).world, m);
  }

  lemma RowRewritten(w: World, th: Thread, w': World, m: ModuleId)
    requires Sound(w) && w'.tables.modules == w.tables.modules && w'.tables.releases.Keys == w.tables.releases.Keys
    ensures ModuleCause(w, th, w', m)
  {
    forall v ensures v in Versions(w'.tables, m) <==> v in Versions(w.tables, m) {
      assert v in Versions(w.tables, m) <==> ReleaseId(m, v) in w.tables.releases;
      assert v in Versions(w'.tables, m) <==> ReleaseId(m, v) in w'.tables.releases;
    }
    LatestStays(w.tables, m);
  }

  lemma ChecksumsWritten(w: World, th: Thread, e: Event, id: ReleaseId, a: Path)
    requires th.pc.Hashing? && th.job.Checksum? && th.pc.sum.CommitChecksum? && Sound(w) && a.Artifact?
    requires ChecksumKnows(w, th.job, th.pc.sum, th.held, th.lease)
    requires ChecksumMove(w, th, e).Move? && ChecksumMove(w, th, e).world != w
    ensures var w' := ChecksumMove(w, th, e).world;
            && RowCause(w, th, e, w', id) && QueueCause(w, th, w', a)
            && w'.tables == w.tables.(releases := w'.tables.releases) && w'.objects == w.objects
            && w'.tables.releases.Keys == w.tables.releases.Keys
  {
    var at, body := th.job.id, th.pc.sum.body;
    var row := w.tables.releases[at].(md5 := th.job.md5, sha := Sha256(body), path := Some(th.pc.sum.path), size := |body|);
    ChecksumWrites(w, th, e);
    assert ChecksumMove(w, th, e).world == With(w, w.tables.(releases := w.tables.releases[at := row]));
    assert WellFormedRow(at, w.tables.releases[at]);
    RowDescribes(w, th, at, row);
  }

  lemma RowDescribes(w: World, th: Thread, at: ReleaseId, row: Row)
    requires th.pc.Hashing? && th.job.Checksum? && th.pc.sum.CommitChecksum? && ArtifactsHonest(w.objects) && LocalRowsBacked(w)
    requires ChecksumKnows(w, th.job, th.pc.sum, th.held, th.lease) && at == th.job.id && WellFormedRow(at, w.tables.releases[at])
    requires row == w.tables.releases[at].(md5 := th.job.md5, sha := Sha256(th.pc.sum.body), path := Some(th.pc.sum.path),
                                           size := |th.pc.sum.body|)
    ensures ChecksumsRow(w, th.job, th.pc, at, Some(w.tables.releases[at]), row)
    ensures w.tables.releases[at].source == Local ==> row.path == w.tables.releases[at].path
    ensures w.tables.releases[at].source == Source.Upstream ==> row.path.value.Cached?
  {
  }

  lemma UpstreamCaused(w: World, th: Thread, e: Event, id: ReleaseId, a: Path, m: ModuleId, p: Path)
    requires th.pc.Indexing? && (th.job.Index? || th.job.Restore?) && Ready(w, th) && a.Artifact?
    ensures CallCaused(w, th, e, UpstreamMove(w, th, e), id, a, m, p)
  {
    NothingCaused(w, th, e, id, a, m, p);
    if th.pc.ups.UpsertUpstream? {
      ModuleComes(w, th, e, id, a, m, p);
      UpsertWrites(w, th, e);
    } else if UpstreamMove(w, th, e).Move? && UpstreamMove(w, th, e).world != w {
      UpstreamCommits(w, th, e, id, a, m, p);
    }
  }

  lemma UpsertWrites(w: World, th: Thread, e: Event)
    requires th.pc.Indexing? && (th.job.Index? || th.job.Restore?) && th.pc.ups.UpsertUpstream?
    ensures var move := UpstreamMove(w, th, e);
            move.Move? ==> move.world == w || move.world == With(w, UpsertModuleTx(w.tables, HomeOf(th.job).value))
  {
  }

  lemma UpstreamCommits(w: World, th: Thread, e: Event, id: ReleaseId, a: Path, m: ModuleId, p: Path)
    requires th.pc.Indexing? && (th.job.Index? || th.job.Restore?) && Ready(w, th) && a.Artifact? && !th.pc.ups.UpsertUpstream?
    requires UpstreamMove(w, th, e).Move? && UpstreamMove(w, th, e).world != w
    ensures Caused(w, th, e, UpstreamMove(w, th, e).world, id, a, m, p)
  {
    UpstreamRowComes(w, th, e, id);
    RowComes(w, th, e, id, a, m, p, th.pc.ups.id, UpstreamRow(th.pc.ups.id, e.fetched));
  }

  lemma UpstreamRowComes(w: World, th: Thread, e: Event, id: ReleaseId)
    requires th.pc.Indexing? && (th.job.Index? || th.job.Restore?) && Ready(w, th) && !th.pc.ups.UpsertUpstream?
    requires UpstreamMove(w, th, e).Move? && UpstreamMove(w, th, e).world != w
    ensures th.pc.ups.CreateUpstream? && e.Upstream? && th.pc.ups.id.mod in w.tables.modules
    ensures UpstreamMove(w, th, e).world == With(w, CreateReleaseTx(w.tables, th.pc.ups.id, UpstreamRow(th.pc.ups.id, e.fetched)))
    ensures RowCause(w, th, e, UpstreamMove(w, th, e).world, id)
  {
  }

  lemma JobCaused(w: World, th: Thread, e: Event, id: ReleaseId, a: Path, m: ModuleId, p: Path)
    requires Ready(w, th) && a.Artifact?
    ensures CallCaused(w, th, e, JobMove(w, th, e), id, a, m, p)
  {
    match th.job
    case Publish(_, _, _, _, _) => PublishCaused(w, th, e, id, a, m, p);
    case DeleteRelease(_, _) => DeleteReleaseCaused(w, th, e, id, a, m, p);
    case DeleteModule(_) => DeleteModuleCaused(w, th, e, id, a, m, p);
    case Worker => WorkerCaused(w, th, e, id, a, m, p);
    case Repair => RepairCaused(w, th, e, id, a, m, p);
    case Hydrate(_) => HydrateCaused(w, th, e, id, a, m, p);
    case Checksum(_, _) => ChecksumCaused(w, th, e, id, a, m, p);
    case Prune => PruneCaused(w, th, e, id, a, m, p);
    case EnsureArtifact(_, _) => EnsureCaused(w, th, e, id, a, m, p);
    case Index(_) => UpstreamCaused(w, th, e, id, a, m, p);
    case Restore(_) => UpstreamCaused(w, th, e, id, a, m, p);
  }
}
