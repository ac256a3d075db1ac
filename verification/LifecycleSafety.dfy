/**
 Every call of every job, taken on its own: it disturbs only what its thread has
 locked or leased and keeps the tables and objects sound, it leaves the thread
 knowing what the next call relies on, and it loses track of no artifact.
 */
module LifecycleSafety {
  import opened Version
  import opened LatestVersion
  import opened Store
  import opened Lifecycle
  import opened LifecycleInvariant
  import opened LifecycleFrames

  /* ---------- the obligations of one call ---------- */

  ghost predicate AccountedFor(w: World, th: Thread, p: Path)
    requires p.Artifact?
  {
    RowHolds(w.tables, p) || p in w.tables.deletions || InFlight(th, p)
  }

  /** Every artifact of the module a thread has locked is accounted for. */
  ghost predicate HomeAccounted(w: World, th: Thread)
  {
    && (forall p :: p in w.objects && p.Artifact? && th.held == Some(p.id.mod) ==> AccountedFor(w, th, p))
    && CompletesGone(w, th)
  }

  /** A thread in the middle of its job, in a sound world. */
  ghost predicate Ready(w: World, th: Thread)
  {
    Sound(w) && JobKnows(w, th.job, th.pc, th.held, th.lease)
  }

  /** First obligation: the call stays within the thread's lock and lease and keeps the world sound. */
  ghost predicate Safe(w: World, th: Thread, move: Move)
  {
    move.Move? ==> Confined(w, move.world, th.held, th.lease) && Sound(move.world)
  }

  /** Second obligation: the thread knows what it needs at the next point. */
  ghost predicate Informed(th: Thread, move: Move)
  {
    move.Move? ==> Knows(move.world, th.job, move.pc, th.held, th.lease)
  }

  /** Third obligation: a call that does not fail leaves no artifact unaccounted for. */
  ghost predicate Accounts(w: World, th: Thread, move: Move)
  {
    move.Move? && move.clean && HomeAccounted(w, th) ==> HomeAccounted(move.world, th.(pc := move.pc))
  }

  /* ---------- first obligation, job by job ---------- */

  lemma PublishSafe(w: World, th: Thread, e: Event)
    requires th.pc.Publishing? && th.job.Publish? && Ready(w, th)
    ensures Safe(w, th, PublishMove(w, th, e))
  {
    if th.pc.pub.CommitPublish? {
      CommitPublishSafe(w, th, e);
    } else if th.pc.pub.UpsertForPublish? || th.pc.pub.DropModule? {
      PublishModuleSafe(w, th, e);
    } else {
      PublishObjectSafe(w, th, e);
    }
  }

  lemma CommitPublishSafe(w: World, th: Thread, e: Event)
    requires th.pc.Publishing? && th.job.Publish? && Ready(w, th) && th.pc.pub.CommitPublish?
    ensures Safe(w, th, PublishMove(w, th, e))
  {
    NothingConfined(w, th.held, th.lease);
    CreateSafe(w, th.job.id, PublishedRow(th.job));
  }

  /** Writing a release row whose artifact, if it is local, is already stored. */
  lemma CreateSafe(w: World, id: ReleaseId, row: Row)
    requires Sound(w) && id.mod in w.tables.modules && WellFormedRow(id, row)
    requires row.source == Local ==> Artifact(id, row.sha) in w.objects
    requires row.path.Some? && row.path.value.Cached? ==> References(w.tables, row.path.value)
    ensures Sound(With(w, CreateReleaseTx(w.tables, id, row)))
    ensures Confined(w, With(w, CreateReleaseTx(w.tables, id, row)), Some(id.mod), None)
  {
    CreateReleaseConsistent(w.tables, id, row);
    CreateConfined(w, id, row);
  }

  lemma PublishModuleSafe(w: World, th: Thread, e: Event)
    requires th.pc.Publishing? && th.job.Publish? && Ready(w, th) && (th.pc.pub.UpsertForPublish? || th.pc.pub.DropModule?)
    ensures Safe(w, th, PublishMove(w, th, e))
  {
    var m := th.job.id.mod;
    NothingConfined(w, th.held, th.lease);
    UpsertModuleConsistent(w.tables, m);
    UpsertConfined(w, m);
    DeleteModuleIfEmptyConsistent(w.tables, m);
    IfEmptyConfined(w, m);
  }

  lemma PublishObjectSafe(w: World, th: Thread, e: Event)
    requires th.pc.Publishing? && th.job.Publish? && Ready(w, th)
    requires !th.pc.pub.CommitPublish? && !th.pc.pub.UpsertForPublish? && !th.pc.pub.DropModule?
    ensures Safe(w, th, PublishMove(w, th, e))
  {
    var p := ArtifactOf(th.job);
    NothingConfined(w, th.held, th.lease);
    if th.pc.pub.Compensate? {
      DropConfined(w, p, th.held, th.lease);
      DropSound(w, p);
    } else if th.pc.pub.Upload? {
      PutConfined(w, p, th.job.body, th.held, th.lease);
      PutSound(w, p, th.job.body);
    }
  }

  lemma PutSound(w: World, p: Path, body: Bytes)
    requires Sound(w) && (p.Artifact? ==> p.sha == Sha256(body))
    ensures Sound(Put(w, p, body))
  {
  }

  lemma DropSound(w: World, p: Path)
    requires Sound(w) && (p.Artifact? ==> !RowHolds(w.tables, p))
    ensures Sound(Drop(w, p))
  {
  }

  lemma DeleteReleaseSafe(w: World, th: Thread, e: Event)
    requires th.pc.Deleting? && th.job.DeleteRelease? && Ready(w, th)
    ensures Safe(w, th, DeleteReleaseMove(w, th, e))
  {
    NothingConfined(w, th.held, th.lease);
    if th.pc.del.CommitDelete? && th.job.id in w.tables.releases { CommitDeleteSafe(w, th, e); }
  }

  lemma CommitDeleteSafe(w: World, th: Thread, e: Event)
    requires th.pc == Deleting(CommitDelete) && th.job.DeleteRelease? && Ready(w, th) && th.job.id in w.tables.releases
    ensures Safe(w, th, DeleteReleaseMove(w, th, e))
  {
    assert th.held == Some(th.job.id.mod) && th.lease == None;
    DeleteCallSafe(w, th, e);
  }

  lemma DeleteCallSafe(w: World, th: Thread, e: Event)
    requires th.pc == Deleting(CommitDelete) && th.job.DeleteRelease? && Sound(w) && th.job.id in w.tables.releases
    requires th.held == Some(th.job.id.mod) && th.lease == None
    ensures Safe(w, th, DeleteReleaseMove(w, th, e))
  {
    var id := th.job.id;
    if e.Recomputed? && IsLatest(e.latest, Versions(w.tables, id.mod) - {id.version}) {
      DeleteReleaseSound(w, id, e.latest);
      DeleteReleaseConfined(w, id, e.latest);
      SafeEitherWay(w, With(w, DeleteReleaseTx(w.tables, id, e.latest)), th, DeleteReleaseMove(w, th, e));
    } else {
      NothingConfined(w, th.held, th.lease);
    }
  }

  lemma DeleteReleaseSound(w: World, id: ReleaseId, latest: string)
    requires Sound(w) && id in w.tables.releases && IsLatest(latest, Versions(w.tables, id.mod) - {id.version})
    ensures Sound(With(w, DeleteReleaseTx(w.tables, id, latest)))
  {
    DeleteReleaseConsistent(w.tables, id, latest);
  }

  lemma DeleteModuleSafe(w: World, th: Thread, e: Event)
    requires th.pc.Deleting? && th.job.DeleteModule? && Ready(w, th)
    ensures Safe(w, th, DeleteModuleMove(w, th, e))
  {
    NothingConfined(w, th.held, th.lease);
    DeleteModuleConsistent(w.tables, th.job.mod);
    DeleteModuleConfined(w, th.job.mod);
  }

  lemma WorkerSafe(w: World, th: Thread, e: Event)
    requires th.pc.Working? && th.job.Worker? && Ready(w, th)
    ensures Safe(w, th, WorkerMove(w, th, e))
  {
    NothingConfined(w, th.held, th.lease);
    if th.pc.work.RemoveQueued? {
      DropConfined(w, th.pc.work.todo[0].path, th.held, th.lease);
    } else if th.pc.work.CompleteQueued? {
      CompleteDeletionConsistent(w.tables, th.pc.work.todo[0].path);
      CompleteConfined(w, th.pc.work.todo[0].path);
    }
  }

  lemma RepairSafe(w: World, th: Thread, e: Event)
    requires th.pc.Repairing? && th.job.Repair? && Ready(w, th)
    ensures Safe(w, th, RepairMove(w, th, e))
  {
    NothingConfined(w, th.held, th.lease);
    if th.pc.rep.RemoveOrphan? { DropConfined(w, th.pc.rep.path, th.held, th.lease); }
  }

  lemma HydrateSafe(w: World, th: Thread, e: Event)
    requires th.pc.Hydrating? && th.job.Hydrate? && Ready(w, th)
    ensures Safe(w, th, HydrateMove(w, th, e))
  {
    if th.pc.hyd.CommitHydrate? { CommitHydrateSafe(w, th, e); }
    NothingConfined(w, th.held, th.lease);
  }

  lemma CommitHydrateSafe(w: World, th: Thread, e: Event)
    requires th.pc.Hydrating? && th.job.Hydrate? && Ready(w, th) && th.pc.hyd.CommitHydrate?
    ensures Safe(w, th, HydrateMove(w, th, e))
  {
    assert HydrateKnows(w, th.job, th.pc.hyd, th.held) && th.lease == None;
    HydrateWriteSafe(w, th, e);
  }

  lemma HydrateWriteSafe(w: World, th: Thread, e: Event)
    requires th.pc.Hydrating? && th.job.Hydrate? && Sound(w) && th.pc.hyd.CommitHydrate?
    requires HydrateKnows(w, th.job, th.pc.hyd, th.held) && th.lease == None
    ensures Safe(w, th, HydrateMove(w, th, e))
  {
    assert th.held == Some(th.job.id.mod);
    HydratedRowSafe(w, th.job.id, th.pc.hyd.snapshot, th.pc.hyd.fetched, th.pc.hyd.row);
    HydrateWrites(w, th, e);
    SafeEitherWay(w, With(w, CreateReleaseTx(w.tables, th.job.id, th.pc.hyd.row)), th, HydrateMove(w, th, e));
  }

  lemma HydratedRowSafe(w: World, id: ReleaseId, snapshot: Row, fetched: Fetched, row: Row)
    requires Sound(w) && id in w.tables.releases
    requires snapshot.source == Source.Upstream && SameArtifact(snapshot, w.tables.releases[id])
    requires row == Hydrated(w.tables.releases[id], fetched)
    ensures id.mod in w.tables.modules
    ensures Sound(With(w, CreateReleaseTx(w.tables, id, row)))
    ensures Confined(w, With(w, CreateReleaseTx(w.tables, id, row)), Some(id.mod), None)
  {
    HydratedRow(w, id, snapshot, fetched);
    CreateSafe(w, id, row);
  }

  lemma HydrateWrites(w: World, th: Thread, e: Event)
    requires th.pc.Hydrating? && th.job.Hydrate? && th.pc.hyd.CommitHydrate? && th.job.id.mod in w.tables.modules
    ensures var move := HydrateMove(w, th, e);
            move.Move? ==> move.world == w || move.world == With(w, CreateReleaseTx(w.tables, th.job.id, th.pc.hyd.row))
  {
  }

  /** A call that either takes effect or does not is safe if its effect is. */
  lemma SafeEitherWay(w: World, done: World, th: Thread, move: Move)
    requires Sound(w) && Sound(done) && Confined(w, done, th.held, th.lease)
    requires move.Move? ==> move.world == w || move.world == done
    ensures Safe(w, th, move)
  {
    NothingConfined(w, th.held, th.lease);
  }

  /** A hydrated row is an upstream row at the same path. */
  lemma HydratedRow(w: World, id: ReleaseId, snapshot: Row, fetched: Fetched)
    requires RowsWellFormed(w.tables) && id in w.tables.releases
    requires snapshot.source == Source.Upstream && SameArtifact(snapshot, w.tables.releases[id])
    ensures var row := Hydrated(w.tables.releases[id], fetched);
            && row.source == Source.Upstream && WellFormedRow(id, row) && row.path == w.tables.releases[id].path
            && (row.path.Some? ==> row.path.value.Cached? && References(w.tables, row.path.value))
  {
  }

  lemma ChecksumSafe(w: World, th: Thread, e: Event)
    requires th.pc.Hashing? && th.job.Checksum? && Ready(w, th)
    ensures Safe(w, th, ChecksumMove(w, th, e))
  {
    if th.pc.sum.CommitChecksum? { CommitChecksumSafe(w, th, e); }
    NothingConfined(w, th.held, th.lease);
  }

  lemma CommitChecksumSafe(w: World, th: Thread, e: Event)
    requires th.pc.Hashing? && th.job.Checksum? && Ready(w, th) && th.pc.sum.CommitChecksum?
    ensures Safe(w, th, ChecksumMove(w, th, e))
  {
    assert ChecksumKnows(w, th.job, th.pc.sum, th.held, th.lease);
    ChecksumWriteSafe(w, th, e);
  }

  lemma ChecksumWriteSafe(w: World, th: Thread, e: Event)
    requires th.pc.Hashing? && th.job.Checksum? && Sound(w) && th.pc.sum.CommitChecksum?
    requires ChecksumKnows(w, th.job, th.pc.sum, th.held, th.lease)
    ensures Safe(w, th, ChecksumMove(w, th, e))
  {
    var id, p, body := th.job.id, th.pc.sum.path, th.pc.sum.body;
    assert th.held == Some(id.mod);
    ChecksumSound(w, id, th.job.md5, p, body);
    ChecksumConfined(w, id, th.job.md5, Sha256(body), p, |body|);
    ChecksumWithinLease(w, id, th.job.md5, p, body, th.lease);
    ChecksumWrites(w, th, e);
    SafeEitherWay(w, With(w, UpdateChecksumsTx(w.tables, id, th.job.md5, Sha256(body), Some(p), |body|)), th, ChecksumMove(w, th, e));
  }

  lemma ChecksumWrites(w: World, th: Thread, e: Event)
    requires th.pc.Hashing? && th.job.Checksum? && th.pc.sum.CommitChecksum? && th.job.id in w.tables.releases
    ensures var move, body := ChecksumMove(w, th, e), th.pc.sum.body;
            move.Move? ==>
              move.world == w
              || move.world == With(w, UpdateChecksumsTx(w.tables, th.job.id, th.job.md5, Sha256(body), Some(th.pc.sum.path), |body|))
  {
  }

  lemma ChecksumWithinLease(w: World, id: ReleaseId, md5: string, p: Path, body: Bytes, lease: Option<Path>)
    requires id in w.tables.releases && (p.Cached? ==> lease == Some(p))
    requires Confined(w, With(w, UpdateChecksumsTx(w.tables, id, md5, Sha256(body), Some(p), |body|)), Some(id.mod), Some(p))
    ensures Confined(w, With(w, UpdateChecksumsTx(w.tables, id, md5, Sha256(body), Some(p), |body|)), Some(id.mod), lease)
  {
  }

  lemma ChecksumSound(w: World, id: ReleaseId, md5: string, p: Path, body: Bytes)
    requires Sound(w) && id in w.tables.releases
    requires if w.tables.releases[id].source == Source.Upstream then p.Cached?
             else p == Artifact(id, Sha256(body)) && RowHolds(w.tables, p)
    ensures Sound(With(w, UpdateChecksumsTx(w.tables, id, md5, Sha256(body), Some(p), |body|)))
  {
    UpdateChecksumsConsistent(w.tables, id, md5, Sha256(body), Some(p), |body|);
  }

  lemma PruneSafe(w: World, th: Thread, e: Event)
    requires th.pc.Pruning? && th.job.Prune? && Ready(w, th)
    ensures Safe(w, th, PruneMove(w, th, e))
  {
    NothingConfined(w, th.held, th.lease);
    if th.pc.prune.RemoveCached? { DropConfined(w, th.pc.prune.path, th.held, th.lease); }
  }

  lemma EnsureSafe(w: World, th: Thread, e: Event)
    requires th.pc.Caching? && th.job.EnsureArtifact? && Ready(w, th)
    ensures Safe(w, th, EnsureMove(w, th, e))
  {
    var p := Cached(th.job.file);
    NothingConfined(w, th.held, th.lease);
    if th.pc.cache.UploadCached? {
      if e.Bytes? {
        PutConfined(w, p, e.body, th.held, th.lease);
        PutSound(w, p, e.body);
      }
    } else {
      DropConfined(w, p, th.held, th.lease);
      DropSound(w, p);
    }
  }

  lemma UpstreamSafe(w: World, th: Thread, e: Event)
    requires th.pc.Indexing? && (th.job.Index? || th.job.Restore?) && Ready(w, th)
    ensures Safe(w, th, UpstreamMove(w, th, e))
  {
    NothingConfined(w, th.held, th.lease);
    if th.pc.ups.CreateUpstream? { CreateUpstreamSafe(w, th, e); }
    if th.pc.ups.UpsertUpstream? { UpsertUpstreamSafe(w, th, e); }
  }

  lemma UpsertUpstreamSafe(w: World, th: Thread, e: Event)
    requires th.pc.Indexing? && (th.job.Index? || th.job.Restore?) && Ready(w, th) && th.pc.ups.UpsertUpstream?
    ensures Safe(w, th, UpstreamMove(w, th, e))
  {
    NothingConfined(w, th.held, th.lease);
    UpsertSound(w, IndexHome(th.job));
    UpsertConfined(w, IndexHome(th.job));
  }

  lemma UpsertSound(w: World, m: ModuleId)
    requires Sound(w)
    ensures Sound(With(w, UpsertModuleTx(w.tables, m)))
  {
    UpsertModuleConsistent(w.tables, m);
  }

  lemma CreateUpstreamSafe(w: World, th: Thread, e: Event)
    requires th.pc.Indexing? && (th.job.Index? || th.job.Restore?) && Ready(w, th) && th.pc.ups.CreateUpstream?
    ensures Safe(w, th, UpstreamMove(w, th, e))
  {
    assert th.held == Some(th.pc.ups.id.mod) && th.lease == None && th.pc.ups.id.mod in w.tables.modules;
    UpstreamWriteSafe(w, th, e);
  }

  lemma UpstreamWriteSafe(w: World, th: Thread, e: Event)
    requires th.pc.Indexing? && (th.job.Index? || th.job.Restore?) && Sound(w) && th.pc.ups.CreateUpstream?
    requires th.held == Some(th.pc.ups.id.mod) && th.lease == None && th.pc.ups.id.mod in w.tables.modules
    ensures Safe(w, th, UpstreamMove(w, th, e))
  {
    if e.Upstream? {
      CreateSafe(w, th.pc.ups.id, UpstreamRow(th.pc.ups.id, e.fetched));
      UpstreamWrites(w, th, e);
      SafeEitherWay(w, With(w, CreateReleaseTx(w.tables, th.pc.ups.id, UpstreamRow(th.pc.ups.id, e.fetched))), th, UpstreamMove(w, th, e));
    } else {
      NothingConfined(w, th.held, th.lease);
    }
  }

  lemma UpstreamWrites(w: World, th: Thread, e: Event)
    requires th.pc.Indexing? && (th.job.Index? || th.job.Restore?) && th.pc.ups.CreateUpstream?
    requires e.Upstream? && th.pc.ups.id.mod in w.tables.modules
    ensures var move, id := UpstreamMove(w, th, e), th.pc.ups.id;
            move.Move? ==> move.world == w || move.world == With(w, CreateReleaseTx(w.tables, id, UpstreamRow(id, e.fetched)))
  {
  }

  lemma JobSafe(w: World, th: Thread, e: Event)
    requires Ready(w, th)
    ensures Safe(w, th, JobMove(w, th, e))
  {
    match th.job
    case Publish(_, _, _, _, _) => PublishSafe(w, th, e);
    case DeleteRelease(_, _) => DeleteReleaseSafe(w, th, e);
    case DeleteModule(_) => DeleteModuleSafe(w, th, e);
    case Worker => WorkerSafe(w, th, e);
    case Repair => RepairSafe(w, th, e);
    case Hydrate(_) => HydrateSafe(w, th, e);
    case Checksum(_, _) => ChecksumSafe(w, th, e);
    case Prune => PruneSafe(w, th, e);
    case EnsureArtifact(_, _) => EnsureSafe(w, th, e);
    case Index(_) => UpstreamSafe(w, th, e);
    case Restore(_) => UpstreamSafe(w, th, e);
  }

  /* ---------- second obligation ---------- */

  /** A thread in the middle of its job, whatever the state of the object store. */
  ghost predicate Briefed(w: World, th: Thread)
  {
    RowsWellFormed(w.tables) && JobKnows(w, th.job, th.pc, th.held, th.lease)
  }

  lemma JobInformed(w: World, th: Thread, e: Event)
    requires Ready(w, th)
    ensures Informed(th, JobMove(w, th, e))
  {
    match th.job
    case Publish(_, _, _, _, _) => PublishInformed(w, th, e);
    case DeleteRelease(_, _) => DeleteReleaseInformed(w, th, e);
    case DeleteModule(_) => DeleteModuleInformed(w, th, e);
    case Worker => WorkerInformed(w, th, e);
    case Repair => RepairInformed(w, th, e);
    case Hydrate(_) => HydrateInformed(w, th, e);
    case Checksum(_, _) => ChecksumInformed(w, th, e);
    case Prune => PruneInformed(w, th, e);
    case EnsureArtifact(_, _) => EnsureInformed(w, th, e);
    case Index(_) => UpstreamInformed(w, th, e);
    case Restore(_) => UpstreamInformed(w, th, e);
  }

  lemma PublishInformed(w: World, th: Thread, e: Event)
    requires th.pc.Publishing? && th.job.Publish? && Briefed(w, th)
    ensures Informed(th, PublishMove(w, th, e))
  {
    var pub := th.pc.pub;
    if pub.ReadExisting? || pub.VerifyRegistered? || pub.Upload? || pub.VerifyObject? {
      UploadInformed(w, th, e);
    } else if pub.UpsertForPublish? {
      UpsertInformed(w, th, e);
    } else if pub.CommitPublish? {
      CommitInformed(w, th, e);
    } else {
      CompensateInformed(w, th, e);
    }
  }

  lemma UploadInformed(w: World, th: Thread, e: Event)
    requires th.pc.Publishing? && th.job.Publish? && Briefed(w, th)
    requires th.pc.pub.ReadExisting? || th.pc.pub.VerifyRegistered? || th.pc.pub.Upload? || th.pc.pub.VerifyObject?
    ensures Informed(th, PublishMove(w, th, e))
  {
  }

  lemma UpsertInformed(w: World, th: Thread, e: Event)
    requires th.pc.Publishing? && th.job.Publish? && Briefed(w, th) && th.pc.pub.UpsertForPublish?
    ensures Informed(th, PublishMove(w, th, e))
  {
  }

  lemma CommitInformed(w: World, th: Thread, e: Event)
    requires th.pc.Publishing? && th.job.Publish? && Briefed(w, th) && th.pc.pub.CommitPublish?
    ensures Informed(th, PublishMove(w, th, e))
  {
    assert PublishKnows(w, th.job, CommitPublish) && th.held == Some(th.job.id.mod) && th.lease == None;
    CommitCallInformed(w, th, e);
  }

  lemma CommitCallInformed(w: World, th: Thread, e: Event)
    requires th.pc == Publishing(CommitPublish) && th.job.Publish? && PublishKnows(w, th.job, CommitPublish)
    requires th.held == Some(th.job.id.mod) && th.lease == None
    ensures Informed(th, PublishMove(w, th, e))
  {
    var done, move := With(w, CreateReleaseTx(w.tables, th.job.id, PublishedRow(th.job))), PublishMove(w, th, e);
    PublishedCommits(w.tables, th.job);
    CommitEnds(w, th, e);
    CommitKnows(done, th, true);
    CommitKnows(w, th, false);
    if move.Move? && move.pc.Unlock? { CommittedKnows(done, th); }
  }

  /** A commit ends in success, or in a re-read that either finds it landed or not. */
  lemma CommitEnds(w: World, th: Thread, e: Event)
    requires th.pc == Publishing(CommitPublish) && th.job.Publish? && PublishKnows(w, th.job, CommitPublish)
    ensures var done, move := With(w, CreateReleaseTx(w.tables, th.job.id, PublishedRow(th.job))), PublishMove(w, th, e);
            move.Move? ==> || (move.world == done && move.pc in {Unlock(Ended(Published)), Publishing(RereadPublish(true))})
                           || (move.world == w && move.pc == Publishing(RereadPublish(false)))
  {
  }

  lemma CommitKnows(w: World, th: Thread, landed: bool)
    requires th.job.Publish? && th.held == Some(th.job.id.mod) && th.lease == None && ArtifactOf(th.job) in w.objects
    requires if landed then CommittedAsMine(w.tables, th.job) else !RowHolds(w.tables, ArtifactOf(th.job))
    ensures Knows(w, th.job, Publishing(RereadPublish(landed)), th.held, th.lease)
  {
  }

  lemma CommittedKnows(w: World, th: Thread)
    requires th.job.Publish? && th.held == Some(th.job.id.mod) && th.lease == None && CommittedAsMine(w.tables, th.job)
    ensures Knows(w, th.job, Unlock(Ended(Published)), th.held, th.lease)
  {
    assert OutcomeTrue(w, th.job, Published, th.held);
  }

  lemma PublishedCommits(t: Tables, job: Job)
    requires job.Publish? && job.id.mod in t.modules
    ensures CommittedAsMine(CreateReleaseTx(t, job.id, PublishedRow(job)), job)
  {
  }

  lemma CompensateInformed(w: World, th: Thread, e: Event)
    requires th.pc.Publishing? && th.job.Publish? && Briefed(w, th)
    requires th.pc.pub.RereadPublish? || th.pc.pub.Compensate? || th.pc.pub.DropModule?
    ensures Informed(th, PublishMove(w, th, e))
  {
  }

  lemma DeleteReleaseInformed(w: World, th: Thread, e: Event)
    requires th.pc.Deleting? && th.job.DeleteRelease? && Briefed(w, th)
    ensures Informed(th, DeleteReleaseMove(w, th, e))
  {
    var move := DeleteReleaseMove(w, th, e);
    match th.pc.del
    case CheckLatest => assert Informed(th, move);
    case CommitDelete => assert Informed(th, move);
  }

  lemma DeleteModuleInformed(w: World, th: Thread, e: Event)
    requires th.pc.Deleting? && th.job.DeleteModule? && Briefed(w, th)
    ensures Informed(th, DeleteModuleMove(w, th, e))
  {
  }

  lemma WorkerInformed(w: World, th: Thread, e: Event)
    requires th.pc.Working? && th.job.Worker? && Briefed(w, th) && QueueDisjoint(w.tables)
    ensures Informed(th, WorkerMove(w, th, e))
  {
    var move := WorkerMove(w, th, e);
    match th.pc.work
    case ListDeletions => assert Informed(th, move);
    case NextDeletion(_, _) => assert Informed(th, move);
    case CheckDeletion(todo, _) =>
      ArtifactReference(w.tables, todo[0].path);
      assert Informed(th, move);
    case RemoveQueued(_, _) => assert Informed(th, move);
    case CompleteQueued(_, _, _) => assert Informed(th, move);
  }

  lemma RepairInformed(w: World, th: Thread, e: Event)
    requires th.pc.Repairing? && th.job.Repair? && Briefed(w, th)
    ensures Informed(th, RepairMove(w, th, e))
  {
    if th.pc.rep.CheckOrphan? && th.pc.rep.path.Artifact? { ArtifactReference(w.tables, th.pc.rep.path); }
  }

  lemma HydrateInformed(w: World, th: Thread, e: Event)
    requires th.pc.Hydrating? && th.job.Hydrate? && Briefed(w, th)
    ensures Informed(th, HydrateMove(w, th, e))
  {
    var move := HydrateMove(w, th, e);
    match th.pc.hyd
    case FetchUpstream => assert Informed(th, move);
    case RereadHydrate(_, _) => assert Informed(th, move);
    case CommitHydrate(_, _, _) => assert Informed(th, move);
  }

  lemma ChecksumInformed(w: World, th: Thread, e: Event)
    requires th.pc.Hashing? && th.job.Checksum? && Briefed(w, th) && ArtifactsHonest(w.objects)
    ensures Informed(th, ChecksumMove(w, th, e))
  {
    match th.pc.sum
    case LoadRelease => LoadInformed(w, th, e);
    case HashArchive(_, _, _) => HashInformed(w, th, e);
    case RereadChecksum(_, _, _, _) => RereadInformed(w, th, e);
    case CommitChecksum(_, _, _) => assert Informed(th, ChecksumMove(w, th, e));
  }

  lemma LoadInformed(w: World, th: Thread, e: Event)
    requires th.pc == Hashing(LoadRelease) && th.job.Checksum? && Briefed(w, th)
    ensures Informed(th, ChecksumMove(w, th, e))
  {
  }

  lemma HashInformed(w: World, th: Thread, e: Event)
    requires th.pc.Hashing? && th.job.Checksum? && th.pc.sum.HashArchive? && Briefed(w, th) && ArtifactsHonest(w.objects)
    ensures Informed(th, ChecksumMove(w, th, e))
  {
  }

  lemma RereadInformed(w: World, th: Thread, e: Event)
    requires th.pc.Hashing? && th.job.Checksum? && th.pc.sum.RereadChecksum? && Briefed(w, th)
    ensures Informed(th, ChecksumMove(w, th, e))
  {
  }

  lemma PruneInformed(w: World, th: Thread, e: Event)
    requires th.pc.Pruning? && th.job.Prune? && Briefed(w, th)
    ensures Informed(th, PruneMove(w, th, e))
  {
  }

  lemma EnsureInformed(w: World, th: Thread, e: Event)
    requires th.pc.Caching? && th.job.EnsureArtifact? && Briefed(w, th)
    ensures Informed(th, EnsureMove(w, th, e))
  {
  }

  lemma UpstreamInformed(w: World, th: Thread, e: Event)
    requires th.pc.Indexing? && (th.job.Index? || th.job.Restore?) && Briefed(w, th)
    ensures Informed(th, UpstreamMove(w, th, e))
  {
    var move := UpstreamMove(w, th, e);
    match th.pc.ups
    case UpsertUpstream => assert Informed(th, move);
    case NextUpstream => assert Informed(th, move);
    case CheckTombstone(_) => assert Informed(th, move);
    case CreateUpstream(_) => assert Informed(th, move);
  }

  /* ---------- third obligation ---------- */

  lemma JobAccounts(w: World, th: Thread, e: Event)
    requires Briefed(w, th)
    ensures Accounts(w, th, JobMove(w, th, e))
  {
    match th.job
    case Publish(_, _, _, _, _) => PublishAccounts(w, th, e);
    case DeleteRelease(_, _) => DeleteReleaseAccounts(w, th, e);
    case DeleteModule(_) => DeleteModuleAccounts(w, th, e);
    case Worker => WorkerAccounts(w, th, e);
    case Hydrate(_) => HydrateAccounts(w, th, e);
    case Checksum(_, _) => ChecksumAccounts(w, th, e);
    case Index(_) => UpstreamAccounts(w, th, e);
    case Restore(_) => UpstreamAccounts(w, th, e);
    case Repair => ObjectJobAccounts(w, th, e);
    case Prune => ObjectJobAccounts(w, th, e);
    case EnsureArtifact(_, _) => ObjectJobAccounts(w, th, e);
  }

  lemma ObjectJobAccounts(w: World, th: Thread, e: Event)
    requires (th.job.Repair? || th.job.Prune? || th.job.EnsureArtifact?) && Briefed(w, th)
    ensures Accounts(w, th, JobMove(w, th, e))
  {
  }

  lemma PublishAccounts(w: World, th: Thread, e: Event)
    requires th.pc.Publishing? && th.job.Publish? && Briefed(w, th)
    ensures Accounts(w, th, PublishMove(w, th, e))
  {
    if th.pc.pub.CommitPublish? {
      CommitAccounts(w, th, e);
    } else if th.pc.pub.UpsertForPublish? || th.pc.pub.DropModule? {
      PublishModuleAccounts(w, th, e);
    } else {
      PublishObjectAccounts(w, th, e);
    }
  }

  lemma PublishModuleAccounts(w: World, th: Thread, e: Event)
    requires th.pc.Publishing? && th.job.Publish? && Briefed(w, th) && (th.pc.pub.UpsertForPublish? || th.pc.pub.DropModule?)
    ensures Accounts(w, th, PublishMove(w, th, e))
  {
  }

  lemma PublishObjectAccounts(w: World, th: Thread, e: Event)
    requires th.pc.Publishing? && th.job.Publish? && Briefed(w, th)
    requires !th.pc.pub.CommitPublish? && !th.pc.pub.UpsertForPublish? && !th.pc.pub.DropModule?
    ensures Accounts(w, th, PublishMove(w, th, e))
  {
  }

  lemma CommitAccounts(w: World, th: Thread, e: Event)
    requires th.pc.Publishing? && th.job.Publish? && Briefed(w, th) && th.pc.pub.CommitPublish?
    ensures Accounts(w, th, PublishMove(w, th, e))
  {
  }

  lemma DeleteReleaseAccounts(w: World, th: Thread, e: Event)
    requires th.pc.Deleting? && th.job.DeleteRelease? && Briefed(w, th)
    ensures Accounts(w, th, DeleteReleaseMove(w, th, e))
  {
  }

  lemma DeleteModuleAccounts(w: World, th: Thread, e: Event)
    requires th.pc.Deleting? && th.job.DeleteModule? && Briefed(w, th)
    ensures Accounts(w, th, DeleteModuleMove(w, th, e))
  {
  }

  lemma WorkerAccounts(w: World, th: Thread, e: Event)
    requires th.pc.Working? && th.job.Worker? && Briefed(w, th)
    ensures Accounts(w, th, WorkerMove(w, th, e))
  {
  }

  lemma HydrateAccounts(w: World, th: Thread, e: Event)
    requires th.pc.Hydrating? && th.job.Hydrate? && Briefed(w, th)
    ensures Accounts(w, th, HydrateMove(w, th, e))
  {
    if th.pc.hyd.CommitHydrate? { CommitHydrateAccounts(w, th, e); }
  }

  lemma CommitHydrateAccounts(w: World, th: Thread, e: Event)
    requires th.pc.Hydrating? && th.job.Hydrate? && Briefed(w, th) && th.pc.hyd.CommitHydrate?
    ensures Accounts(w, th, HydrateMove(w, th, e))
  {
    HydratedRow(w, th.job.id, th.pc.hyd.snapshot, th.pc.hyd.fetched);
    UpstreamWriteAccounts(w, th.job.id, th.pc.hyd.row);
  }

  /** Writing an upstream row over an upstream row, or where there is none, concerns no artifact. */
  lemma UpstreamWriteAccounts(w: World, id: ReleaseId, row: Row)
    requires RowsWellFormed(w.tables) && id.mod in w.tables.modules && row.source == Source.Upstream
    requires id in w.tables.releases ==> w.tables.releases[id].source == Source.Upstream
    ensures CreateReleaseTx(w.tables, id, row).deletions == w.tables.deletions
    ensures forall p: Path :: p.Artifact? && RowHolds(w.tables, p) ==> RowHolds(CreateReleaseTx(w.tables, id, row), p)
  {
  }

  lemma ChecksumAccounts(w: World, th: Thread, e: Event)
    requires th.pc.Hashing? && th.job.Checksum? && Briefed(w, th)
    ensures Accounts(w, th, ChecksumMove(w, th, e))
  {
  }

  lemma UpstreamAccounts(w: World, th: Thread, e: Event)
    requires th.pc.Indexing? && (th.job.Index? || th.job.Restore?) && Briefed(w, th)
    ensures Accounts(w, th, UpstreamMove(w, th, e))
  {
  }
}
