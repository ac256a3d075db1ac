/**
 What a single step may change, in any state that satisfies the invariant.
 */
module LifecycleEffects {
  import opened Version
  import opened LatestVersion
  import opened Store
  import opened Lifecycle
  import opened LifecycleInvariant
  import opened LifecycleFrames
  import opened LifecycleSafety
  import opened LifecycleSteps

  /* ---------- what a single call leaves alone ---------- */

  /** The world only changes by a call in the middle of a job, or by retention. */
  lemma ChangesComeFromCalls(s: State, t: Tid, e: Event, s': State)
    requires Inv(s) && Step(s, t, e, s')
    requires s'.world.tables.releases != s.world.tables.releases || s'.world.objects != s.world.objects
             || (!e.Purged? && s'.world != s.world)
    ensures t in s.threads && JobStep(s, t, e, s') && Ready(s.world, s.threads[t])
  {
    ChangesAreJobSteps(s, t, e, s');
    CallsAreReady(s, t);
  }

  lemma ChangesAreJobSteps(s: State, t: Tid, e: Event, s': State)
    requires Step(s, t, e, s')
    requires s'.world.tables.releases != s.world.tables.releases || s'.world.objects != s.world.objects
             || (!e.Purged? && s'.world != s.world)
    ensures t in s.threads && !ControlPoint(s.threads[t].pc) && JobStep(s, t, e, s')
  {
  }

  lemma CallsAreReady(s: State, t: Tid)
    requires Inv(s) && t in s.threads && !ControlPoint(s.threads[t].pc)
    ensures Ready(s.world, s.threads[t])
  {
    assert ThreadOk(s, t);
  }

  ghost predicate LocalOrGone(w: World, id: ReleaseId)
  {
    id in w.tables.releases ==> w.tables.releases[id].source == Local
  }

  ghost predicate Replacing(th: Thread, id: ReleaseId)
  {
    th.job.Publish? && th.job.replace && th.job.id == id && th.pc == Publishing(CommitPublish)
  }

  /**
   One call changes the tables or the objects, never both. A local release stays
   local or goes, and keeps its checksum unless it is being replaced.
   */
  ghost predicate Careful(w: World, th: Thread, move: Move, id: ReleaseId)
  {
    move.Move? ==>
      && (move.world.tables == w.tables || move.world.objects == w.objects)
      && (id in w.tables.releases && w.tables.releases[id].source == Local ==>
            LocalOrGone(move.world, id)
            && (id in move.world.tables.releases && !Replacing(th, id) ==>
                  move.world.tables.releases[id].sha == w.tables.releases[id].sha))
  }

  lemma CallIsCareful(w: World, th: Thread, e: Event, id: ReleaseId)
    requires Ready(w, th)
    ensures Careful(w, th, JobMove(w, th, e), id)
  {
    match th.job
    case Publish(_, _, _, _, _) => PublishCareful(w, th, e, id);
    case DeleteRelease(_, _) => DeleteReleaseCareful(w, th, e, id);
    case DeleteModule(_) => DeleteModuleCareful(w, th, e, id);
    case Worker => WorkerCareful(w, th, e, id);
    case Repair => RepairCareful(w, th, e, id);
    case Hydrate(_) => HydrateCareful(w, th, e, id);
    case Checksum(_, _) => ChecksumCareful(w, th, e, id);
    case Prune => PruneCareful(w, th, e, id);
    case EnsureArtifact(_, _) => EnsureCareful(w, th, e, id);
    case Index(_) => UpstreamCareful(w, th, e, id);
    case Restore(_) => UpstreamCareful(w, th, e, id);
  }

  lemma PublishCareful(w: World, th: Thread, e: Event, id: ReleaseId)
    requires th.pc.Publishing? && th.job.Publish? && Briefed(w, th)
    ensures Careful(w, th, PublishMove(w, th, e), id)
  {
    if th.pc.pub.CommitPublish? { CommitCareful(w, th, e, id); }
  }

  lemma CommitCareful(w: World, th: Thread, e: Event, id: ReleaseId)
    requires th.pc.Publishing? && th.job.Publish? && Briefed(w, th) && th.pc.pub.CommitPublish?
    ensures Careful(w, th, PublishMove(w, th, e), id)
  {
  }

  lemma DeleteReleaseCareful(w: World, th: Thread, e: Event, id: ReleaseId)
    requires th.pc.Deleting? && th.job.DeleteRelease? && Briefed(w, th)
    ensures Careful(w, th, DeleteReleaseMove(w, th, e), id)
  {
  }

  lemma DeleteModuleCareful(w: World, th: Thread, e: Event, id: ReleaseId)
    requires th.pc.Deleting? && th.job.DeleteModule? && Briefed(w, th)
    ensures Careful(w, th, DeleteModuleMove(w, th, e), id)
  {
  }

  lemma WorkerCareful(w: World, th: Thread, e: Event, id: ReleaseId)
    requires th.pc.Working? && th.job.Worker? && Briefed(w, th)
    ensures Careful(w, th, WorkerMove(w, th, e), id)
  {
  }

  lemma RepairCareful(w: World, th: Thread, e: Event, id: ReleaseId)
    requires th.pc.Repairing? && th.job.Repair? && Briefed(w, th)
    ensures Careful(w, th, RepairMove(w, th, e), id)
  {
  }

  lemma HydrateCareful(w: World, th: Thread, e: Event, id: ReleaseId)
    requires th.pc.Hydrating? && th.job.Hydrate? && Briefed(w, th)
    ensures Careful(w, th, HydrateMove(w, th, e), id)
  {
    if th.pc.hyd.CommitHydrate? {
      assert HydrateKnows(w, th.job, th.pc.hyd, th.held);
      HydrateWriteCareful(w, th, e, id);
    }
  }

  lemma HydrateWriteCareful(w: World, th: Thread, e: Event, id: ReleaseId)
    requires th.pc.Hydrating? && th.job.Hydrate? && th.pc.hyd.CommitHydrate? && HydrateKnows(w, th.job, th.pc.hyd, th.held)
    ensures Careful(w, th, HydrateMove(w, th, e), id)
  {
  }

  lemma ChecksumCareful(w: World, th: Thread, e: Event, id: ReleaseId)
    requires th.pc.Hashing? && th.job.Checksum? && Briefed(w, th)
    ensures Careful(w, th, ChecksumMove(w, th, e), id)
  {
    if th.pc.sum.CommitChecksum? {
      assert ChecksumKnows(w, th.job, th.pc.sum, th.held, th.lease);
      ChecksumWriteCareful(w, th, e, id);
    }
  }

  lemma ChecksumWriteCareful(w: World, th: Thread, e: Event, id: ReleaseId)
    requires th.pc.Hashing? && th.job.Checksum? && th.pc.sum.CommitChecksum? && RowsWellFormed(w.tables)
    requires ChecksumKnows(w, th.job, th.pc.sum, th.held, th.lease)
    ensures Careful(w, th, ChecksumMove(w, th, e), id)
  {
  }

  lemma PruneCareful(w: World, th: Thread, e: Event, id: ReleaseId)
    requires th.pc.Pruning? && th.job.Prune? && Briefed(w, th)
    ensures Careful(w, th, PruneMove(w, th, e), id)
  {
  }

  lemma EnsureCareful(w: World, th: Thread, e: Event, id: ReleaseId)
    requires th.pc.Caching? && th.job.EnsureArtifact? && Briefed(w, th)
    ensures Careful(w, th, EnsureMove(w, th, e), id)
  {
  }

  lemma UpstreamCareful(w: World, th: Thread, e: Event, id: ReleaseId)
    requires th.pc.Indexing? && (th.job.Index? || th.job.Restore?) && Briefed(w, th)
    ensures Careful(w, th, UpstreamMove(w, th, e), id)
  {
    if th.pc.ups.CreateUpstream? { CreateUpstreamCareful(w, th, e, id); }
  }

  lemma CreateUpstreamCareful(w: World, th: Thread, e: Event, id: ReleaseId)
    requires th.pc.Indexing? && (th.job.Index? || th.job.Restore?) && th.pc.ups.CreateUpstream?
    ensures Careful(w, th, UpstreamMove(w, th, e), id)
  {
  }

  /* ---------- removals ---------- */

  /** No step removes an artifact that a row names or that another thread is about to commit. */
  lemma RemovalSparesTheLiving(s: State, t: Tid, e: Event, s': State, p: Path)
    requires Inv(s) && Step(s, t, e, s') && p.Artifact? && p in s.world.objects && p !in s'.world.objects
    ensures !References(s.world.tables, p)
    ensures forall u :: u in s.threads && u != t ==> !InFlight(s.threads[u], p)
  {
    ChangesComeFromCalls(s, t, e, s');
    var th := s.threads[t];
    JobSafe(s.world, th, e);
    CallIsCareful(s.world, th, e, p.id);
    ArtifactReference(s.world.tables, p);
    assert th.held == Some(p.id.mod) by { assert !SameModule(s.world, s'.world, p.id.mod); }
    forall u | u in s.threads && u != t ensures !InFlight(s.threads[u], p) {
      assert ThreadOk(s, u) && ThreadOk(s, t);
    }
  }

  /** Pruning spares every cache entry that a row names at that moment. */
  lemma PruneStep(s: State, t: Tid, e: Event, s': State, p: Path)
    requires Inv(s) && Step(s, t, e, s') && t in s.threads && s.threads[t].job.Prune?
    requires p in s.world.objects && p !in s'.world.objects
    ensures !References(s.world.tables, p) && s.threads[t].lease == PruneLease(s.world, p)
  {
    ChangesComeFromCalls(s, t, e, s');
    PruneRemoval(s.world, s.threads[t], e, p);
  }

  lemma PruneRemoval(w: World, th: Thread, e: Event, p: Path)
    requires th.job.Prune? && th.pc.Pruning? && Briefed(w, th)
    requires PruneMove(w, th, e).Move? && p in w.objects && p !in PruneMove(w, th, e).world.objects
    ensures !References(w.tables, p) && th.lease == PruneLease(w, p)
  {
  }

  /* ---------- release identity ---------- */

  /** The commit of a publish that was asked to replace this release. */
  ghost predicate ReplaceCommit(s: State, t: Tid, id: ReleaseId) { t in s.threads && Replacing(s.threads[t], id) }

  ghost predicate LocalWith(s: State, id: ReleaseId, sha: Digest)
  {
    id in s.world.tables.releases && s.world.tables.releases[id].source == Local && s.world.tables.releases[id].sha == sha
  }

  lemma StepKeepsLocalRow(s: State, t: Tid, e: Event, s': State, id: ReleaseId, sha: Digest)
    requires Inv(s) && Step(s, t, e, s') && LocalWith(s, id, sha)
    ensures LocalOrGone(s'.world, id)
    ensures id in s'.world.tables.releases && !ReplaceCommit(s, t, id) ==> LocalWith(s', id, sha)
  {
    if s'.world.tables.releases != s.world.tables.releases {
      ChangesComeFromCalls(s, t, e, s');
      CallIsCareful(s.world, s.threads[t], e, id);
    }
  }

  /* ---------- publishing the same bytes again ---------- */

  /** A publish whose bytes are already registered, anywhere between its lock and its unlock. */
  ghost predicate Republishing(s: State, t: Tid)
  {
    t in s.threads && RepublishPoint(s.world, s.threads[t])
  }

  ghost predicate RepublishPoint(w: World, th: Thread)
  {
    th.job.Publish? && CommittedAsMine(w.tables, th.job)
    && th.pc in {Publishing(ReadExisting), Publishing(VerifyRegistered), Publishing(RereadPublish(true)), Unlock(Ended(Published))}
  }

  /**
   Publishing the same bytes again is idempotent, also after a commit that took
   effect and reported an error: the thread changes nothing, every call of it
   that does not fail brings it closer to reporting success, and it can always go on.
   */
  lemma RepublishStep(s: State, t: Tid, e: Event, s': State)
    requires Inv(s) && Republishing(s, t) && ThreadStep(s, t, e, s')
    ensures s'.world == s.world && t in s'.threads
    ensures Republishing(s', t) || s'.threads[t].pc in {Ended(Published), Unlock(Ended(Failed))}
    ensures e == Go ==> s'.threads[t].pc == AfterRepublish(s.threads[t].pc)
  {
    if s.threads[t].pc.Publishing? {
      CallsAreReady(s, t);
      RepublishCall(s.world, s.threads[t], e);
      assert JobStep(s, t, e, s');
    } else {
      assert UnlockStep(s, t, e, s');
    }
  }

  function AfterRepublish(pc: Pc): Pc
  {
    if pc == Publishing(ReadExisting) then Publishing(VerifyRegistered)
    else if pc == Unlock(Ended(Published)) then Ended(Published)
    else Unlock(Ended(Published))
  }

  lemma RepublishCall(w: World, th: Thread, e: Event)
    requires th.pc.Publishing? && Ready(w, th) && RepublishPoint(w, th)
    ensures var move := PublishMove(w, th, e);
            && (move.Move? ==> move.world == w && (move.pc == AfterRepublish(th.pc) || (e != Go && move.pc == Unlock(Ended(Failed)))))
            && (e == Go ==> move.Move? && move.clean)
  {
  }

  /** The registered object is always there to verify, so such a thread is never stuck. */
  lemma RepublishGoesOn(s: State, t: Tid)
    requires Inv(s) && Republishing(s, t) && s.threads[t].pc.Publishing?
    ensures JobMove(s.world, s.threads[t], Go).Move? && JobMove(s.world, s.threads[t], Go).clean
  {
    CallsAreReady(s, t);
    RepublishCall(s.world, s.threads[t], Go);
  }

  lemma OtherThreadsStay(s: State, u: Tid, e: Event, s': State, t: Tid)
    requires Step(s, u, e, s') && t in s.threads && t != u
    ensures t in s'.threads && s'.threads[t] == s.threads[t]
  {
  }

  /** And no other thread gets in between. */
  lemma RepublishUndisturbed(s: State, t: Tid, u: Tid, e: Event, s': State)
    requires Inv(s) && Step(s, u, e, s') && Republishing(s, t) && u != t
    ensures Republishing(s', t) && s'.threads[t] == s.threads[t]
  {
    OtherThreadsStay(s, u, e, s', t);
    RepublishHoldsLock(s, t);
    if s'.world.tables.releases != s.world.tables.releases {
      ChangesComeFromCalls(s, u, e, s');
      JobSafe(s.world, s.threads[u], e);
      var th := s.threads[t];
      assert s.threads[u].held != th.held by { assert ThreadOk(s, u) && ThreadOk(s, t); }
      assert SameModule(s.world, s'.world, th.job.id.mod);
    }
  }

  lemma RepublishHoldsLock(s: State, t: Tid)
    requires Inv(s) && Republishing(s, t)
    ensures s.threads[t].held == Some(s.threads[t].job.id.mod)
  {
    assert ThreadOk(s, t);
  }

  /* ---------- no lost update ---------- */

  /** A hydration only ever writes over the row it took its snapshot of. */
  lemma HydrationStep(s: State, t: Tid, e: Event, s': State)
    requires Inv(s) && Step(s, t, e, s') && t in s.threads && s.threads[t].job.Hydrate? && !e.Purged?
    requires s'.world != s.world
    ensures s.threads[t].pc.Hydrating? && s.threads[t].pc.hyd.CommitHydrate?
    ensures var id, snapshot := s.threads[t].job.id, s.threads[t].pc.hyd.snapshot;
            && id in s.world.tables.releases && s.world.tables.releases[id] == snapshot
            && snapshot.source == Source.Upstream && snapshot.uri == ""
            && s'.world.objects == s.world.objects
            && s'.world.tables.releases == s.world.tables.releases[id := Filled(snapshot, s.threads[t].pc.hyd.fetched)]
  {
    ChangesComeFromCalls(s, t, e, s');
    HydrationCall(s.world, s.threads[t], e);
  }

  lemma HydrationCall(w: World, th: Thread, e: Event)
    requires th.pc.Hydrating? && th.job.Hydrate? && Ready(w, th)
    requires HydrateMove(w, th, e).Move? && HydrateMove(w, th, e).world != w
    ensures th.pc.hyd.CommitHydrate?
    ensures var (id, hyd, w') := (th.job.id, th.pc.hyd, HydrateMove(w, th, e).world);
            && id in w.tables.releases && w.tables.releases[id] == hyd.snapshot
            && hyd.snapshot.source == Source.Upstream && hyd.snapshot.uri == ""
            && w'.objects == w.objects && w'.tables.releases == w.tables.releases[id := Filled(hyd.snapshot, hyd.fetched)]
  {
    assert th.pc.hyd.CommitHydrate?;
    HydrationFills(w, th);
    HydrateWrites(w, th, e);
  }

  /** What an upstream says about a release, put in place of what is recorded; where it says nothing the record stays. */
  function Filled(snapshot: Row, f: Fetched): Row
  {
    Row(snapshot.id, Source.Upstream, if f.sha == NoDigest then snapshot.sha else f.sha, if f.md5 == "" then snapshot.md5 else f.md5,
        if f.size == 0 then snapshot.size else f.size, snapshot.path, f.uri)
  }

  lemma HydrationFills(w: World, th: Thread)
    requires th.pc.Hydrating? && th.job.Hydrate? && Ready(w, th) && th.pc.hyd.CommitHydrate?
    ensures th.job.id in w.tables.releases && w.tables.releases[th.job.id] == th.pc.hyd.snapshot
    ensures th.pc.hyd.snapshot.source == Source.Upstream && th.pc.hyd.snapshot.uri == ""
    ensures StoredRow(w.tables, th.job.id, th.pc.hyd.row) == Filled(th.pc.hyd.snapshot, th.pc.hyd.fetched)
  {
    assert HydrateKnows(w, th.job, th.pc.hyd, th.held);
  }

  /** A checksum commit writes over the row that was hashed, and describes the object at the row's path. */
  lemma ChecksumStep(s: State, t: Tid, e: Event, s': State)
    requires Inv(s) && Step(s, t, e, s') && t in s.threads && s.threads[t].job.Checksum? && !e.Purged?
    requires s'.world != s.world
    ensures s.threads[t].pc.Hashing? && s.threads[t].pc.sum.CommitChecksum?
    ensures var id, sum := s.threads[t].job.id, s.threads[t].pc.sum;
            && id in s.world.tables.releases && sum.snapshot == s.world.tables.releases[id]
            && (sum.snapshot.source == Source.Upstream ==>
                  sum.snapshot.sha in {NoDigest, Sha256(sum.body)} && sum.snapshot.size in {0, |sum.body|})
            && s'.world.objects == s.world.objects
            && sum.path in s'.world.objects && s'.world.objects[sum.path] == sum.body
            && s'.world.tables.releases ==
               s.world.tables.releases[id := s.world.tables.releases[id].(
                 md5 := s.threads[t].job.md5, sha := Sha256(sum.body), path := Some(sum.path), size := |sum.body|)]
  {
    ChangesComeFromCalls(s, t, e, s');
    ChecksumCall(s.world, s.threads[t], e);
  }

  lemma ChecksumCall(w: World, th: Thread, e: Event)
    requires th.pc.Hashing? && th.job.Checksum? && Ready(w, th)
    requires ChecksumMove(w, th, e).Move? && ChecksumMove(w, th, e).world != w
    ensures th.pc.sum.CommitChecksum?
    ensures var (id, sum, w') := (th.job.id, th.pc.sum, ChecksumMove(w, th, e).world);
            && id in w.tables.releases && sum.snapshot == w.tables.releases[id]
            && (sum.snapshot.source == Source.Upstream ==>
                  sum.snapshot.sha in {NoDigest, Sha256(sum.body)} && sum.snapshot.size in {0, |sum.body|})
            && w'.objects == w.objects && sum.path in w'.objects && w'.objects[sum.path] == sum.body
            && w'.tables.releases ==
               w.tables.releases[id := w.tables.releases[id].(
                 md5 := th.job.md5, sha := Sha256(sum.body), path := Some(sum.path), size := |sum.body|)]
  {
    if th.pc.sum.CommitChecksum? { HashedIsStored(w, th); }
  }

  lemma HashedIsStored(w: World, th: Thread)
    requires th.pc.Hashing? && th.job.Checksum? && th.pc.sum.CommitChecksum? && Ready(w, th)
    ensures th.pc.sum.path in w.objects && w.objects[th.pc.sum.path] == th.pc.sum.body
  {
  }

  /* ---------- indexing and guarded deletion ---------- */

  /** Indexing adds only releases that were absent and not deleted before, and changes nothing else. */
  lemma IndexingStep(s: State, t: Tid, e: Event, s': State)
    requires Inv(s) && Step(s, t, e, s') && t in s.threads && s.threads[t].job.Index? && !e.Purged?
    ensures OnlyAdds(s.world, s'.world, s.threads[t].job.mod)
  {
    if s'.world != s.world {
      ChangesComeFromCalls(s, t, e, s');
      IndexCallOnlyAdds(s.world, s.threads[t], e);
    }
  }

  ghost predicate OnlyAdds(w: World, w': World, m: ModuleId)
  {
    && (forall id :: id in w.tables.releases ==> id in w'.tables.releases && w'.tables.releases[id] == w.tables.releases[id])
    && (forall id :: id in w'.tables.releases && id !in w.tables.releases ==>
          id !in w.tables.tombstones && id.mod == m && w'.tables.releases[id].source == Source.Upstream)
    && w'.tables.deletions == w.tables.deletions && w'.tables.tombstones == w.tables.tombstones && w'.objects == w.objects
  }

  lemma IndexCallOnlyAdds(w: World, th: Thread, e: Event)
    requires th.pc.Indexing? && th.job.Index? && Briefed(w, th)
    ensures var move := UpstreamMove(w, th, e); move.Move? ==> OnlyAdds(w, move.world, th.job.mod)
  {
    if th.pc.ups.CreateUpstream? { CreateOnlyAdds(w, th, e); } else { UpsertOnlyAdds(w, th, e); }
  }

  lemma UpsertOnlyAdds(w: World, th: Thread, e: Event)
    requires th.pc.Indexing? && th.job.Index? && !th.pc.ups.CreateUpstream?
    ensures var move := UpstreamMove(w, th, e); move.Move? ==> OnlyAdds(w, move.world, th.job.mod)
  {
  }

  lemma CreateOnlyAdds(w: World, th: Thread, e: Event)
    requires th.pc.Indexing? && th.job.Index? && Briefed(w, th) && th.pc.ups.CreateUpstream?
    ensures var move := UpstreamMove(w, th, e); move.Move? ==> OnlyAdds(w, move.world, th.job.mod)
  {
    if e.Upstream? && th.pc.ups.id !in w.tables.releases { NewRowOnlyAdds(w, th.pc.ups.id, e.fetched); }
  }

  lemma NewRowOnlyAdds(w: World, id: ReleaseId, fetched: Fetched)
    requires id.mod in w.tables.modules && id !in w.tables.releases && id !in w.tables.tombstones
    ensures OnlyAdds(w, With(w, CreateReleaseTx(w.tables, id, UpstreamRow(id, fetched))), id.mod)
  {
  }

  /** A deletion that spares the latest version never empties the module or lowers its latest precedence. */
  lemma GuardedDeletionStep(s: State, t: Tid, e: Event, s': State)
    requires Inv(s) && Step(s, t, e, s') && t in s.threads && s.threads[t].job.DeleteRelease? && s.threads[t].job.guarded
    requires !e.Purged? && s'.world != s.world
    ensures KeepsLatest(s.world.tables, s'.world.tables, s.threads[t].job.id) && s'.world.objects == s.world.objects
  {
    ChangesComeFromCalls(s, t, e, s');
    GuardedCall(s.world, s.threads[t], e);
  }

  ghost predicate KeepsLatest(T: Tables, T': Tables, id: ReleaseId)
  {
    && id in T.releases && T'.releases == T.releases - {id}
    && id.mod in T.modules && id.mod in T'.modules && ReleaseId(id.mod, T.modules[id.mod]) in T'.releases
    && CompareVersions(T'.modules[id.mod], T.modules[id.mod]) == 0
  }

  lemma GuardedCall(w: World, th: Thread, e: Event)
    requires th.pc.Deleting? && th.job.DeleteRelease? && th.job.guarded && Ready(w, th)
    ensures var move := DeleteReleaseMove(w, th, e);
            move.Move? && move.world != w ==> KeepsLatest(w.tables, move.world.tables, th.job.id) && move.world.objects == w.objects
  {
    if th.pc.del.CommitDelete? { GuardedCommit(w, th, e); }
  }

  lemma GuardedCommit(w: World, th: Thread, e: Event)
    requires th.pc == Deleting(CommitDelete) && th.job.DeleteRelease? && th.job.guarded && Ready(w, th)
    ensures var move := DeleteReleaseMove(w, th, e);
            move.Move? && move.world != w ==> KeepsLatest(w.tables, move.world.tables, th.job.id) && move.world.objects == w.objects
  {
    var id := th.job.id;
    assert id.mod in w.tables.modules && id.version != w.tables.modules[id.mod];
    GuardedCommitCall(w, th, e);
  }

  lemma GuardedCommitCall(w: World, th: Thread, e: Event)
    requires th.pc == Deleting(CommitDelete) && th.job.DeleteRelease? && Consistent(w.tables)
    requires th.job.id.mod in w.tables.modules && th.job.id.version != w.tables.modules[th.job.id.mod]
    ensures var move := DeleteReleaseMove(w, th, e);
            move.Move? && move.world != w ==> KeepsLatest(w.tables, move.world.tables, th.job.id) && move.world.objects == w.objects
  {
    if DeleteReleaseMove(w, th, e).Move? && DeleteReleaseMove(w, th, e).world != w {
      DeleteWrites(w, th, e);
      GuardedTx(w.tables, th.job.id, e.latest);
    }
  }

  lemma DeleteWrites(w: World, th: Thread, e: Event)
    requires th.pc == Deleting(CommitDelete) && th.job.DeleteRelease?
    requires DeleteReleaseMove(w, th, e).Move? && DeleteReleaseMove(w, th, e).world != w
    ensures th.job.id in w.tables.releases && e.Recomputed?
    ensures IsLatest(e.latest, Versions(w.tables, th.job.id.mod) - {th.job.id.version})
    ensures DeleteReleaseMove(w, th, e).world == With(w, DeleteReleaseTx(w.tables, th.job.id, e.latest))
  {
  }

  lemma GuardedTx(t: Tables, id: ReleaseId, latest: string)
    requires Consistent(t) && id in t.releases && id.mod in t.modules && id.version != t.modules[id.mod]
    requires IsLatest(latest, Versions(t, id.mod) - {id.version})
    ensures KeepsLatest(t, DeleteReleaseTx(t, id, latest), id)
  {
    AllowedDeletionKeepsPrecedence(t, id, latest);
  }
}
