/**
 The invariant of the lifecycle: what holds of the shared tables and objects in
 every reachable state, and what a thread knows at each point of its job.
 */
module LifecycleInvariant {
  import opened Version
  import opened Store
  import opened Lifecycle

  /* ---------- the world ---------- */

  /** A stored artifact has the content its name promises. */
  ghost predicate ArtifactsHonest(objects: map<Path, Bytes>)
  {
    forall p :: p in objects && p.Artifact? ==> Sha256(objects[p]) == p.sha
  }

  ghost predicate LocalRowsBacked(w: World)
  {
    forall id :: id in w.tables.releases && w.tables.releases[id].source == Local ==>
      Artifact(id, w.tables.releases[id].sha) in w.objects
  }

  ghost predicate Sound(w: World) { Consistent(w.tables) && ArtifactsHonest(w.objects) && LocalRowsBacked(w) }

  /* ---------- what a thread knows ---------- */

  ghost predicate Balanced(tally: Tally, left: nat)
  {
    tally.attempted == tally.deleted + tally.canceled + tally.failed + left
  }

  ghost predicate TodoFiled(todo: seq<Deletion>)
  {
    forall i :: 0 <= i < |todo| ==> todo[i].path.Artifact? && todo[i].path.id.mod == todo[i].mod
  }

  function HomeOf(job: Job): Option<ModuleId>
  {
    match job
    case Publish(id, _, _, _, _) => Some(id.mod)
    case DeleteRelease(id, _) => Some(id.mod)
    case DeleteModule(m) => Some(m)
    case Hydrate(id) => Some(id.mod)
    case Checksum(id, _) => Some(id.mod)
    case Index(m) => Some(m)
    case Restore(id) => Some(id.mod)
    case _ => None
  }

  /** The new artifact is not yet the row's; without Replace there is no row. */
  ghost predicate Unpublished(w: World, job: Job)
    requires job.Publish?
  {
    !RowHolds(w.tables, ArtifactOf(job)) && (!job.replace ==> job.id !in w.tables.releases)
  }

  ghost predicate PublishKnows(w: World, job: Job, pub: PublishPoint)
    requires job.Publish?
  {
    var p := ArtifactOf(job);
    match pub
    case ReadExisting => true
    case VerifyRegistered => CommittedAsMine(w.tables, job)
    case Upload => Unpublished(w, job)
    case VerifyObject => Unpublished(w, job) && p in w.objects
    case UpsertForPublish => Unpublished(w, job) && p in w.objects
    case CommitPublish => Unpublished(w, job) && p in w.objects && job.id.mod in w.tables.modules
    case RereadPublish(landed) =>
      p in w.objects
      && (if landed then CommittedAsMine(w.tables, job) else !RowHolds(w.tables, p))
    case Compensate => !RowHolds(w.tables, p)
    case DropModule => true
  }

  ghost predicate DeleteKnows(w: World, job: Job, del: DeletePoint)
  {
    match del
    case CheckLatest => job.DeleteRelease?
    case CommitDelete =>
      job.DeleteRelease?
      && (job.guarded ==> job.id.mod in w.tables.modules && w.tables.modules[job.id.mod] != job.id.version)
    case CommitDeleteModule => job.DeleteModule?
  }

  ghost predicate DeletionAtHand(todo: seq<Deletion>, tally: Tally, held: Option<ModuleId>)
  {
    todo != [] && TodoFiled(todo) && held == Some(todo[0].mod) && Balanced(tally, |todo|)
  }

  ghost predicate WorkerKnows(w: World, work: WorkerPoint, held: Option<ModuleId>)
  {
    match work
    case ListDeletions => held == None
    case NextDeletion(todo, tally) => held == None && TodoFiled(todo) && Balanced(tally, |todo|)
    case CheckDeletion(todo, tally) => DeletionAtHand(todo, tally, held)
    case RemoveQueued(todo, tally) => DeletionAtHand(todo, tally, held) && !RowHolds(w.tables, todo[0].path)
    case CompleteQueued(todo, tally, canceled) =>
      DeletionAtHand(todo, tally, held) && (RowHolds(w.tables, todo[0].path) <==> canceled)
  }

  ghost predicate RepairKnows(w: World, rep: RepairPoint, held: Option<ModuleId>)
  {
    match rep
    case ListObjects => held == None
    case CheckOrphan(p) => held.Some? && !p.Cached? && (p.Artifact? ==> held == Some(p.id.mod))
    case RemoveOrphan(p) =>
      held.Some? && !p.Cached? && (p.Artifact? ==> held == Some(p.id.mod) && !RowHolds(w.tables, p))
  }

  ghost predicate HydrateKnows(w: World, job: Job, hyd: HydratePoint, held: Option<ModuleId>)
    requires job.Hydrate?
  {
    match hyd
    case FetchUpstream => held == None
    case RereadHydrate(snapshot, _) => held == HomeOf(job) && snapshot.source == Source.Upstream
    case CommitHydrate(snapshot, fetched, row) =>
      && held == HomeOf(job)
      && job.id in w.tables.releases
      && snapshot.source == Source.Upstream
      && SameArtifact(snapshot, w.tables.releases[job.id])
      && w.tables.releases[job.id].uri == ""
      && row == Hydrated(w.tables.releases[job.id], fetched)
  }

  ghost predicate ChecksumTarget(w: World, job: Job, snapshot: Row, p: Path, lease: Option<Path>)
    requires job.Checksum?
  {
    && WellFormedRow(job.id, snapshot)
    && (if snapshot.source == Source.Upstream then w.upstream && lease == Some(p) && p.Cached?
        else lease == None && p == Artifact(job.id, snapshot.sha))
  }

  /** Under the lease the hashed object is still there; an artifact's name tells its content. */
  ghost predicate HashedBody(w: World, p: Path, body: Bytes)
  {
    if p.Artifact? then Sha256(body) == p.sha else p in w.objects && w.objects[p] == body
  }

  /** What an upstream row already records, the hashed bytes have. */
  ghost predicate AgreesWith(row: Row, body: Bytes)
  {
    row.source == Source.Upstream ==> row.sha in {NoDigest, Sha256(body)} && row.size in {0, |body|}
  }

  ghost predicate ChecksumKnows(w: World, job: Job, sum: ChecksumPoint, held: Option<ModuleId>, lease: Option<Path>)
    requires job.Checksum?
  {
    match sum
    case LoadRelease => held == None && lease == None
    case HashArchive(snapshot, p, _) => held == None && ChecksumTarget(w, job, snapshot, p, lease)
    case RereadChecksum(snapshot, p, body, _) =>
      held == HomeOf(job) && ChecksumTarget(w, job, snapshot, p, lease) && HashedBody(w, p, body) && AgreesWith(snapshot, body)
    case CommitChecksum(snapshot, p, body) =>
      && held == HomeOf(job)
      && job.id in w.tables.releases
      && SameArtifact(snapshot, w.tables.releases[job.id])
      && (if w.tables.releases[job.id].source == Source.Upstream then w.upstream && lease == Some(p) && p.Cached?
          else lease == None && p == Artifact(job.id, Sha256(body)) && RowHolds(w.tables, p))
      && HashedBody(w, p, body)
      && AgreesWith(w.tables.releases[job.id], body)
  }

  /** Pruning takes the lease of the entry at hand, if there is an upstream to share it with. */
  function PruneLease(w: World, p: Path): Option<Path> { if w.upstream then Some(p) else None }

  ghost predicate PruneKnows(w: World, prune: PrunePoint, lease: Option<Path>)
  {
    match prune
    case ListCache => lease == None
    case CheckCached(p) => p.Cached? && lease == PruneLease(w, p)
    case RemoveCached(p) => p.Cached? && lease == PruneLease(w, p) && !References(w.tables, p)
  }

  ghost predicate CacheKnows(job: Job, cache: CachePoint, lease: Option<Path>)
    requires job.EnsureArtifact?
  {
    lease == (if job.expected.Some? then Some(Cached(job.file)) else None) && (cache.UploadCached? || job.expected.Some?)
  }

  function IndexHome(job: Job): ModuleId
    requires job.Index? || job.Restore?
  {
    if job.Index? then job.mod else job.id.mod
  }

  ghost predicate UpstreamKnows(w: World, job: Job, ups: UpstreamPoint)
    requires job.Index? || job.Restore?
  {
    match ups
    case UpsertUpstream => true
    case NextUpstream => job.Index? && IndexHome(job) in w.tables.modules
    case CheckTombstone(id) => job.Index? && IndexHome(job) in w.tables.modules && id.mod == IndexHome(job)
    case CreateUpstream(id) =>
      IndexHome(job) in w.tables.modules && id.mod == IndexHome(job)
      && (if job.Index? then id !in w.tables.tombstones else id == job.id)
  }

  /** What a thread knows in the middle of its job. */
  ghost predicate JobKnows(w: World, job: Job, pc: Pc, held: Option<ModuleId>, lease: Option<Path>)
  {
    match pc
    case Wait(_, _) => false
    case WaitLease(_, _) => false
    case Unlock(_) => false
    case EndLease(_) => false
    case Ended(_) => false
    case Publishing(pub) => job.Publish? && held == Some(job.id.mod) && lease == None && PublishKnows(w, job, pub)
    case Deleting(del) => held.Some? && held == HomeOf(job) && lease == None && DeleteKnows(w, job, del)
    case Working(work) => job.Worker? && lease == None && WorkerKnows(w, work, held)
    case Repairing(rep) => job.Repair? && lease == None && RepairKnows(w, rep, held)
    case Hydrating(hyd) => job.Hydrate? && lease == None && HydrateKnows(w, job, hyd, held)
    case Hashing(sum) => job.Checksum? && ChecksumKnows(w, job, sum, held, lease)
    case Pruning(prune) => job.Prune? && held == None && PruneKnows(w, prune, lease)
    case Caching(cache) => job.EnsureArtifact? && held == None && CacheKnows(job, cache, lease)
    case Indexing(ups) =>
      (job.Index? || job.Restore?) && held == Some(IndexHome(job)) && lease == None && UpstreamKnows(w, job, ups)
  }

  /** Program points entered by taking the module lock: nothing is known under it yet. */
  ghost predicate Entry(job: Job, pc: Pc)
  {
    || (pc.Publishing? && pc.pub.ReadExisting?)
    || (pc.Deleting? && (pc.del.CommitDelete? ==> job.DeleteRelease? && !job.guarded))
    || (pc.Working? && pc.work.CheckDeletion?)
    || (pc.Repairing? && pc.rep.CheckOrphan?)
    || (pc.Hydrating? && pc.hyd.RereadHydrate?)
    || (pc.Hashing? && pc.sum.RereadChecksum?)
    || (pc.Indexing? && pc.ups.UpsertUpstream?)
  }

  /** Program points entered by acquiring the lease of a cache entry. */
  ghost predicate LeaseEntry(pc: Pc)
  {
    || (pc.Pruning? && pc.prune.CheckCached?)
    || (pc.Caching? && pc.cache.VerifyCached?)
    || (pc.Hashing? && pc.sum.HashArchive?)
  }

  ghost predicate MayLease(w: World, job: Job, p: Path, enter: Pc)
  {
    w.upstream && p.Cached? && LeaseEntry(enter) && JobKnows(w, job, enter, None, Some(p))
  }

  ghost predicate EndsBalanced(outcome: Outcome) { outcome.Processed? ==> Balanced(outcome.tally, 0) }

  /** What the job is about to report is true of the tables while it still holds its lock. */
  ghost predicate OutcomeTrue(w: World, job: Job, outcome: Outcome, held: Option<ModuleId>)
  {
    && (job.Publish? && outcome == Published ==> held == Some(job.id.mod) && CommittedAsMine(w.tables, job))
    && (job.DeleteRelease? && outcome == Finished ==> held == Some(job.id.mod) && job.id !in w.tables.releases)
    && (job.DeleteModule? && outcome == Finished ==>
          held == Some(job.mod) && job.mod !in w.tables.modules
          && forall id :: id in w.tables.releases ==> id.mod != job.mod)
  }

  /** A cache entry about to be reported ensured is there and as expected, under its lease. */
  ghost predicate EnsuredTrue(w: World, job: Job, outcome: Outcome, lease: Option<Path>)
  {
    job.EnsureArtifact? && outcome == Finished ==>
      && lease == Some(Cached(job.file)) && lease.value in w.objects && job.expected.Some?
      && job.expected.value.sha in {NoDigest, Sha256(w.objects[lease.value])}
      && job.expected.value.size in {0, |w.objects[lease.value]|}
  }

  ghost predicate AfterLease(w: World, job: Job, next: Pc, lease: Option<Path>)
  {
    || (next.Ended? && EndsBalanced(next.outcome) && EnsuredTrue(w, job, next.outcome, lease))
    || (next.WaitLease? && MayLease(w, job, next.path, next.enter))
  }

  /** Where a job goes on after giving up its lock. */
  ghost predicate AfterUnlock(w: World, job: Job, next: Pc, lease: Option<Path>)
  {
    || (next.Ended? && lease == None && EndsBalanced(next.outcome))
    || (next.EndLease? && lease.Some? && AfterLease(w, job, next.next, lease))
    || (next.Working? && job.Worker? && lease == None && next.work.NextDeletion?
        && TodoFiled(next.work.todo) && Balanced(next.work.tally, |next.work.todo|))
  }

  /** What a thread knows wherever it is, given the lock and lease it holds. */
  ghost predicate Knows(w: World, job: Job, pc: Pc, held: Option<ModuleId>, lease: Option<Path>)
  {
    if pc.Wait? then held == None && Entry(job, pc.enter) && JobKnows(w, job, pc.enter, Some(pc.mod), lease)
    else if pc.WaitLease? then held == None && lease == None && MayLease(w, job, pc.path, pc.enter)
    else if pc.Unlock? then
      held.Some? && AfterUnlock(w, job, pc.next, lease) && (pc.next.Ended? ==> OutcomeTrue(w, job, pc.next.outcome, held))
    else if pc.EndLease? then held == None && lease.Some? && AfterLease(w, job, pc.next, lease)
    else if pc.Ended? then held == None && lease == None && EndsBalanced(pc.outcome)
    else JobKnows(w, job, pc, held, lease)
  }

  /* ---------- the state ---------- */

  ghost predicate LocksOwned(s: State)
  {
    && (forall m :: m in s.locks ==> s.locks[m] in s.threads && s.threads[s.locks[m]].held == Some(m))
    && (forall p :: p in s.leases ==> s.leases[p] in s.threads && s.threads[s.leases[p]].lease == Some(p))
  }

  /** A thread's own lock and lease are recorded as its own. */
  ghost predicate Holds(s: State, t: Tid, th: Thread)
  {
    && (th.held.Some? ==> th.held.value in s.locks && s.locks[th.held.value] == t)
    && (th.lease.Some? ==>
          s.world.upstream && th.lease.value.Cached? && th.lease.value in s.leases && s.leases[th.lease.value] == t)
  }

  ghost predicate ThreadOk(s: State, t: Tid)
    requires t in s.threads
  {
    var th := s.threads[t];
    Knows(s.world, th.job, th.pc, th.held, th.lease) && Holds(s, t, th)
  }

  ghost predicate InFlight(th: Thread, p: Path)
  {
    th.job.Publish? && ArtifactOf(th.job) == p && th.pc.Publishing?
    && (th.pc.pub.VerifyObject? || th.pc.pub.UpsertForPublish? || th.pc.pub.CommitPublish?)
  }

  /** The thread holding p's module is about to commit p. */
  ghost predicate BeingPublished(s: State, p: Path)
    requires p.Artifact?
  {
    p.id.mod in s.locks && s.locks[p.id.mod] in s.threads && InFlight(s.threads[s.locks[p.id.mod]], p)
  }

  /** What a worker is about to take off the queue as deleted is gone. */
  ghost predicate CompletesGone(w: World, th: Thread)
  {
    th.pc.Working? && th.pc.work.CompleteQueued? && !th.pc.work.canceled && th.pc.work.todo != [] ==>
      th.pc.work.todo[0].path !in w.objects
  }

  /** Every stored artifact is referenced, queued for deletion, or about to be committed. */
  ghost predicate Accounted(s: State)
  {
    && (forall p :: p in s.world.objects && p.Artifact? ==>
          RowHolds(s.world.tables, p) || p in s.world.tables.deletions || BeingPublished(s, p))
    && (forall t :: t in s.threads ==> CompletesGone(s.world, s.threads[t]))
  }

  ghost predicate Inv(s: State)
  {
    && Sound(s.world)
    && LocksOwned(s)
    && (forall t :: t in s.threads ==> ThreadOk(s, t))
    && (s.clean ==> Accounted(s))
  }
}
