/**
 The artifact lifecycle as a step system. Requests and background jobs run as
 threads over shared tables, an object store that only creates or deletes whole
 objects, a lock per module and a lease per upstream cache entry. One step is
 one call to the database or the object store, or one lock operation. Any call
 may fail, having taken effect or not, and any thread may crash.
 */
module Lifecycle {
  import opened Version
  import opened LatestVersion
  import opened Store

  type Tid = nat

  datatype Deletion = Deletion(path: Path, mod: ModuleId)

  datatype Tally = Tally(attempted: nat, deleted: nat, canceled: nat, failed: nat)

  datatype Outcome = Finished | Published | Refused | Failed | Processed(tally: Tally)

  /** What an upstream registry says about a release. */
  datatype Fetched = Fetched(uri: string, sha: Digest, md5: string, size: nat)

  /** What a release's metadata says of its archive; nothing where it is empty or zero. */
  datatype Expected = Expected(sha: Digest, size: nat)

  datatype Job =
    | Publish(id: ReleaseId, body: Bytes, md5: string, rowId: string, replace: bool)
    | DeleteRelease(id: ReleaseId, guarded: bool)
    | DeleteModule(mod: ModuleId)
    | Worker
    | Repair
    | Hydrate(id: ReleaseId)
    | Checksum(id: ReleaseId, md5: string)
    | Prune
    | EnsureArtifact(file: string, expected: Option<Expected>)
    | Index(mod: ModuleId)
    | Restore(id: ReleaseId)

  /** Where a thread is: at a lock operation, at the next call of its job, or done. */
  datatype Pc =
    | Wait(mod: ModuleId, enter: Pc)
    | WaitLease(path: Path, enter: Pc)
    | Unlock(next: Pc)
    | EndLease(next: Pc)
    | Ended(outcome: Outcome)
    | Publishing(pub: PublishPoint)
    | Deleting(del: DeletePoint)
    | Working(work: WorkerPoint)
    | Repairing(rep: RepairPoint)
    | Hydrating(hyd: HydratePoint)
    | Hashing(sum: ChecksumPoint)
    | Pruning(prune: PrunePoint)
    | Caching(cache: CachePoint)
    | Indexing(ups: UpstreamPoint)

  datatype PublishPoint =
    | ReadExisting
    | VerifyRegistered
    | Upload
    | VerifyObject
    | UpsertForPublish
    | CommitPublish
    | RereadPublish(landed: bool)  // `landed` is history: whether the failed commit took effect
    | Compensate
    | DropModule

  datatype DeletePoint = CheckLatest | CommitDelete | CommitDeleteModule

  /** todo[0] is the entry at hand. */
  datatype WorkerPoint =
    | ListDeletions
    | NextDeletion(todo: seq<Deletion>, tally: Tally)
    | CheckDeletion(todo: seq<Deletion>, tally: Tally)
    | RemoveQueued(todo: seq<Deletion>, tally: Tally)
    | CompleteQueued(todo: seq<Deletion>, tally: Tally, canceled: bool)

  datatype RepairPoint = ListObjects | CheckOrphan(path: Path) | RemoveOrphan(path: Path)

  /** The snapshot and what was fetched for it are history once the new row is made. */
  datatype HydratePoint =
    | FetchUpstream
    | RereadHydrate(snapshot: Row, fetched: Fetched)
    | CommitHydrate(snapshot: Row, fetched: Fetched, row: Row)

  datatype ChecksumPoint =
    | LoadRelease
    | HashArchive(snapshot: Row, path: Path, retries: nat)
    | RereadChecksum(snapshot: Row, path: Path, body: Bytes, retries: nat)
    | CommitChecksum(snapshot: Row, path: Path, body: Bytes)

  datatype PrunePoint = ListCache | CheckCached(path: Path) | RemoveCached(path: Path)

  datatype CachePoint = VerifyCached | RemoveCorrupt | UploadCached | VerifyFetched | RemoveFetched

  datatype UpstreamPoint = UpsertUpstream | NextUpstream | CheckTombstone(id: ReleaseId) | CreateUpstream(id: ReleaseId)

  datatype Thread = Thread(job: Job, pc: Pc, held: Option<ModuleId>, lease: Option<Path>)

  /** What all threads share besides locks: the tables, the object store, and whether an upstream is configured. */
  datatype World = World(tables: Tables, objects: map<Path, Bytes>, upstream: bool)

  /** `clean` is history: no call has failed and no thread has crashed so far. */
  datatype State = State(
    world: World,
    locks: map<ModuleId, Tid>,
    leases: map<Path, Tid>,
    threads: map<Tid, Thread>,
    clean: bool)

  /** The environment's part of a step: whether a call works, and what it answers. */
  datatype Event =
    | Start(job: Job)
    | Go
    | Fault(applied: bool)
    | Crash
    | Listed(items: seq<Deletion>)
    | Object(path: Path, mod: ModuleId)
    | Upstream(fetched: Fetched, acknowledged: bool)
    | Reference(id: ReleaseId)
    | Bytes(body: Bytes)
    | Recomputed(latest: string, acknowledged: bool)
    | NoMore
    | Purged(tombstones: set<ReleaseId>)

  ghost predicate Init(s: State)
  {
    s == State(World(Tables(map[], map[], map[], {}), map[], s.world.upstream), map[], map[], map[], true)
  }

  /* ---------- the pieces of a step ---------- */

  function ArtifactOf(job: Job): Path
    requires job.Publish?
  {
    Artifact(job.id, Sha256(job.body))
  }

  function PublishedRow(job: Job): Row
    requires job.Publish?
  {
    Row(job.rowId, Local, Sha256(job.body), job.md5, |job.body|, Some(ArtifactOf(job)), "")
  }

  function UpstreamRow(id: ReleaseId, fetched: Fetched): Row
  {
    Row(id.version, Source.Upstream, fetched.sha, fetched.md5, fetched.size, None, fetched.uri)
  }

  /** sameReleaseArtifact. */
  predicate SameArtifact(left: Row, right: Row)
  {
    left.id == right.id && left.source == right.source && left.path == right.path && left.uri == right.uri
    && left.sha == right.sha && left.md5 == right.md5 && left.size == right.size
  }

  /** The row a hydration writes: upstream values where there are any. */
  function Hydrated(row: Row, f: Fetched): Row
  {
    row.(uri := if f.uri != "" then f.uri else row.uri,
         sha := if f.sha != NoDigest then f.sha else row.sha,
         md5 := if f.md5 != "" then f.md5 else row.md5,
         size := if f.size > 0 then f.size else row.size)
  }

  predicate ChecksumsComplete(row: Row) { row.md5 != "" && row.sha != NoDigest && row.size > 0 }

  /** releaseArchivePath. */
  function ArchivePath(row: Row): Option<Path>
  {
    if row.path.Some? then row.path
    else if row.source == Source.Upstream && row.uri != "" then Some(Cached(row.uri)) else None
  }

  function Put(w: World, p: Path, body: Bytes): World
  {
    if p in w.objects then w else w.(objects := w.objects[p := body])
  }

  function Drop(w: World, p: Path): World { w.(objects := w.objects - {p}) }

  function With(w: World, t: Tables): World { w.(tables := t) }

  /** The effect of one call: on the world, on where the thread goes, and whether it failed. */
  datatype Move = Move(world: World, pc: Pc, clean: bool) | Stuck

  function Ok(w: World, pc: Pc): Move { Move(w, pc, true) }

  function Fails(w: World, pc: Pc): Move { Move(w, pc, false) }

  /** A call that changes the world to `done` when it takes effect. */
  function Call(e: Event, w: World, done: World, onSuccess: Pc, onError: Pc): Move
  {
    if e == Go then Ok(done, onSuccess)
    else if e.Fault? then Fails(if e.applied then done else w, onError)
    else Stuck
  }

  /** A call that only reads. */
  function Read(e: Event, w: World, onSuccess: Pc, onError: Pc): Move { Call(e, w, w, onSuccess, onError) }

  function Initial(job: Job): Pc
  {
    match job
    case Publish(id, _, _, _, _) => Wait(id.mod, Publishing(ReadExisting))
    case DeleteRelease(id, guarded) => Wait(id.mod, Deleting(if guarded then CheckLatest else CommitDelete))
    case DeleteModule(m) => Wait(m, Deleting(CommitDeleteModule))
    case Worker => Working(ListDeletions)
    case Repair => Repairing(ListObjects)
    case Hydrate(_) => Hydrating(FetchUpstream)
    case Checksum(_, _) => Hashing(LoadRelease)
    case Prune => Pruning(ListCache)
    case EnsureArtifact(file, expected) =>
      if expected.Some? then WaitLease(Cached(file), Caching(VerifyCached)) else Caching(UploadCached)
    case Index(m) => Wait(m, Indexing(UpsertUpstream))
    case Restore(id) => Wait(id.mod, Indexing(UpsertUpstream))
  }

  /* ---------- one call of each job ---------- */

  /** A failed call whose error just ends the job, after releasing what it holds. */
  function Abort(th: Thread): Pc
  {
    var last := if th.lease.Some? then EndLease(Ended(Failed)) else Ended(Failed);
    if th.held.Some? then Unlock(last) else last
  }

  function PublishMove(w: World, th: Thread, e: Event): Move
    requires th.pc.Publishing? && th.job.Publish?
  {
    var job, p, T := th.job, ArtifactOf(th.job), w.tables;
    match th.pc.pub
    case ReadExisting => Read(e, w, AfterRead(T, job), Abort(th))
    case VerifyRegistered => Verify(e, w, p, job.body, Unlock(Ended(Published)), Abort(th))
    case Upload =>
      Call(e, w, Put(w, p, job.body), if p in w.objects then Publishing(VerifyObject) else Publishing(UpsertForPublish), Abort(th))
    case VerifyObject => Verify(e, w, p, job.body, Publishing(UpsertForPublish), Abort(th))
    case UpsertForPublish => Call(e, w, With(w, UpsertModuleTx(T, job.id.mod)), Publishing(CommitPublish), Publishing(Compensate))
    case CommitPublish =>
      if job.id.mod !in T.modules || (!job.replace && job.id in T.releases)
      then Read(e, w, Publishing(RereadPublish(false)), Publishing(RereadPublish(false)))
      else Call(e, w, With(w, CreateReleaseTx(T, job.id, PublishedRow(job))),
                Unlock(Ended(Published)), Publishing(RereadPublish(e.Fault? && e.applied)))
    case RereadPublish(_) =>
      Read(e, w, if CommittedAsMine(T, job) then Unlock(Ended(Published)) else Publishing(Compensate), Abort(th))
    case Compensate => Call(e, w, Drop(w, p), Publishing(DropModule), Publishing(DropModule))
    case DropModule =>
      Call(e, w, With(w, DeleteModuleIfEmptyTx(T, job.id.mod)), Unlock(Ended(Failed)), Unlock(Ended(Failed)))
  }

  /** verifyExistingArtifact: open the object and compare its content. */
  function Verify(e: Event, w: World, p: Path, body: Bytes, onMatch: Pc, onError: Pc): Move
  {
    if e == Go && p in w.objects && w.objects[p] == body then Ok(w, onMatch)
    else if e == Go || e.Fault? then Fails(w, onError)
    else Stuck
  }

  predicate RowHolds(t: Tables, p: Path)
    requires p.Artifact?
  {
    p.id in t.releases && t.releases[p.id].path == Some(p)
  }

  predicate CommittedAsMine(t: Tables, job: Job)
    requires job.Publish?
  {
    RowHolds(t, ArtifactOf(job)) && t.releases[job.id].source == Local && t.releases[job.id].sha == Sha256(job.body)
  }

  function AfterRead(t: Tables, job: Job): Pc
    requires job.Publish?
  {
    if job.id !in t.releases then Publishing(Upload)
    else if t.releases[job.id].source == Local && t.releases[job.id].sha == Sha256(job.body) then Publishing(VerifyRegistered)
    else if !job.replace then Unlock(Ended(Refused))
    else Publishing(Upload)
  }

  function DeleteReleaseMove(w: World, th: Thread, e: Event): Move
    requires th.pc.Deleting? && th.job.DeleteRelease?
  {
    var id, T := th.job.id, w.tables;
    match th.pc.del
    case CheckLatest =>
      // NoMore: refused because the release is in use
      if e == NoMore then Ok(w, Unlock(Ended(Refused)))
      else Read(e, w,
                if id.mod in T.modules && T.modules[id.mod] != id.version then Deleting(CommitDelete) else Unlock(Ended(Refused)),
                Abort(th))
    case CommitDelete =>
      if id !in T.releases then Read(e, w, Unlock(Ended(Refused)), Abort(th))
      else if e.Recomputed? && IsLatest(e.latest, Versions(T, id.mod) - {id.version}) then
        var done := With(w, DeleteReleaseTx(T, id, e.latest));
        if e.acknowledged then Ok(done, Unlock(Ended(Finished))) else Fails(done, Abort(th))
      else if e == Fault(false) then Fails(w, Abort(th))
      else Stuck
    case CommitDeleteModule => Stuck
  }

  function DeleteModuleMove(w: World, th: Thread, e: Event): Move
    requires th.pc.Deleting? && th.job.DeleteModule?
  {
    var m, T := th.job.mod, w.tables;
    if !th.pc.del.CommitDeleteModule? then Stuck
    // NoMore: refused because some release is in use
    else if e == NoMore || m !in T.modules then Read(if e == NoMore then Go else e, w, Unlock(Ended(Refused)), Abort(th))
    else Call(e, w, With(w, DeleteModuleTx(T, m)), Unlock(Ended(Finished)), Abort(th))
  }

  function WorkerMove(w: World, th: Thread, e: Event): Move
    requires th.pc.Working? && th.job.Worker?
  {
    var T := w.tables;
    match th.pc.work
    case ListDeletions =>
      if e.Listed? && (forall d :: d in e.items ==> d.path in T.deletions && T.deletions[d.path] == d.mod)
      then Ok(w, Working(NextDeletion(e.items, Tally(|e.items|, 0, 0, 0))))
      else if e.Fault? then Fails(w, Ended(Failed))
      else Stuck
    case NextDeletion(todo, tally) =>
      if e != Go then Stuck
      else Ok(w, if todo == [] then Ended(Processed(tally)) else Wait(todo[0].mod, Working(CheckDeletion(todo, tally))))
    case CheckDeletion(todo, tally) =>
      if todo == [] then Stuck
      else Read(e, w, if References(T, todo[0].path) then Working(CompleteQueued(todo, tally, true)) else Working(RemoveQueued(todo, tally)),
                DeletionFailed(todo, tally))
    case RemoveQueued(todo, tally) =>
      if todo == [] then Stuck
      else Call(e, w, Drop(w, todo[0].path), Working(CompleteQueued(todo, tally, false)), DeletionFailed(todo, tally))
    case CompleteQueued(todo, tally, canceled) =>
      if todo == [] then Stuck
      else Call(e, w, With(w, CompleteDeletionTx(T, todo[0].path)),
                Unlock(Working(NextDeletion(todo[1..], Counted(tally, canceled)))), DeletionFailed(todo, tally))
  }

  function Counted(tally: Tally, canceled: bool): Tally
  {
    if canceled then tally.(canceled := tally.canceled + 1) else tally.(deleted := tally.deleted + 1)
  }

  function DeletionFailed(todo: seq<Deletion>, tally: Tally): Pc
    requires todo != []
  {
    Unlock(Working(NextDeletion(todo[1..], tally.(failed := tally.failed + 1))))
  }

  function RepairMove(w: World, th: Thread, e: Event): Move
    requires th.pc.Repairing? && th.job.Repair?
  {
    match th.pc.rep
    case ListObjects =>
      // any name under the artifact prefix, possibly stale; the module comes from the name itself
      if e.Object? && !e.path.Cached? && (e.path.Artifact? ==> e.mod == e.path.id.mod)
      then Ok(w, Wait(e.mod, Repairing(CheckOrphan(e.path))))
      else if e == NoMore then Ok(w, Ended(Finished))
      else if e.Fault? then Fails(w, Ended(Failed))
      else Stuck
    case CheckOrphan(p) =>
      // NoMore: the object is too recent to be judged
      if e == NoMore then Ok(w, Unlock(Ended(Finished)))
      else Read(e, w, if References(w.tables, p) then Unlock(Ended(Finished)) else Repairing(RemoveOrphan(p)), Abort(th))
    case RemoveOrphan(p) => Call(e, w, Drop(w, p), Unlock(Ended(Finished)), Abort(th))
  }

  function HydrateMove(w: World, th: Thread, e: Event): Move
    requires th.pc.Hydrating? && th.job.Hydrate?
  {
    var id, T := th.job.id, w.tables;
    match th.pc.hyd
    case FetchUpstream =>
      // the snapshot is an upstream row read without the lock, before the fetch
      if e.Upstream? && id in T.releases && T.releases[id].source == Source.Upstream && T.releases[id].uri == ""
      then Ok(w, Wait(id.mod, Hydrating(RereadHydrate(T.releases[id], e.fetched))))
      else if e == NoMore then Ok(w, Ended(Finished))
      else if e.Fault? then Fails(w, Ended(Failed))
      else Stuck
    case RereadHydrate(snapshot, fetched) =>
      Read(e, w,
           if id !in T.releases then Unlock(Ended(Refused))
           else if !SameArtifact(snapshot, T.releases[id]) || T.releases[id].uri != "" then Unlock(Ended(Finished))
           else Hydrating(CommitHydrate(snapshot, fetched, Hydrated(T.releases[id], fetched))),
           Abort(th))
    case CommitHydrate(_, _, row) =>
      if id.mod !in T.modules then Stuck
      else Call(e, w, With(w, CreateReleaseTx(T, id, row)), Unlock(Ended(Finished)), Unlock(Ended(Finished)))
  }

  function ChecksumMove(w: World, th: Thread, e: Event): Move
    requires th.pc.Hashing? && th.job.Checksum?
  {
    var id, T := th.job.id, w.tables;
    match th.pc.sum
    case LoadRelease =>
      Read(e, w, if id in T.releases then AfterLoad(T.releases[id], w) else Ended(Refused), Ended(Failed))
    case HashArchive(snapshot, p, retries) =>
      Read(e, w,
           if p !in w.objects then NotFound(th, snapshot, p, retries)
           else if ContradictsMetadata(snapshot, w.objects[p]) then Abort(th)
           else Wait(id.mod, Hashing(RereadChecksum(snapshot, p, w.objects[p], retries))),
           Abort(th))
    case RereadChecksum(snapshot, p, body, retries) =>
      Read(e, w,
           if id !in T.releases then Unlock(NotFound(th, snapshot, p, retries))
           else if SameArtifact(snapshot, T.releases[id]) then Hashing(CommitChecksum(snapshot, p, body)) else Abort(th),
           Abort(th))
    case CommitChecksum(_, p, body) =>
      if id !in T.releases then Stuck
      else Call(e, w, With(w, UpdateChecksumsTx(T, id, th.job.md5, Sha256(body), Some(p), |body|)), Abort(th), Abort(th))
  }

  /** What is not found, the object or by then the row, is tried again under a new lease as long as there are retries. */
  function NotFound(th: Thread, snapshot: Row, p: Path, retries: nat): Pc
  {
    if th.lease == None then Ended(Refused)
    else EndLease(if retries > 0 then WaitLease(p, Hashing(HashArchive(snapshot, p, retries - 1))) else Ended(Failed))
  }

  /** EnsureReleaseChecksums up to the lease. */
  function AfterLoad(row: Row, w: World): Pc
  {
    if ChecksumsComplete(row) && (row.source == Local || (row.path.Some? && row.path.value in w.objects)) then Ended(Finished)
    else
      var snapshot := if ChecksumsComplete(row) then row.(path := None) else row;
      match ArchivePath(snapshot)
      case None => Ended(Refused)
      case Some(p) =>
        if row.source == Local then Hashing(HashArchive(snapshot, p, 0))
        else if !w.upstream || row.uri == "" then Ended(Refused)
        else WaitLease(p, Hashing(HashArchive(snapshot, p, 1)))
  }

  predicate ContradictsMetadata(snapshot: Row, body: Bytes)
  {
    snapshot.source == Source.Upstream
    && ((snapshot.sha != NoDigest && snapshot.sha != Sha256(body)) || (snapshot.size > 0 && snapshot.size != |body|))
  }

  function Pruned(th: Thread): Pc { if th.lease.Some? then EndLease(Ended(Finished)) else Ended(Finished) }

  function PruneMove(w: World, th: Thread, e: Event): Move
    requires th.pc.Pruning? && th.job.Prune?
  {
    match th.pc.prune
    case ListCache =>
      // any cache entry, possibly stale; without an upstream there is nobody to lease it from
      if e.Object? && e.path.Cached? then
        Ok(w, if w.upstream then WaitLease(e.path, Pruning(CheckCached(e.path))) else Pruning(CheckCached(e.path)))
      else if e == NoMore then Ok(w, Ended(Finished))
      else if e.Fault? then Fails(w, Ended(Failed))
      else Stuck
    case CheckCached(p) =>
      Read(e, w, if References(w.tables, p) then Pruned(th) else Pruning(RemoveCached(p)), Abort(th))
    case RemoveCached(p) => Call(e, w, Drop(w, p), Pruned(th), Abort(th))
  }

  /** verifyCachedArtifact. */
  predicate Meets(body: Bytes, expected: Option<Expected>)
  {
    match expected
    case None => true
    case Some(x) => (x.sha == NoDigest || x.sha == Sha256(body)) && (x.size == 0 || x.size == |body|)
  }

  function EnsureMove(w: World, th: Thread, e: Event): Move
    requires th.pc.Caching? && th.job.EnsureArtifact?
  {
    var p := Cached(th.job.file);
    match th.pc.cache
    case VerifyCached =>
      Read(e, w,
           if p !in w.objects then Caching(UploadCached)
           else if Meets(w.objects[p], th.job.expected) then EndLease(Ended(Finished)) else Caching(RemoveCorrupt),
           Abort(th))
    case RemoveCorrupt => Call(e, w, Drop(w, p), Caching(UploadCached), Abort(th))
    case UploadCached =>
      // without expectations this is a plain download, which may go on without the lease
      if e.Bytes? then Ok(Put(w, p, e.body), if th.job.expected.Some? then Caching(VerifyFetched) else Ended(Finished))
      else if e.Fault? then Fails(w, Abort(th))
      else Stuck
    case VerifyFetched =>
      Read(e, w,
           if p in w.objects && Meets(w.objects[p], th.job.expected) then EndLease(Ended(Finished)) else Caching(RemoveFetched),
           Abort(th))
    case RemoveFetched => Call(e, w, Drop(w, p), Abort(th), Abort(th))
  }

  function UpstreamMove(w: World, th: Thread, e: Event): Move
    requires th.pc.Indexing? && (th.job.Index? || th.job.Restore?)
  {
    var T := w.tables;
    var m := if th.job.Index? then th.job.mod else th.job.id.mod;
    match th.pc.ups
    case UpsertUpstream =>
      Call(e, w, With(w, UpsertModuleTx(T, m)), if th.job.Index? then Indexing(NextUpstream) else Indexing(CreateUpstream(th.job.id)), Abort(th))
    case NextUpstream =>
      if e.Reference? && e.id.mod == m then Ok(w, Indexing(CheckTombstone(e.id)))
      else if e == NoMore then Ok(w, Unlock(Ended(Finished)))
      else Stuck
    case CheckTombstone(id) =>
      Read(e, w, if id in T.tombstones then Indexing(NextUpstream) else Indexing(CreateUpstream(id)), Abort(th))
    case CreateUpstream(id) =>
      // an indexed row carries no artifact data yet; a restored one does
      var next := if th.job.Index? then Indexing(NextUpstream) else Unlock(Ended(Finished));
      if id.mod !in T.modules then Stuck
      else if e.Upstream? && id in T.releases then Ok(w, next)
      else if e.Upstream? && (th.job.Index? ==> e.fetched == Fetched("", NoDigest, "", 0)) then
        var done := With(w, CreateReleaseTx(T, id, UpstreamRow(id, e.fetched)));
        if e.acknowledged then Ok(done, next) else Fails(done, Abort(th))
      else if e == Fault(false) then Fails(w, Abort(th))
      else Stuck
  }

  function JobMove(w: World, th: Thread, e: Event): Move
  {
    match th.job
    case Publish(_, _, _, _, _) => if th.pc.Publishing? then PublishMove(w, th, e) else Stuck
    case DeleteRelease(_, _) => if th.pc.Deleting? then DeleteReleaseMove(w, th, e) else Stuck
    case DeleteModule(_) => if th.pc.Deleting? then DeleteModuleMove(w, th, e) else Stuck
    case Worker => if th.pc.Working? then WorkerMove(w, th, e) else Stuck
    case Repair => if th.pc.Repairing? then RepairMove(w, th, e) else Stuck
    case Hydrate(_) => if th.pc.Hydrating? then HydrateMove(w, th, e) else Stuck
    case Checksum(_, _) => if th.pc.Hashing? then ChecksumMove(w, th, e) else Stuck
    case Prune => if th.pc.Pruning? then PruneMove(w, th, e) else Stuck
    case EnsureArtifact(_, _) => if th.pc.Caching? then EnsureMove(w, th, e) else Stuck
    case Index(_) => if th.pc.Indexing? then UpstreamMove(w, th, e) else Stuck
    case Restore(_) => if th.pc.Indexing? then UpstreamMove(w, th, e) else Stuck
  }

  /* ---------- steps ---------- */

  predicate NeedsUpstream(job: Job) { job.Hydrate? || job.EnsureArtifact? || job.Index? || job.Restore? }

  predicate StartStep(s: State, t: Tid, e: Event, s': State)
  {
    e.Start? && t !in s.threads && (NeedsUpstream(e.job) ==> s.world.upstream)
    && s' == s.(threads := s.threads[t := Thread(e.job, Initial(e.job), None, None)])
  }

  /** A call in the middle of a job. */
  predicate JobStep(s: State, t: Tid, e: Event, s': State)
    requires t in s.threads
  {
    var th := s.threads[t];
    var move := JobMove(s.world, th, e);
    move.Move?
    && s' == s.(world := move.world, threads := s.threads[t := th.(pc := move.pc)], clean := s.clean && move.clean)
  }

  /** Taking the module lock, or giving up waiting for it. */
  predicate LockStep(s: State, t: Tid, e: Event, s': State)
    requires t in s.threads && s.threads[t].pc.Wait?
  {
    var th := s.threads[t];
    var m := th.pc.mod;
    if e == Go then
      m !in s.locks
      && s' == s.(locks := s.locks[m := t], threads := s.threads[t := th.(pc := th.pc.enter, held := Some(m))])
    else
      e.Fault? && s' == s.(threads := s.threads[t := th.(pc := AfterFailedWait(th))], clean := false)
  }

  function AfterFailedWait(th: Thread): Pc
    requires th.pc.Wait?
  {
    var enter := th.pc.enter;
    if enter.Working? && enter.work.CheckDeletion? && enter.work.todo != []
    then Working(NextDeletion(enter.work.todo[1..], enter.work.tally.(failed := enter.work.tally.failed + 1)))
    else if th.lease.Some? then EndLease(Ended(Failed))
    else Ended(Failed)
  }

  predicate UnlockStep(s: State, t: Tid, e: Event, s': State)
    requires t in s.threads && s.threads[t].pc.Unlock?
  {
    var th := s.threads[t];
    e == Go && th.held.Some?
    && s' == s.(locks := s.locks - {th.held.value}, threads := s.threads[t := th.(pc := th.pc.next, held := None)])
  }

  predicate LeaseStep(s: State, t: Tid, e: Event, s': State)
    requires t in s.threads && s.threads[t].pc.WaitLease?
  {
    var th := s.threads[t];
    var p := th.pc.path;
    if e == Go then
      p !in s.leases
      && s' == s.(leases := s.leases[p := t], threads := s.threads[t := th.(pc := th.pc.enter, lease := Some(p))])
    else
      e.Fault? && s' == s.(threads := s.threads[t := th.(pc := Ended(Failed))], clean := false)
  }

  predicate EndLeaseStep(s: State, t: Tid, e: Event, s': State)
    requires t in s.threads && s.threads[t].pc.EndLease?
  {
    var th := s.threads[t];
    e == Go && th.lease.Some?
    && s' == s.(leases := s.leases - {th.lease.value}, threads := s.threads[t := th.(pc := th.pc.next, lease := None)])
  }

  predicate CrashStep(s: State, t: Tid, e: Event, s': State)
    requires t in s.threads
  {
    var th := s.threads[t];
    e == Crash
    && s' == s.(threads := s.threads - {t}, clean := false,
                locks := if th.held.Some? then s.locks - {th.held.value} else s.locks,
                leases := if th.lease.Some? then s.leases - {th.lease.value} else s.leases)
  }

  /** Retention: old tombstones may go at any time, without any lock. */
  predicate PurgeStep(s: State, e: Event, s': State)
  {
    e.Purged?
    && s' == s.(world := With(s.world, s.world.tables.(tombstones := s.world.tables.tombstones - e.tombstones)))
  }

  predicate ThreadStep(s: State, t: Tid, e: Event, s': State)
    requires t in s.threads
  {
    match s.threads[t].pc
    case Wait(_, _) => LockStep(s, t, e, s')
    case WaitLease(_, _) => LeaseStep(s, t, e, s')
    case Unlock(_) => UnlockStep(s, t, e, s')
    case EndLease(_) => EndLeaseStep(s, t, e, s')
    case Ended(_) => false
    case _ => JobStep(s, t, e, s')
  }

  predicate Step(s: State, t: Tid, e: Event, s': State)
  {
    || StartStep(s, t, e, s')
    || PurgeStep(s, e, s')
    || (t in s.threads && (ThreadStep(s, t, e, s') || CrashStep(s, t, e, s')))
  }
}
