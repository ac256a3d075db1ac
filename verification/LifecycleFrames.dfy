/**
 Rely and guarantee: a step only disturbs modules its thread has locked and
 cache entries it has leased, so whatever a thread knows under its own lock and
 lease stays true.
 */
module LifecycleFrames {
  import opened Version
  import opened Store
  import opened Lifecycle
  import opened LifecycleInvariant

  /* ---------- rely and guarantee ---------- */

  /** Nothing a holder of m's lock can know about m has changed. */
  ghost predicate SameModule(w: World, w': World, m: ModuleId)
  {
    && (forall id :: id in w.tables.releases && id.mod == m ==>
          id in w'.tables.releases && w'.tables.releases[id] == w.tables.releases[id])
    && (forall id :: id in w'.tables.releases && id.mod == m ==> id in w.tables.releases)
    && (m in w.tables.modules <==> m in w'.tables.modules)
    && (m in w.tables.modules ==> w.tables.modules[m] == w'.tables.modules[m])
    && (forall id :: id in w'.tables.tombstones && id.mod == m ==> id in w.tables.tombstones)
    && (forall p :: p in w.objects && p.Artifact? && p.id.mod == m ==> p in w'.objects && w'.objects[p] == w.objects[p])
    && (forall p :: p in w'.objects && p.Artifact? && p.id.mod == m ==> p in w.objects)
    && (forall p :: p in w.tables.deletions && p.Artifact? && p.id.mod == m ==> p in w'.tables.deletions)
  }

  /** Nothing the lease holder of a cache entry relies on has changed. */
  ghost predicate SameCacheEntry(w: World, w': World, p: Path)
  {
    && (p in w.objects ==> p in w'.objects && w'.objects[p] == w.objects[p])
    && (References(w'.tables, p) ==> References(w.tables, p))
  }

  /** No row names a cache entry that none named before. */
  ghost predicate NoNewReferences(w: World, w': World)
  {
    forall p: Path :: p.Cached? && References(w'.tables, p) ==> References(w.tables, p)
  }

  /** What a thread's step may do: disturb only what it has locked or leased. Without an upstream nothing is leased. */
  ghost predicate Confined(w: World, w': World, held: Option<ModuleId>, lease: Option<Path>)
  {
    && w'.upstream == w.upstream
    && (forall m :: held != Some(m) ==> SameModule(w, w', m))
    && (if w.upstream then forall p: Path :: p.Cached? && lease != Some(p) ==> SameCacheEntry(w, w', p)
        else NoNewReferences(w, w'))
  }

  /* ---------- knowledge is stable ---------- */

  lemma RowHoldsStable(w: World, w': World, p: Path)
    requires p.Artifact? && SameModule(w, w', p.id.mod)
    ensures RowHolds(w.tables, p) <==> RowHolds(w'.tables, p)
  {
  }

  lemma PublishKnowsStable(w: World, w': World, job: Job, pub: PublishPoint)
    requires job.Publish? && PublishKnows(w, job, pub) && SameModule(w, w', job.id.mod)
    ensures PublishKnows(w', job, pub)
  {
    RowHoldsStable(w, w', ArtifactOf(job));
  }

  lemma WorkerKnowsStable(w: World, w': World, work: WorkerPoint, held: Option<ModuleId>)
    requires WorkerKnows(w, work, held) && (held.Some? ==> SameModule(w, w', held.value))
    ensures WorkerKnows(w', work, held)
  {
    if work.RemoveQueued? || work.CompleteQueued? { RowHoldsStable(w, w', work.todo[0].path); }
  }

  lemma RepairKnowsStable(w: World, w': World, rep: RepairPoint, held: Option<ModuleId>)
    requires RepairKnows(w, rep, held) && (held.Some? ==> SameModule(w, w', held.value))
    ensures RepairKnows(w', rep, held)
  {
    if rep.RemoveOrphan? && rep.path.Artifact? { RowHoldsStable(w, w', rep.path); }
  }

  lemma ChecksumKnowsStable(w: World, w': World, job: Job, sum: ChecksumPoint, held: Option<ModuleId>, lease: Option<Path>)
    requires job.Checksum? && ChecksumKnows(w, job, sum, held, lease)
    requires held.Some? ==> SameModule(w, w', held.value)
    requires w'.upstream == w.upstream && (lease.Some? ==> SameCacheEntry(w, w', lease.value))
    ensures ChecksumKnows(w', job, sum, held, lease)
  {
    if sum.CommitChecksum? && sum.path.Artifact? { RowHoldsStable(w, w', sum.path); }
  }

  /** Nothing a thread relies on about cache entries has changed. */
  ghost predicate SameCache(w: World, w': World, lease: Option<Path>)
  {
    && w'.upstream == w.upstream
    && (if lease.Some? then SameCacheEntry(w, w', lease.value) else !w.upstream ==> NoNewReferences(w, w'))
  }

  lemma JobKnowsStable(w: World, w': World, job: Job, pc: Pc, held: Option<ModuleId>, lease: Option<Path>)
    requires JobKnows(w, job, pc, held, lease)
    requires held.Some? ==> SameModule(w, w', held.value)
    requires SameCache(w, w', lease)
    ensures JobKnows(w', job, pc, held, lease)
  {
    if pc.Publishing? { PublishKnowsStable(w, w', job, pc.pub); }
    if pc.Working? { WorkerKnowsStable(w, w', pc.work, held); }
    if pc.Repairing? { RepairKnowsStable(w, w', pc.rep, held); }
    if pc.Hashing? { ChecksumKnowsStable(w, w', job, pc.sum, held, lease); }
  }

  lemma EntryStable(w: World, w': World, job: Job, pc: Pc, held: Option<ModuleId>, lease: Option<Path>)
    requires JobKnows(w, job, pc, held, lease) && Entry(job, pc)
    requires SameCache(w, w', lease)
    ensures JobKnows(w', job, pc, held, lease)
  {
  }

  lemma LeaseEntryStable(w: World, w': World, job: Job, p: Path, enter: Pc)
    requires MayLease(w, job, p, enter) && w'.upstream == w.upstream
    ensures MayLease(w', job, p, enter)
  {
  }

  lemma OutcomeStable(w: World, w': World, job: Job, outcome: Outcome, held: Option<ModuleId>)
    requires OutcomeTrue(w, job, outcome, held) && (held.Some? ==> SameModule(w, w', held.value))
    ensures OutcomeTrue(w', job, outcome, held)
  {
  }

  lemma KnowsStable(w: World, w': World, job: Job, pc: Pc, held: Option<ModuleId>, lease: Option<Path>)
    requires Knows(w, job, pc, held, lease)
    requires held.Some? ==> SameModule(w, w', held.value)
    requires SameCache(w, w', lease)
    ensures Knows(w', job, pc, held, lease)
  {
    if pc.Wait? {
      EntryStable(w, w', job, pc.enter, Some(pc.mod), lease);
    } else if pc.WaitLease? {
      LeaseEntryStable(w, w', job, pc.path, pc.enter);
    } else if pc.EndLease? {
      if pc.next.WaitLease? { LeaseEntryStable(w, w', job, pc.next.path, pc.next.enter); }
    } else if pc.Unlock? {
      if pc.next.EndLease? && pc.next.next.WaitLease? { LeaseEntryStable(w, w', job, pc.next.next.path, pc.next.next.enter); }
      if pc.next.Ended? { OutcomeStable(w, w', job, pc.next.outcome, held); }
    } else if !pc.Ended? {
      JobKnowsStable(w, w', job, pc, held, lease);
    }
  }

  /* ---------- what single calls disturb ---------- */

  lemma CreateConfined(w: World, id: ReleaseId, row: Row)
    requires id.mod in w.tables.modules && RowsWellFormed(w.tables) && WellFormedRow(id, row)
    requires row.path.Some? && row.path.value.Cached? ==> References(w.tables, row.path.value)
    ensures Confined(w, With(w, CreateReleaseTx(w.tables, id, row)), Some(id.mod), None)
  {
    var w' := With(w, CreateReleaseTx(w.tables, id, row));
    forall p: Path | p.Cached? && References(w'.tables, p) ensures References(w.tables, p) {
      var other :| other in w'.tables.releases && w'.tables.releases[other].path == Some(p);
      if other != id { assert other in w.tables.releases; }
    }
  }

  lemma UpsertConfined(w: World, m: ModuleId)
    ensures Confined(w, With(w, UpsertModuleTx(w.tables, m)), Some(m), None)
  {
  }

  lemma IfEmptyConfined(w: World, m: ModuleId)
    ensures Confined(w, With(w, DeleteModuleIfEmptyTx(w.tables, m)), Some(m), None)
  {
  }

  lemma DeleteReleaseConfined(w: World, id: ReleaseId, latest: string)
    requires id in w.tables.releases
    ensures Confined(w, With(w, DeleteReleaseTx(w.tables, id, latest)), Some(id.mod), None)
  {
    var w' := With(w, DeleteReleaseTx(w.tables, id, latest));
    forall p: Path | p.Cached? && References(w'.tables, p) ensures References(w.tables, p) {
      var other :| other in w'.tables.releases && w'.tables.releases[other].path == Some(p);
      assert other in w.tables.releases;
    }
  }

  lemma DeleteModuleConfined(w: World, m: ModuleId)
    ensures Confined(w, With(w, DeleteModuleTx(w.tables, m)), Some(m), None)
  {
    var w' := With(w, DeleteModuleTx(w.tables, m));
    forall p: Path | p.Cached? && References(w'.tables, p) ensures References(w.tables, p) {
      var other :| other in w'.tables.releases && w'.tables.releases[other].path == Some(p);
      assert other in w.tables.releases;
    }
  }

  lemma CompleteConfined(w: World, p: Path)
    requires p.Artifact?
    ensures Confined(w, With(w, CompleteDeletionTx(w.tables, p)), Some(p.id.mod), None)
  {
  }

  lemma ChecksumConfined(w: World, id: ReleaseId, md5: string, sha: Digest, p: Path, size: nat)
    requires id in w.tables.releases && (p.Cached? ==> w.upstream)
    ensures Confined(w, With(w, UpdateChecksumsTx(w.tables, id, md5, sha, Some(p), size)), Some(id.mod), Some(p))
  {
    var w' := With(w, UpdateChecksumsTx(w.tables, id, md5, sha, Some(p), size));
    forall q: Path | q.Cached? && q != p && References(w'.tables, q) ensures References(w.tables, q) {
      var other :| other in w'.tables.releases && w'.tables.releases[other].path == Some(q);
      assert other in w.tables.releases && w.tables.releases[other].path == Some(q);
    }
  }

  lemma PutConfined(w: World, p: Path, body: Bytes, held: Option<ModuleId>, lease: Option<Path>)
    requires p.Artifact? ==> held == Some(p.id.mod)
    ensures Confined(w, Put(w, p, body), held, lease)
  {
  }

  lemma DropConfined(w: World, p: Path, held: Option<ModuleId>, lease: Option<Path>)
    requires p.Artifact? ==> held == Some(p.id.mod)
    requires p.Cached? && w.upstream ==> lease == Some(p)
    ensures Confined(w, Drop(w, p), held, lease)
  {
  }

  lemma NothingConfined(w: World, held: Option<ModuleId>, lease: Option<Path>)
    ensures Confined(w, w, held, lease)
  {
  }
}
