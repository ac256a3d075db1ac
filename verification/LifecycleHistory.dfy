/**
 What any run shows in hindsight: for every change of a row, a queue entry, a
 tombstone, a module or an object its only causes, for every call that worked its
 effect, and what stays away once it is deleted.
 */
module LifecycleHistory {
  import opened Version
  import opened Store
  import opened Lifecycle
  import opened LifecycleInvariant
  import opened LifecycleFrames
  import opened LifecycleSafety
  import opened LifecycleSteps
  import opened LifecycleEffects
  import opened LifecycleChanges
  import opened LifecycleTheorems

  /* ---------- causes ---------- */

  /** A change of the world, other than by retention, is a call, and all it changes has a cause. */
  lemma ChangesAreCaused(states: seq<State>, labels: seq<Label>, i: nat, id: ReleaseId, a: Path, m: ModuleId, p: Path)
    requires Run(states, labels) && i < |labels| && a.Artifact?
    requires states[i + 1].world != states[i].world && !labels[i].event.Purged?
    ensures labels[i].thread in states[i].threads
    ensures Caused(states[i].world, states[i].threads[labels[i].thread], labels[i].event, states[i + 1].world, id, a, m, p)
  {
    var s, l := states[i], labels[i];
    ReachableInv(states, labels, i);
    assert StepAt(states, labels, i);
    ChangesComeFromCalls(s, l.thread, l.event, states[i + 1]);
    JobCaused(s.world, s.threads[l.thread], l.event, id, a, m, p);
  }

  lemma RetentionOnlyPurges(states: seq<State>, labels: seq<Label>, i: nat)
    requires Run(states, labels) && i < |labels| && labels[i].event.Purged?
    ensures var w, w' := states[i].world, states[i + 1].world;
            && w'.objects == w.objects && w'.tables.releases == w.tables.releases
            && w'.tables.modules == w.tables.modules && w'.tables.deletions == w.tables.deletions
            && w'.tables.tombstones == w.tables.tombstones - labels[i].event.tombstones
  {
    var s, l := states[i], labels[i];
    ReachableInv(states, labels, i);
    assert StepAt(states, labels, i);
    if l.thread in s.threads { PurgeIsNoCall(s, l.thread, l.event, states[i + 1]); }
  }

  lemma PurgeIsNoCall(s: State, t: Tid, e: Event, s': State)
    requires Inv(s) && t in s.threads && e.Purged? && Step(s, t, e, s')
    ensures PurgeStep(s, e, s')
  {
    if ThreadStep(s, t, e, s') {
      var pc := s.threads[t].pc;
      if !ControlPoint(pc) {
        CallsAreReady(s, t);
        PurgeIsNoEvent(s.world, s.threads[t], e);
      }
    }
  }

  lemma PurgeIsNoEvent(w: World, th: Thread, e: Event)
    requires Ready(w, th) && e.Purged?
    ensures JobMove(w, th, e).Stuck?
  {
  }

  /** A row that changes has been published, indexed, restored, hydrated, given its checksums, or deleted. */
  lemma RowsHaveCauses(states: seq<State>, labels: seq<Label>, i: nat, id: ReleaseId)
    requires Run(states, labels) && i < |labels|
    requires RowAt(states[i + 1].world.tables, id) != RowAt(states[i].world.tables, id)
    ensures labels[i].thread in states[i].threads
    ensures var w, w', th, e := states[i].world, states[i + 1].world, states[i].threads[labels[i].thread], labels[i].event;
            var before, after := RowAt(w.tables, id), RowAt(w'.tables, id);
            match after
            case None => DeletesRow(th.job, id)
            case Some(r) => || PublishesRow(w, th.job, id, before, r) || IndexesRow(w, th.job, id, before, r)
                            || RestoresRow(th.job, e, id, before, r) || HydratesRow(th.job, th.pc, id, before, r)
                            || ChecksumsRow(w, th.job, th.pc, id, before, r)
  {
    if labels[i].event.Purged? { RetentionOnlyPurges(states, labels, i); }
    ChangesAreCaused(states, labels, i, id, Artifact(id, NoDigest), id.mod, Other(""));
  }

  /**
   An artifact enters the queue only from a row, and whenever its row lets go of it; it
   leaves the queue only for a row, or when a worker is through with it.
   */
  lemma QueueHasCauses(states: seq<State>, labels: seq<Label>, i: nat, a: Path)
    requires Run(states, labels) && i < |labels| && a.Artifact?
    ensures var t, t' := states[i].world.tables, states[i + 1].world.tables;
            && (a !in t.deletions && a in t'.deletions ==> References(t, a))
            && (References(t, a) && !References(t', a) ==> a in t'.deletions)
            && (a in t.deletions && a !in t'.deletions && !References(t', a) ==>
                  labels[i].thread in states[i].threads
                  && var pc := states[i].threads[labels[i].thread].pc;
                     pc.Working? && pc.work.CompleteQueued? && pc.work.todo != [] && pc.work.todo[0].path == a)
  {
    var t, t' := states[i].world.tables, states[i + 1].world.tables;
    ReachableInv(states, labels, i);
    ReachableInv(states, labels, i + 1);
    ArtifactReference(t, a);
    ArtifactReference(t', a);
    if labels[i].event.Purged? {
      RetentionOnlyPurges(states, labels, i);
    } else if states[i + 1].world != states[i].world {
      ChangesAreCaused(states, labels, i, a.id, a, a.id.mod, Other(""));
    }
  }

  /** A module appears without versions and disappears without versions, by a job of its own, and without versions left it does. */
  lemma ModulesHaveCauses(states: seq<State>, labels: seq<Label>, i: nat, m: ModuleId)
    requires Run(states, labels) && i < |labels|
    ensures var t, t' := states[i].world.tables, states[i + 1].world.tables;
            && (m in t.modules && m !in t'.modules ==> forall id :: id in t'.releases ==> id.mod != m)
            && (m !in t.modules && m in t'.modules ==> t'.modules[m] == "" && forall id :: id in t'.releases ==> id.mod != m)
            && ((m in t.modules) != (m in t'.modules) ==>
                  labels[i].thread in states[i].threads && HomeOf(states[i].threads[labels[i].thread].job) == Some(m))
            && ((exists id :: id in t.releases && id.mod == m) && (forall id :: id in t'.releases ==> id.mod != m) ==>
                  m !in t'.modules)
  {
    var t, t' := states[i].world.tables, states[i + 1].world.tables;
    NoVersions(t, m);
    NoVersions(t', m);
    if labels[i].event.Purged? {
      RetentionOnlyPurges(states, labels, i);
    } else if states[i + 1].world != states[i].world {
      ChangesAreCaused(states, labels, i, ReleaseId(m, ""), Artifact(ReleaseId(m, ""), NoDigest), m, Other(""));
    }
  }

  lemma NoVersions(t: Tables, m: ModuleId)
    ensures Versions(t, m) == {} <==> forall id :: id in t.releases ==> id.mod != m
  {
    forall id | id in t.releases && id.mod == m ensures Versions(t, m) != {} { assert id.version in Versions(t, m); }
  }

  /** The content of an object never changes, and objects come and go only so. */
  lemma ObjectsHaveCauses(states: seq<State>, labels: seq<Label>, i: nat, p: Path)
    requires Run(states, labels) && i < |labels|
    requires states[i + 1].world.objects != states[i].world.objects
    ensures labels[i].thread in states[i].threads
    ensures ObjectCause(states[i].world, states[i].threads[labels[i].thread], labels[i].event, states[i + 1].world, p)
  {
    if labels[i].event.Purged? { RetentionOnlyPurges(states, labels, i); }
    var id := ReleaseId(ModuleId("", ""), "");
    ChangesAreCaused(states, labels, i, id, Artifact(id, NoDigest), id.mod, p);
  }

  /* ---------- tombstones ---------- */

  /** Deleting an upstream release leaves its tombstone; deleting a local one leaves all tombstones as they are. */
  lemma DeletionBuriesUpstream(states: seq<State>, labels: seq<Label>, i: nat, th: Thread, id: ReleaseId)
    requires Run(states, labels) && i < |labels| && Acting(states, labels, i, th) && th.job.DeleteRelease?
    requires id in states[i].world.tables.releases && id !in states[i + 1].world.tables.releases
    ensures th.job.id == id
    ensures states[i + 1].world.tables.tombstones
            == states[i].world.tables.tombstones + if states[i].world.tables.releases[id].source == Source.Upstream then {id} else {}
  {
    var t, t' := states[i].world.tables, states[i + 1].world.tables;
    RowsHaveCauses(states, labels, i, id);
    forall x ensures x in t'.tombstones <==> x in t.tombstones || (x == id && t.releases[id].source == Source.Upstream) {
      ChangesAreCaused(states, labels, i, x, Artifact(id, NoDigest), id.mod, Other(""));
    }
  }

  /** Retention purges the tombstone, or the module is being deleted. */
  ghost predicate Digs(states: seq<State>, labels: seq<Label>, k: int, id: ReleaseId)
    requires 0 <= k < |labels| && k < |states|
  {
    || (labels[k].event.Purged? && id in labels[k].event.tombstones)
    || (labels[k].thread in states[k].threads && states[k].threads[labels[k].thread].job == DeleteModule(id.mod))
  }

  ghost predicate IndexAdds(states: seq<State>, labels: seq<Label>, k: int, id: ReleaseId)
    requires 0 <= k < |labels| && k + 1 < |states|
  {
    && labels[k].thread in states[k].threads && states[k].threads[labels[k].thread].job.Index?
    && id !in states[k].world.tables.releases && id in states[k + 1].world.tables.releases
  }

  /** Until then indexing does not bring a deleted upstream release back. */
  lemma {:induction false} BuriedStaysAway(states: seq<State>, labels: seq<Label>, i: nat, j: nat, id: ReleaseId)
    requires Run(states, labels) && i <= j < |states| && id in states[i].world.tables.tombstones
    requires forall k :: i <= k < j ==> !Digs(states, labels, k, id)
    ensures id in states[j].world.tables.tombstones
    ensures forall k :: i <= k < j ==> !IndexAdds(states, labels, k, id)
    decreases j
  {
    if i < j {
      BuriedStaysAway(states, labels, i, j - 1, id);
      BuriedOneStep(states, labels, j - 1, id);
    }
  }

  lemma BuriedOneStep(states: seq<State>, labels: seq<Label>, k: nat, id: ReleaseId)
    requires Run(states, labels) && k < |labels| && id in states[k].world.tables.tombstones && !Digs(states, labels, k, id)
    ensures id in states[k + 1].world.tables.tombstones && !IndexAdds(states, labels, k, id)
  {
    if labels[k].event.Purged? {
      RetentionOnlyPurges(states, labels, k);
    } else if states[k + 1].world != states[k].world {
      ChangesAreCaused(states, labels, k, id, Artifact(id, NoDigest), id.mod, Other(""));
    }
  }

  /** A deleted upstream release: whatever indexes afterwards, it stays away until it may be dug up. */
  lemma DeletedUpstreamStaysAway(states: seq<State>, labels: seq<Label>, i: nat, j: nat, th: Thread, id: ReleaseId)
    requires Run(states, labels) && i < j < |states| && Acting(states, labels, i, th) && th.job.DeleteRelease?
    requires id in states[i].world.tables.releases && id !in states[i + 1].world.tables.releases
    requires states[i].world.tables.releases[id].source == Source.Upstream
    requires forall k :: i < k < j ==> !Digs(states, labels, k, id)
    ensures id in states[j].world.tables.tombstones
    ensures forall k :: i < k < j ==> !IndexAdds(states, labels, k, id)
  {
    DeletionBuriesUpstream(states, labels, i, th, id);
    BuriedStaysAway(states, labels, i + 1, j, id);
  }

  /* ---------- a publish that gives up ---------- */

  /** A publish on its way out: once its object is deleted it stays so, and its module goes if it is empty. */
  ghost predicate GivingUp(w: World, th: Thread)
  {
    && th.job.Publish?
    && var gone := Artifact(th.job.id, Sha256(th.job.body)) !in w.objects;
    || th.pc == Ended(Failed)
    || (th.held == Some(th.job.id.mod)
        && (|| th.pc in {Publishing(RereadPublish(false)), Publishing(Compensate)}
            || (th.pc == Publishing(DropModule) && gone)
            || (th.pc == Unlock(Ended(Failed)) && gone && NotEmpty(w.tables, th.job.id.mod))))
  }

  ghost predicate NotEmpty(t: Tables, m: ModuleId) { m in t.modules ==> exists id :: id in t.releases && id.mod == m }

  lemma GivingUpCall(w: World, th: Thread)
    requires th.pc.Publishing? && GivingUp(w, th) && Ready(w, th)
    ensures var move := JobMove(w, th, Go); move.Move? ==> GivingUp(move.world, th.(pc := move.pc))
  {
    if th.pc == Publishing(DropModule) {
      DropsModule(w, th);
    } else if th.pc == Publishing(Compensate) {
      Compensates(w, th);
    } else {
      assert PublishKnows(w, th.job, RereadPublish(false));
      RereadsInVain(w, th);
    }
  }

  lemma RereadsInVain(w: World, th: Thread)
    requires th.job.Publish? && th.pc == Publishing(RereadPublish(false)) && !RowHolds(w.tables, Artifact(th.job.id, Sha256(th.job.body)))
    ensures JobMove(w, th, Go) == Ok(w, Publishing(Compensate))
  {
  }

  lemma Compensates(w: World, th: Thread)
    requires th.job.Publish? && th.pc == Publishing(Compensate)
    ensures var move := JobMove(w, th, Go);
            move.Move? && move.pc == Publishing(DropModule) && Artifact(th.job.id, Sha256(th.job.body)) !in move.world.objects
  {
  }

  lemma DropsModule(w: World, th: Thread)
    requires th.job.Publish? && th.pc == Publishing(DropModule)
    ensures var move := JobMove(w, th, Go);
            && move.Move? && move.pc == Unlock(Ended(Failed)) && move.world.objects == w.objects
            && NotEmpty(move.world.tables, th.job.id.mod)
  {
    NoVersions(w.tables, th.job.id.mod);
  }

  lemma OwnStepGivesUp(s: State, t: Tid, s': State)
    requires Inv(s) && Step(s, t, Go, s') && t in s.threads && GivingUp(s.world, s.threads[t])
    ensures t in s'.threads && GivingUp(s'.world, s'.threads[t])
  {
    if s.threads[t].pc.Publishing? {
      CallsAreReady(s, t);
      GivingUpCall(s.world, s.threads[t]);
      assert JobStep(s, t, Go, s');
    }
  }

  lemma OtherStepLetsGiveUp(s: State, t: Tid, u: Tid, e: Event, s': State)
    requires Inv(s) && Step(s, u, e, s') && t in s.threads && u != t && GivingUp(s.world, s.threads[t])
    ensures t in s'.threads && GivingUp(s'.world, s'.threads[t])
  {
    OtherThreadsStay(s, u, e, s', t);
    var th := s.threads[t];
    if !th.pc.Ended? && s'.world != s.world {
      if e.Purged? && u !in s.threads {
      } else if e.Purged? {
        PurgeIsNoCall(s, u, e, s');
      } else {
        ChangesComeFromCalls(s, u, e, s');
        JobSafe(s.world, s.threads[u], e);
        assert s.threads[u].held != th.held by { assert ThreadOk(s, u) && ThreadOk(s, t); }
        SameModuleLetsGiveUp(s.world, s'.world, th);
      }
    }
  }

  lemma SameModuleLetsGiveUp(w: World, w': World, th: Thread)
    requires GivingUp(w, th) && SameModule(w, w', th.job.id.mod)
    ensures GivingUp(w', th)
  {
    var m := th.job.id.mod;
    if NotEmpty(w.tables, m) && m in w'.tables.modules {
      var id :| id in w.tables.releases && id.mod == m;
      assert id in w'.tables.releases;
    }
  }

  /**
   A publish whose commit failed without effect, or that never got that far, and whose own
   calls work from there on: when it gives up its lock its object is gone, and so is
   its module if there is no release in it, whatever other threads do meanwhile.
   */
  lemma {:induction false} FailedPublishLeavesNothing(states: seq<State>, labels: seq<Label>, i: nat, j: nat, t: Tid)
    requires Run(states, labels) && i <= j < |states| && t in states[i].threads
    requires states[i].threads[t].pc in {Publishing(RereadPublish(false)), Publishing(Compensate)}
    requires forall k :: i <= k < j && labels[k].thread == t ==> labels[k].event == Go
    ensures t in states[j].threads && GivingUp(states[j].world, states[j].threads[t])
    decreases j
  {
    if i < j {
      FailedPublishLeavesNothing(states, labels, i, j - 1, t);
      GivesUpOneStep(states, labels, j - 1, t);
    } else {
      StartsGivingUp(states, labels, i, t);
    }
  }

  lemma StartsGivingUp(states: seq<State>, labels: seq<Label>, i: nat, t: Tid)
    requires Run(states, labels) && i < |states| && t in states[i].threads
    requires states[i].threads[t].pc in {Publishing(RereadPublish(false)), Publishing(Compensate)}
    ensures GivingUp(states[i].world, states[i].threads[t])
  {
    ReachableInv(states, labels, i);
    assert ThreadOk(states[i], t);
  }

  lemma GivesUpOneStep(states: seq<State>, labels: seq<Label>, k: nat, t: Tid)
    requires Run(states, labels) && k < |labels| && t in states[k].threads && GivingUp(states[k].world, states[k].threads[t])
    requires labels[k].thread == t ==> labels[k].event == Go
    ensures t in states[k + 1].threads && GivingUp(states[k + 1].world, states[k + 1].threads[t])
  {
    ReachableInv(states, labels, k);
    assert StepAt(states, labels, k);
    if labels[k].thread == t {
      OwnStepGivesUp(states[k], t, states[k + 1]);
    } else {
      OtherStepLetsGiveUp(states[k], t, labels[k].thread, labels[k].event, states[k + 1]);
    }
  }

  /** A registration that fails without effect is such a publish from its next step on. */
  lemma FailedRegistrationGivesUp(states: seq<State>, labels: seq<Label>, i: nat, t: Tid)
    requires Run(states, labels) && i < |labels| && labels[i].thread == t && t in states[i].threads
    requires || (states[i].threads[t].pc == Publishing(UpsertForPublish) && labels[i].event.Fault?)
             || (states[i].threads[t].pc == Publishing(CommitPublish) && labels[i].event == Fault(false))
    ensures t in states[i + 1].threads
            && states[i + 1].threads[t].pc in {Publishing(RereadPublish(false)), Publishing(Compensate)}
  {
    ReachableInv(states, labels, i);
    assert StepAt(states, labels, i);
    CallsAreReady(states[i], t);
    FailureIsCall(states[i], t, labels[i].event, states[i + 1]);
  }

  lemma FailureIsCall(s: State, t: Tid, e: Event, s': State)
    requires Step(s, t, e, s') && t in s.threads && e.Fault? && !ControlPoint(s.threads[t].pc)
    ensures JobStep(s, t, e, s')
  {
  }

  /* ---------- what a thread decides ---------- */

  /** The thread t at a call that works. */
  ghost predicate AtCall(states: seq<State>, i: nat, t: Tid, pc: Pc)
    requires i < |states|
  {
    t in states[i].threads && states[i].threads[t].pc == pc
  }

  /**
   A hashed archive goes on to be recorded exactly when it has what an upstream row says of
   its checksum and size; an object that is not there is looked for once more.
   */
  lemma ArchiveIsRecordedOrRefused(states: seq<State>, labels: seq<Label>, i: nat, t: Tid, snapshot: Row, p: Path, retries: nat)
    requires Run(states, labels) && i < |states| && AtCall(states, i, t, Hashing(HashArchive(snapshot, p, retries)))
    ensures var w, th := states[i].world, states[i].threads[t];
            var move := JobMove(w, th, Go);
            && move.Move? && move.world == w
            && (if p !in w.objects then
                  th.lease.Some? && retries > 0 ==> move.pc == EndLease(WaitLease(p, Hashing(HashArchive(snapshot, p, retries - 1))))
                else if || snapshot.source == Local
                        || (snapshot.sha in {NoDigest, Sha256(w.objects[p])} && snapshot.size in {0, |w.objects[p]|}) then
                  move.pc == Wait(th.job.id.mod, Hashing(RereadChecksum(snapshot, p, w.objects[p], retries)))
                else move.pc == EndLease(Ended(Failed)))
  {
    ReachableInv(states, labels, i);
    CallsAreReady(states[i], t);
  }

  /**
   Checksums are left alone exactly when all three are recorded and an upstream archive
   is cached; else the archive is hashed if it can be had.
   */
  lemma ChecksumsAreLoaded(states: seq<State>, labels: seq<Label>, i: nat, t: Tid, id: ReleaseId)
    requires Run(states, labels) && i < |states| && AtCall(states, i, t, Hashing(LoadRelease))
    requires states[i].threads[t].job.Checksum? && states[i].threads[t].job.id == id && id in states[i].world.tables.releases
    ensures var w := states[i].world;
            var row, move := w.tables.releases[id], JobMove(w, states[i].threads[t], Go);
            var complete := row.md5 != "" && row.sha != NoDigest && row.size > 0;
            && move.Move? && move.world == w
            && (move.pc == Ended(Finished) <==>
                  complete && (row.source == Local || (row.path.Some? && row.path.value in w.objects)))
            && (row.source == Local && !complete ==> move.pc == Hashing(HashArchive(row, Artifact(id, row.sha), 0)))
            && (row.source == Source.Upstream && !complete && row.path.Some? && row.uri != "" && w.upstream ==>
                  move.pc == WaitLease(row.path.value, Hashing(HashArchive(row, row.path.value, 1))))
            && (row.source == Source.Upstream && row.path.None? && row.uri != "" && w.upstream ==>
                  move.pc == WaitLease(Cached(row.uri), Hashing(HashArchive(row, Cached(row.uri), 1))))
  {
    ReachableInv(states, labels, i);
    CallsAreReady(states[i], t);
    assert WellFormedRow(id, states[i].world.tables.releases[id]);
  }

  /** Under the lock, a checksum is written exactly when the row is still the one that was hashed for. */
  lemma ChecksumsAreRecordedExactly(states: seq<State>, labels: seq<Label>, i: nat, t: Tid,
                                    snapshot: Row, p: Path, body: Bytes, retries: nat)
    requires Run(states, labels) && i < |states| && AtCall(states, i, t, Hashing(RereadChecksum(snapshot, p, body, retries)))
    requires states[i].threads[t].job.Checksum?
    ensures var w, id, move := states[i].world, states[i].threads[t].job.id, JobMove(states[i].world, states[i].threads[t], Go);
            && move.Move? && move.world == w
            && (move.pc == Hashing(CommitChecksum(snapshot, p, body)) <==> id in w.tables.releases && w.tables.releases[id] == snapshot)
            && (!move.pc.Hashing? ==> move.pc.Unlock?)
  {
    ReachableInv(states, labels, i);
    CallsAreReady(states[i], t);
  }

  /** And a hydration exactly when it is still the row that was fetched for, which has no location. */
  lemma HydrationsAreWrittenExactly(states: seq<State>, labels: seq<Label>, i: nat, t: Tid, snapshot: Row, fetched: Fetched)
    requires Run(states, labels) && i < |states| && AtCall(states, i, t, Hydrating(RereadHydrate(snapshot, fetched)))
    requires states[i].threads[t].job.Hydrate?
    ensures var w, id, move := states[i].world, states[i].threads[t].job.id, JobMove(states[i].world, states[i].threads[t], Go);
            && move.Move? && move.world == w
            && (move.pc.Hydrating? <==> id in w.tables.releases && w.tables.releases[id] == snapshot && snapshot.uri == "")
            && (!move.pc.Hydrating? ==> move.pc.Unlock?)
  {
    ReachableInv(states, labels, i);
    CallsAreReady(states[i], t);
  }

  /** A publish is refused exactly when other content is registered for the release and it was not asked to replace it. */
  lemma ConflictIsRefused(states: seq<State>, labels: seq<Label>, i: nat, t: Tid)
    requires Run(states, labels) && i < |states| && AtCall(states, i, t, Publishing(ReadExisting)) && states[i].threads[t].job.Publish?
    ensures var w, job, move := states[i].world, states[i].threads[t].job, JobMove(states[i].world, states[i].threads[t], Go);
            && move.Move? && move.world == w
            && (move.pc == Publishing(VerifyRegistered) <==> LocalWith(states[i], job.id, Sha256(job.body)))
            && (move.pc == Unlock(Ended(Refused)) <==>
                  job.id in w.tables.releases && !LocalWith(states[i], job.id, Sha256(job.body)) && !job.replace)
            && (move.pc == Publishing(Upload) <==>
                  (job.id in w.tables.releases ==> !LocalWith(states[i], job.id, Sha256(job.body)) && job.replace))
  {
    ReachableInv(states, labels, i);
    CallsAreReady(states[i], t);
  }

  /** An object that is there already is compared with the archive before it is registered; one that was not is uploaded. */
  lemma UploadsAreVerified(states: seq<State>, labels: seq<Label>, i: nat, t: Tid)
    requires Run(states, labels) && i < |states| && AtCall(states, i, t, Publishing(Upload)) && states[i].threads[t].job.Publish?
    ensures var w, job, move := states[i].world, states[i].threads[t].job, JobMove(states[i].world, states[i].threads[t], Go);
            var p := Artifact(job.id, Sha256(job.body));
            && move.Move? && move.world.objects == (if p in w.objects then w.objects else w.objects[p := job.body])
            && move.pc == Publishing(if p in w.objects then VerifyObject else UpsertForPublish)
  {
    ReachableInv(states, labels, i);
    CallsAreReady(states[i], t);
  }

  /** From any state, reachable or not, a publish gets past a verification only with an object of exactly its bytes. */
  lemma OnlyIntactObjectsPass(states: seq<State>, labels: seq<Label>, i: nat, t: Tid)
    requires Chain(states, labels) && i < |labels| && labels[i].thread == t && t in states[i].threads
    requires states[i].threads[t].job.Publish? && states[i].threads[t].pc in {Publishing(VerifyRegistered), Publishing(VerifyObject)}
    requires t in states[i + 1].threads
             && states[i + 1].threads[t].pc in {Publishing(UpsertForPublish), Unlock(Ended(Published))}
    ensures var job, w := states[i].threads[t].job, states[i].world;
            var p := Artifact(job.id, Sha256(job.body));
            p in w.objects && w.objects[p] == job.body
  {
    assert StepAt(states, labels, i);
    VerificationPasses(states[i], t, labels[i].event, states[i + 1]);
  }

  lemma VerificationPasses(s: State, t: Tid, e: Event, s': State)
    requires Step(s, t, e, s') && t in s.threads && s.threads[t].job.Publish? && t in s'.threads
    requires s.threads[t].pc in {Publishing(VerifyRegistered), Publishing(VerifyObject)}
    requires s'.threads[t].pc in {Publishing(UpsertForPublish), Unlock(Ended(Published))}
    ensures var p := ArtifactOf(s.threads[t].job); p in s.world.objects && s.world.objects[p] == s.threads[t].job.body
  {
  }

  /** Pruning removes a cache entry exactly when no row names it. */
  lemma PruneRemovesUnreferenced(states: seq<State>, labels: seq<Label>, i: nat, t: Tid, p: Path)
    requires Run(states, labels) && i < |states|
    ensures AtCall(states, i, t, Pruning(CheckCached(p))) ==>
              var w, move := states[i].world, JobMove(states[i].world, states[i].threads[t], Go);
              move.Move? && move.world == w && (move.pc == Pruning(RemoveCached(p)) <==> !References(w.tables, p))
    ensures AtCall(states, i, t, Pruning(RemoveCached(p))) ==>
              var w, move := states[i].world, JobMove(states[i].world, states[i].threads[t], Go);
              move.Move? && move.world == w.(objects := w.objects - {p})
  {
    ReachableInv(states, labels, i);
    if t in states[i].threads && states[i].threads[t].pc.Pruning? { CallsAreReady(states[i], t); }
  }

  /** What the metadata says of an archive, the cached object has. */
  predicate Intact(w: World, p: Path, x: Expected)
  {
    p in w.objects && x.sha in {NoDigest, Sha256(w.objects[p])} && x.size in {0, |w.objects[p]|}
  }

  lemma CachedArchiveIsVerified(w: World, th: Thread, x: Expected)
    requires th.pc.Caching? && th.job.EnsureArtifact? && th.job.expected == Some(x) && Ready(w, th)
    ensures var p, move := Cached(th.job.file), JobMove(w, th, Go);
            && (th.pc.cache.VerifyCached? ==>
                  move == Ok(w, if Intact(w, p, x) then EndLease(Ended(Finished))
                                else if p in w.objects then Caching(RemoveCorrupt) else Caching(UploadCached)))
            && (th.pc.cache.VerifyFetched? ==>
                  move == Ok(w, if Intact(w, p, x) then EndLease(Ended(Finished)) else Caching(RemoveFetched)))
  {
    assert JobMove(w, th, Go) == EnsureMove(w, th, Go);
  }

  /** A cached archive is taken as it is exactly when it is intact; another is deleted, and it is fetched when there is none. */
  lemma CachedArchivesAreVerified(states: seq<State>, labels: seq<Label>, i: nat, t: Tid, x: Expected)
    requires Run(states, labels) && i < |states| && AtCall(states, i, t, Caching(VerifyCached))
    requires states[i].threads[t].job.EnsureArtifact? && states[i].threads[t].job.expected == Some(x)
    ensures var w, p := states[i].world, Cached(states[i].threads[t].job.file);
            JobMove(w, states[i].threads[t], Go)
            == Ok(w, if Intact(w, p, x) then EndLease(Ended(Finished))
                     else if p in w.objects then Caching(RemoveCorrupt) else Caching(UploadCached))
  {
    ReachableInv(states, labels, i);
    CallsAreReady(states[i], t);
    CachedArchiveIsVerified(states[i].world, states[i].threads[t], x);
  }

  /** So is a fetched one, and one that is not intact is deleted again. */
  lemma FetchedArchivesAreVerified(states: seq<State>, labels: seq<Label>, i: nat, t: Tid, x: Expected)
    requires Run(states, labels) && i < |states| && AtCall(states, i, t, Caching(VerifyFetched))
    requires states[i].threads[t].job.EnsureArtifact? && states[i].threads[t].job.expected == Some(x)
    ensures var w, p := states[i].world, Cached(states[i].threads[t].job.file);
            JobMove(w, states[i].threads[t], Go)
            == Ok(w, if Intact(w, p, x) then EndLease(Ended(Finished)) else Caching(RemoveFetched))
  {
    ReachableInv(states, labels, i);
    CallsAreReady(states[i], t);
    CachedArchiveIsVerified(states[i].world, states[i].threads[t], x);
  }

  /** A guarded deletion goes through exactly when the version is not the module's latest. */
  lemma GuardRefusesExactlyTheLatest(states: seq<State>, labels: seq<Label>, i: nat, t: Tid, id: ReleaseId)
    requires Run(states, labels) && i < |states| && AtCall(states, i, t, Deleting(CheckLatest))
    requires states[i].threads[t].job.DeleteRelease? && states[i].threads[t].job.id == id && id in states[i].world.tables.releases
    ensures var w, move := states[i].world, JobMove(states[i].world, states[i].threads[t], Go);
            && move.Move? && move.world == w && id.mod in w.tables.modules
            && move.pc == if w.tables.modules[id.mod] == id.version then Unlock(Ended(Refused)) else Deleting(CommitDelete)
  {
    ReachableInv(states, labels, i);
    CallsAreReady(states[i], t);
  }

  /* ---------- calls that worked ---------- */

  ghost predicate Recorded(w: World, id: ReleaseId, sha: Digest, path: Option<Path>, size: nat, md5: string)
  {
    id in w.tables.releases
    && var r := w.tables.releases[id]; r.sha == sha && r.path == path && r.size == size && r.md5 == md5
  }

  /** What the caller may rely on after a call that worked, or whose effect the event tells. */
  ghost predicate TookEffect(th: Thread, e: Event, w': World)
  {
    match th.pc
    case Publishing(pub) =>
      e == Go && th.job.Publish? ==>
        && (pub.Upload? ==> Artifact(th.job.id, Sha256(th.job.body)) in w'.objects)
        && (pub.UpsertForPublish? ==> th.job.id.mod in w'.tables.modules)
        && (pub.Compensate? ==> Artifact(th.job.id, Sha256(th.job.body)) !in w'.objects)
    case Deleting(del) =>
      && (e.Recomputed? && th.job.DeleteRelease? ==> th.job.id !in w'.tables.releases)
      && (e == Go && th.job.DeleteModule? ==>
            th.job.mod !in w'.tables.modules && forall id :: id in w'.tables.releases ==> id.mod != th.job.mod)
    case Working(work) =>
      e == Go ==>
        && (work.RemoveQueued? ==> work.todo != [] && work.todo[0].path !in w'.objects)
        && (work.CompleteQueued? ==> work.todo != [] && work.todo[0].path !in w'.tables.deletions)
    case Repairing(rep) => e == Go && rep.RemoveOrphan? ==> rep.path !in w'.objects
    case Hydrating(hyd) =>
      e == Go && hyd.CommitHydrate? && th.job.Hydrate? ==>
        th.job.id in w'.tables.releases && w'.tables.releases[th.job.id] == Filled(hyd.snapshot, hyd.fetched)
    case Hashing(sum) =>
      e == Go && sum.CommitChecksum? && th.job.Checksum? ==>
        Recorded(w', th.job.id, Sha256(sum.body), Some(sum.path), |sum.body|, th.job.md5)
    case Pruning(prune) => e == Go && prune.RemoveCached? ==> prune.path !in w'.objects
    case Caching(cache) =>
      th.job.EnsureArtifact? ==>
        && (e == Go && (cache.RemoveCorrupt? || cache.RemoveFetched?) ==> Cached(th.job.file) !in w'.objects)
        && (e.Bytes? && cache.UploadCached? ==> Cached(th.job.file) in w'.objects)
    case Indexing(ups) =>
      && (e == Go && ups.UpsertUpstream? && (th.job.Index? || th.job.Restore?) ==> IndexHome(th.job) in w'.tables.modules)
      && (e.Upstream? && ups.CreateUpstream? ==> ups.id in w'.tables.releases)
    case Wait(_, _) => true
    case WaitLease(_, _) => true
    case Unlock(_) => true
    case EndLease(_) => true
    case Ended(_) => true
  }

  lemma CallsThatWorkTakeEffect(states: seq<State>, labels: seq<Label>, i: nat, th: Thread)
    requires Run(states, labels) && i < |labels| && Acting(states, labels, i, th)
    ensures TookEffect(th, labels[i].event, states[i + 1].world)
  {
    var s, l := states[i], labels[i];
    ReachableInv(states, labels, i);
    assert StepAt(states, labels, i);
    if !ControlPoint(th.pc) && (l.event == Go || l.event.Upstream? || l.event.Bytes? || l.event.Recomputed?) {
      EventIsCall(s, l.thread, l.event, states[i + 1]);
      CallsAreReady(s, l.thread);
      CallTakesEffect(s.world, th, l.event);
    }
  }

  lemma EventIsCall(s: State, t: Tid, e: Event, s': State)
    requires Step(s, t, e, s') && t in s.threads && (e == Go || e.Upstream? || e.Bytes? || e.Recomputed?)
    ensures !ControlPoint(s.threads[t].pc) ==> JobStep(s, t, e, s')
  {
  }

  lemma CallTakesEffect(w: World, th: Thread, e: Event)
    requires Ready(w, th)
    ensures var move := JobMove(w, th, e); move.Move? ==> TookEffect(th, e, move.world)
  {
    match th.job
    case Publish(_, _, _, _, _) => PublishTakesEffect(w, th, e);
    case DeleteRelease(_, _) => DeleteReleaseTakesEffect(w, th, e);
    case DeleteModule(_) => DeleteModuleTakesEffect(w, th, e);
    case Worker =>
    case Repair =>
    case Hydrate(_) => HydrateTakesEffect(w, th, e);
    case Checksum(_, _) => ChecksumTakesEffect(w, th, e);
    case Prune =>
    case EnsureArtifact(_, _) =>
    case Index(_) => UpstreamTakesEffect(w, th, e);
    case Restore(_) => UpstreamTakesEffect(w, th, e);
  }

  lemma PublishTakesEffect(w: World, th: Thread, e: Event)
    requires th.job.Publish? && Ready(w, th)
    ensures var move := JobMove(w, th, e); move.Move? ==> TookEffect(th, e, move.world)
  {
  }

  lemma DeleteReleaseTakesEffect(w: World, th: Thread, e: Event)
    requires th.job.DeleteRelease? && Ready(w, th)
    ensures var move := JobMove(w, th, e); move.Move? ==> TookEffect(th, e, move.world)
  {
  }

  lemma DeleteModuleTakesEffect(w: World, th: Thread, e: Event)
    requires th.job.DeleteModule? && Ready(w, th)
    ensures var move := JobMove(w, th, e); move.Move? ==> TookEffect(th, e, move.world)
  {
  }

  lemma HydrateTakesEffect(w: World, th: Thread, e: Event)
    requires th.job.Hydrate? && Ready(w, th)
    ensures var move := JobMove(w, th, e); move.Move? ==> TookEffect(th, e, move.world)
  {
    if th.pc.Hydrating? && th.pc.hyd.CommitHydrate? { HydrationFills(w, th); }
  }

  lemma ChecksumTakesEffect(w: World, th: Thread, e: Event)
    requires th.job.Checksum? && Ready(w, th)
    ensures var move := JobMove(w, th, e); move.Move? ==> TookEffect(th, e, move.world)
  {
  }

  lemma UpstreamTakesEffect(w: World, th: Thread, e: Event)
    requires (th.job.Index? || th.job.Restore?) && Ready(w, th)
    ensures var move := JobMove(w, th, e); move.Move? ==> TookEffect(th, e, move.world)
  {
  }
}
