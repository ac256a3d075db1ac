/**
 What the lifecycle guarantees: over every run, however requests, workers,
 crashes and half-failed calls interleave.
 */
module LifecycleTheorems {
  import opened Version
  import opened Store
  import opened Lifecycle
  import opened LifecycleInvariant
  import opened LifecycleSteps
  import opened LifecycleEffects

  datatype Label = Label(thread: Tid, event: Event)

  ghost predicate StepAt(states: seq<State>, labels: seq<Label>, i: int)
    requires 0 <= i < |labels| && |states| == |labels| + 1
  {
    Step(states[i], labels[i].thread, labels[i].event, states[i + 1])
  }

  /** Any number of steps, one after another. */
  ghost predicate Chain(states: seq<State>, labels: seq<Label>)
  {
    |states| == |labels| + 1 && forall i :: 0 <= i < |labels| ==> StepAt(states, labels, i)
  }

  ghost predicate Run(states: seq<State>, labels: seq<Label>) { Chain(states, labels) && Init(states[0]) }

  lemma {:induction false} ReachableInv(states: seq<State>, labels: seq<Label>, i: nat)
    requires Run(states, labels) && i < |states|
    ensures Inv(states[i])
  {
    if i > 0 {
      ReachableInv(states, labels, i - 1);
      assert StepAt(states, labels, i - 1);
      StepKeepsInv(states[i - 1], labels[i - 1].thread, labels[i - 1].event, states[i]);
    }
  }

  /* ---------- no dangling release ---------- */

  /** Every local release can be downloaded, and what is downloaded has the recorded checksum and size. */
  lemma NoDanglingRelease(states: seq<State>, labels: seq<Label>, i: nat, id: ReleaseId)
    requires Run(states, labels) && i < |states|
    requires id in states[i].world.tables.releases && states[i].world.tables.releases[id].source == Local
    ensures var w := states[i].world;
            var row := w.tables.releases[id];
            row.path.Some? && row.path.value in w.objects
            && Sha256(w.objects[row.path.value]) == row.sha && |w.objects[row.path.value]| == row.size
  {
    ReachableInv(states, labels, i);
  }

  /** No step removes an artifact that a row names or that another thread is about to commit. */
  lemma RemovedArtifactsAreDead(states: seq<State>, labels: seq<Label>, i: nat, p: Path)
    requires Run(states, labels) && i < |labels|
    requires p.Artifact? && p in states[i].world.objects && p !in states[i + 1].world.objects
    ensures !References(states[i].world.tables, p)
    ensures forall u :: u in states[i].threads && u != labels[i].thread ==> !InFlight(states[i].threads[u], p)
  {
    ReachableInv(states, labels, i);
    assert StepAt(states, labels, i);
    RemovalSparesTheLiving(states[i], labels[i].thread, labels[i].event, states[i + 1], p);
  }

  /** The thread at work in a step, unless it is retention that acts. */
  ghost predicate Acting(states: seq<State>, labels: seq<Label>, i: nat, th: Thread)
    requires i < |labels| && i < |states|
  {
    labels[i].thread in states[i].threads && th == states[i].threads[labels[i].thread] && !labels[i].event.Purged?
  }

  /** Pruning spares every cache entry that a row names at that moment. */
  lemma PruneSparesReferenced(states: seq<State>, labels: seq<Label>, i: nat, th: Thread, p: Path)
    requires Run(states, labels) && i < |labels| && Acting(states, labels, i, th) && th.job.Prune?
    requires p in states[i].world.objects && p !in states[i + 1].world.objects
    ensures !References(states[i].world.tables, p) && th.lease == PruneLease(states[i].world, p)
  {
    ReachableInv(states, labels, i);
    assert StepAt(states, labels, i);
    PruneStep(states[i], labels[i].thread, labels[i].event, states[i + 1], p);
  }

  /* ---------- the outbox ---------- */

  ghost predicate Quiescent(s: State) { forall t :: t in s.threads ==> s.threads[t].pc.Ended? }

  /** Never both referenced and queued, on any run. */
  lemma OutboxExclusive(states: seq<State>, labels: seq<Label>, i: nat, p: Path)
    requires Run(states, labels) && i < |states| && p in states[i].world.tables.deletions
    ensures !References(states[i].world.tables, p) && p.Artifact?
  {
    ReachableInv(states, labels, i);
  }

  /** If no call failed and no thread crashed, a state at rest has lost track of no artifact. */
  lemma OutboxConservation(states: seq<State>, labels: seq<Label>, i: nat, p: Path)
    requires Run(states, labels) && i < |states| && states[i].clean && Quiescent(states[i])
    requires p.Artifact? && p in states[i].world.objects
    ensures References(states[i].world.tables, p) <==> p !in states[i].world.tables.deletions
  {
    var s := states[i];
    ReachableInv(states, labels, i);
    ArtifactReference(s.world.tables, p);
    assert !BeingPublished(s, p);
  }

  /** With the queue drained, the artifacts are exactly those that rows name. */
  lemma DrainedQueueLeavesReferencedArtifacts(states: seq<State>, labels: seq<Label>, i: nat, p: Path)
    requires Run(states, labels) && i < |states| && states[i].clean && Quiescent(states[i])
    requires states[i].world.tables.deletions == map[] && p.Artifact?
    ensures p in states[i].world.objects <==> References(states[i].world.tables, p)
  {
    ReachableInv(states, labels, i);
    ArtifactReference(states[i].world.tables, p);
    if p in states[i].world.objects { OutboxConservation(states, labels, i, p); }
  }

  /** Every deletion a worker took on is counted once, however stale its listing. */
  lemma WorkerTallyBalances(states: seq<State>, labels: seq<Label>, i: nat, t: Tid)
    requires Run(states, labels) && i < |states| && t in states[i].threads && states[i].threads[t].pc.Ended?
    requires states[i].threads[t].pc.outcome.Processed?
    ensures var tally := states[i].threads[t].pc.outcome.tally;
            tally.attempted == tally.deleted + tally.canceled + tally.failed
  {
    ReachableInv(states, labels, i);
    assert ThreadOk(states[i], t);
  }

  /* ---------- release identity ---------- */

  /** While a local release exists and nobody replaces it, its bytes are the same. */
  lemma {:induction false} LocalReleaseKeepsItsBytes(states: seq<State>, labels: seq<Label>, i: nat, j: nat,
                                                     id: ReleaseId, sha: Digest)
    requires Run(states, labels) && i <= j < |states| && LocalWith(states[i], id, sha)
    requires forall k :: i <= k <= j ==> id in states[k].world.tables.releases
    requires forall k :: i <= k < j ==> !ReplaceCommit(states[k], labels[k].thread, id)
    ensures LocalWith(states[j], id, sha)
    decreases j
  {
    if i < j {
      LocalReleaseKeepsItsBytes(states, labels, i, j - 1, id, sha);
      RunKeepsBytes(states, labels, j - 1, id, sha);
    }
  }

  lemma RunKeepsBytes(states: seq<State>, labels: seq<Label>, i: nat, id: ReleaseId, sha: Digest)
    requires Run(states, labels) && i < |labels| && LocalWith(states[i], id, sha)
    requires id in states[i + 1].world.tables.releases && !ReplaceCommit(states[i], labels[i].thread, id)
    ensures LocalWith(states[i + 1], id, sha)
  {
    var s, l := states[i], labels[i];
    ReachableInv(states, labels, i);
    assert StepAt(states, labels, i);
    StepKeepsLocalRow(s, l.thread, l.event, states[i + 1], id, sha);
  }

  /** A local release never turns into an upstream one without being deleted first. */
  lemma {:induction false} LocalNeverTurnsUpstream(states: seq<State>, labels: seq<Label>, i: nat, j: nat, id: ReleaseId)
    requires Run(states, labels) && i <= j < |states|
    requires forall k :: i <= k <= j ==> id in states[k].world.tables.releases
    requires LocalOrGone(states[i].world, id)
    ensures LocalOrGone(states[j].world, id)
    decreases j
  {
    if i < j {
      LocalNeverTurnsUpstream(states, labels, i, j - 1, id);
      RunKeepsLocal(states, labels, j - 1, id);
    }
  }

  lemma RunKeepsLocal(states: seq<State>, labels: seq<Label>, i: nat, id: ReleaseId)
    requires Run(states, labels) && i < |labels| && LocalOrGone(states[i].world, id) && id in states[i].world.tables.releases
    ensures LocalOrGone(states[i + 1].world, id)
  {
    var s, l := states[i], labels[i];
    ReachableInv(states, labels, i);
    assert StepAt(states, labels, i);
    StepKeepsLocalRow(s, l.thread, l.event, states[i + 1], id, s.world.tables.releases[id].sha);
  }

  /* ---------- what a request is told ---------- */

  /** A publish that is about to report success holds the lock over a release with exactly its bytes. */
  lemma PublishedIsTrue(states: seq<State>, labels: seq<Label>, i: nat, t: Tid)
    requires Run(states, labels) && i < |states| && t in states[i].threads
    requires states[i].threads[t].job.Publish? && states[i].threads[t].pc == Unlock(Ended(Published))
    ensures var job, w := states[i].threads[t].job, states[i].world;
            && states[i].threads[t].held == Some(job.id.mod)
            && LocalWith(states[i], job.id, Sha256(job.body))
            && w.tables.releases[job.id].path.Some? && w.tables.releases[job.id].path.value in w.objects
            && w.objects[w.tables.releases[job.id].path.value] == job.body
  {
    ReachableInv(states, labels, i);
    assert ThreadOk(states[i], t);
  }

  /** A deletion that is about to report success has left no row behind. */
  lemma DeletedIsTrue(states: seq<State>, labels: seq<Label>, i: nat, t: Tid, id: ReleaseId)
    requires Run(states, labels) && i < |states| && t in states[i].threads
    requires states[i].threads[t].pc == Unlock(Ended(Finished))
    requires states[i].threads[t].job == DeleteModule(id.mod)
             || (states[i].threads[t].job.DeleteRelease? && states[i].threads[t].job.id == id)
    ensures id !in states[i].world.tables.releases
  {
    ReachableInv(states, labels, i);
    assert ThreadOk(states[i], t);
  }

  /** An archive about to be reported ensured is in the cache under its lease, with what was expected of its checksum and size. */
  lemma EnsuredIsIntact(states: seq<State>, labels: seq<Label>, i: nat, t: Tid)
    requires Run(states, labels) && i < |states| && t in states[i].threads
    requires states[i].threads[t].job.EnsureArtifact? && states[i].threads[t].pc == EndLease(Ended(Finished))
    ensures var job, w := states[i].threads[t].job, states[i].world;
            var p := Cached(job.file);
            && states[i].threads[t].lease == Some(p) && p in w.objects && job.expected.Some?
            && (job.expected.value.sha != NoDigest ==> Sha256(w.objects[p]) == job.expected.value.sha)
            && (job.expected.value.size > 0 ==> |w.objects[p]| == job.expected.value.size)
  {
    ReachableInv(states, labels, i);
    assert ThreadOk(states[i], t);
  }

  /** Publishing registered bytes again: on the way, or done. */
  ghost predicate RepublishedOrGoing(s: State, t: Tid)
  {
    t in s.threads && (Republishing(s, t) || s.threads[t].pc == Ended(Published))
  }

  lemma RepublishedOrGoingStays(s: State, l: Label, s': State, t: Tid)
    requires Inv(s) && Step(s, l.thread, l.event, s') && RepublishedOrGoing(s, t) && (l.thread == t ==> l.event == Go)
    ensures RepublishedOrGoing(s', t) && (l.thread == t ==> s'.world == s.world)
  {
    if l.thread != t {
      OtherThreadsStay(s, l.thread, l.event, s', t);
      if Republishing(s, t) { RepublishUndisturbed(s, t, l.thread, l.event, s'); }
    } else if Republishing(s, t) {
      RepublishStep(s, t, l.event, s');
    }
  }

  /**
   Publishing the same bytes again is idempotent, also after a commit that took
   effect and reported an error: as long as its own calls do not fail, and
   whatever other threads do, the publish changes nothing and can only report success.
   */
  lemma {:induction false} RepublishIsIdempotent(states: seq<State>, labels: seq<Label>, i: nat, j: nat, t: Tid)
    requires Run(states, labels) && i <= j < |states| && Republishing(states[i], t)
    requires forall k :: i <= k < j && labels[k].thread == t ==> labels[k].event == Go
    ensures RepublishedOrGoing(states[j], t)
    ensures forall k :: i <= k < j && labels[k].thread == t ==> states[k + 1].world == states[k].world
    decreases j
  {
    if i < j {
      RepublishIsIdempotent(states, labels, i, j - 1, t);
      RunRepublishes(states, labels, j - 1, t);
    }
  }

  lemma RunRepublishes(states: seq<State>, labels: seq<Label>, i: nat, t: Tid)
    requires Run(states, labels) && i < |labels| && RepublishedOrGoing(states[i], t)
    requires labels[i].thread == t ==> labels[i].event == Go
    ensures RepublishedOrGoing(states[i + 1], t)
    ensures labels[i].thread == t ==> states[i + 1].world == states[i].world
  {
    ReachableInv(states, labels, i);
    assert StepAt(states, labels, i);
    RepublishedOrGoingStays(states[i], labels[i], states[i + 1], t);
  }

  /** The registered object is always there to verify, so such a publish is never stuck at a call. */
  lemma RepublishCanGoOn(states: seq<State>, labels: seq<Label>, i: nat, t: Tid)
    requires Run(states, labels) && i < |states| && Republishing(states[i], t) && states[i].threads[t].pc.Publishing?
    ensures JobMove(states[i].world, states[i].threads[t], Go).Move? && JobMove(states[i].world, states[i].threads[t], Go).clean
  {
    ReachableInv(states, labels, i);
    RepublishGoesOn(states[i], t);
  }

  /* ---------- no lost update ---------- */

  /**
   A hydration only ever writes over the row it took its snapshot of, an upstream row
   without a location, and writes what the upstream says where it says anything.
   */
  lemma HydrationWritesOverItsSnapshot(states: seq<State>, labels: seq<Label>, i: nat, th: Thread)
    requires Run(states, labels) && i < |labels| && Acting(states, labels, i, th) && th.job.Hydrate?
    requires states[i + 1].world != states[i].world
    ensures th.pc.Hydrating? && th.pc.hyd.CommitHydrate?
    ensures var w, w', id, b, f := states[i].world, states[i + 1].world, th.job.id, th.pc.hyd.snapshot, th.pc.hyd.fetched;
            && id in w.tables.releases && w.tables.releases[id] == b
            && b.source == Source.Upstream && b.uri == ""
            && w'.objects == w.objects
            && w'.tables.releases == w.tables.releases[id := Row(
                 b.id, Source.Upstream, if f.sha == NoDigest then b.sha else f.sha, if f.md5 == "" then b.md5 else f.md5,
                 if f.size == 0 then b.size else f.size, b.path, f.uri)]
  {
    ReachableInv(states, labels, i);
    assert StepAt(states, labels, i);
    HydrationStep(states[i], labels[i].thread, labels[i].event, states[i + 1]);
  }

  /**
   A checksum commit writes over the row that was hashed, and describes the object at the
   row's path; what an upstream row had recorded of checksum and size, the object has.
   */
  lemma ChecksumDescribesItsObject(states: seq<State>, labels: seq<Label>, i: nat, th: Thread)
    requires Run(states, labels) && i < |labels| && Acting(states, labels, i, th) && th.job.Checksum?
    requires states[i + 1].world != states[i].world
    ensures th.pc.Hashing? && th.pc.sum.CommitChecksum?
    ensures var w, w', id, sum := states[i].world, states[i + 1].world, th.job.id, th.pc.sum;
            && id in w.tables.releases && sum.snapshot == w.tables.releases[id]
            && (sum.snapshot.source == Source.Upstream ==>
                  sum.snapshot.sha in {NoDigest, Sha256(sum.body)} && sum.snapshot.size in {0, |sum.body|})
            && w'.objects == w.objects && sum.path in w'.objects && w'.objects[sum.path] == sum.body
            && w'.tables.releases ==
               w.tables.releases[id := w.tables.releases[id].(
                 md5 := th.job.md5, sha := Sha256(sum.body), path := Some(sum.path), size := |sum.body|)]
  {
    ReachableInv(states, labels, i);
    assert StepAt(states, labels, i);
    ChecksumStep(states[i], labels[i].thread, labels[i].event, states[i + 1]);
  }

  /* ---------- indexing and guarded deletion ---------- */

  /** Indexing adds only releases that were absent and not deleted before, and changes nothing else. */
  lemma IndexingOnlyAdds(states: seq<State>, labels: seq<Label>, i: nat, th: Thread)
    requires Run(states, labels) && i < |labels| && Acting(states, labels, i, th) && th.job.Index?
    ensures OnlyAdds(states[i].world, states[i + 1].world, th.job.mod)
  {
    ReachableInv(states, labels, i);
    assert StepAt(states, labels, i);
    IndexingStep(states[i], labels[i].thread, labels[i].event, states[i + 1]);
  }

  /** A deletion that spares the latest version never empties the module or lowers its latest precedence. */
  lemma GuardedDeletionKeepsLatest(states: seq<State>, labels: seq<Label>, i: nat, th: Thread)
    requires Run(states, labels) && i < |labels| && Acting(states, labels, i, th) && th.job.DeleteRelease? && th.job.guarded
    requires states[i + 1].world != states[i].world
    ensures KeepsLatest(states[i].world.tables, states[i + 1].world.tables, th.job.id)
    ensures states[i + 1].world.objects == states[i].world.objects
  {
    ReachableInv(states, labels, i);
    assert StepAt(states, labels, i);
    GuardedDeletionStep(states[i], labels[i].thread, labels[i].event, states[i + 1]);
  }

  /** In every reachable state a module's latest version is one of its versions, and none is greater. */
  lemma LatestVersionIsGreatest(states: seq<State>, labels: seq<Label>, i: nat, id: ReleaseId)
    requires Run(states, labels) && i < |states| && id in states[i].world.tables.releases
    ensures var T := states[i].world.tables;
            && id.mod in T.modules && ReleaseId(id.mod, T.modules[id.mod]) in T.releases
            && CompareVersions(id.version, T.modules[id.mod]) <= 0
  {
    ReachableInv(states, labels, i);
    var T := states[i].world.tables;
    assert id.version in Versions(T, id.mod);
    assert T.modules[id.mod] in Versions(T, id.mod);
  }
}
