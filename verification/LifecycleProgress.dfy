/**
 No deadlock: in every reachable state in which some thread has not ended, some
 thread has a step that does not fail.
 */
module LifecycleProgress {
  import opened Version
  import opened LatestVersion
  import opened Store
  import opened Lifecycle
  import opened LifecycleInvariant
  import opened LifecycleSafety
  import opened LifecycleSteps
  import opened LifecycleEffects
  import opened LifecycleTheorems

  /** Neither a new request, nor retention, nor anything going wrong. */
  ghost predicate Forward(e: Event) { !e.Start? && !e.Purged? && !e.Crash? && !e.Fault? }

  ghost predicate Succeeds(move: Move) { move.Move? && move.clean }

  lemma {:induction false} LatestExists(versions: set<string>) returns (latest: string)
    ensures IsLatest(latest, versions)
    decreases |versions|
  {
    if versions == {} {
      latest := "";
    } else {
      var v :| v in versions;
      var below := LatestExists(versions - {v});
      CandidateKeepsLatest(below, versions - {v}, v);
      assert versions - {v} + {v} == versions;
      latest := WithCandidate(below, v);
    }
  }

  lemma PublishSucceeds(w: World, th: Thread) returns (e: Event)
    requires th.pc.Publishing? && th.job.Publish? && Ready(w, th)
    ensures Succeeds(PublishMove(w, th, e)) && Forward(e)
  {
    e := Go;
  }

  lemma DeleteReleaseSucceeds(w: World, th: Thread) returns (e: Event)
    requires th.pc.Deleting? && th.job.DeleteRelease? && Ready(w, th)
    ensures Succeeds(DeleteReleaseMove(w, th, e)) && Forward(e)
  {
    var id := th.job.id;
    if th.pc.del.CommitDelete? && id in w.tables.releases {
      var latest := LatestExists(Versions(w.tables, id.mod) - {id.version});
      e := Recomputed(latest, true);
    } else {
      e := Go;
    }
  }

  lemma DeleteModuleSucceeds(w: World, th: Thread) returns (e: Event)
    requires th.pc.Deleting? && th.job.DeleteModule? && Ready(w, th)
    ensures Succeeds(DeleteModuleMove(w, th, e)) && Forward(e)
  {
    e := Go;
  }

  lemma WorkerSucceeds(w: World, th: Thread) returns (e: Event)
    requires th.pc.Working? && th.job.Worker? && Ready(w, th)
    ensures Succeeds(WorkerMove(w, th, e)) && Forward(e)
  {
    e := if th.pc.work.ListDeletions? then Listed([]) else Go;
  }

  lemma RepairSucceeds(w: World, th: Thread) returns (e: Event)
    requires th.pc.Repairing? && th.job.Repair? && Ready(w, th)
    ensures Succeeds(RepairMove(w, th, e)) && Forward(e)
  {
    e := if th.pc.rep.ListObjects? then NoMore else Go;
  }

  lemma HydrateSucceeds(w: World, th: Thread) returns (e: Event)
    requires th.pc.Hydrating? && th.job.Hydrate? && Ready(w, th)
    ensures Succeeds(HydrateMove(w, th, e)) && Forward(e)
  {
    e := if th.pc.hyd.FetchUpstream? then NoMore else Go;
  }

  lemma ChecksumSucceeds(w: World, th: Thread) returns (e: Event)
    requires th.pc.Hashing? && th.job.Checksum? && Ready(w, th)
    ensures Succeeds(ChecksumMove(w, th, e)) && Forward(e)
  {
    e := Go;
  }

  lemma PruneSucceeds(w: World, th: Thread) returns (e: Event)
    requires th.pc.Pruning? && th.job.Prune? && Ready(w, th)
    ensures Succeeds(PruneMove(w, th, e)) && Forward(e)
  {
    e := if th.pc.prune.ListCache? then NoMore else Go;
  }

  lemma EnsureSucceeds(w: World, th: Thread) returns (e: Event)
    requires th.pc.Caching? && th.job.EnsureArtifact? && Ready(w, th)
    ensures Succeeds(EnsureMove(w, th, e)) && Forward(e)
  {
    e := if th.pc.cache.UploadCached? then Event.Bytes([]) else Go;
  }

  lemma UpstreamSucceeds(w: World, th: Thread) returns (e: Event)
    requires th.pc.Indexing? && (th.job.Index? || th.job.Restore?) && Ready(w, th)
    ensures Succeeds(UpstreamMove(w, th, e)) && Forward(e)
  {
    e := if th.pc.ups.CreateUpstream? then Event.Upstream(Fetched("", NoDigest, "", 0), true)
         else if th.pc.ups.NextUpstream? then NoMore else Go;
  }

  lemma CallSucceeds(w: World, th: Thread) returns (e: Event)
    requires Ready(w, th)
    ensures Succeeds(JobMove(w, th, e)) && Forward(e)
  {
    match th.job
    case Publish(_, _, _, _, _) => e := PublishSucceeds(w, th);
    case DeleteRelease(_, _) => e := DeleteReleaseSucceeds(w, th);
    case DeleteModule(_) => e := DeleteModuleSucceeds(w, th);
    case Worker => e := WorkerSucceeds(w, th);
    case Repair => e := RepairSucceeds(w, th);
    case Hydrate(_) => e := HydrateSucceeds(w, th);
    case Checksum(_, _) => e := ChecksumSucceeds(w, th);
    case Prune => e := PruneSucceeds(w, th);
    case EnsureArtifact(_, _) => e := EnsureSucceeds(w, th);
    case Index(_) => e := UpstreamSucceeds(w, th);
    case Restore(_) => e := UpstreamSucceeds(w, th);
  }

  lemma NextStep(s: State, t: Tid) returns (e: Event, s': State)
    requires Inv(s) && t in s.threads
    requires !s.threads[t].pc.Wait? && !s.threads[t].pc.WaitLease? && !s.threads[t].pc.Ended?
    ensures Step(s, t, e, s') && s'.clean == s.clean && Forward(e)
  {
    var th := s.threads[t];
    if ControlPoint(th.pc) {
      e := Go;
      s' := Released(s, t);
      ReleasedIsStep(s, t);
    } else {
      CallsAreReady(s, t);
      e := CallSucceeds(s.world, th);
      var move := JobMove(s.world, th, e);
      s' := s.(world := move.world, threads := s.threads[t := th.(pc := move.pc)], clean := s.clean && move.clean);
      assert ThreadStep(s, t, e, s');
    }
  }

  function Released(s: State, t: Tid): State
    requires t in s.threads && (s.threads[t].pc.Unlock? || s.threads[t].pc.EndLease?)
  {
    var th := s.threads[t];
    if th.pc.Unlock? then
      s.(locks := if th.held.Some? then s.locks - {th.held.value} else s.locks,
         threads := s.threads[t := th.(pc := th.pc.next, held := None)])
    else
      s.(leases := if th.lease.Some? then s.leases - {th.lease.value} else s.leases,
         threads := s.threads[t := th.(pc := th.pc.next, lease := None)])
  }

  lemma ReleasedIsStep(s: State, t: Tid)
    requires Inv(s) && t in s.threads && (s.threads[t].pc.Unlock? || s.threads[t].pc.EndLease?)
    ensures ThreadStep(s, t, Go, Released(s, t))
  {
    assert ThreadOk(s, t);
  }

  /* ---------- no deadlock ---------- */

  ghost predicate Active(th: Thread) { !th.pc.Wait? && !th.pc.WaitLease? && !th.pc.Ended? }

  /** Whoever holds a module lock waits for nothing. */
  lemma LockHoldersAreActive(s: State, m: ModuleId)
    requires Inv(s) && m in s.locks
    ensures s.locks[m] in s.threads && Active(s.threads[s.locks[m]])
  {
    assert ThreadOk(s, s.locks[m]);
  }

  /** Whoever holds a lease waits for a module lock at most. */
  lemma LeaseHoldersMayWaitForLocks(s: State, p: Path)
    requires Inv(s) && p in s.leases
    ensures s.leases[p] in s.threads && (Active(s.threads[s.leases[p]]) || s.threads[s.leases[p]].pc.Wait?)
  {
    assert ThreadOk(s, s.leases[p]);
  }

  lemma WaiterCanGoOn(s: State, t: Tid) returns (u: Tid, e: Event, s': State)
    requires Inv(s) && t in s.threads && s.threads[t].pc.Wait?
    ensures Step(s, u, e, s') && s'.clean == s.clean && Forward(e)
  {
    var th := s.threads[t];
    if th.pc.mod in s.locks {
      u := s.locks[th.pc.mod];
      LockHoldersAreActive(s, th.pc.mod);
      e, s' := NextStep(s, u);
    } else {
      u, e := t, Go;
      s' := s.(locks := s.locks[th.pc.mod := t], threads := s.threads[t := th.(pc := th.pc.enter, held := Some(th.pc.mod))]);
      assert ThreadStep(s, t, e, s');
    }
  }

  /** As long as some thread has not ended, some step that does not fail is possible. */
  lemma NoDeadlock(states: seq<State>, labels: seq<Label>, i: nat) returns (u: Tid, e: Event, s': State)
    requires Run(states, labels) && i < |states| && !Quiescent(states[i])
    ensures Step(states[i], u, e, s') && s'.clean == states[i].clean && Forward(e)
  {
    ReachableInv(states, labels, i);
    var s := states[i];
    var t :| t in s.threads && !s.threads[t].pc.Ended?;
    if s.threads[t].pc.Wait? {
      u, e, s' := WaiterCanGoOn(s, t);
    } else if s.threads[t].pc.WaitLease? {
      u, e, s' := LeaseWaiterCanGoOn(s, t);
    } else {
      u := t;
      e, s' := NextStep(s, t);
    }
  }

  lemma LeaseWaiterCanGoOn(s: State, t: Tid) returns (u: Tid, e: Event, s': State)
    requires Inv(s) && t in s.threads && s.threads[t].pc.WaitLease?
    ensures Step(s, u, e, s') && s'.clean == s.clean && Forward(e)
  {
    var th := s.threads[t];
    var p := th.pc.path;
    if p in s.leases {
      LeaseHoldersMayWaitForLocks(s, p);
      u := s.leases[p];
      if s.threads[u].pc.Wait? {
        u, e, s' := WaiterCanGoOn(s, u);
      } else {
        e, s' := NextStep(s, u);
      }
    } else {
      u, e := t, Go;
      s' := s.(leases := s.leases[p := t], threads := s.threads[t := th.(pc := th.pc.enter, lease := Some(p))]);
      assert ThreadStep(s, t, e, s');
    }
  }
}
