/**
 Every step of every thread keeps the invariant of the lifecycle.
 */
module LifecycleSteps {
  import opened Version
  import opened Store
  import opened Lifecycle
  import opened LifecycleInvariant
  import opened LifecycleFrames
  import opened LifecycleSafety

  /** Two threads never hold the same lock or lease, so one does not disturb the other. */
  lemma OtherKnowsStill(s: State, t: Tid, u: Tid, w': World)
    requires t in s.threads && u in s.threads && t != u && ThreadOk(s, t) && ThreadOk(s, u)
    requires Confined(s.world, w', s.threads[t].held, s.threads[t].lease)
    ensures Knows(w', s.threads[u].job, s.threads[u].pc, s.threads[u].held, s.threads[u].lease)
  {
    var a, b := s.threads[t], s.threads[u];
    assert b.held.Some? ==> a.held != b.held;
    assert b.lease.Some? ==> a.lease != b.lease;
    KnowsStable(s.world, w', b.job, b.pc, b.held, b.lease);
  }

  ghost predicate ControlPoint(pc: Pc) { pc.Wait? || pc.WaitLease? || pc.Unlock? || pc.EndLease? || pc.Ended? }

  lemma JobStepKeeps(s: State, t: Tid, e: Event, s': State)
    requires Inv(s) && t in s.threads && !ControlPoint(s.threads[t].pc) && JobStep(s, t, e, s')
    ensures Inv(s')
  {
    var th := s.threads[t];
    var move := JobMove(s.world, th, e);
    assert ThreadOk(s, t);
    JobSafe(s.world, th, e);
    JobInformed(s.world, th, e);
    JobAccounts(s.world, th, e);
    ThreadsAfterCall(s, t, e, s');
    if s'.clean { AccountedAfterCall(s, t, e, s'); }
  }

  lemma ThreadsAfterCall(s: State, t: Tid, e: Event, s': State)
    requires t in s.threads && JobStep(s, t, e, s') && forall u :: u in s.threads ==> ThreadOk(s, u)
    requires Confined(s.world, s'.world, s.threads[t].held, s.threads[t].lease)
    requires Informed(s.threads[t], JobMove(s.world, s.threads[t], e))
    ensures forall u :: u in s'.threads ==> ThreadOk(s', u)
  {
    forall u | u in s'.threads ensures ThreadOk(s', u) {
      assert ThreadOk(s, u);
      if u != t { OtherKnowsStill(s, t, u, s'.world); }
    }
  }

  lemma AccountedAfterCall(s: State, t: Tid, e: Event, s': State)
    requires t in s.threads && LocksOwned(s) && Accounted(s) && JobStep(s, t, e, s')
    requires forall u :: u in s.threads ==> ThreadOk(s, u)
    requires Confined(s.world, s'.world, s.threads[t].held, s.threads[t].lease)
    requires HomeAccounted(s.world, s.threads[t]) ==> HomeAccounted(s'.world, s'.threads[t])
    ensures Accounted(s')
  {
    var th := s.threads[t];
    assert ThreadOk(s, t);
    HomeStartsAccounted(s, t);
    forall u | u in s'.threads ensures CompletesGone(s'.world, s'.threads[u]) {
      if u != t { CompletesGoneStill(s, t, u, s'.world); }
    }
    forall p | p in s'.world.objects && p.Artifact?
      ensures RowHolds(s'.world.tables, p) || p in s'.world.tables.deletions || BeingPublished(s', p)
    {
      if th.held == Some(p.id.mod) {
        assert AccountedFor(s'.world, s'.threads[t], p);
      } else {
        ElsewhereAccounted(s, t, s', p);
      }
    }
  }

  lemma CompletesGoneStill(s: State, t: Tid, u: Tid, w': World)
    requires t in s.threads && u in s.threads && t != u && ThreadOk(s, t) && ThreadOk(s, u)
    requires Confined(s.world, w', s.threads[t].held, s.threads[t].lease) && CompletesGone(s.world, s.threads[u])
    ensures CompletesGone(w', s.threads[u])
  {
    var a, b := s.threads[t], s.threads[u];
    assert b.held.Some? ==> a.held != b.held;
    if b.pc.Working? && b.pc.work.CompleteQueued? { assert SameModule(s.world, w', b.held.value); }
  }

  lemma HomeStartsAccounted(s: State, t: Tid)
    requires t in s.threads && ThreadOk(s, t) && Accounted(s)
    ensures HomeAccounted(s.world, s.threads[t])
  {
  }

  lemma ElsewhereAccounted(s: State, t: Tid, s': State, p: Path)
    requires t in s.threads && LocksOwned(s) && Accounted(s) && p.Artifact? && p in s'.world.objects
    requires s.threads[t].held != Some(p.id.mod) && SameModule(s.world, s'.world, p.id.mod)
    requires s'.locks == s.locks && forall u :: u in s.threads && u != t ==> u in s'.threads && s'.threads[u] == s.threads[u]
    ensures RowHolds(s'.world.tables, p) || p in s'.world.tables.deletions || BeingPublished(s', p)
  {
    assert p in s.world.objects;
    RowHoldsStable(s.world, s'.world, p);
  }

  /* ---------- taking and giving up locks and leases ---------- */

  /** Locks and leases and the threads' own accounts of them agree. */
  ghost predicate HoldingsAgree(s: State)
  {
    LocksOwned(s) && forall t :: t in s.threads ==> Holds(s, t, s.threads[t])
  }

  /** Only t moves, without touching the world; other threads keep their locks. */
  ghost predicate OnlyMoves(s: State, t: Tid, s': State)
    requires t in s.threads
  {
    && s'.world == s.world && s'.threads.Keys == s.threads.Keys && (s'.clean ==> s.clean)
    && (forall u :: u in s.threads && u != t ==> s'.threads[u] == s.threads[u])
    && (forall m :: m in s.locks && s.locks[m] != t ==> m in s'.locks && s'.locks[m] == s.locks[m])
  }

  lemma MovingKeepsInv(s: State, t: Tid, s': State)
    requires Inv(s) && t in s.threads && OnlyMoves(s, t, s') && HoldingsAgree(s') && !s.threads[t].pc.Publishing?
    requires Knows(s.world, s'.threads[t].job, s'.threads[t].pc, s'.threads[t].held, s'.threads[t].lease)
    requires CompletesGone(s.world, s'.threads[t])
    ensures Inv(s')
  {
    forall u | u in s'.threads ensures ThreadOk(s', u) { assert ThreadOk(s, u); }
    if s'.clean { MovingKeepsAccounts(s, t, s'); }
  }

  lemma MovingKeepsAccounts(s: State, t: Tid, s': State)
    requires LocksOwned(s) && Accounted(s) && t in s.threads && OnlyMoves(s, t, s') && !s.threads[t].pc.Publishing?
    requires CompletesGone(s.world, s'.threads[t])
    ensures Accounted(s')
  {
    forall u | u in s'.threads ensures CompletesGone(s'.world, s'.threads[u]) {
      if u != t { assert CompletesGone(s.world, s.threads[u]); }
    }
    forall p | p in s'.world.objects && p.Artifact?
      ensures RowHolds(s'.world.tables, p) || p in s'.world.tables.deletions || BeingPublished(s', p)
    {
      assert RowHolds(s.world.tables, p) || p in s.world.tables.deletions || BeingPublished(s, p);
    }
  }

  lemma InvHoldingsAgree(s: State)
    requires Inv(s)
    ensures HoldingsAgree(s)
  {
    forall t | t in s.threads ensures Holds(s, t, s.threads[t]) { assert ThreadOk(s, t); }
  }

  lemma LockStepHoldings(s: State, t: Tid, e: Event, s': State)
    requires HoldingsAgree(s) && t in s.threads && s.threads[t].pc.Wait? && s.threads[t].held == None && LockStep(s, t, e, s')
    ensures HoldingsAgree(s') && OnlyMoves(s, t, s')
  {
    forall u | u in s'.threads ensures Holds(s', u, s'.threads[u]) { assert Holds(s, u, s.threads[u]); }
  }

  lemma LeaseStepHoldings(s: State, t: Tid, e: Event, s': State)
    requires HoldingsAgree(s) && t in s.threads && s.threads[t].pc.WaitLease? && s.threads[t].lease == None
    requires s.world.upstream && s.threads[t].pc.path.Cached? && LeaseStep(s, t, e, s')
    ensures HoldingsAgree(s') && OnlyMoves(s, t, s')
  {
  }

  lemma UnlockStepHoldings(s: State, t: Tid, e: Event, s': State)
    requires HoldingsAgree(s) && t in s.threads && s.threads[t].pc.Unlock? && UnlockStep(s, t, e, s')
    ensures HoldingsAgree(s') && OnlyMoves(s, t, s')
  {
  }

  lemma EndLeaseStepHoldings(s: State, t: Tid, e: Event, s': State)
    requires HoldingsAgree(s) && t in s.threads && s.threads[t].pc.EndLease? && EndLeaseStep(s, t, e, s')
    ensures HoldingsAgree(s') && OnlyMoves(s, t, s')
  {
  }

  lemma EnteringKnows(w: World, th: Thread)
    requires th.pc.Wait? && Knows(w, th.job, th.pc, th.held, th.lease)
    ensures th.held == None && Knows(w, th.job, th.pc.enter, Some(th.pc.mod), th.lease)
    ensures CompletesGone(w, th.(pc := th.pc.enter))
  {
  }

  lemma AbandoningKnows(w: World, th: Thread)
    requires th.pc.Wait? && Knows(w, th.job, th.pc, th.held, th.lease)
    ensures th.held == None && Knows(w, th.job, AfterFailedWait(th), th.held, th.lease)
    ensures CompletesGone(w, th.(pc := AfterFailedWait(th)))
  {
  }

  lemma LeasingKnows(w: World, th: Thread)
    requires th.pc.WaitLease? && Knows(w, th.job, th.pc, th.held, th.lease)
    ensures th.held == None && th.lease == None && th.pc.path.Cached? && w.upstream
    ensures Knows(w, th.job, th.pc.enter, None, Some(th.pc.path)) && Knows(w, th.job, Ended(Failed), None, None)
    ensures CompletesGone(w, th.(pc := th.pc.enter))
  {
  }

  lemma UnlockingKnows(w: World, th: Thread)
    requires th.pc.Unlock? && Knows(w, th.job, th.pc, th.held, th.lease)
    ensures Knows(w, th.job, th.pc.next, None, th.lease) && CompletesGone(w, th.(pc := th.pc.next))
  {
  }

  lemma EndingLeaseKnows(w: World, th: Thread)
    requires th.pc.EndLease? && Knows(w, th.job, th.pc, th.held, th.lease)
    ensures th.held == None && Knows(w, th.job, th.pc.next, None, None) && CompletesGone(w, th.(pc := th.pc.next))
  {
  }

  lemma LockStepKeeps(s: State, t: Tid, e: Event, s': State)
    requires Inv(s) && t in s.threads && s.threads[t].pc.Wait? && LockStep(s, t, e, s')
    ensures Inv(s')
  {
    assert ThreadOk(s, t);
    if e == Go { EnteringKnows(s.world, s.threads[t]); } else { AbandoningKnows(s.world, s.threads[t]); }
    InvHoldingsAgree(s);
    LockStepHoldings(s, t, e, s');
    MovingKeepsInv(s, t, s');
  }

  lemma LeaseStepKeeps(s: State, t: Tid, e: Event, s': State)
    requires Inv(s) && t in s.threads && s.threads[t].pc.WaitLease? && LeaseStep(s, t, e, s')
    ensures Inv(s')
  {
    assert ThreadOk(s, t);
    LeasingKnows(s.world, s.threads[t]);
    InvHoldingsAgree(s);
    LeaseStepHoldings(s, t, e, s');
    MovingKeepsInv(s, t, s');
  }

  lemma UnlockStepKeeps(s: State, t: Tid, e: Event, s': State)
    requires Inv(s) && t in s.threads && s.threads[t].pc.Unlock? && UnlockStep(s, t, e, s')
    ensures Inv(s')
  {
    assert ThreadOk(s, t);
    UnlockingKnows(s.world, s.threads[t]);
    InvHoldingsAgree(s);
    UnlockStepHoldings(s, t, e, s');
    MovingKeepsInv(s, t, s');
  }

  lemma EndLeaseStepKeeps(s: State, t: Tid, e: Event, s': State)
    requires Inv(s) && t in s.threads && s.threads[t].pc.EndLease? && EndLeaseStep(s, t, e, s')
    ensures Inv(s')
  {
    assert ThreadOk(s, t);
    EndingLeaseKnows(s.world, s.threads[t]);
    InvHoldingsAgree(s);
    EndLeaseStepHoldings(s, t, e, s');
    MovingKeepsInv(s, t, s');
  }

  lemma StartStepKeeps(s: State, t: Tid, e: Event, s': State)
    requires Inv(s) && StartStep(s, t, e, s')
    ensures Inv(s')
  {
    forall u | u in s'.threads ensures ThreadOk(s', u) { assert u != t ==> ThreadOk(s, u); }
    if s'.clean { StartKeepsAccounts(s, t, e, s'); }
  }

  lemma StartKeepsAccounts(s: State, t: Tid, e: Event, s': State)
    requires LocksOwned(s) && Accounted(s) && StartStep(s, t, e, s')
    ensures Accounted(s')
  {
    forall u | u in s'.threads ensures CompletesGone(s'.world, s'.threads[u]) {
      assert u != t ==> CompletesGone(s.world, s.threads[u]);
    }
    forall p | p in s'.world.objects && p.Artifact?
      ensures RowHolds(s'.world.tables, p) || p in s'.world.tables.deletions || BeingPublished(s', p)
    {
      assert RowHolds(s.world.tables, p) || p in s.world.tables.deletions || BeingPublished(s, p);
    }
  }

  lemma CrashStepKeeps(s: State, t: Tid, e: Event, s': State)
    requires Inv(s) && t in s.threads && CrashStep(s, t, e, s')
    ensures Inv(s')
  {
    assert ThreadOk(s, t);
    forall u | u in s'.threads ensures ThreadOk(s', u) { assert ThreadOk(s, u); }
  }

  lemma PurgeStepKeeps(s: State, e: Event, s': State)
    requires Inv(s) && PurgeStep(s, e, s')
    ensures Inv(s')
  {
    var w, w' := s.world, s'.world;
    assert forall m :: Versions(w'.tables, m) == Versions(w.tables, m);
    assert forall p :: References(w'.tables, p) == References(w.tables, p);
    forall u | u in s'.threads ensures ThreadOk(s', u) {
      assert ThreadOk(s, u);
      var th := s.threads[u];
      KnowsStable(w, w', th.job, th.pc, th.held, th.lease);
    }
    if s'.clean { PurgeKeepsAccounts(s, e, s'); }
  }

  lemma PurgeKeepsAccounts(s: State, e: Event, s': State)
    requires Accounted(s) && PurgeStep(s, e, s')
    ensures Accounted(s')
  {
    forall u | u in s'.threads ensures CompletesGone(s'.world, s'.threads[u]) { assert CompletesGone(s.world, s.threads[u]); }
  }

  /** The invariant is inductive. */
  lemma StepKeepsInv(s: State, t: Tid, e: Event, s': State)
    requires Inv(s) && Step(s, t, e, s')
    ensures Inv(s')
  {
    if StartStep(s, t, e, s') {
      StartStepKeeps(s, t, e, s');
    } else if PurgeStep(s, e, s') {
      PurgeStepKeeps(s, e, s');
    } else if CrashStep(s, t, e, s') {
      CrashStepKeeps(s, t, e, s');
    } else {
      var pc := s.threads[t].pc;
      if pc.Wait? { LockStepKeeps(s, t, e, s'); }
      else if pc.WaitLease? { LeaseStepKeeps(s, t, e, s'); }
      else if pc.Unlock? { UnlockStepKeeps(s, t, e, s'); }
      else if pc.EndLease? { EndLeaseStepKeeps(s, t, e, s'); }
      else { JobStepKeeps(s, t, e, s'); }
    }
  }
}
