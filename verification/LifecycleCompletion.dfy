/**
 A publish that is not refused completes: whenever its module's lock is free, its
 calls, if none of them fails, take it to success.
 */
module LifecycleCompletion {
  import opened Version
  import opened Store
  import opened Lifecycle
  import opened LifecycleInvariant
  import opened LifecycleSafety
  import opened LifecycleSteps
  import opened LifecycleEffects
  import opened LifecycleTheorems
  import opened LifecycleProgress

  /** There is no release yet, or it has the same bytes, or it may be replaced. */
  predicate Admissible(t: Tables, job: Job)
    requires job.Publish?
  {
    job.id in t.releases ==> job.replace || (t.releases[job.id].source == Local && t.releases[job.id].sha == Sha256(job.body))
  }

  /** How many calls may still be needed. */
  function Rank(pub: PublishPoint): nat
  {
    match pub
    case ReadExisting => 5
    case Upload => 4
    case VerifyObject => 3
    case UpsertForPublish => 2
    case CommitPublish => 1
    case VerifyRegistered => 1
    case RereadPublish(_) => 0
    case Compensate => 0
    case DropModule => 0
  }

  predicate OnTheWay(w: World, job: Job, pc: Pc)
  {
    job.Publish? && pc.Publishing? && Rank(pc.pub) > 0 && (pc.pub.ReadExisting? ==> Admissible(w.tables, job))
  }

  lemma CallGetsCloser(w: World, th: Thread)
    requires Ready(w, th) && OnTheWay(w, th.job, th.pc)
    ensures var move := PublishMove(w, th, Go);
            && Succeeds(move)
            && (move.pc == Unlock(Ended(Published))
                || (OnTheWay(move.world, th.job, move.pc) && Rank(move.pc.pub) < Rank(th.pc.pub)))
  {
  }

  /** All steps are one thread's, and none is a failure. */
  ghost predicate Alone(labels: seq<Label>, t: Tid) { forall l <- labels :: l.thread == t && Forward(l.event) }

  lemma Prepended(s: State, t: Tid, states: seq<State>, labels: seq<Label>) returns (states': seq<State>, labels': seq<Label>)
    requires Chain(states, labels) && Step(s, t, Go, states[0]) && Alone(labels, t)
    ensures Chain(states', labels') && Alone(labels', t)
    ensures states'[0] == s && states'[|labels'|] == states[|labels|]
  {
    states', labels' := [s] + states, [Label(t, Go)] + labels;
    assert states'[|labels'|] == states[|labels|];
    forall i | 0 <= i < |labels'| ensures StepAt(states', labels', i) {
      if i > 0 { assert StepAt(states, labels, i - 1); }
    }
  }

  lemma Appended(states: seq<State>, labels: seq<Label>, t: Tid, s: State) returns (states': seq<State>, labels': seq<Label>)
    requires Chain(states, labels) && Step(states[|labels|], t, Go, s) && Alone(labels, t)
    ensures Chain(states', labels') && Alone(labels', t)
    ensures states'[0] == states[0] && states'[|labels'|] == s
  {
    states', labels' := states + [s], labels + [Label(t, Go)];
    forall i | 0 <= i < |labels'| ensures StepAt(states', labels', i) {
      if i < |labels| { assert StepAt(states, labels, i); }
    }
  }

  /** What a completing publish leaves as it was. */
  ghost predicate SameAround(s: State, s': State, t: Tid)
  {
    && s'.clean == s.clean && s'.locks == s.locks
    && t in s.threads && t in s'.threads && s'.threads[t].job == s.threads[t].job && s'.threads[t].held == s.threads[t].held
  }

  lemma {:induction false} CallsComplete(s: State, t: Tid) returns (states: seq<State>, labels: seq<Label>)
    requires Inv(s) && t in s.threads && OnTheWay(s.world, s.threads[t].job, s.threads[t].pc)
    ensures Chain(states, labels) && Alone(labels, t) && states[0] == s
    ensures var last := states[|labels|];
            Inv(last) && SameAround(s, last, t) && last.threads[t].pc == Unlock(Ended(Published))
    decreases Rank(s.threads[t].pc.pub)
  {
    var s' := AfterCall(s, t);
    if s'.threads[t].pc == Unlock(Ended(Published)) {
      states, labels := [s'], [];
    } else {
      states, labels := CallsComplete(s', t);
    }
    states, labels := Prepended(s, t, states, labels);
  }

  lemma AfterCall(s: State, t: Tid) returns (s': State)
    requires Inv(s) && t in s.threads && OnTheWay(s.world, s.threads[t].job, s.threads[t].pc)
    ensures Step(s, t, Go, s') && Inv(s') && SameAround(s, s', t)
    ensures s'.threads[t].pc == Unlock(Ended(Published))
            || (OnTheWay(s'.world, s'.threads[t].job, s'.threads[t].pc)
                && Rank(s'.threads[t].pc.pub) < Rank(s.threads[t].pc.pub))
  {
    var th := s.threads[t];
    CallsAreReady(s, t);
    CallGetsCloser(s.world, th);
    var move := JobMove(s.world, th, Go);
    s' := s.(world := move.world, threads := s.threads[t := th.(pc := move.pc)], clean := s.clean && move.clean);
    assert ThreadStep(s, t, Go, s');
    StepKeepsInv(s, t, Go, s');
  }

  /**
   From every reachable state in which the module's lock is free, a publish that
   would not be refused can run to success; the release then has its bytes.
   */
  lemma PublishCompletes(before: seq<State>, past: seq<Label>, t: Tid, job: Job)
    returns (states: seq<State>, labels: seq<Label>)
    requires Run(before, past) && job.Publish?
    requires t !in before[|past|].threads && job.id.mod !in before[|past|].locks
    requires Admissible(before[|past|].world.tables, job)
    ensures Chain(states, labels) && states[0] == before[|past|]
    ensures labels != [] && labels[0] == Label(t, Start(job)) && Alone(labels[1..], t)
    ensures var last := states[|labels|];
            && last.clean == before[|past|].clean && last.locks == before[|past|].locks
            && t in last.threads && last.threads[t].pc == Ended(Published)
            && LocalWith(last, job.id, Sha256(job.body))
  {
    ReachableInv(before, past, |past|);
    states, labels := StartedCompletes(before[|past|], t, job);
  }

  lemma StartedCompletes(s: State, t: Tid, job: Job) returns (states: seq<State>, labels: seq<Label>)
    requires Inv(s) && job.Publish? && t !in s.threads && job.id.mod !in s.locks && Admissible(s.world.tables, job)
    ensures Chain(states, labels) && states[0] == s
    ensures labels != [] && labels[0] == Label(t, Start(job)) && Alone(labels[1..], t)
    ensures var last := states[|labels|];
            && last.clean == s.clean && last.locks == s.locks
            && t in last.threads && last.threads[t].pc == Ended(Published)
            && LocalWith(last, job.id, Sha256(job.body))
  {
    var started, locked := Started(s, t, job);
    assert s.locks[job.id.mod := t] - {job.id.mod} == s.locks;
    states, labels := LockedCompletes(started, locked, t);
    states, labels := Launched(s, t, job, states, labels);
  }

  /** From taking the lock to giving it up again. */
  lemma LockedCompletes(started: State, locked: State, t: Tid) returns (states: seq<State>, labels: seq<Label>)
    requires Inv(locked) && t in locked.threads && OnTheWay(locked.world, locked.threads[t].job, locked.threads[t].pc)
    requires Step(started, t, Go, locked)
    ensures Chain(states, labels) && Alone(labels, t) && states[0] == started
    ensures var last, job := states[|labels|], locked.threads[t].job;
            && last.clean == locked.clean && last.locks == locked.locks - {job.id.mod}
            && t in last.threads && last.threads[t].pc == Ended(Published)
            && LocalWith(last, job.id, Sha256(job.body))
  {
    states, labels := CallsComplete(locked, t);
    var ended := AfterUnlocking(states[|labels|], t);
    states, labels := Appended(states, labels, t, ended);
    states, labels := Prepended(started, t, states, labels);
  }

  lemma Launched(s: State, t: Tid, job: Job, states: seq<State>, labels: seq<Label>)
    returns (states': seq<State>, labels': seq<Label>)
    requires Chain(states, labels) && Alone(labels, t) && Step(s, t, Start(job), states[0])
    ensures Chain(states', labels') && states'[0] == s && states'[|labels'|] == states[|labels|]
    ensures labels' != [] && labels'[0] == Label(t, Start(job)) && Alone(labels'[1..], t)
  {
    states', labels' := [s] + states, [Label(t, Start(job))] + labels;
    assert labels'[1..] == labels && states'[|labels'|] == states[|labels|];
    forall i | 0 <= i < |labels'| ensures StepAt(states', labels', i) {
      if i > 0 { assert StepAt(states, labels, i - 1); }
    }
  }

  lemma Started(s: State, t: Tid, job: Job) returns (started: State, locked: State)
    requires Inv(s) && job.Publish? && t !in s.threads && job.id.mod !in s.locks && Admissible(s.world.tables, job)
    ensures Step(s, t, Start(job), started) && Step(started, t, Go, locked) && Inv(locked)
    ensures locked.world == s.world && locked.clean == s.clean && locked.locks == s.locks[job.id.mod := t]
    ensures t in locked.threads && locked.threads[t] == Thread(job, Publishing(ReadExisting), Some(job.id.mod), None)
  {
    started := s.(threads := s.threads[t := Thread(job, Initial(job), None, None)]);
    assert StartStep(s, t, Start(job), started);
    StepKeepsInv(s, t, Start(job), started);
    locked := started.(locks := s.locks[job.id.mod := t],
                       threads := started.threads[t := Thread(job, Publishing(ReadExisting), Some(job.id.mod), None)]);
    assert LockStep(started, t, Go, locked);
    StepKeepsInv(started, t, Go, locked);
  }

  lemma AfterUnlocking(s: State, t: Tid) returns (s': State)
    requires Inv(s) && t in s.threads && s.threads[t].job.Publish? && s.threads[t].pc == Unlock(Ended(Published))
    ensures Step(s, t, Go, s') && s'.clean == s.clean && s'.locks == s.locks - {s.threads[t].job.id.mod}
    ensures t in s'.threads && s'.threads[t].pc == Ended(Published)
    ensures LocalWith(s', s.threads[t].job.id, Sha256(s.threads[t].job.body))
  {
    assert ThreadOk(s, t);
    s' := Released(s, t);
    ReleasedIsStep(s, t);
  }
}
