/**
 The two descriptions of the deletion worker agree: a worker thread of the
 lifecycle that runs with the locks free does to the tables, the objects and its
 counters exactly what the loop of ArtifactDeletions is specified to do.
 */
module WorkerRuns {
  import opened Version
  import opened Store
  import opened Lifecycle
  import opened LifecycleTheorems
  import A = ArtifactDeletions

  /** What the environment does at each call for an entry of the given fate. */
  function EventFor(work: WorkerPoint, fate: A.Fate): Event
  {
    match work
    case CheckDeletion(_, _) => if fate == A.CheckFails then Fault(false) else Go
    case RemoveQueued(_, _) => if fate.RemoveFails? then Fault(fate.applied) else Go
    case CompleteQueued(_, _, _) => if fate.CompleteFails? then Fault(fate.applied) else Go
    case ListDeletions => Go
    case NextDeletion(_, _) => Go
  }

  /** Between two entries, holding nothing. */
  ghost predicate Between(s: State, t: Tid, todo: seq<Deletion>, tally: Tally)
  {
    t in s.threads && s.threads[t] == Thread(Worker, Working(NextDeletion(todo, tally)), None, None)
  }

  ghost predicate LocksFree(s: State, todo: seq<Deletion>) { forall d :: d in todo ==> d.mod !in s.locks }

  /** Only one thread and the world have moved. */
  ghost predicate OnlyWorks(s: State, s': State, t: Tid)
  {
    s'.locks == s.locks && s'.leases == s.leases && s'.threads.Keys == s.threads.Keys
    && forall u :: u in s.threads && u != t ==> s'.threads[u] == s.threads[u]
  }

  ghost predicate By(labels: seq<Label>, t: Tid) { forall l :: l in labels ==> l.thread == t }

  lemma Extended(states: seq<State>, labels: seq<Label>, l: Label, s: State) returns (states': seq<State>, labels': seq<Label>)
    requires Chain(states, labels) && By(labels, l.thread) && Step(states[|labels|], l.thread, l.event, s)
    ensures Chain(states', labels') && By(labels', l.thread) && states'[0] == states[0] && states'[|labels'|] == s
  {
    states', labels' := states + [s], labels + [l];
    forall i | 0 <= i < |labels'| ensures StepAt(states', labels', i) {
      if i < |labels| { assert StepAt(states, labels, i); }
    }
  }

  /** The next state of a worker at a call. */
  function Called(s: State, t: Tid, e: Event): State
    requires t in s.threads && s.threads[t].job == Worker && s.threads[t].pc.Working? && WorkerMove(s.world, s.threads[t], e).Move?
  {
    var move := WorkerMove(s.world, s.threads[t], e);
    s.(world := move.world, threads := s.threads[t := s.threads[t].(pc := move.pc)], clean := s.clean && move.clean)
  }

  function Rank(pc: Pc): nat
  {
    if !pc.Working? then 0
    else match pc.work
      case CheckDeletion(_, _) => 3
      case RemoveQueued(_, _) => 2
      case CompleteQueued(_, _, _) => 1
      case ListDeletions => 0
      case NextDeletion(_, _) => 0
  }

  function After(todo: seq<Deletion>, tally: Tally, v: A.Verdict): Pc
    requires todo != []
  {
    Working(NextDeletion(todo[1..], A.Counted(tally, v)))
  }

  /** What the rest of an entry does, from each of its calls up to the release of the lock. */
  function EntryResult(w: World, pc: Pc, fate: A.Fate): (World, Pc)
    requires Rank(pc) > 0 && pc.work.todo != []
    decreases Rank(pc)
  {
    var todo, tally, p, t := pc.work.todo, pc.work.tally, pc.work.todo[0].path, w.tables;
    match pc.work
    case CheckDeletion(_, _) =>
      (w.(tables := A.TablesAfter(t, p, fate), objects := A.ObjectsAfter(t, w.objects, p, fate)),
       Unlock(After(todo, tally, A.VerdictOf(t, p, fate))))
    case RemoveQueued(_, _) =>
      if fate.RemoveFails? then (if fate.applied then Drop(w, p) else w, Unlock(After(todo, tally, A.Unfinished)))
      else EntryResult(Drop(w, p), Working(CompleteQueued(todo, tally, false)), fate)
    case CompleteQueued(_, _, canceled) =>
      if fate.CompleteFails? then (if fate.applied then With(w, CompleteDeletionTx(t, p)) else w, Unlock(After(todo, tally, A.Unfinished)))
      else (With(w, CompleteDeletionTx(t, p)), Unlock(After(todo, tally, if canceled then A.Canceled else A.Deleted)))
  }

  /** One call of the lifecycle's worker, then the rest. */
  lemma CallStep(w: World, th: Thread, fate: A.Fate)
    requires th.job == Worker && Rank(th.pc) > 0 && th.pc.work.todo != [] && fate != A.LockFails
    ensures var move := WorkerMove(w, th, EventFor(th.pc.work, fate));
            && move.Move?
            && (if Rank(move.pc) > 0 then
                  Rank(move.pc) < Rank(th.pc) && move.pc.work.todo == th.pc.work.todo
                  && EntryResult(move.world, move.pc, fate) == EntryResult(w, th.pc, fate)
                else (move.world, move.pc) == EntryResult(w, th.pc, fate))
  {
  }

  /** From any call of an entry to the release of its lock. */
  lemma {:induction false} CallsFollow(s: State, t: Tid, fate: A.Fate) returns (states: seq<State>, labels: seq<Label>)
    requires t in s.threads && s.threads[t].job == Worker && Rank(s.threads[t].pc) > 0 && s.threads[t].pc.work.todo != []
    requires fate != A.LockFails
    ensures Chain(states, labels) && By(labels, t) && states[0] == s && OnlyWorks(s, states[|labels|], t)
    ensures var (last, (w, pc)) := (states[|labels|], EntryResult(s.world, s.threads[t].pc, fate));
            last.world == w && last.threads[t] == s.threads[t].(pc := pc)
    decreases Rank(s.threads[t].pc)
  {
    var e := EventFor(s.threads[t].pc.work, fate);
    CallStep(s.world, s.threads[t], fate);
    var s' := Called(s, t, e);
    assert JobStep(s, t, e, s');
    if Rank(s'.threads[t].pc) > 0 {
      states, labels := CallsFollow(s', t, fate);
    } else {
      states, labels := [s'], [];
    }
    states, labels := Begun(s, Label(t, e), states, labels);
  }

  lemma Begun(s: State, l: Label, states: seq<State>, labels: seq<Label>) returns (states': seq<State>, labels': seq<Label>)
    requires Chain(states, labels) && By(labels, l.thread) && Step(s, l.thread, l.event, states[0])
    ensures Chain(states', labels') && By(labels', l.thread) && states'[0] == s && states'[|labels'|] == states[|labels|]
  {
    states', labels' := [s] + states, [l] + labels;
    forall i | 0 <= i < |labels'| ensures StepAt(states', labels', i) {
      if i > 0 { assert StepAt(states, labels, i - 1); }
    }
  }

  /** One entry from one wait to the next. */
  lemma EntryRuns(s: State, t: Tid, todo: seq<Deletion>, tally: Tally, fate: A.Fate) returns (states: seq<State>, labels: seq<Label>)
    requires Between(s, t, todo, tally) && todo != [] && todo[0].mod !in s.locks
    ensures Chain(states, labels) && By(labels, t) && states[0] == s && OnlyWorks(s, states[|labels|], t)
    ensures var (last, T, p) := (states[|labels|], s.world.tables, todo[0].path);
            && last.world == s.world.(tables := A.TablesAfter(T, p, fate), objects := A.ObjectsAfter(T, s.world.objects, p, fate))
            && Between(last, t, todo[1..], A.Counted(tally, A.VerdictOf(T, p, fate)))
  {
    var m, check := todo[0].mod, Working(CheckDeletion(todo, tally));
    var waiting := s.(threads := s.threads[t := s.threads[t].(pc := Wait(m, check))]);
    assert JobStep(s, t, Go, waiting);
    if fate == A.LockFails {
      var given := waiting.(threads := s.threads[t := s.threads[t].(pc := After(todo, tally, A.Unfinished))], clean := false);
      assert LockStep(waiting, t, Fault(false), given);
      states, labels := [given], [];
      states, labels := Begun(waiting, Label(t, Fault(false)), states, labels);
    } else {
      states, labels := LockedEntryRuns(waiting, t, todo, tally, fate);
    }
    states, labels := Begun(s, Label(t, Go), states, labels);
  }

  lemma LockedEntryRuns(s: State, t: Tid, todo: seq<Deletion>, tally: Tally, fate: A.Fate)
    returns (states: seq<State>, labels: seq<Label>)
    requires todo != [] && todo[0].mod !in s.locks && fate != A.LockFails
    requires t in s.threads && s.threads[t] == Thread(Worker, Wait(todo[0].mod, Working(CheckDeletion(todo, tally))), None, None)
    ensures Chain(states, labels) && By(labels, t) && states[0] == s && OnlyWorks(s, states[|labels|], t)
    ensures var (last, T, p) := (states[|labels|], s.world.tables, todo[0].path);
            && last.world == s.world.(tables := A.TablesAfter(T, p, fate), objects := A.ObjectsAfter(T, s.world.objects, p, fate))
            && Between(last, t, todo[1..], A.Counted(tally, A.VerdictOf(T, p, fate)))
  {
    var m := todo[0].mod;
    var th := Thread(Worker, Working(CheckDeletion(todo, tally)), Some(m), None);
    var locked := s.(locks := s.locks[m := t], threads := s.threads[t := th]);
    assert LockStep(s, t, Go, locked);
    states, labels := CallsFollow(locked, t, fate);
    var done := states[|labels|];
    var free := done.(locks := done.locks - {m},
                      threads := done.threads[t := done.threads[t].(pc := done.threads[t].pc.next, held := None)]);
    assert UnlockStep(done, t, Go, free);
    states, labels := Extended(states, labels, Label(t, Go), free);
    states, labels := Begun(s, Label(t, Go), states, labels);
  }

  /** The first n entries. */
  lemma {:induction false} EntriesRun(s: State, t: Tid, start: A.Outcome, listed: seq<Deletion>, handlings: seq<A.Handling>, n: nat)
    returns (states: seq<State>, labels: seq<Label>)
    requires n <= |listed| == |handlings| && LocksFree(s, listed) && Between(s, t, listed, start.tally)
    requires s.world.tables == start.tables && s.world.objects == start.objects
    ensures Chain(states, labels) && By(labels, t) && states[0] == s && OnlyWorks(s, states[|labels|], t)
    ensures var (last, o) := (states[|labels|], A.Processing(start, listed, handlings, n));
            last.world == s.world.(tables := o.tables, objects := o.objects) && Between(last, t, listed[n..], o.tally)
  {
    if n == 0 {
      states, labels := [s], [];
    } else {
      states, labels := EntriesRun(s, t, start, listed, handlings, n - 1);
      var o := A.Processing(start, listed, handlings, n - 1);
      assert listed[n - 1..][1..] == listed[n..] && listed[n - 1] in listed;
      var more, after := EntryRuns(states[|labels|], t, listed[n - 1..], o.tally, handlings[n - 1].fate);
      states, labels := Followed(states, labels, more, after, t);
    }
  }

  lemma Followed(states: seq<State>, labels: seq<Label>, more: seq<State>, after: seq<Label>, t: Tid)
    returns (states': seq<State>, labels': seq<Label>)
    requires Chain(states, labels) && Chain(more, after) && By(labels, t) && By(after, t) && states[|labels|] == more[0]
    ensures Chain(states', labels') && By(labels', t) && states'[0] == states[0] && states'[|labels'|] == more[|after|]
  {
    states', labels' := states + more[1..], labels + after;
    forall i | 0 <= i < |labels'| ensures StepAt(states', labels', i) {
      if i < |labels| { assert StepAt(states, labels, i); } else { assert StepAt(more, after, i - |labels|); }
    }
  }

  /** A worker thread that meets no other gets through any listing as the worker's loop is specified to. */
  lemma WorkerThreadRunsTheLoop(s: State, t: Tid, tickets: map<Path, A.Ticket>, now: int, listed: seq<Deletion>,
                                handlings: seq<A.Handling>, limit: nat) returns (states: seq<State>, labels: seq<Label>)
    requires t in s.threads && s.threads[t] == Thread(Worker, Working(ListDeletions), None, None)
    requires |listed| == |handlings| && LocksFree(s, listed) && A.Listing(s.world.tables, tickets, now, listed, limit)
    ensures Chain(states, labels) && By(labels, t) && states[0] == s
    ensures var last := states[|labels|];
            var start := A.Outcome(s.world.tables, s.world.objects, tickets, Tally(|listed|, 0, 0, 0));
            var o := A.Processing(start, listed, handlings, |listed|);
            && last.world == s.world.(tables := o.tables, objects := o.objects) && last.locks == s.locks
            && t in last.threads && last.threads[t].pc == Ended(Processed(o.tally))
  {
    var tally := Tally(|listed|, 0, 0, 0);
    var started := s.(threads := s.threads[t := s.threads[t].(pc := Working(NextDeletion(listed, tally)))]);
    assert JobStep(s, t, Listed(listed), started) by { AllQueued(s.world.tables, tickets, now, listed, limit); }
    states, labels := EntriesRun(started, t, A.Outcome(s.world.tables, s.world.objects, tickets, tally), listed, handlings, |listed|);
    var last := states[|labels|];
    var ended := last.(threads := last.threads[t := last.threads[t].(pc := Ended(Processed(last.threads[t].pc.work.tally)))]);
    assert JobStep(last, t, Go, ended);
    states, labels := Extended(states, labels, Label(t, Go), ended);
    states, labels := Begun(s, Label(t, Listed(listed)), states, labels);
  }

  lemma AllQueued(T: Tables, tickets: map<Path, A.Ticket>, now: int, listed: seq<Deletion>, limit: nat)
    requires A.Listing(T, tickets, now, listed, limit)
    ensures forall d :: d in listed ==> d.path in T.deletions && T.deletions[d.path] == d.mod
  {
  }
}
