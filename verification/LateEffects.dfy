/**
 Calls to the object store that take effect late: a delete or an upload whose
 failure was reported, or whose caller crashed, may still land at any time after.
 A late delete is harmless unless its object has been uploaded again since.
 */
module LateEffects {
  import opened Version
  import opened Store
  import opened Lifecycle
  import opened LifecycleInvariant
  import opened LifecycleSafety
  import opened LifecycleSteps
  import opened LifecycleEffects
  import opened LifecycleTheorems
  import opened LifecycleCompletion

  /** `deletes` are the objects that an abandoned delete may still remove. */
  datatype LateState = LateState(now: State, deletes: set<Path>)

  datatype LateEvent =
    | Ordinary(own: Label)
    | DeleteLands(path: Path)
    | DeleteLapses(path: Path)
    | UploadLands(path: Path, body: Bytes)

  /** What the next call of compensation, the worker or repair would remove. */
  function Doomed(th: Thread): set<Path>
  {
    if th.job.Publish? && th.pc == Publishing(Compensate) then {ArtifactOf(th.job)}
    else if th.pc.Working? && th.pc.work.RemoveQueued? && th.pc.work.todo != [] then {th.pc.work.todo[0].path}
    else if th.pc.Repairing? && th.pc.rep.RemoveOrphan? then {th.pc.rep.path}
    else {}
  }

  function Abandoned(s: State, l: Label): set<Path>
  {
    if l.thread in s.threads && (l.event == Fault(false) || l.event == Crash) then Doomed(s.threads[l.thread]) else {}
  }

  /** Which abandoned upload lands, once anything has failed, is left open. */
  ghost predicate LateStep(s: LateState, e: LateEvent, s': LateState)
  {
    match e
    case Ordinary(l) =>
      Step(s.now, l.thread, l.event, s'.now) && s'.deletes == s.deletes + Abandoned(s.now, l)
    case DeleteLands(p) =>
      p in s.deletes && s' == LateState(s.now.(world := Drop(s.now.world, p)), s.deletes - {p})
    case DeleteLapses(p) => s' == s.(deletes := s.deletes - {p})
    case UploadLands(p, body) =>
      !s.now.clean && (p.Artifact? ==> p.sha == Sha256(body)) && s' == s.(now := s.now.(world := Put(s.now.world, p, body)))
  }

  ghost predicate LateStepAt(states: seq<LateState>, events: seq<LateEvent>, i: int)
    requires 0 <= i < |events| && |states| == |events| + 1
  {
    LateStep(states[i], events[i], states[i + 1])
  }

  ghost predicate LateChain(states: seq<LateState>, events: seq<LateEvent>)
  {
    |states| == |events| + 1 && forall i :: 0 <= i < |events| ==> LateStepAt(states, events, i)
  }

  ghost predicate LateRun(states: seq<LateState>, events: seq<LateEvent>)
  {
    LateChain(states, events) && Init(states[0].now) && states[0].deletes == {}
  }

  /** The thread is about to upload an object that an abandoned delete may still remove. */
  ghost predicate AtRisk(s: LateState, t: Tid)
  {
    t in s.now.threads && s.now.threads[t].job.Publish? && s.now.threads[t].pc == Publishing(Upload)
    && ArtifactOf(s.now.threads[t].job) in s.deletes
  }

  /** An upload at risk succeeds, so that its publish goes on. */
  ghost predicate Rushes(s: LateState, e: LateEvent) { e.Ordinary? && e.own.event == Go && AtRisk(s, e.own.thread) }

  /** No upload at risk succeeds. */
  ghost predicate Patient(states: seq<LateState>, events: seq<LateEvent>)
    requires |states| == |events| + 1
  {
    forall i :: 0 <= i < |events| ==> !Rushes(states[i], events[i])
  }

  /* ---------- the invariant ---------- */

  /** Between its upload and the end of its commit, a publish relies on its object. */
  ghost predicate Relies(th: Thread, p: Path)
  {
    th.job.Publish? && ArtifactOf(th.job) == p && th.pc.Publishing?
    && (th.pc.pub.VerifyObject? || th.pc.pub.UpsertForPublish? || th.pc.pub.CommitPublish? || th.pc.pub.RereadPublish?)
  }

  /** Nobody needs the object. */
  ghost predicate Spare(s: State, p: Path)
  {
    !p.Cached? && (p.Artifact? ==> !RowHolds(s.world.tables, p)) && forall t :: t in s.threads ==> !Relies(s.threads[t], p)
  }

  ghost predicate LateInv(s: LateState)
  {
    Inv(s.now) && (forall p :: p in s.deletes ==> Spare(s.now, p)) && (s.deletes != {} ==> !s.now.clean)
  }

  /* ---------- what lands late ---------- */

  lemma JobKnowsAfterDelete(w: World, p: Path, th: Thread)
    requires JobKnows(w, th.job, th.pc, th.held, th.lease) && !p.Cached? && !Relies(th, p)
    ensures JobKnows(Drop(w, p), th.job, th.pc, th.held, th.lease)
  {
    if th.pc.Publishing? { PublishKnowsAfterDelete(w, p, th); }
  }

  lemma PublishKnowsAfterDelete(w: World, p: Path, th: Thread)
    requires th.job.Publish? && th.pc.Publishing? && PublishKnows(w, th.job, th.pc.pub) && !Relies(th, p)
    ensures PublishKnows(Drop(w, p), th.job, th.pc.pub)
  {
  }

  lemma KnowsAfterDelete(w: World, p: Path, th: Thread)
    requires Knows(w, th.job, th.pc, th.held, th.lease) && !p.Cached? && !Relies(th, p)
    ensures Knows(Drop(w, p), th.job, th.pc, th.held, th.lease)
  {
    if th.pc.Wait? {
      JobKnowsAfterDelete(w, p, Thread(th.job, th.pc.enter, Some(th.pc.mod), th.lease));
    } else if !ControlPoint(th.pc) {
      JobKnowsAfterDelete(w, p, th);
    }
  }

  lemma SpareWhateverIsStored(s: State, s': State, p: Path)
    requires Spare(s, p) && s'.world.tables == s.world.tables && s'.threads == s.threads
    ensures Spare(s', p)
  {
  }

  lemma DeleteLandingKeeps(s: LateState, p: Path, s': LateState)
    requires LateInv(s) && LateStep(s, DeleteLands(p), s')
    ensures LateInv(s')
  {
    assert Spare(s.now, p);
    DropSound(s.now.world, p);
    forall t | t in s'.now.threads ensures ThreadOk(s'.now, t) {
      assert ThreadOk(s.now, t);
      KnowsAfterDelete(s.now.world, p, s.now.threads[t]);
    }
    forall q | q in s'.deletes ensures Spare(s'.now, q) { SpareWhateverIsStored(s.now, s'.now, q); }
  }

  lemma JobKnowsAfterUpload(w: World, p: Path, body: Bytes, th: Thread)
    requires JobKnows(w, th.job, th.pc, th.held, th.lease)
    ensures JobKnows(Put(w, p, body), th.job, th.pc, th.held, th.lease)
  {
  }

  lemma KnowsAfterUpload(w: World, p: Path, body: Bytes, th: Thread)
    requires Knows(w, th.job, th.pc, th.held, th.lease)
    ensures Knows(Put(w, p, body), th.job, th.pc, th.held, th.lease)
  {
    if th.pc.Wait? {
      JobKnowsAfterUpload(w, p, body, Thread(th.job, th.pc.enter, Some(th.pc.mod), th.lease));
    } else if !ControlPoint(th.pc) {
      JobKnowsAfterUpload(w, p, body, th);
    }
  }

  lemma ThreadsAfterUpload(s: State, p: Path, body: Bytes)
    requires Inv(s)
    ensures forall t :: t in s.threads ==> ThreadOk(s.(world := Put(s.world, p, body)), t)
  {
    forall t | t in s.threads ensures ThreadOk(s.(world := Put(s.world, p, body)), t) {
      assert ThreadOk(s, t);
      KnowsAfterUpload(s.world, p, body, s.threads[t]);
    }
  }

  lemma UploadLandingKeeps(s: LateState, p: Path, body: Bytes, s': LateState)
    requires LateInv(s) && LateStep(s, UploadLands(p, body), s')
    ensures LateInv(s')
  {
    PutSound(s.now.world, p, body);
    ThreadsAfterUpload(s.now, p, body);
    forall q | q in s'.deletes ensures Spare(s'.now, q) { SpareWhateverIsStored(s.now, s'.now, q); }
  }

  /* ---------- ordinary steps ---------- */

  /** Only the commit of a publish makes a row name an artifact. */
  lemma RowAppears(w: World, th: Thread, e: Event, p: Path)
    requires Ready(w, th) && p.Artifact? && !RowHolds(w.tables, p)
    requires JobMove(w, th, e).Move? && RowHolds(JobMove(w, th, e).world.tables, p)
    ensures Relies(th, p)
  {
    match th.job
    case Publish(_, _, _, _, _) => PublishNames(w, th, e, p);
    case DeleteRelease(_, _) => DeleteReleaseNames(w, th, e, p);
    case DeleteModule(_) => DeleteModuleNames(w, th, e, p);
    case Worker =>
    case Repair =>
    case Hydrate(_) => HydrateNames(w, th, e, p);
    case Checksum(_, _) => ChecksumNames(w, th, e, p);
    case Prune =>
    case EnsureArtifact(_, _) =>
    case Index(_) => UpstreamNames(w, th, e, p);
    case Restore(_) => UpstreamNames(w, th, e, p);
  }

  ghost predicate NamesNothingNew(w: World, th: Thread, move: Move, p: Path)
    requires p.Artifact?
  {
    move.Move? && RowHolds(move.world.tables, p) ==> RowHolds(w.tables, p) || Relies(th, p)
  }

  lemma PublishNames(w: World, th: Thread, e: Event, p: Path)
    requires th.pc.Publishing? && th.job.Publish? && p.Artifact?
    ensures NamesNothingNew(w, th, PublishMove(w, th, e), p)
  {
    if th.pc.pub.CommitPublish? { CommitNames(w, th, e, p); }
  }

  lemma CommitNames(w: World, th: Thread, e: Event, p: Path)
    requires th.pc == Publishing(CommitPublish) && th.job.Publish? && p.Artifact?
    ensures NamesNothingNew(w, th, PublishMove(w, th, e), p)
  {
    var t, id, row := w.tables, th.job.id, PublishedRow(th.job);
    if id.mod in t.modules && RowHolds(CreateReleaseTx(t, id, row), p) && !RowHolds(t, p) { CreateNames(t, id, row, p); }
  }

  lemma CreateNames(t: Tables, id: ReleaseId, row: Row, p: Path)
    requires id.mod in t.modules && p.Artifact? && RowHolds(CreateReleaseTx(t, id, row), p) && !RowHolds(t, p)
    ensures p.id == id && row.path == Some(p)
  {
  }

  lemma DeleteReleaseNames(w: World, th: Thread, e: Event, p: Path)
    requires th.pc.Deleting? && th.job.DeleteRelease? && p.Artifact?
    ensures NamesNothingNew(w, th, DeleteReleaseMove(w, th, e), p)
  {
  }

  lemma DeleteModuleNames(w: World, th: Thread, e: Event, p: Path)
    requires th.pc.Deleting? && th.job.DeleteModule? && p.Artifact?
    ensures NamesNothingNew(w, th, DeleteModuleMove(w, th, e), p)
  {
  }

  lemma HydrateNames(w: World, th: Thread, e: Event, p: Path)
    requires th.pc.Hydrating? && th.job.Hydrate? && p.Artifact? && JobKnows(w, th.job, th.pc, th.held, th.lease)
    ensures NamesNothingNew(w, th, HydrateMove(w, th, e), p)
  {
  }

  lemma ChecksumNames(w: World, th: Thread, e: Event, p: Path)
    requires th.pc.Hashing? && th.job.Checksum? && p.Artifact? && JobKnows(w, th.job, th.pc, th.held, th.lease)
    ensures NamesNothingNew(w, th, ChecksumMove(w, th, e), p)
  {
  }

  lemma UpstreamNames(w: World, th: Thread, e: Event, p: Path)
    requires th.pc.Indexing? && (th.job.Index? || th.job.Restore?) && p.Artifact?
    ensures NamesNothingNew(w, th, UpstreamMove(w, th, e), p)
  {
  }

  lemma RelianceStartsWithCall(w: World, th: Thread, e: Event, p: Path)
    requires th.pc.Publishing? && th.job.Publish? && PublishMove(w, th, e).Move? && Relies(th.(pc := PublishMove(w, th, e).pc), p)
    ensures Relies(th, p) || (th.pc == Publishing(Upload) && e == Go)
  {
  }

  lemma LocksLeadToNoReliance(s: State, t: Tid, e: Event, s': State, p: Path)
    requires t in s.threads && ThreadOk(s, t) && ControlPoint(s.threads[t].pc) && ThreadStep(s, t, e, s')
    ensures !Relies(s'.threads[t], p)
  {
    var pc := s.threads[t].pc;
    if pc.Wait? { assert LockStep(s, t, e, s'); }
    else if pc.WaitLease? { assert LeaseStep(s, t, e, s'); }
    else if pc.Unlock? { assert UnlockStep(s, t, e, s'); }
    else { assert EndLeaseStep(s, t, e, s'); }
  }

  lemma ThreadStepMovesOne(s: State, t: Tid, e: Event, s': State)
    requires t in s.threads && ThreadStep(s, t, e, s')
    ensures s'.threads.Keys == s.threads.Keys && s'.threads[t].job == s.threads[t].job
    ensures forall u :: u in s.threads && u != t ==> s'.threads[u] == s.threads[u]
  {
  }

  lemma CallReliance(s: State, t: Tid, e: Event, s': State, p: Path)
    requires t in s.threads && ThreadOk(s, t) && !ControlPoint(s.threads[t].pc) && JobStep(s, t, e, s')
    requires Relies(s'.threads[t], p)
    ensures Relies(s.threads[t], p) || (s.threads[t].pc == Publishing(Upload) && e == Go)
  {
    RelianceStartsWithCall(s.world, s.threads[t], e, p);
  }

  /** A thread only comes to rely on an object by uploading it. */
  lemma RelianceStartsWithUpload(s: State, t: Tid, e: Event, s': State, u: Tid, p: Path)
    requires Inv(s) && Step(s, t, e, s') && u in s'.threads && Relies(s'.threads[u], p)
    ensures u in s.threads && s.threads[u].job == s'.threads[u].job
    ensures Relies(s.threads[u], p) || (u == t && s.threads[t].pc == Publishing(Upload) && e == Go)
  {
    if t in s.threads && ThreadStep(s, t, e, s') {
      ThreadStepMovesOne(s, t, e, s');
      if u == t { OwnReliance(s, t, e, s', p); }
    } else {
      OthersStay(s, t, e, s', u, p);
    }
  }

  lemma OwnReliance(s: State, t: Tid, e: Event, s': State, p: Path)
    requires Inv(s) && t in s.threads && ThreadStep(s, t, e, s') && t in s'.threads && Relies(s'.threads[t], p)
    ensures Relies(s.threads[t], p) || (s.threads[t].pc == Publishing(Upload) && e == Go)
  {
    assert ThreadOk(s, t);
    if ControlPoint(s.threads[t].pc) { LocksLeadToNoReliance(s, t, e, s', p); } else { CallReliance(s, t, e, s', p); }
  }

  /** Starting, crashing and retention make nobody rely on anything. */
  lemma OthersStay(s: State, t: Tid, e: Event, s': State, u: Tid, p: Path)
    requires StartStep(s, t, e, s') || PurgeStep(s, e, s') || (t in s.threads && CrashStep(s, t, e, s'))
    requires u in s'.threads && Relies(s'.threads[u], p)
    ensures u in s.threads && s.threads[u] == s'.threads[u]
  {
  }

  lemma SpareStays(s: LateState, l: Label, s': State, p: Path)
    requires Inv(s.now) && Step(s.now, l.thread, l.event, s') && Spare(s.now, p)
    requires p in s.deletes && !Rushes(s, Ordinary(l))
    ensures Spare(s', p)
  {
    var t := l.thread;
    forall u | u in s'.threads ensures !Relies(s'.threads[u], p) {
      if Relies(s'.threads[u], p) { RelianceStartsWithUpload(s.now, t, l.event, s', u, p); }
    }
    if p.Artifact? && RowHolds(s'.world.tables, p) {
      ChangesComeFromCalls(s.now, t, l.event, s');
      RowAppears(s.now.world, s.now.threads[t], l.event, p);
    }
  }

  lemma DoomedUnderLock(w: World, th: Thread, p: Path)
    requires Ready(w, th) && p in Doomed(th)
    ensures !p.Cached? && (p.Artifact? ==> th.held == Some(p.id.mod) && !RowHolds(w.tables, p))
    ensures forall q :: !Relies(th, q)
  {
  }

  lemma HoldersDiffer(s: State, t: Tid, u: Tid)
    requires Inv(s) && t in s.threads && u in s.threads && t != u && s.threads[t].held.Some?
    ensures s.threads[u].held != s.threads[t].held
  {
    assert ThreadOk(s, t) && ThreadOk(s, u);
  }

  /** What a thread is about to delete, nobody needs, and nobody else is about to need. */
  lemma DoomedIsSpare(s: State, l: Label, s': State, p: Path)
    requires Inv(s) && Step(s, l.thread, l.event, s') && p in Abandoned(s, l)
    ensures Spare(s', p)
  {
    var t := l.thread;
    CallsAreReady(s, t);
    DoomedUnderLock(s.world, s.threads[t], p);
    AbandonedChangesNothing(s, l, s');
    forall u | u in s'.threads ensures !Relies(s'.threads[u], p) {
      if Relies(s'.threads[u], p) {
        RelianceStartsWithUpload(s, t, l.event, s', u, p);
        OnlyTheHolderRelies(s, t, u, p);
        assert false;
      }
    }
  }

  lemma OnlyTheHolderRelies(s: State, t: Tid, u: Tid, p: Path)
    requires Inv(s) && t in s.threads && u in s.threads && p in Doomed(s.threads[t])
    ensures !Relies(s.threads[u], p) && s.threads[t].pc != Publishing(Upload)
  {
    CallsAreReady(s, t);
    DoomedUnderLock(s.world, s.threads[t], p);
    if u != t && Relies(s.threads[u], p) {
      RelyingHoldsLock(s, u, p);
      HoldersDiffer(s, t, u);
    }
  }

  lemma RelyingHoldsLock(s: State, u: Tid, p: Path)
    requires Inv(s) && u in s.threads && Relies(s.threads[u], p)
    ensures p.Artifact? && s.threads[u].held == Some(p.id.mod)
  {
    assert ThreadOk(s, u);
  }

  lemma AbandonedCall(w: World, th: Thread)
    requires Doomed(th) != {} && JobMove(w, th, Fault(false)).Move?
    ensures JobMove(w, th, Fault(false)).world == w && !JobMove(w, th, Fault(false)).clean
  {
  }

  lemma AbandonedChangesNothing(s: State, l: Label, s': State)
    requires Step(s, l.thread, l.event, s') && Abandoned(s, l) != {}
    ensures s'.world == s.world && !s'.clean
  {
    if l.event != Crash { AbandonedCall(s.world, s.threads[l.thread]); }
  }

  lemma OrdinaryStepKeeps(s: LateState, l: Label, s': LateState)
    requires LateInv(s) && LateStep(s, Ordinary(l), s') && !Rushes(s, Ordinary(l))
    ensures LateInv(s')
  {
    StepKeepsInv(s.now, l.thread, l.event, s'.now);
    forall p | p in s'.deletes ensures Spare(s'.now, p) {
      if p in s.deletes { SpareStays(s, l, s'.now, p); } else { DoomedIsSpare(s.now, l, s'.now, p); }
    }
    if Abandoned(s.now, l) != {} { AbandonedChangesNothing(s.now, l, s'.now); }
  }

  /* ---------- the main results ---------- */

  /** Every state of every run on which no upload at risk succeeds. */
  lemma {:induction false} PatientRunsKeepInv(states: seq<LateState>, events: seq<LateEvent>, i: nat)
    requires LateRun(states, events) && Patient(states, events) && i < |states|
    ensures LateInv(states[i])
  {
    if i > 0 {
      PatientRunsKeepInv(states, events, i - 1);
      assert LateStepAt(states, events, i - 1);
      LateStepKeeps(states[i - 1], events[i - 1], states[i]);
    }
  }

  lemma LateStepKeeps(s: LateState, e: LateEvent, s': LateState)
    requires LateInv(s) && LateStep(s, e, s') && !Rushes(s, e)
    ensures LateInv(s')
  {
    match e
    case Ordinary(l) => OrdinaryStepKeeps(s, l, s');
    case DeleteLands(p) => DeleteLandingKeeps(s, p, s');
    case DeleteLapses(p) =>
    case UploadLands(p, body) => UploadLandingKeeps(s, p, body, s');
  }

  ghost predicate Dangles(w: World, id: ReleaseId)
  {
    && id in w.tables.releases && w.tables.releases[id].source == Local
    && !(w.tables.releases[id].path.Some? && w.tables.releases[id].path.value in w.objects)
  }

  /** Unless an upload at risk succeeds, late deletes and uploads leave every local release with its bytes. */
  lemma LateNoDanglingRelease(states: seq<LateState>, events: seq<LateEvent>, i: nat, id: ReleaseId)
    requires LateRun(states, events) && Patient(states, events) && i < |states|
    requires id in states[i].now.world.tables.releases && states[i].now.world.tables.releases[id].source == Local
    ensures var w := states[i].now.world;
            var row := w.tables.releases[id];
            row.path.Some? && row.path.value in w.objects
            && Sha256(w.objects[row.path.value]) == row.sha && |w.objects[row.path.value]| == row.size
  {
    PatientRunsKeepInv(states, events, i);
  }

  /* ---------- the condition is exact ---------- */

  /** One after the other, by the same abandoned deletes. */
  lemma Lifted(chain: seq<State>, labels: seq<Label>, t: Tid, deletes: set<Path>)
    returns (states: seq<LateState>, events: seq<LateEvent>)
    requires Chain(chain, labels) && Alone(labels, t)
    ensures LateChain(states, events) && |events| == |labels|
    ensures states[0] == LateState(chain[0], deletes) && states[|events|] == LateState(chain[|labels|], deletes)
  {
    states := seq(|chain|, i requires 0 <= i < |chain| => LateState(chain[i], deletes));
    events := seq(|labels|, i requires 0 <= i < |labels| => Ordinary(labels[i]));
    forall i | 0 <= i < |events| ensures LateStepAt(states, events, i) {
      assert StepAt(chain, labels, i) && labels[i] in labels;
    }
  }

  lemma Joined(states: seq<LateState>, events: seq<LateEvent>, more: seq<LateState>, after: seq<LateEvent>)
    returns (states': seq<LateState>, events': seq<LateEvent>)
    requires LateChain(states, events) && LateChain(more, after) && states[|events|] == more[0]
    ensures LateChain(states', events') && states'[0] == states[0] && states'[|events'|] == more[|after|]
  {
    states', events' := states + more[1..], events + after;
    forall i | 0 <= i < |events'| ensures LateStepAt(states', events', i) {
      if i < |events| { assert LateStepAt(states, events, i); } else { assert LateStepAt(more, after, i - |events|); }
    }
  }

  /** A publish on its way, whose object an abandoned delete may still remove, can end with a release that has no bytes. */
  lemma PublishThenLoses(s: LateState, t: Tid) returns (states: seq<LateState>, events: seq<LateEvent>)
    requires Inv(s.now) && t in s.now.threads && OnTheWay(s.now.world, s.now.threads[t].job, s.now.threads[t].pc)
    requires ArtifactOf(s.now.threads[t].job) in s.deletes
    ensures LateChain(states, events) && states[0] == s
    ensures Dangles(states[|events|].now.world, s.now.threads[t].job.id)
  {
    var p := ArtifactOf(s.now.threads[t].job);
    var chain, labels := CallsComplete(s.now, t);
    states, events := Lifted(chain, labels, t, s.deletes);
    var published := states[|events|];
    assert ThreadOk(published.now, t);
    var lost := LateState(published.now.(world := Drop(published.now.world, p)), published.deletes - {p});
    states, events := Followed(states, events, DeleteLands(p), lost);
  }

  /** So the first upload at risk, on any run, can succeed and be followed by the loss of its release. */
  lemma UploadAtRiskCanDangle(before: seq<LateState>, past: seq<LateEvent>, t: Tid)
    returns (states: seq<LateState>, events: seq<LateEvent>)
    requires LateRun(before, past) && Patient(before, past) && AtRisk(before[|past|], t)
    ensures LateChain(states, events) && states[0] == before[|past|]
    ensures Dangles(states[|events|].now.world, before[|past|].now.threads[t].job.id)
  {
    PatientRunsKeepInv(before, past, |past|);
    states, events := PublishThenLoses(before[|past|], t);
  }

  /** Such a run exists for every publication: a repair crashes in its delete, the release is published, the delete lands. */
  lemma LateDeleteDangles(job: Job) returns (states: seq<LateState>, events: seq<LateEvent>)
    requires job.Publish?
    ensures LateRun(states, events) && Dangles(states[|events|].now.world, job.id)
  {
    var p := ArtifactOf(job);
    states, events := RepairCrashes(p);
    var crashed := states[|events|];
    var started, locked := Started(crashed.now, 0, job);
    states, events := Followed(states, events, Ordinary(Label(0, Start(job))), LateState(started, {p}));
    states, events := Followed(states, events, Ordinary(Label(0, Go)), LateState(locked, {p}));
    var more, after := PublishThenLoses(LateState(locked, {p}), 0);
    states, events := Joined(states, events, more, after);
  }

  /** Nothing stored, nothing running. */
  function Idle(clean: bool): State { State(World(Tables(map[], map[], map[], {}), map[], true), map[], map[], map[], clean) }

  function WithRepair(pc: Pc, held: Option<ModuleId>): State
  {
    Idle(true).(threads := map[0 := Thread(Repair, pc, held, None)], locks := if held.Some? then map[held.value := 0] else map[])
  }

  lemma IdleInv()
    ensures Inv(Idle(false))
  {
  }

  /** A repair that is in the middle of its delete crashes. */
  lemma RepairCrashes(p: Path) returns (states: seq<LateState>, events: seq<LateEvent>)
    requires p.Artifact?
    ensures LateRun(states, events) && states[|events|] == LateState(Idle(false), {p}) && Inv(Idle(false))
  {
    RepairSteps(p);
    IdleInv();
    states, events := RepairReachesDelete(p);
    states, events := Followed(states, events, Ordinary(Label(0, Crash)), LateState(Idle(false), {p}));
  }

  lemma RepairReachesDelete(p: Path) returns (states: seq<LateState>, events: seq<LateEvent>)
    requires p.Artifact?
    ensures LateRun(states, events)
    ensures states[|events|] == LateState(WithRepair(Repairing(RemoveOrphan(p)), Some(p.id.mod)), {})
  {
    var m := p.id.mod;
    RepairSteps(p);
    states, events := [LateState(Idle(true), {})], [];
    states, events := Followed(states, events, Ordinary(Label(0, Start(Repair))), LateState(WithRepair(Repairing(ListObjects), None), {}));
    states, events := Followed(states, events, Ordinary(Label(0, Object(p, m))),
                               LateState(WithRepair(Wait(m, Repairing(CheckOrphan(p))), None), {}));
    states, events := Followed(states, events, Ordinary(Label(0, Go)), LateState(WithRepair(Repairing(CheckOrphan(p)), Some(m)), {}));
    states, events := Followed(states, events, Ordinary(Label(0, Go)), LateState(WithRepair(Repairing(RemoveOrphan(p)), Some(m)), {}));
  }

  lemma Followed(states: seq<LateState>, events: seq<LateEvent>, e: LateEvent, s: LateState)
    returns (states': seq<LateState>, events': seq<LateEvent>)
    requires LateChain(states, events) && LateStep(states[|events|], e, s)
    ensures LateChain(states', events') && states'[0] == states[0] && states'[|events'|] == s
  {
    assert LateStepAt([states[|events|], s], [e], 0);
    states', events' := Joined(states, events, [states[|events|], s], [e]);
  }

  lemma RepairSteps(p: Path)
    requires p.Artifact?
    ensures var m := p.id.mod;
            && Step(Idle(true), 0, Start(Repair), WithRepair(Repairing(ListObjects), None))
            && Step(WithRepair(Repairing(ListObjects), None), 0, Object(p, m), WithRepair(Wait(m, Repairing(CheckOrphan(p))), None))
            && Step(WithRepair(Wait(m, Repairing(CheckOrphan(p))), None), 0, Go, WithRepair(Repairing(CheckOrphan(p)), Some(m)))
            && Step(WithRepair(Repairing(CheckOrphan(p)), Some(m)), 0, Go, WithRepair(Repairing(RemoveOrphan(p)), Some(m)))
            && Step(WithRepair(Repairing(RemoveOrphan(p)), Some(m)), 0, Crash, Idle(false))
  {
    RepairStartsAndCrashes(p);
    RepairLocks(p);
    RepairCalls(p);
  }

  lemma RepairStartsAndCrashes(p: Path)
    requires p.Artifact?
    ensures Step(Idle(true), 0, Start(Repair), WithRepair(Repairing(ListObjects), None))
    ensures Step(WithRepair(Repairing(RemoveOrphan(p)), Some(p.id.mod)), 0, Crash, Idle(false))
  {
    assert StartStep(Idle(true), 0, Start(Repair), WithRepair(Repairing(ListObjects), None));
    assert CrashStep(WithRepair(Repairing(RemoveOrphan(p)), Some(p.id.mod)), 0, Crash, Idle(false));
  }

  lemma RepairLocks(p: Path)
    requires p.Artifact?
    ensures Step(WithRepair(Wait(p.id.mod, Repairing(CheckOrphan(p))), None), 0, Go, WithRepair(Repairing(CheckOrphan(p)), Some(p.id.mod)))
  {
    var waiting, checking := WithRepair(Wait(p.id.mod, Repairing(CheckOrphan(p))), None), WithRepair(Repairing(CheckOrphan(p)), Some(p.id.mod));
    assert LockStep(waiting, 0, Go, checking);
  }

  lemma RepairCalls(p: Path)
    requires p.Artifact?
    ensures var m := p.id.mod;
            && Step(WithRepair(Repairing(ListObjects), None), 0, Object(p, m), WithRepair(Wait(m, Repairing(CheckOrphan(p))), None))
            && Step(WithRepair(Repairing(CheckOrphan(p)), Some(m)), 0, Go, WithRepair(Repairing(RemoveOrphan(p)), Some(m)))
  {
    var m := p.id.mod;
    assert JobStep(WithRepair(Repairing(ListObjects), None), 0, Object(p, m), WithRepair(Wait(m, Repairing(CheckOrphan(p))), None));
    assert JobStep(WithRepair(Repairing(CheckOrphan(p)), Some(m)), 0, Go, WithRepair(Repairing(RemoveOrphan(p)), Some(m)));
  }
}
