/**
 The leases of background work: retention cleanups and the deletion worker,
 whose timeout starts before they ask for the lease, and the upstream refresh,
 whose timeout starts once it has it. Replicas keep their identity; a statement
 may take effect at any moment, even after its caller has given up on it.
 */
module BackgroundLeases {
  import opened Version
  import opened LeaseTable

  /**
   In milliseconds: the lease, the work timeout, how much longer work may linger
   after its timeout, and the bound on replies and cancellation.
   */
  datatype Discipline = Discipline(lease: int, work: int, linger: int, latency: int, fromGrant: bool) {
    predicate Sane() { lease > 0 && work >= 0 && linger >= 0 && latency >= 0 }

    /** All that a replica may still do after asking for the lease, or after getting it, fits into the lease. */
    predicate Sound() {
      Sane() && work + linger + (if fromGrant then 2 * latency else latency) < lease
    }
  }

  const RETENTION_TIMEOUT := 600000
  const DELETION_TIMEOUT := 90000
  const REFRESH_MARK_TIMEOUT := 5000

  function Retention(latency: int): Discipline { Discipline(2 * RETENTION_TIMEOUT, RETENTION_TIMEOUT, 0, latency, false) }

  function Deletion(latency: int): Discipline { Discipline(2 * DELETION_TIMEOUT, DELETION_TIMEOUT, 0, latency, false) }

  function Refresh(interval: int, latency: int): Discipline
  {
    Discipline(if 2 * interval > 30000 then 2 * interval else 30000, interval, REFRESH_MARK_TIMEOUT, latency, true)
  }

  /**
   Half a lease of work leaves the other half for delays. A refresh has the
   larger of its interval and what that leaves of half a minute; at 15 seconds,
   the worst, that is ten seconds for two delays beside the five to mark in.
   */
  lemma RegistryDisciplines(latency: int)
    requires latency >= 0
    ensures Retention(latency).Sound() <==> latency < 600000
    ensures Deletion(latency).Sound() <==> latency < 90000
    ensures forall interval :: interval > 0 ==>
              (Refresh(interval, latency).Sound()
               <==> 2 * latency + 5000 < if interval > 15000 then interval else 30000 - interval)
    ensures (forall interval :: interval > 0 ==> Refresh(interval, latency).Sound()) <==> latency < 5000
  {
    if latency >= 5000 { assert !Refresh(15000, latency).Sound(); }
  }

  datatype Phase = Resting | Trying(begun: int, effect: Option<int>) | Cleaning(since: int)

  datatype State = State(now: int, leases: Leases, replicas: map<string, Phase>)

  datatype Action =
    | Pass(time: int)
    | Join(holder: string)
    | Wake(holder: string)
    | Statement(holder: string)
    | Lead(holder: string)
    | Stop(holder: string)
    | Release(holder: string)

  predicate InTime(D: Discipline, phase: Phase, now: int)
  {
    match phase
    case Resting => true
    case Trying(begun, effect) =>
      (effect.Some? ==> now <= effect.value + D.latency) && (!D.fromGrant ==> now <= begun + D.work + D.latency)
    case Cleaning(since) => now <= since + D.work + D.linger + D.latency
  }

  predicate Step(D: Discipline, name: string, s: State, a: Action, s': State)
  {
    match a
    case Pass(time) =>
      time >= 0 && s' == s.(now := s.now + time)
      && forall h :: h in s.replicas ==> InTime(D, s.replicas[h], s.now + time)
    case Join(h) => h !in s.replicas && s' == s.(replicas := s.replicas[h := Resting])
    case Wake(h) =>
      h in s.replicas && s.replicas[h].Resting? && s' == s.(replicas := s.replicas[h := Trying(s.now, None)])
    case Statement(h) =>
      h in s.replicas
      && var p := s.replicas[h];
         s' == State(s.now, Acquired(s.leases, name, h, D.lease, s.now),
                     if MayTake(s.leases, name, h, s.now) && p.Trying? && p.effect.None?
                     then s.replicas[h := p.(effect := Some(s.now))] else s.replicas)
    case Lead(h) =>
      h in s.replicas && s.replicas[h].Trying? && s.replicas[h].effect.Some?
      && s' == s.(replicas := s.replicas[h := Cleaning(if D.fromGrant then s.now else s.replicas[h].begun)])
    case Stop(h) => h in s.replicas && !s.replicas[h].Resting? && s' == s.(replicas := s.replicas[h := Resting])
    case Release(h) =>
      h in s.replicas && s.replicas[h].Resting? && s' == s.(leases := Released(s.leases, name, h))
  }

  predicate Fits(D: Discipline, name: string, s: State, h: string)
    requires h in s.replicas
  {
    match s.replicas[h]
    case Resting => true
    case Trying(begun, effect) =>
      begun <= s.now && (!D.fromGrant ==> s.now <= begun + D.work + D.latency)
      && (effect.Some? ==>
            begun <= effect.value <= s.now <= effect.value + D.latency && Own(s.leases, name, h, effect.value + D.lease - 1))
    case Cleaning(since) =>
      since <= s.now <= since + D.work + D.linger + D.latency
      && Own(s.leases, name, h, since + D.work + D.linger + D.latency)
  }

  ghost predicate Inv(D: Discipline, name: string, s: State)
  {
    forall h :: h in s.replicas ==> Fits(D, name, s, h)
  }

  lemma StepFits(D: Discipline, name: string, s: State, a: Action, s': State, g: string)
    requires D.Sound() && Step(D, name, s, a, s') && g in s.replicas && Fits(D, name, s, g)
    ensures Fits(D, name, s', g)
  {
  }

  lemma StepKeepsInv(D: Discipline, name: string, s: State, a: Action, s': State)
    requires D.Sound() && Inv(D, name, s) && Step(D, name, s, a, s')
    ensures Inv(D, name, s')
  {
    forall g | g in s'.replicas ensures Fits(D, name, s', g) {
      if g in s.replicas { StepFits(D, name, s, a, s', g); }
    }
  }

  ghost predicate Run(D: Discipline, name: string, states: seq<State>, actions: seq<Action>)
  {
    && |states| == |actions| + 1 && states[0].replicas == map[]
    && forall i :: 0 <= i < |actions| ==> Step(D, name, states[i], actions[i], states[i + 1])
  }

  lemma {:induction false} ReachableInv(D: Discipline, name: string, states: seq<State>, actions: seq<Action>, i: nat)
    requires D.Sound() && Run(D, name, states, actions) && i < |states|
    ensures Inv(D, name, states[i])
  {
    if i > 0 {
      ReachableInv(D, name, states, actions, i - 1);
      StepKeepsInv(D, name, states[i - 1], actions[i - 1], states[i]);
    }
  }

  /** A replica that works holds an unexpired lease; so two replicas never do the same work at once. */
  lemma OneReplicaWorks(D: Discipline, name: string, states: seq<State>, actions: seq<Action>, i: nat, g: string, h: string)
    requires D.Sound() && Run(D, name, states, actions) && i < |states|
    requires g in states[i].replicas && states[i].replicas[g].Cleaning?
    requires h in states[i].replicas && states[i].replicas[h].Cleaning?
    ensures Own(states[i].leases, name, g, states[i].now) && g == h
  {
    ReachableInv(D, name, states, actions, i);
    assert Fits(D, name, states[i], g) && Fits(D, name, states[i], h);
  }

  /* ---------- the bound is exact ---------- */

  ghost predicate Clash(s: State)
  {
    exists g, h :: g in s.replicas && h in s.replicas && g != h && s.replicas[g].Cleaning? && s.replicas[h].Cleaning?
  }

  lemma Extended(D: Discipline, name: string, states: seq<State>, actions: seq<Action>, a: Action, s': State)
    returns (states': seq<State>, actions': seq<Action>)
    requires Run(D, name, states, actions) && Step(D, name, states[|actions|], a, s')
    ensures Run(D, name, states', actions') && states'[|actions'|] == s'
  {
    states', actions' := states + [s'], actions + [a];
    forall i | 0 <= i < |actions'| ensures Step(D, name, states'[i], actions'[i], states'[i + 1]) {
      if i < |actions| { assert Step(D, name, states[i], actions[i], states[i + 1]); }
    }
  }

  /** Replica "a" has taken the lease at time 0 and still waits for the reply. */
  lemma TakenIsReachable(D: Discipline, name: string) returns (states: seq<State>, actions: seq<Action>)
    requires D.Sane()
    ensures Run(D, name, states, actions)
    ensures states[|actions|] == State(0, map[name := Lease("a", D.lease)], map["a" := Trying(0, Some(0))])
  {
    var s0 := State(0, map[], map[]);
    states, actions := [s0], [];
    states, actions := Extended(D, name, states, actions, Join("a"), s0.(replicas := map["a" := Resting]));
    states, actions := Extended(D, name, states, actions, Wake("a"), s0.(replicas := map["a" := Trying(0, None)]));
    states, actions := Extended(D, name, states, actions, Statement("a"),
                                State(0, map[name := Lease("a", D.lease)], map["a" := Trying(0, Some(0))]));
  }

  /** It may still be at work when the lease runs out. */
  lemma OverrunIsReachable(D: Discipline, name: string) returns (states: seq<State>, actions: seq<Action>, since: int)
    requires D.Sane() && !D.Sound()
    ensures Run(D, name, states, actions)
    ensures states[|actions|] == State(D.lease, map[name := Lease("a", D.lease)], map["a" := Cleaning(since)])
  {
    states, actions := TakenIsReachable(D, name);
    var s := states[|actions|];
    var reply := if !D.fromGrant then 0 else if D.latency < D.lease then D.latency else D.lease;
    since := if D.fromGrant then reply else 0;
    if D.fromGrant { states, actions := Extended(D, name, states, actions, Pass(reply), s.(now := reply)); }
    s := s.(now := reply, replicas := map["a" := Cleaning(since)]);
    states, actions := Extended(D, name, states, actions, Lead("a"), s);
    states, actions := Extended(D, name, states, actions, Pass(D.lease - reply), s.(now := D.lease));
  }

  /** Whenever the bound fails there is a run on which two replicas do the same work at once. */
  lemma UnsoundDisciplineBreaksExclusion(D: Discipline, name: string) returns (states: seq<State>, actions: seq<Action>)
    requires D.Sane() && !D.Sound()
    ensures Run(D, name, states, actions) && Clash(states[|actions|])
  {
    var since;
    states, actions, since := OverrunIsReachable(D, name);
    var s := states[|actions|];
    var joined := s.(replicas := s.replicas["b" := Resting]);
    var trying := s.(replicas := s.replicas["b" := Trying(D.lease, None)]);
    var taken := State(D.lease, map[name := Lease("b", 2 * D.lease)], s.replicas["b" := Trying(D.lease, Some(D.lease))]);
    var both := taken.(replicas := s.replicas["b" := Cleaning(D.lease)]);
    states, actions := Extended(D, name, states, actions, Join("b"), joined);
    states, actions := Extended(D, name, states, actions, Wake("b"), trying);
    states, actions := Extended(D, name, states, actions, Statement("b"), taken);
    states, actions := Extended(D, name, states, actions, Lead("b"), both);
    assert "a" in both.replicas && "b" in both.replicas && both.replicas["a"].Cleaning? && both.replicas["b"].Cleaning?;
  }
}
