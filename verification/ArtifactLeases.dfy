/**
 Leases on upstream cache entries, renewed while work goes on: a timed step
 system with any number of workers and lease names. A statement may take effect
 at any moment, even after its caller has given up on it.
 */
module ArtifactLeases {
  import opened Version
  import opened LeaseTable

  /** All in milliseconds. `latency` bounds a reply, `slack` the start of a due renewal. */
  datatype Timing = Timing(ttl: int, renewTimeout: int, latency: int, slack: int) {
    function Interval(): int { ttl / 3 }

    /** A third of the lease, the renewal timeout and the delays fit into the lease. */
    predicate Sound() {
      ttl > 0 && 0 <= renewTimeout <= Interval() && latency >= 0 && slack >= 0
      && Interval() + renewTimeout + 2 * latency + slack < ttl
    }
  }

  const LEASE := 75000
  const RENEW_TIMEOUT := 5000

  /** With the registry's constants the delays may add up to almost 45 seconds. */
  lemma RegistryTimingIsSound(latency: int, slack: int)
    requires latency >= 0 && slack >= 0
    ensures Timing(LEASE, RENEW_TIMEOUT, latency, slack).Sound() <==> 2 * latency + slack < 45000
  {
  }

  /**
   A worker's lease: being asked for, live with the next renewal due at a tick,
   being renewed since `start`, or over. `effect` is when the statement of the
   current call took effect.
   */
  datatype Phase =
    | Asking(effect: Option<int>)
    | Live(tick: int)
    | Renewing(tick: int, start: int, effect: Option<int>)
    | Over

  datatype Worker = Worker(name: string, phase: Phase)

  /** Workers are known by their holder, which is fresh for every acquisition. */
  datatype State = State(now: int, leases: Leases, workers: map<string, Worker>)

  datatype Action =
    | Pass(time: int)
    | Begin(holder: string, name: string)
    | Statement(holder: string)
    | Granted(holder: string)
    | GiveUp(holder: string)
    | StartRenewal(holder: string)
    | Renewed(holder: string)
    | Finish(holder: string)
    | Release(holder: string)

  /** Bounded latency: time does not pass a moment by which a worker must have moved. */
  predicate InTime(T: Timing, phase: Phase, now: int)
  {
    match phase
    case Asking(effect) => effect.Some? ==> now <= effect.value + T.latency
    case Live(tick) => now <= tick + T.slack
    case Renewing(_, start, _) => now <= start + T.renewTimeout + T.latency
    case Over => true
  }

  /** The first effect of a call is the one its reply reports. */
  function Noted(phase: Phase, now: int): Phase
  {
    match phase
    case Asking(effect) => Asking(if effect.None? then Some(now) else effect)
    case Renewing(tick, start, effect) => Renewing(tick, start, if effect.None? then Some(now) else effect)
    case Live(_) => phase
    case Over => phase
  }

  function Become(s: State, holder: string, phase: Phase): State
    requires holder in s.workers
  {
    s.(workers := s.workers[holder := s.workers[holder].(phase := phase)])
  }

  predicate Step(T: Timing, s: State, a: Action, s': State)
  {
    match a
    case Pass(time) =>
      time >= 0 && s' == s.(now := s.now + time)
      && forall h :: h in s.workers ==> InTime(T, s.workers[h].phase, s.now + time)
    case Begin(h, name) => h !in s.workers && s' == s.(workers := s.workers[h := Worker(name, Asking(None))])
    case Statement(h) =>
      h in s.workers
      && var w := s.workers[h];
         s' == State(s.now, Acquired(s.leases, w.name, h, T.ttl, s.now),
                     if MayTake(s.leases, w.name, h, s.now) then s.workers[h := w.(phase := Noted(w.phase, s.now))] else s.workers)
    case Granted(h) =>
      h in s.workers && s.workers[h].phase.Asking? && s.workers[h].phase.effect.Some?
      && s' == Become(s, h, Live(s.now + T.Interval()))
    case GiveUp(h) =>
      // a call that fails, or an unsuccessful one, or the object turning up while waiting: the work goes on
      // without a lease then; a failed renewal cancels the work
      h in s.workers && (s.workers[h].phase.Asking? || s.workers[h].phase.Renewing?) && s' == Become(s, h, Over)
    case StartRenewal(h) =>
      h in s.workers && s.workers[h].phase.Live? && s.workers[h].phase.tick <= s.now
      && s' == Become(s, h, Renewing(s.workers[h].phase.tick, s.now, None))
    case Renewed(h) =>
      h in s.workers && s.workers[h].phase.Renewing? && s.workers[h].phase.effect.Some?
      && var next := s.workers[h].phase.tick + T.Interval();
         s' == Become(s, h, Live(if next < s.now then s.now else next))
    case Finish(h) => h in s.workers && s.workers[h].phase.Live? && s' == Become(s, h, Over)
    case Release(h) =>
      h in s.workers && s.workers[h].phase.Over? && s' == s.(leases := Released(s.leases, s.workers[h].name, h))
  }

  /** The lease context is live: acquired, and neither cancelled nor given up. */
  predicate Working(w: Worker) { w.phase.Live? || w.phase.Renewing? }

  /* ---------- the invariant ---------- */

  predicate Fits(T: Timing, s: State, h: string)
    requires h in s.workers
  {
    var w := s.workers[h];
    match w.phase
    case Asking(effect) =>
      effect.Some? ==> effect.value <= s.now <= effect.value + T.latency && Own(s.leases, w.name, h, effect.value + T.ttl - 1)
    case Live(tick) =>
      s.now - T.slack <= tick <= s.now + T.Interval()
      && Own(s.leases, w.name, h, tick + T.slack + T.renewTimeout + T.latency)
    case Renewing(tick, start, effect) =>
      && tick <= start <= s.now <= start + T.renewTimeout + T.latency
      && start <= tick + T.slack
      && Own(s.leases, w.name, h, start + T.renewTimeout + T.latency)
      && (effect.Some? ==> start <= effect.value <= s.now && Own(s.leases, w.name, h, effect.value + T.ttl - 1))
    case Over => true
  }

  ghost predicate Inv(T: Timing, s: State) { forall h :: h in s.workers ==> Fits(T, s, h) }

  lemma StatementFits(T: Timing, s: State, h: string, s': State, g: string)
    requires T.Sound() && Step(T, s, Statement(h), s') && g in s.workers && Fits(T, s, g)
    ensures Fits(T, s', g)
  {
  }

  lemma OwnMoveFits(T: Timing, s: State, a: Action, s': State, g: string)
    requires T.Sound() && Step(T, s, a, s') && g in s.workers && Fits(T, s, g)
    requires a.Granted? || a.GiveUp? || a.StartRenewal? || a.Renewed? || a.Finish?
    ensures Fits(T, s', g)
  {
    assert 3 * T.Interval() <= T.ttl;
  }

  lemma StepKeepsInv(T: Timing, s: State, a: Action, s': State)
    requires T.Sound() && Inv(T, s) && Step(T, s, a, s')
    ensures Inv(T, s')
  {
    forall g | g in s'.workers ensures Fits(T, s', g) {
      if g in s.workers {
        assert Fits(T, s, g);
        if a.Statement? { StatementFits(T, s, a.holder, s', g); }
        else if !a.Pass? && !a.Begin? && !a.Release? { OwnMoveFits(T, s, a, s', g); }
      }
    }
  }

  /* ---------- over whole runs ---------- */

  ghost predicate Run(T: Timing, states: seq<State>, actions: seq<Action>)
  {
    && |states| == |actions| + 1 && states[0].workers == map[]
    && forall i :: 0 <= i < |actions| ==> Step(T, states[i], actions[i], states[i + 1])
  }

  lemma {:induction false} ReachableInv(T: Timing, states: seq<State>, actions: seq<Action>, i: nat)
    requires T.Sound() && Run(T, states, actions) && i < |states|
    ensures Inv(T, states[i])
  {
    if i > 0 {
      ReachableInv(T, states, actions, i - 1);
      StepKeepsInv(T, states[i - 1], actions[i - 1], states[i]);
    }
  }

  /** Whenever a lease context is live, the SQL row is its own and unexpired. */
  lemma LiveMeansOwned(T: Timing, states: seq<State>, actions: seq<Action>, i: nat, h: string)
    requires T.Sound() && Run(T, states, actions) && i < |states|
    requires h in states[i].workers && Working(states[i].workers[h])
    ensures Own(states[i].leases, states[i].workers[h].name, h, states[i].now)
  {
    ReachableInv(T, states, actions, i);
    assert Fits(T, states[i], h);
  }

  /** Two live workers never share an object path. */
  lemma LiveWorkersAreExclusive(T: Timing, states: seq<State>, actions: seq<Action>, i: nat, g: string, h: string)
    requires T.Sound() && Run(T, states, actions) && i < |states|
    requires g in states[i].workers && Working(states[i].workers[g])
    requires h in states[i].workers && Working(states[i].workers[h])
    requires states[i].workers[g].name == states[i].workers[h].name
    ensures g == h
  {
    LiveMeansOwned(T, states, actions, i, g);
    LiveMeansOwned(T, states, actions, i, h);
  }

  /* ---------- the bound is exact ---------- */

  /** Worker "a" works at the very moment its lease runs out. */
  predicate Overrun(T: Timing, s: State)
  {
    s.now == T.ttl && s.leases == map["p" := Lease("a", T.ttl)] && s.workers.Keys == {"a"}
    && s.workers["a"].name == "p" && Working(s.workers["a"])
  }

  predicate Sane(T: Timing) { T.ttl > 0 && 0 <= T.renewTimeout <= T.Interval() && T.latency >= 0 && T.slack >= 0 }

  lemma Extended(T: Timing, states: seq<State>, actions: seq<Action>, a: Action, s': State)
    returns (states': seq<State>, actions': seq<Action>)
    requires Run(T, states, actions) && Step(T, states[|actions|], a, s')
    ensures Run(T, states', actions') && states'[|actions'|] == s'
  {
    states', actions' := states + [s'], actions + [a];
    forall i | 0 <= i < |actions'| ensures Step(T, states'[i], actions'[i], states'[i + 1]) {
      if i < |actions| { assert Step(T, states[i], actions[i], states[i + 1]); }
    }
  }

  /** Worker "a" has taken the lease at time 0 and still waits for the reply. */
  function Taken(T: Timing): State { State(0, map["p" := Lease("a", T.ttl)], map["a" := Worker("p", Asking(Some(0)))]) }

  lemma TakenIsReachable(T: Timing) returns (states: seq<State>, actions: seq<Action>)
    requires Sane(T)
    ensures Run(T, states, actions) && states[|actions|] == Taken(T)
  {
    var s0, s1 := State(0, map[], map[]), State(0, map[], map["a" := Worker("p", Asking(None))]);
    states, actions := [s0], [];
    states, actions := Extended(T, states, actions, Begin("a", "p"), s1);
    states, actions := Extended(T, states, actions, Statement("a"), Taken(T));
  }

  /** A reply after the given time, up to the latency. */
  lemma GrantIsReachable(T: Timing, reply: int) returns (states: seq<State>, actions: seq<Action>)
    requires Sane(T) && 0 <= reply <= T.latency
    ensures Run(T, states, actions)
    ensures states[|actions|] == State(reply, map["p" := Lease("a", T.ttl)], map["a" := Worker("p", Live(reply + T.Interval()))])
  {
    states, actions := TakenIsReachable(T);
    var s := Taken(T).(now := reply);
    states, actions := Extended(T, states, actions, Pass(reply), s);
    states, actions := Extended(T, states, actions, Granted("a"), Become(s, "a", Live(reply + T.Interval())));
  }

  /**
   The reply takes the whole lease, or the renewal starts too late, or it does
   not get through in time.
   */
  lemma OverrunIsReachable(T: Timing) returns (states: seq<State>, actions: seq<Action>)
    requires Sane(T) && !T.Sound()
    ensures Run(T, states, actions) && Overrun(T, states[|actions|])
  {
    var reply := if T.latency < T.ttl then T.latency else T.ttl;
    states, actions := GrantIsReachable(T, reply);
    var s, due := states[|actions|], reply + T.Interval();
    if T.latency >= T.ttl {
    } else if T.latency + T.Interval() + T.slack >= T.ttl {
      states, actions := Extended(T, states, actions, Pass(T.ttl - reply), s.(now := T.ttl));
    } else {
      states, actions := Extended(T, states, actions, Pass(T.Interval() + T.slack), s.(now := due + T.slack));
      s := Become(states[|actions|], "a", Renewing(due, due + T.slack, None));
      states, actions := Extended(T, states, actions, StartRenewal("a"), s);
      states, actions := Extended(T, states, actions, Pass(T.ttl - due - T.slack), s.(now := T.ttl));
    }
  }

  ghost predicate Clash(s: State)
  {
    exists g, h :: g in s.workers && h in s.workers && g != h && Working(s.workers[g]) && Working(s.workers[h])
                   && s.workers[g].name == s.workers[h].name
  }

  /** Exclusion holds on every run exactly when the timing is sound: otherwise someone takes over a live worker's lease. */
  lemma UnsoundTimingBreaksExclusion(T: Timing) returns (states: seq<State>, actions: seq<Action>)
    requires Sane(T) && !T.Sound()
    ensures Run(T, states, actions) && Clash(states[|actions|])
  {
    states, actions := OverrunIsReachable(T);
    var s := states[|actions|];
    var s1 := s.(workers := s.workers["b" := Worker("p", Asking(None))]);
    var s2 := State(T.ttl, map["p" := Lease("b", 2 * T.ttl)], s1.workers["b" := Worker("p", Asking(Some(T.ttl)))]);
    var s3 := Become(s2, "b", Live(T.ttl + T.Interval()));
    states, actions := Extended(T, states, actions, Begin("b", "p"), s1);
    states, actions := Extended(T, states, actions, Statement("b"), s2);
    states, actions := Extended(T, states, actions, Granted("b"), s3);
    assert "a" in s3.workers && "b" in s3.workers && s3.workers["a"] == s.workers["a"];
  }
}
