/**
 The upstream refresh: which modules a cycle takes, and how a pool of workers
 goes through them.
 */
module Refresh {
  import opened Text
  import opened SetSizes
  import opened Version
  import opened Store

  /* ---------- fairness of the listing ---------- */

  /** When each upstream module was last attempted, if ever. */
  type Marks = map<ModuleId, Option<int>>

  predicate Earlier(a: Option<int>, b: Option<int>) { b.Some? && (a.None? || a.value < b.value) }

  predicate NameBefore(m: ModuleId, n: ModuleId)
  {
    if m.owner == n.owner then Compare(m.name, n.name) < 0 else Compare(m.owner, n.owner) < 0
  }

  /** The order of ListUpstreamModules: never attempted first, then longest ago, then by name. */
  predicate Before(marks: Marks, m: ModuleId, n: ModuleId)
    requires m in marks && n in marks
  {
    Earlier(marks[m], marks[n]) || (marks[m] == marks[n] && NameBefore(m, n))
  }

  /** The first `limit` modules in that order. */
  ghost predicate Listing(marks: Marks, listed: seq<ModuleId>, limit: nat)
  {
    && (forall m <- listed :: m in marks)
    && (forall i, j :: 0 <= i < j < |listed| ==> listed[i] != listed[j] && !Before(marks, listed[j], listed[i]))
    && |listed| == (if limit < |marks| then limit else |marks|)
    && (forall m, n :: m in listed && n in marks && n !in listed ==> !Before(marks, n, m))
  }

  /** A completed cycle marks what it listed, whether the sync succeeded or not, later than anything before. */
  ghost predicate Cycle(marks: Marks, listed: seq<ModuleId>, marks': Marks)
  {
    && marks'.Keys == marks.Keys
    && (forall m :: m in marks && m !in listed ==> marks'[m] == marks[m])
    && (forall m :: m in listed && m in marks ==> marks'[m].Some?)
    && (forall m, n :: m in listed && m in marks && n in marks && marks[n].Some? ==> marks[n].value < marks'[m].value)
  }

  ghost predicate Cycles(states: seq<Marks>, lists: seq<seq<ModuleId>>, limit: nat)
  {
    && |states| == |lists| + 1
    && forall c :: 0 <= c < |lists| ==> Listing(states[c], lists[c], limit) && Cycle(states[c], lists[c], states[c + 1])
  }

  function Members(s: seq<ModuleId>): set<ModuleId> { set m | m in s }

  function Attempted(lists: seq<seq<ModuleId>>, c: nat): set<ModuleId>
    requires c <= |lists|
  {
    if c == 0 then {} else Attempted(lists, c - 1) + Members(lists[c - 1])
  }

  /** What has not been attempted keeps its mark; what has been attempted is marked later than all of that. */
  lemma {:induction false} AttemptedComeLast(states: seq<Marks>, lists: seq<seq<ModuleId>>, limit: nat, c: nat)
    requires Cycles(states, lists, limit) && c <= |lists|
    ensures states[c].Keys == states[0].Keys && Attempted(lists, c) <= states[0].Keys
    ensures forall m :: m in states[0] && m !in Attempted(lists, c) ==> states[c][m] == states[0][m]
    ensures forall m, n :: m in Attempted(lists, c) && n in states[0] && n !in Attempted(lists, c) ==>
              Earlier(states[c][n], states[c][m])
  {
    if c > 0 {
      AttemptedComeLast(states, lists, limit, c - 1);
      assert Listing(states[c - 1], lists[c - 1], limit) && Cycle(states[c - 1], lists[c - 1], states[c]);
      forall m, n | m in Attempted(lists, c) && n in states[0] && n !in Attempted(lists, c)
        ensures Earlier(states[c][n], states[c][m])
      {
        assert n !in lists[c - 1];
        if m !in lists[c - 1] { assert m in Attempted(lists, c - 1); }
      }
    }
  }

  lemma {:induction false} MembersCount(s: seq<ModuleId>)
    requires forall i, j :: 0 <= i < j < |s| ==> s[i] != s[j]
    ensures |Members(s)| == |s|
  {
    if s != [] {
      var front := s[..|s| - 1];
      MembersCount(front);
      assert Members(s) == Members(front) + {s[|s| - 1]};
      assert s[|s| - 1] !in front;
    }
  }

  /** Each cycle attempts `limit` modules that were not attempted yet, or all that remain. */
  lemma CycleReachesNewModules(states: seq<Marks>, lists: seq<seq<ModuleId>>, limit: nat, c: nat)
    requires Cycles(states, lists, limit) && c < |lists|
    ensures |Attempted(lists, c + 1)| >= |Attempted(lists, c)| + limit || Attempted(lists, c + 1) == states[0].Keys
  {
    AttemptedComeLast(states, lists, limit, c);
    AttemptedComeLast(states, lists, limit, c + 1);
    var marks, listed, done := states[c], lists[c], Attempted(lists, c);
    assert Listing(marks, listed, limit);
    if Attempted(lists, c + 1) != states[0].Keys {
      var n :| n in states[0].Keys && n !in Attempted(lists, c + 1);
      forall m | m in Members(listed) ensures m !in done { assert !Before(marks, n, m); }
      MembersCount(listed);
      assert |done + Members(listed)| == |done| + |listed|;
      assert |marks| == |marks.Keys|;
      if |listed| == |marks| { SubsetSize(Members(listed), marks.Keys); }
    }
  }

  lemma {:induction false} AttemptedGrows(states: seq<Marks>, lists: seq<seq<ModuleId>>, limit: nat, c: nat)
    requires Cycles(states, lists, limit) && c <= |lists|
    ensures |Attempted(lists, c)| >= c * limit || Attempted(lists, c) == states[0].Keys
  {
    if c > 0 {
      AttemptedGrows(states, lists, limit, c - 1);
      OneMoreCycle(states, lists, limit, c - 1);
      Distribute(c, limit);
    }
  }

  lemma OneMoreCycle(states: seq<Marks>, lists: seq<seq<ModuleId>>, limit: nat, c: nat)
    requires Cycles(states, lists, limit) && c < |lists|
    ensures |Attempted(lists, c + 1)| >= |Attempted(lists, c)| + limit || Attempted(lists, c + 1) == states[0].Keys
    ensures Attempted(lists, c) == states[0].Keys ==> Attempted(lists, c + 1) == states[0].Keys
  {
    CycleReachesNewModules(states, lists, limit, c);
    AttemptedComeLast(states, lists, limit, c + 1);
    assert Attempted(lists, c) <= Attempted(lists, c + 1);
  }

  lemma Distribute(c: nat, limit: nat)
    requires c > 0
    ensures c * limit == (c - 1) * limit + limit
  {
  }

  /** Every upstream module is attempted within ceil(modules / limit) completed cycles, even if every sync fails. */
  lemma EveryModuleIsAttempted(states: seq<Marks>, lists: seq<seq<ModuleId>>, limit: nat, m: ModuleId)
    requires limit > 0 && Cycles(states, lists, limit) && m in states[0]
    requires |lists| == (|states[0]| + limit - 1) / limit
    ensures exists c :: 0 <= c < |lists| && m in lists[c]
  {
    AllAttempted(states, lists, limit);
    AttemptedInSome(lists, |lists|, m);
  }

  lemma AllAttempted(states: seq<Marks>, lists: seq<seq<ModuleId>>, limit: nat)
    requires limit > 0 && Cycles(states, lists, limit) && |lists| == (|states[0]| + limit - 1) / limit
    ensures Attempted(lists, |lists|) == states[0].Keys
  {
    AttemptedGrows(states, lists, limit, |lists|);
    CeilingCovers(|states[0]|, limit);
    OnlyModulesAttempted(states, lists, limit, |lists|);
    assert |states[0]| == |states[0].Keys|;
    SubsetSize(Attempted(lists, |lists|), states[0].Keys);
  }

  lemma OnlyModulesAttempted(states: seq<Marks>, lists: seq<seq<ModuleId>>, limit: nat, c: nat)
    requires Cycles(states, lists, limit) && c <= |lists|
    ensures Attempted(lists, c) <= states[0].Keys
  {
    AttemptedComeLast(states, lists, limit, c);
  }

  lemma CeilingCovers(n: nat, limit: nat)
    requires limit > 0
    ensures ((n + limit - 1) / limit) * limit >= n
  {
    var q, r := (n + limit - 1) / limit, (n + limit - 1) % limit;
    assert n + limit - 1 == q * limit + r && r < limit;
  }

  lemma {:induction false} AttemptedInSome(lists: seq<seq<ModuleId>>, c: nat, m: ModuleId)
    requires c <= |lists| && m in Attempted(lists, c)
    ensures exists d :: 0 <= d < c && m in lists[d]
  {
    if m !in lists[c - 1] { AttemptedInSome(lists, c - 1, m); }
  }

  /* ---------- the worker pool ---------- */

  /** A worker waits for a job or is busy with the module at a position of the list. */
  datatype Worker = Idle | Busy(job: nat)

  datatype Result = Result(job: nat, ok: bool)

  /** `next` is the position the feeder offers; `results` what has been collected. */
  datatype Pool = Pool(jobs: nat, next: nat, feeding: bool, workers: seq<Worker>, results: seq<Result>, canceled: bool)

  function Started(jobs: nat, concurrency: int): Pool
  {
    var count := if concurrency < 1 then 1 else concurrency;
    Pool(jobs, 0, true, seq(if count < jobs then count else jobs, i => Idle), [], false)
  }

  datatype Act = Take(worker: nat) | Report(worker: nat, ok: bool) | Cancel | StopFeeding | CloseJobs

  predicate PoolStep(p: Pool, a: Act, p': Pool)
  {
    match a
    case Take(w) =>
      p.feeding && p.next < p.jobs && w < |p.workers| && p.workers[w].Idle?
      && p' == p.(next := p.next + 1, workers := p.workers[w := Busy(p.next)])
    case Report(w, ok) =>
      w < |p.workers| && p.workers[w].Busy?
      && p' == p.(workers := p.workers[w := Idle], results := p.results + [Result(p.workers[w].job, ok)])
    case Cancel => p' == p.(canceled := true)
    case StopFeeding => p.feeding && p.canceled && p.next < p.jobs && p' == p.(feeding := false)
    case CloseJobs => p.feeding && p.next == p.jobs && p' == p.(feeding := false)
  }

  /** Every position handed out is with exactly one worker or has exactly one result. */
  ghost predicate PoolInv(p: Pool)
  {
    && p.next <= p.jobs && (!p.feeding && !p.canceled ==> p.next == p.jobs)
    && (forall w :: 0 <= w < |p.workers| && p.workers[w].Busy? ==> p.workers[w].job < p.next)
    && (forall i :: 0 <= i < |p.results| ==> p.results[i].job < p.next)
    && (forall v, w :: 0 <= v < w < |p.workers| && p.workers[v].Busy? && p.workers[w].Busy? ==> p.workers[v].job != p.workers[w].job)
    && (forall i, j :: 0 <= i < j < |p.results| ==> p.results[i].job != p.results[j].job)
    && (forall w, i :: 0 <= w < |p.workers| && 0 <= i < |p.results| && p.workers[w].Busy? ==> p.workers[w].job != p.results[i].job)
    && (forall k: nat :: k < p.next ==> InHand(p, k) || Reported(p, k))
  }

  ghost predicate InHand(p: Pool, k: nat) { exists w :: 0 <= w < |p.workers| && p.workers[w] == Busy(k) }

  ghost predicate Reported(p: Pool, k: nat) { exists i :: 0 <= i < |p.results| && p.results[i].job == k }

  lemma TakeKeeps(p: Pool, w: nat, p': Pool)
    requires PoolInv(p) && PoolStep(p, Take(w), p')
    ensures PoolInv(p')
  {
    forall k: nat | k < p'.next ensures InHand(p', k) || Reported(p', k) {
      if k == p.next {
        assert p'.workers[w] == Busy(k);
      } else if Reported(p, k) {
        assert Reported(p', k);
      } else {
        assert InHand(p, k);
        var v :| 0 <= v < |p.workers| && p.workers[v] == Busy(k);
        assert p'.workers[v] == Busy(k);
      }
    }
  }

  lemma ReportKeeps(p: Pool, w: nat, ok: bool, p': Pool)
    requires PoolInv(p) && PoolStep(p, Report(w, ok), p')
    ensures PoolInv(p')
  {
    var n := |p.results|;
    assert p'.results[n].job == p.workers[w].job;
    forall k: nat | k < p'.next ensures InHand(p', k) || Reported(p', k) {
      if Reported(p, k) {
        var i :| 0 <= i < n && p.results[i].job == k;
        assert p'.results[i].job == k;
      } else {
        var v :| 0 <= v < |p.workers| && p.workers[v] == Busy(k);
        assert v != w ==> p'.workers[v] == Busy(k);
      }
    }
  }

  ghost predicate PoolRun(states: seq<Pool>, acts: seq<Act>, jobs: nat, concurrency: int)
  {
    && |states| == |acts| + 1 && states[0] == Started(jobs, concurrency)
    && forall i :: 0 <= i < |acts| ==> PoolStep(states[i], acts[i], states[i + 1])
  }

  lemma {:induction false} PoolReachable(states: seq<Pool>, acts: seq<Act>, jobs: nat, concurrency: int, i: nat)
    requires PoolRun(states, acts, jobs, concurrency) && i < |states|
    ensures PoolInv(states[i]) && states[i].jobs == jobs
  {
    if i > 0 {
      PoolReachable(states, acts, jobs, concurrency, i - 1);
      assert PoolStep(states[i - 1], acts[i - 1], states[i]);
      match acts[i - 1]
      case Take(w) => TakeKeeps(states[i - 1], w, states[i]);
      case Report(w, ok) => ReportKeeps(states[i - 1], w, ok, states[i]);
      case Cancel => OnlyFlags(states[i - 1], states[i]);
      case StopFeeding => OnlyFlags(states[i - 1], states[i]);
      case CloseJobs => OnlyFlags(states[i - 1], states[i]);
    }
  }

  lemma OnlyFlags(p: Pool, p': Pool)
    requires PoolInv(p) && p' == p.(feeding := p'.feeding, canceled := p'.canceled)
    requires !p'.feeding && !p'.canceled ==> p.next == p.jobs
    ensures PoolInv(p')
  {
    assert forall k :: InHand(p, k) ==> InHand(p', k);
    assert forall k :: Reported(p, k) ==> Reported(p', k);
  }

  /** The pool is through: nothing more is fed and every worker has reported. */
  ghost predicate Through(p: Pool) { !p.feeding && forall w :: 0 <= w < |p.workers| ==> p.workers[w].Idle? }

  function Jobs(results: seq<Result>): set<nat> { set r | r in results :: r.job }

  function Count(results: seq<Result>, ok: bool): nat
  {
    if results == [] then 0 else Count(results[1..], ok) + if results[0].ok == ok then 1 else 0
  }

  lemma {:induction false} SucceededOrFailed(results: seq<Result>)
    ensures Count(results, true) + Count(results, false) == |results|
  {
    if results != [] { SucceededOrFailed(results[1..]); }
  }

  lemma {:induction false} DistinctJobs(results: seq<Result>)
    requires forall i, j :: 0 <= i < j < |results| ==> results[i].job != results[j].job
    ensures |Jobs(results)| == |results|
  {
    if results != [] {
      var front, last := results[..|results| - 1], results[|results| - 1];
      DistinctJobs(front);
      assert results == front + [last];
      assert Jobs(results) == Jobs(front) + {last.job};
      assert last.job !in Jobs(front);
    }
  }

  function FirstJobs(n: nat): (r: set<nat>)
    ensures forall k: nat :: k in r <==> k < n
  {
    if n == 0 then {} else FirstJobs(n - 1) + {n - 1}
  }

  lemma {:induction false} FirstJobsCount(n: nat)
    ensures |FirstJobs(n)| == n
  {
    if n > 0 { FirstJobsCount(n - 1); }
  }

  /**
   When the pool is through, under any schedule: each module was attempted at
   most once, exactly the first ones up to where feeding stopped, attempted is
   succeeded plus failed, and without cancellation every listed module was
   attempted.
   */
  lemma PoolAccounts(states: seq<Pool>, acts: seq<Act>, jobs: nat, concurrency: int, i: nat)
    requires PoolRun(states, acts, jobs, concurrency) && i < |states| && Through(states[i])
    ensures var p := states[i];
            && Jobs(p.results) == FirstJobs(p.next) && |p.results| == p.next <= jobs
            && |p.results| == Count(p.results, true) + Count(p.results, false)
            && (!p.canceled ==> p.next == jobs)
  {
    var p := states[i];
    PoolReachable(states, acts, jobs, concurrency, i);
    SucceededOrFailed(p.results);
    forall k: nat | k < p.next ensures k in Jobs(p.results) {
      assert !InHand(p, k);
      var j :| 0 <= j < |p.results| && p.results[j].job == k;
      assert p.results[j] in p.results;
    }
    DistinctJobs(p.results);
    FirstJobsCount(p.next);
  }

  /* ---------- what the cycle answers ---------- */

  datatype Answer = Success | SomeFailed | Interrupted | Incomplete

  function AnswerOf(jobs: nat, results: seq<Result>, canceled: bool): Answer
  {
    if |results| < jobs then (if canceled then Interrupted else Incomplete)
    else if Count(results, false) > 0 then SomeFailed else Success
  }

  lemma {:induction false} CountMore(results: seq<Result>, r: Result, ok: bool)
    ensures Count(results + [r], ok) == Count(results, ok) + if r.ok == ok then 1 else 0
  {
    if results == [] {
      assert results + [r] == [r];
    } else {
      assert (results + [r])[1..] == results[1..] + [r];
      CountMore(results[1..], r, ok);
    }
  }

  /** Collecting the results. That a failure was an interruption changes nothing: there is an error either way. */
  method Collect(jobs: nat, results: seq<Result>, canceled: bool)
    returns (attempted: nat, succeeded: nat, failed: nat, answer: Answer)
    ensures attempted == |results| && succeeded == Count(results, true) && failed == Count(results, false)
    ensures answer == AnswerOf(jobs, results, canceled)
  {
    attempted, succeeded, failed := 0, 0, 0;
    var errors: seq<nat> := [];
    for i := 0 to |results|
      invariant attempted == i && succeeded == Count(results[..i], true) && failed == Count(results[..i], false) == |errors|
    {
      assert results[..i + 1] == results[..i] + [results[i]];
      CountMore(results[..i], results[i], true);
      CountMore(results[..i], results[i], false);
      attempted := attempted + 1;
      if results[i].ok {
        succeeded := succeeded + 1;
      } else {
        failed, errors := failed + 1, errors + [results[i].job];
      }
    }
    assert results[..|results|] == results;
    if attempted < jobs { return attempted, succeeded, failed, if canceled then Interrupted else Incomplete; }
    answer := if |errors| > 0 then SomeFailed else Success;
  }

  lemma {:induction false} FailureIsCounted(results: seq<Result>)
    ensures Count(results, false) > 0 <==> exists r :: r in results && !r.ok
  {
    if results != [] {
      FailureIsCounted(results[1..]);
      assert forall r :: r in results <==> r == results[0] || r in results[1..];
    }
  }

  /**
   Under any schedule the cycle succeeds exactly when every listed module was
   attempted and synced, says interrupted only after a cancellation that left some
   module out, and never says incomplete.
   */
  lemma PoolAnswers(states: seq<Pool>, acts: seq<Act>, jobs: nat, concurrency: int, i: nat)
    requires PoolRun(states, acts, jobs, concurrency) && i < |states| && Through(states[i])
    ensures var p := states[i];
            var answer := AnswerOf(jobs, p.results, p.canceled);
            && answer != Incomplete
            && (answer == Success <==> forall k: nat :: k < jobs ==> Result(k, true) in p.results)
            && (answer == Interrupted <==> p.canceled && exists k: nat :: k < jobs && k !in Jobs(p.results))
  {
    var p := states[i];
    PoolAccounts(states, acts, jobs, concurrency, i);
    PoolReachable(states, acts, jobs, concurrency, i);
    FailureIsCounted(p.results);
    if p.next < jobs {
      assert p.next !in Jobs(p.results);
      assert Result(p.next, true) !in p.results;
    } else {
      SuccessMeansAll(p);
    }
  }

  lemma SuccessMeansAll(p: Pool)
    requires PoolInv(p) && Jobs(p.results) == FirstJobs(p.jobs) && p.next == p.jobs
    ensures (forall k: nat :: k < p.jobs ==> Result(k, true) in p.results) <==> forall r :: r in p.results ==> r.ok
    ensures forall k: nat :: k < p.jobs ==> k in Jobs(p.results)
  {
    if forall r :: r in p.results ==> r.ok {
      forall k: nat | k < p.jobs ensures Result(k, true) in p.results {
        assert k in Jobs(p.results);
        var r :| r in p.results && r.job == k;
        assert r == Result(k, true);
      }
    }
    if forall k: nat :: k < p.jobs ==> Result(k, true) in p.results {
      forall r | r in p.results ensures r.ok {
        var i :| 0 <= i < |p.results| && p.results[i] == r;
        var j :| 0 <= j < |p.results| && p.results[j] == Result(r.job, true);
      }
    }
  }
}
