/**
 Whether every queued deletion is attempted in the end. An entry that fails is
 put off, so that those behind it come first. But a run has one context for all
 it does: once that has expired, nothing more has an effect, and nothing is put
 off. The entries ahead of a waiting one bound what the runs can get done without
 attempting it; runs that get nothing done leave the queue as it is, and a single
 entry that outlives every run keeps all behind it waiting for ever.
 */
module DeletionFairness {
  import opened SetSizes
  import opened Store
  import opened SqliteStore
  import opened ArtifactDeletions
  import L = Lifecycle

  /**
   A worker's run, where the context is dead from the entry `live` on, or anything
   else that adds and removes entries without touching the times of others.
   */
  datatype Event = Worked(now: int, listed: seq<L.Deletion>, handlings: seq<Handling>, live: nat) | Changed

  ghost predicate Scheduled(o: Outcome) { o.tickets.Keys == o.tables.deletions.Keys && Keyed(o.tickets) }

  function Begun(o: Outcome, listed: seq<L.Deletion>): Outcome { o.(tally := L.Tally(|listed|, 0, 0, 0)) }

  /** What becomes of an entry in a dead context: nothing is done to it, and it is not put off. */
  predicate Dead(h: Handling) { (h.fate == LockFails || h.fate == CheckFails) && h.deferral == RolledBack }

  ghost predicate QueueStep(limit: nat, o: Outcome, e: Event, o': Outcome)
  {
    match e
    case Worked(now, listed, handlings, live) =>
      && live <= |listed| == |handlings| && Listing(o.tables, o.tickets, now, listed, limit)
      && (forall h :: h in handlings ==> now <= h.failedAt)
      && (forall i :: live <= i < |handlings| ==> Dead(handlings[i]))
      && o' == Processing(Begun(o, listed), listed, handlings, |listed|)
    case Changed =>
      Scheduled(o') && forall p :: p in o.tickets && p in o'.tickets ==> o'.tickets[p] == o.tickets[p]
  }

  ghost predicate QueueRun(limit: nat, states: seq<Outcome>, events: seq<Event>)
  {
    && |states| == |events| + 1 && Scheduled(states[0])
    && forall i :: 0 <= i < |events| ==> StepAt(limit, states, events, i)
  }

  ghost predicate StepAt(limit: nat, states: seq<Outcome>, events: seq<Event>, i: nat)
    requires i < |events| < |states|
  {
    QueueStep(limit, states[i], events[i], states[i + 1])
  }

  /** The entry's turn comes before the context is dead. */
  predicate Attempts(e: Event, p: Path) { e.Worked? && e.live <= |e.listed| && p in Paths(e.listed, e.live) }

  /** The entries that come before p. */
  function Ahead(tickets: map<Path, Ticket>, p: Path): set<Path>
    requires p in tickets
  {
    set q | q in tickets && Earlier(tickets[q], tickets[p])
  }

  /** The entry leaves the queue, or is put off. */
  predicate Moved(t: Tables, p: Path, h: Handling)
  {
    VerdictOf(t, p, h.fate) != Unfinished || h.fate == CompleteFails(true) || h.deferral != RolledBack
  }

  function MovedAmong(t: Tables, listed: seq<L.Deletion>, handlings: seq<Handling>, n: nat): set<Path>
    requires n <= |listed| && n <= |handlings|
  {
    set i | 0 <= i < n && Moved(t, listed[i].path, handlings[i]) :: listed[i].path
  }

  /** How many entries a run gets done or out of the way. */
  function Progress(o: Outcome, e: Event): nat
  {
    if e.Worked? && |e.listed| == |e.handlings| then |MovedAmong(o.tables, e.listed, e.handlings, |e.listed|)| else 0
  }

  /* ---------- one run of the worker ---------- */

  lemma EntryTickets(t: Tables, tickets: map<Path, Ticket>, d: Path, h: Handling, now: int, p: Path)
    requires tickets.Keys == t.deletions.Keys && now <= h.failedAt
    ensures var (t', after) := (TablesAfter(t, d, h.fate), TicketsAfter(t, tickets, d, h));
            && after.Keys == t'.deletions.Keys && t'.releases == t.releases
            && (p in after ==> p in tickets && after[p].name == tickets[p].name)
            && (p in tickets && !(p == d && Moved(t, d, h)) ==> p in after && after[p] == tickets[p])
            && (p == d && Moved(t, d, h) && p in after ==> after[p].due > now)
  {
  }

  lemma MovedAlike(t: Tables, t': Tables, d: Path, h: Handling)
    requires t'.releases == t.releases
    ensures Moved(t', d, h) == Moved(t, d, h)
  {
    assert References(t', d) == References(t, d);
  }

  lemma {:induction false} RunTickets(start: Outcome, listed: seq<L.Deletion>, handlings: seq<Handling>, n: nat, now: int, p: Path)
    requires n <= |listed| == |handlings| && start.tickets.Keys == start.tables.deletions.Keys
    requires forall h :: h in handlings ==> now <= h.failedAt
    ensures var (o, moved) := (Processing(start, listed, handlings, n), MovedAmong(start.tables, listed, handlings, n));
            && o.tickets.Keys == o.tables.deletions.Keys && o.tables.releases == start.tables.releases
            && (p in o.tickets ==> p in start.tickets && o.tickets[p].name == start.tickets[p].name)
            && (p in start.tickets && p !in moved ==> p in o.tickets && o.tickets[p] == start.tickets[p])
            && (p in moved && p in o.tickets ==> o.tickets[p].due > now)
  {
    if n > 0 {
      RunTickets(start, listed, handlings, n - 1, now, p);
      var o, d, h := Processing(start, listed, handlings, n - 1), listed[n - 1].path, handlings[n - 1];
      assert h in handlings;
      EntryTickets(o.tables, o.tickets, d, h, now, p);
      MovedAlike(start.tables, o.tables, d, h);
      MovedNext(start.tables, listed, handlings, n);
    }
  }

  lemma AllTickets(start: Outcome, listed: seq<L.Deletion>, handlings: seq<Handling>, now: int)
    requires |listed| == |handlings| && Scheduled(start) && forall h :: h in handlings ==> now <= h.failedAt
    ensures var n := |listed|;
            var (o, moved) := (Processing(start, listed, handlings, n), MovedAmong(start.tables, listed, handlings, n));
            && Scheduled(o) && o.tickets.Keys <= start.tickets.Keys
            && (forall p :: p in start.tickets && p !in moved ==> p in o.tickets && o.tickets[p] == start.tickets[p])
            && (forall p :: p in moved && p in o.tickets ==> o.tickets[p].due > now)
  {
    var n := |listed|;
    var (o, moved) := (Processing(start, listed, handlings, n), MovedAmong(start.tables, listed, handlings, n));
    forall p
      ensures p in o.tickets ==> p in start.tickets && o.tickets[p].name == start.tickets[p].name
      ensures p in start.tickets && p !in moved ==> p in o.tickets && o.tickets[p] == start.tickets[p]
      ensures p in moved && p in o.tickets ==> o.tickets[p].due > now
    {
      RunTickets(start, listed, handlings, n, now, p);
    }
    RunTickets(start, listed, handlings, n, now, Other(""));
  }

  lemma MovedNext(t: Tables, listed: seq<L.Deletion>, handlings: seq<Handling>, n: nat)
    requires 0 < n <= |listed| == |handlings|
    ensures MovedAmong(t, listed, handlings, n)
            == MovedAmong(t, listed, handlings, n - 1) + if Moved(t, listed[n - 1].path, handlings[n - 1]) then {listed[n - 1].path} else {}
  {
  }

  /** What a run moves without attempting p was all ahead of p. */
  lemma MovedWereAhead(limit: nat, o: Outcome, e: Event, o': Outcome, p: Path)
    requires e.Worked? && QueueStep(limit, o, e, o') && Scheduled(o)
    requires p in o.tickets && o.tickets[p].due <= e.now && !Attempts(e, p)
    ensures MovedAmong(o.tables, e.listed, e.handlings, |e.listed|) <= Ahead(o.tickets, p)
  {
    var listed := e.listed;
    forall i | 0 <= i < |listed| && Moved(o.tables, listed[i].path, e.handlings[i]) ensures listed[i].path in Ahead(o.tickets, p) {
      assert i < e.live;
      assert listed[i].path in Paths(listed, e.live);
      EarlierIsTotal(o.tickets[p], o.tickets[listed[i].path]);
      if p in Paths(listed, |listed|) {
        var j :| 0 <= j < |listed| && listed[j].path == p;
      } else {
        assert p in DuePaths(o.tables, o.tickets, e.now) - Paths(listed, |listed|);
      }
    }
  }

  /** A run that does not attempt an entry that is due takes all it moves out of its way. */
  lemma RunAdvances(limit: nat, o: Outcome, e: Event, o': Outcome, p: Path)
    requires e.Worked? && QueueStep(limit, o, e, o') && Scheduled(o)
    requires p in o.tickets && o.tickets[p].due <= e.now && !Attempts(e, p)
    ensures Scheduled(o') && p in o'.tickets && o'.tickets[p] == o.tickets[p]
    ensures |Ahead(o'.tickets, p)| + Progress(o, e) <= |Ahead(o.tickets, p)|
  {
    var moved := MovedAmong(o.tables, e.listed, e.handlings, |e.listed|);
    MovedWereAhead(limit, o, e, o', p);
    AllTickets(Begun(o, e.listed), e.listed, e.handlings, e.now);
    EarlierIsTotal(o.tickets[p], o.tickets[p]);
    Cardinality(Ahead(o'.tickets, p), Ahead(o.tickets, p), moved);
  }

  lemma Cardinality(less: set<Path>, more: set<Path>, gone: set<Path>)
    requires less <= more - gone && gone <= more
    ensures |less| + |gone| <= |more|
  {
    SubsetSize(less, more - gone);
    assert more == (more - gone) + gone;
  }

  /** A run leaves the queue and its times as they were exactly when it moves nothing. */
  lemma IdleExactly(limit: nat, o: Outcome, e: Event, o': Outcome)
    requires e.Worked? && QueueStep(limit, o, e, o') && Scheduled(o)
    ensures o'.tables == o.tables && o'.tickets == o.tickets <==> Progress(o, e) == 0
  {
    var moved := MovedAmong(o.tables, e.listed, e.handlings, |e.listed|);
    if moved == {} {
      NothingMoves(Begun(o, e.listed), e.listed, e.handlings, |e.listed|);
    } else {
      var p :| p in moved;
      AllTickets(Begun(o, e.listed), e.listed, e.handlings, e.now);
      assert p in Paths(e.listed, |e.listed|);
    }
  }

  lemma {:induction false} NothingMoves(start: Outcome, listed: seq<L.Deletion>, handlings: seq<Handling>, n: nat)
    requires n <= |listed| == |handlings| && MovedAmong(start.tables, listed, handlings, n) == {}
    requires forall i :: 0 <= i < n ==> listed[i].path in start.tables.deletions
    ensures var o := Processing(start, listed, handlings, n); o.tables == start.tables && o.tickets == start.tickets
  {
    if n > 0 {
      MovedNext(start.tables, listed, handlings, n);
      NothingMoves(start, listed, handlings, n - 1);
    }
  }

  /** Putting off works as long as the context does: it can only fail for the entry on which the context expires, and after it. */
  predicate OnlyTime(e: Event)
  {
    e.Worked? ==> forall i :: 0 <= i < e.live - 1 && i < |e.handlings| ==> e.handlings[i].deferral != RolledBack
  }

  /** Then a run gets nothing done exactly when its first entry takes all its time and is not finished. */
  lemma FirstEntryDecides(limit: nat, o: Outcome, e: Event, o': Outcome)
    requires e.Worked? && QueueStep(limit, o, e, o') && OnlyTime(e)
    ensures Progress(o, e) == 0 <==> e.live == 0 || (e.live == 1 && !Moved(o.tables, e.listed[0].path, e.handlings[0]))
  {
    var moved := MovedAmong(o.tables, e.listed, e.handlings, |e.listed|);
    if e.live > 0 && Moved(o.tables, e.listed[0].path, e.handlings[0]) { assert e.listed[0].path in moved; }
  }

  /* ---------- any number of runs ---------- */

  /** Entries that others put ahead of p. */
  function Overtaking(o: Outcome, e: Event, o': Outcome, p: Path): nat
  {
    if e.Changed? && p in o.tickets && p in o'.tickets then |Ahead(o'.tickets, p) - Ahead(o.tickets, p)| else 0
  }

  function Overtakers(states: seq<Outcome>, events: seq<Event>, p: Path, n: nat): nat
    requires n <= |events| < |states|
  {
    if n == 0 then 0 else Overtakers(states, events, p, n - 1) + Overtaking(states[n - 1], events[n - 1], states[n], p)
  }

  /** All that the runs get done or out of the way. */
  function Progressed(states: seq<Outcome>, events: seq<Event>, n: nat): nat
    requires n <= |events| < |states|
  {
    if n == 0 then 0 else Progressed(states, events, n - 1) + Progress(states[n - 1], events[n - 1])
  }

  function Runs(events: seq<Event>, n: nat): nat
    requires n <= |events|
  {
    if n == 0 then 0 else Runs(events, n - 1) + if events[n - 1].Worked? then 1 else 0
  }

  /** p stays queued with the same times, is due at every run, and attempted by none while its context is alive. */
  ghost predicate Waits(states: seq<Outcome>, events: seq<Event>, p: Path, ticket: Ticket)
    requires |states| == |events| + 1
  {
    && (forall i :: 0 <= i < |states| ==> p in states[i].tickets && states[i].tickets[p] == ticket)
    && (forall i :: 0 <= i < |events| ==> (events[i].Worked? ==> ticket.due <= events[i].now) && !Attempts(events[i], p))
  }

  /**
   Whatever fails and whenever contexts expire: all that the runs finish or put off
   while an entry waits is no more than the entries once ahead of it and those that
   came ahead since. So runs that get something done reach it.
   */
  lemma NoStarvation(limit: nat, states: seq<Outcome>, events: seq<Event>, p: Path, ticket: Ticket)
    requires QueueRun(limit, states, events) && Waits(states, events, p, ticket)
    ensures Progressed(states, events, |events|) <= |Ahead(states[0].tickets, p)| + Overtakers(states, events, p, |events|)
  {
    EachRunAdvances(limit, states, events, p, ticket, |events|);
  }

  lemma {:induction false} EachRunAdvances(limit: nat, states: seq<Outcome>, events: seq<Event>, p: Path, ticket: Ticket, n: nat)
    requires QueueRun(limit, states, events) && n <= |events| && Waits(states, events, p, ticket)
    ensures Scheduled(states[n])
    ensures Progressed(states, events, n) + |Ahead(states[n].tickets, p)| <= |Ahead(states[0].tickets, p)| + Overtakers(states, events, p, n)
  {
    if n > 0 {
      EachRunAdvances(limit, states, events, p, ticket, n - 1);
      assert StepAt(limit, states, events, n - 1);
      StepAdvances(limit, states[n - 1], events[n - 1], states[n], p);
    }
  }

  lemma StepAdvances(limit: nat, o: Outcome, e: Event, o': Outcome, p: Path)
    requires QueueStep(limit, o, e, o') && Scheduled(o) && p in o.tickets && p in o'.tickets
    requires (e.Worked? ==> o.tickets[p].due <= e.now) && !Attempts(e, p)
    ensures Scheduled(o')
    ensures Progress(o, e) + |Ahead(o'.tickets, p)| <= |Ahead(o.tickets, p)| + Overtaking(o, e, o', p)
  {
    if e.Worked? { RunAdvances(limit, o, e, o', p); } else { Joining(Ahead(o.tickets, p), Ahead(o'.tickets, p)); }
  }

  lemma Joining(a: set<Path>, b: set<Path>)
    ensures |b| <= |a| + |b - a|
  {
    SubsetSize(b, a + (b - a));
  }

  /** An entry made after p became due does not come ahead of it. */
  lemma NewEntriesComeBehind(o: Outcome, o': Outcome, p: Path)
    requires QueueStep(0, o, Changed, o') && p in o.tickets && p in o'.tickets
    requires forall q :: q in o'.tickets && q !in o.tickets ==> o'.tickets[q].due > o.tickets[p].due
    ensures Overtaking(o, Changed, o', p) == 0
  {
    assert Ahead(o'.tickets, p) - Ahead(o.tickets, p) == {};
  }

  /** The context lasts for all that is listed, and every failed entry is put off. */
  predicate Thorough(e: Event) { e.Worked? ==> e.live == |e.listed| && forall h :: h in e.handlings ==> h.deferral != RolledBack }

  /** Of such runs each one that passes an entry by takes as many out of its way as the limit allows. */
  lemma ThoroughRunsServe(limit: nat, states: seq<Outcome>, events: seq<Event>, p: Path, ticket: Ticket)
    requires QueueRun(limit, states, events) && Waits(states, events, p, ticket)
    requires forall e :: e in events ==> Thorough(e)
    ensures Runs(events, |events|) * limit <= |Ahead(states[0].tickets, p)| + Overtakers(states, events, p, |events|)
  {
    EachRunMovesAll(limit, states, events, p, ticket, |events|);
    NoStarvation(limit, states, events, p, ticket);
  }

  lemma {:induction false} EachRunMovesAll(limit: nat, states: seq<Outcome>, events: seq<Event>, p: Path, ticket: Ticket, n: nat)
    requires QueueRun(limit, states, events) && Waits(states, events, p, ticket) && n <= |events|
    requires forall e :: e in events ==> Thorough(e)
    ensures Progressed(states, events, n) == Runs(events, n) * limit
  {
    if n > 0 {
      EachRunMovesAll(limit, states, events, p, ticket, n - 1);
      MovesAllAt(limit, states, events, p, ticket, n - 1);
      assert Progressed(states, events, n) == Progressed(states, events, n - 1) + if events[n - 1].Worked? then limit else 0;
    }
  }

  lemma MovesAllAt(limit: nat, states: seq<Outcome>, events: seq<Event>, p: Path, ticket: Ticket, i: nat)
    requires QueueRun(limit, states, events) && Waits(states, events, p, ticket) && i < |events|
    requires forall e :: e in events ==> Thorough(e)
    ensures Progress(states[i], events[i]) == if events[i].Worked? then limit else 0
  {
    assert events[i] in events && StepAt(limit, states, events, i);
    EachRunAdvances(limit, states, events, p, ticket, i);
    if events[i].Worked? { AllMoved(limit, states[i], events[i], states[i + 1], p); }
  }

  lemma AllMoved(limit: nat, o: Outcome, e: Event, o': Outcome, p: Path)
    requires e.Worked? && QueueStep(limit, o, e, o') && Thorough(e) && Scheduled(o)
    requires p in o.tickets && o.tickets[p].due <= e.now && !Attempts(e, p)
    ensures Progress(o, e) == limit
  {
    var listed, due := e.listed, DuePaths(o.tables, o.tickets, e.now);
    forall i | 0 <= i < |listed| ensures Moved(o.tables, listed[i].path, e.handlings[i]) { assert e.handlings[i] in e.handlings; }
    assert MovedAmong(o.tables, listed, e.handlings, |listed|) == Paths(listed, |listed|);
    PathsCount(listed, |listed|);
    assert p in due;
    if |due| <= limit {
      SubsetSize(Paths(listed, |listed|), due);
      assert false;
    }
  }

  /* ---------- one entry that outlives its runs ---------- */

  /** An entry whose module stays locked until the context has expired, which then takes its putting off and all that follows. */
  function Hanging(now: int): Handling { Handling(LockFails, now, RolledBack) }

  lemma {:induction false} ListingExists(t: Tables, tickets: map<Path, Ticket>, now: int, limit: nat, n: nat)
    returns (listed: seq<L.Deletion>, rest: set<Path>)
    requires t.deletions.Keys == tickets.Keys && n <= limit && n <= |DuePaths(t, tickets, now)|
    ensures ListingSoFar(t, tickets, DuePaths(t, tickets, now), listed, rest) && |listed| == n
  {
    var due := DuePaths(t, tickets, now);
    if n == 0 {
      listed, rest := [], due;
    } else {
      listed, rest := ListingExists(t, tickets, now, limit, n - 1);
      FirstExists(tickets, rest);
      var p :| p in rest && forall q :: q in rest ==> !Earlier(tickets[q], tickets[p]);
      ListNext(t, tickets, due, listed, rest, p);
      listed, rest := listed + [L.Deletion(p, t.deletions[p])], rest - {p};
    }
  }

  /** A run that hangs on its first entry. */
  lemma HangingRun(limit: nat, o: Outcome, p: Path, now: int) returns (e: Event, o': Outcome)
    requires limit > 0 && Scheduled(o) && p in o.tickets && o.tickets[p].due <= now && Ahead(o.tickets, p) != {}
    ensures e.Worked? && e.now == now && e.live == 1 <= |e.listed| && e.handlings == seq(|e.listed|, _ => Hanging(now))
    ensures QueueStep(limit, o, e, o') && o' == o.(tally := o'.tally) && !Attempts(e, p)
  {
    var due := DuePaths(o.tables, o.tickets, now);
    assert p in due;
    var n := if |due| <= limit then |due| else limit;
    var listed, rest := ListingExists(o.tables, o.tickets, now, limit, n);
    ListEnough(o.tables, o.tickets, now, listed, rest, limit);
    FirstListed(limit, o, p, now, listed);
    e := Worked(now, listed, seq(|listed|, _ => Hanging(now)), 1);
    o' := Processing(Begun(o, listed), listed, e.handlings, |listed|);
    HangingMovesNothing(Begun(o, listed), listed, e.handlings, |listed|);
  }

  lemma FirstListed(limit: nat, o: Outcome, p: Path, now: int, listed: seq<L.Deletion>)
    requires limit > 0 && Scheduled(o) && p in o.tickets && o.tickets[p].due <= now && Ahead(o.tickets, p) != {}
    requires Listing(o.tables, o.tickets, now, listed, limit)
    ensures listed != [] && listed[0].path != p
  {
    assert p in DuePaths(o.tables, o.tickets, now);
    var q :| q in Ahead(o.tickets, p);
    EarlierIsTotal(o.tickets[q], o.tickets[p]);
    if q in Paths(listed, |listed|) {
      var j :| 0 <= j < |listed| && listed[j].path == q;
    } else {
      assert q in DuePaths(o.tables, o.tickets, now) - Paths(listed, |listed|);
    }
  }

  lemma {:induction false} HangingMovesNothing(start: Outcome, listed: seq<L.Deletion>, handlings: seq<Handling>, n: nat)
    requires n <= |listed| == |handlings| && forall i :: 0 <= i < n ==> Dead(handlings[i]) && listed[i].path in start.tables.deletions
    ensures var o := Processing(start, listed, handlings, n); o == start.(tally := o.tally)
  {
    if n > 0 { HangingMovesNothing(start, listed, handlings, n - 1); }
  }

  /**
   From every queue: an entry with at least one other ahead of it can be kept waiting
   through runs at any times, as many as one likes, by a first entry on which each
   of them hangs.
   */
  lemma {:induction false} HangingEntryStarves(limit: nat, o: Outcome, p: Path, times: seq<int>)
    returns (states: seq<Outcome>, events: seq<Event>)
    requires limit > 0 && Scheduled(o) && p in o.tickets && Ahead(o.tickets, p) != {}
    requires forall t :: t in times ==> o.tickets[p].due <= t
    ensures QueueRun(limit, states, events) && states[0] == o && Waits(states, events, p, o.tickets[p])
    ensures |events| == |times| && forall i :: 0 <= i < |times| ==> HangsAt(events[i], times[i])
    ensures forall s :: s in states ==> s == o.(tally := s.tally)
  {
    if times == [] {
      states, events := [o], [];
    } else {
      var k := |times| - 1;
      assert times[k] in times && forall t :: t in times[..k] ==> t in times;
      states, events := HangingEntryStarves(limit, o, p, times[..k]);
      assert states[k] in states;
      var e, next := HangingRun(limit, states[k], p, times[k]);
      WaitsOn(limit, states, events, e, next, p, o.tickets[p]);
      assert forall i :: 0 <= i < k ==> HangsAt(events[i], times[..k][i]);
      states, events := Extended(limit, states, events, e, next);
    }
  }

  lemma WaitsOn(limit: nat, states: seq<Outcome>, events: seq<Event>, e: Event, next: Outcome, p: Path, ticket: Ticket)
    requires |states| == |events| + 1 && Waits(states, events, p, ticket)
    requires p in next.tickets && next.tickets[p] == ticket && (e.Worked? ==> ticket.due <= e.now) && !Attempts(e, p)
    ensures Waits(states + [next], events + [e], p, ticket)
  {
  }

  lemma Extended(limit: nat, states: seq<Outcome>, events: seq<Event>, e: Event, next: Outcome)
    returns (states': seq<Outcome>, events': seq<Event>)
    requires QueueRun(limit, states, events) && QueueStep(limit, states[|events|], e, next)
    ensures states' == states + [next] && events' == events + [e] && QueueRun(limit, states', events')
  {
    states', events' := states + [next], events + [e];
    forall i | 0 <= i < |events'| ensures StepAt(limit, states', events', i) {
      if i < |events| { assert StepAt(limit, states, events, i); }
    }
  }

  predicate HangsAt(e: Event, now: int)
  {
    e.Worked? && e.now == now && e.live == 1 <= |e.listed| == |e.handlings| && e.handlings[0] == Hanging(now)
  }

  /* ---------- exactly when waiting is bounded ---------- */

  /** Runs of the worker alone that pass p by, each moving at least m entries. */
  ghost predicate PassBy(limit: nat, m: nat, o: Outcome, p: Path, states: seq<Outcome>, events: seq<Event>)
  {
    && QueueRun(limit, states, events) && states[0] == o && p in o.tickets && Waits(states, events, p, o.tickets[p])
    && forall i :: 0 <= i < |events| ==> events[i].Worked? && Progress(states[i], events[i]) >= m
  }

  ghost predicate WaitsAtMost(limit: nat, m: nat, o: Outcome, p: Path, bound: nat)
  {
    forall states, events :: PassBy(limit, m, o, p, states, events) ==> |events| <= bound
  }

  /**
   For every queue and every entry in it that is not the first: there is a bound on
   the runs that can pass it by exactly when each run is sure to get something done.
   */
  lemma ReachedExactly(limit: nat, m: nat, o: Outcome, p: Path)
    requires limit > 0 && Scheduled(o) && p in o.tickets && Ahead(o.tickets, p) != {}
    ensures (exists bound :: WaitsAtMost(limit, m, o, p, bound)) <==> m > 0
  {
    if m > 0 {
      forall states, events | PassBy(limit, m, o, p, states, events) ensures |events| <= |Ahead(o.tickets, p)| {
        NoStarvation(limit, states, events, p, o.tickets[p]);
        EachMovesOne(limit, m, o, p, states, events, |events|);
      }
      assert WaitsAtMost(limit, m, o, p, |Ahead(o.tickets, p)|);
    } else {
      forall bound: nat ensures !WaitsAtMost(limit, m, o, p, bound) {
        var states, events := HangingEntryStarves(limit, o, p, seq(bound + 1, _ => o.tickets[p].due));
        assert PassBy(limit, m, o, p, states, events);
      }
    }
  }

  lemma {:induction false} EachMovesOne(limit: nat, m: nat, o: Outcome, p: Path, states: seq<Outcome>, events: seq<Event>, n: nat)
    requires m > 0 && PassBy(limit, m, o, p, states, events) && n <= |events|
    ensures n <= Progressed(states, events, n) && Overtakers(states, events, p, n) == 0
  {
    if n > 0 { EachMovesOne(limit, m, o, p, states, events, n - 1); }
  }

  /* ---------- the registry's own transactions lead there ---------- */

  /** A module's only release, published and deleted again. */
  function Retired(t: Tables, id: ReleaseId, body: Bytes): Tables
  {
    var published := CreateReleaseTx(UpsertModuleTx(t, id.mod), id, L.PublishedRow(L.Publish(id, body, "", "", false)));
    DeleteReleaseTx(published, id, "")
  }

  lemma RetiredIsQueued(t: Tables, id: ReleaseId, body: Bytes)
    requires Consistent(t) && t.releases == map[] && id.mod !in t.modules
    ensures var p := Artifact(id, Sha256(body)); Retired(t, id, body) == t.(deletions := t.deletions[p := id.mod])
    ensures Consistent(Retired(t, id, body))
  {
    var row := L.PublishedRow(L.Publish(id, body, "", "", false));
    var known := UpsertModuleTx(t, id.mod);
    var published := CreateReleaseTx(known, id, row);
    assert published.releases == map[id := row];
    assert Versions(published, id.mod) - {id.version} == {};
    assert published.modules - {id.mod} == t.modules;
    assert published.releases - {id} == map[];
    RetiredIsConsistent(t, id, row);
  }

  lemma RetiredIsConsistent(t: Tables, id: ReleaseId, row: Row)
    requires Consistent(t) && t.releases == map[] && WellFormedRow(id, row)
    ensures Consistent(DeleteReleaseTx(CreateReleaseTx(UpsertModuleTx(t, id.mod), id, row), id, ""))
  {
    var published := CreateReleaseTx(UpsertModuleTx(t, id.mod), id, row);
    UpsertModuleConsistent(t, id.mod);
    CreateReleaseConsistent(UpsertModuleTx(t, id.mod), id, row);
    assert published.releases.Keys == {id};
    assert Versions(published, id.mod) - {id.version} == {};
    DeleteReleaseConsistent(published, id, "");
  }

  /** Two modules' releases published and deleted, each under its object's name, one after the other. */
  function TwoRetired(a: ReleaseId, bodyA: Bytes, nameA: string, b: ReleaseId, bodyB: Bytes, nameB: string): Outcome
  {
    var p, q := Artifact(a, Sha256(bodyA)), Artifact(b, Sha256(bodyB));
    Outcome(Retired(Retired(Tables(map[], map[], map[], {}), a, bodyA), b, bodyB), map[p := bodyA, q := bodyB],
            map[p := Ticket(nameA, 0, 0), q := Ticket(nameB, 1, 1)], L.Tally(0, 0, 0, 0))
  }

  /** Any two such deletions will do, with any limit: the first hangs, and the second is never attempted. */
  lemma OneHangingEntryIsEnough(limit: nat, a: ReleaseId, bodyA: Bytes, nameA: string, b: ReleaseId, bodyB: Bytes, nameB: string,
                                times: seq<int>) returns (states: seq<Outcome>, events: seq<Event>)
    requires limit > 0 && a.mod != b.mod && nameA != nameB && forall t :: t in times ==> 1 <= t
    ensures QueueRun(limit, states, events) && |events| == |times|
    ensures var o := TwoRetired(a, bodyA, nameA, b, bodyB, nameB);
            states[0] == o && Consistent(o.tables) && forall s :: s in states ==> s == o.(tally := s.tally)
    ensures Waits(states, events, Artifact(b, Sha256(bodyB)), Ticket(nameB, 1, 1))
    ensures forall i :: 0 <= i < |times| ==> HangsAt(events[i], times[i])
  {
    var o, q := TwoRetired(a, bodyA, nameA, b, bodyB, nameB), Artifact(b, Sha256(bodyB));
    TwoAreQueued(a, bodyA, nameA, b, bodyB, nameB);
    states, events := HangingEntryStarves(limit, o, q, times);
  }

  lemma TwoAreQueued(a: ReleaseId, bodyA: Bytes, nameA: string, b: ReleaseId, bodyB: Bytes, nameB: string)
    requires a.mod != b.mod && nameA != nameB
    ensures var (o, q) := (TwoRetired(a, bodyA, nameA, b, bodyB, nameB), Artifact(b, Sha256(bodyB)));
            Consistent(o.tables) && Scheduled(o) && q in o.tickets && o.tickets[q] == Ticket(nameB, 1, 1) && Ahead(o.tickets, q) != {}
  {
    var o, p := TwoRetired(a, bodyA, nameA, b, bodyB, nameB), Artifact(a, Sha256(bodyA));
    BothAreQueued(a, bodyA, b, bodyB);
    assert p in o.tickets && o.tickets[p] == Ticket(nameA, 0, 0);
    assert p in Ahead(o.tickets, Artifact(b, Sha256(bodyB)));
  }

  lemma BothAreQueued(a: ReleaseId, bodyA: Bytes, b: ReleaseId, bodyB: Bytes)
    requires a.mod != b.mod
    ensures var t := Retired(Retired(Tables(map[], map[], map[], {}), a, bodyA), b, bodyB);
            Consistent(t) && t.deletions == map[Artifact(a, Sha256(bodyA)) := a.mod, Artifact(b, Sha256(bodyB)) := b.mod]
  {
    var none := Tables(map[], map[], map[], {});
    RetiredIsQueued(none, a, bodyA);
    RetiredIsQueued(Retired(none, a, bodyA), b, bodyB);
  }
}
