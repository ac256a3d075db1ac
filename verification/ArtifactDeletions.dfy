/**
 One run of the deletion worker with nobody else about: the loop over the queue,
 its counters, and what a run leaves in the queue and in the object store. (How
 the worker interleaves with everything else is the business of Lifecycle.)
 */
module ArtifactDeletions {
  import opened SetSizes
  import opened Text
  import opened Store
  import opened SqliteStore
  import L = Lifecycle

  /** How the calls made for one queue entry turn out. */
  datatype Fate = Works | LockFails | CheckFails | RemoveFails(applied: bool) | CompleteFails(applied: bool)

  /** With it: when a failure was noticed, and how the call that puts the entry off turns out. */
  datatype Handling = Handling(fate: Fate, failedAt: int, deferral: Commit)

  const RETRY_DELAY := 60  // seconds

  datatype Verdict = Deleted | Canceled | Unfinished

  /** Some error may come with a result; it is an answer all the same. */
  datatype Result = Invalid | Unlisted | Processed(tally: L.Tally, pending: nat, error: bool)

  /** The other columns of a queue entry: its object's name, when it was made, and when it may be tried next. */
  datatype Ticket = Ticket(name: string, created: int, due: int)

  /** The order of the queue. */
  predicate Earlier(a: Ticket, b: Ticket)
  {
    a.due < b.due || (a.due == b.due && (a.created < b.created || (a.created == b.created && Compare(a.name, b.name) < 0)))
  }

  /** The name is the queue's key. */
  ghost predicate Keyed(tickets: map<Path, Ticket>)
  {
    forall p, q :: p in tickets && q in tickets && tickets[p].name == tickets[q].name ==> p == q
  }

  lemma EarlierIsTotal(a: Ticket, b: Ticket)
    ensures !(Earlier(a, b) && Earlier(b, a))
    ensures a.name != b.name ==> Earlier(a, b) || Earlier(b, a)
  {
    CompareFlip(a.name, b.name);
    CompareEqual(a.name, b.name);
  }

  lemma EarlierIsTransitive(a: Ticket, b: Ticket, c: Ticket)
    requires !Earlier(b, a) && !Earlier(c, b)
    ensures !Earlier(c, a)
  {
    CompareFlip(a.name, b.name);
    CompareFlip(b.name, c.name);
    CompareFlip(a.name, c.name);
    if Compare(a.name, b.name) <= 0 && Compare(b.name, c.name) <= 0 { CompareTransitive(a.name, b.name, c.name); }
  }

  lemma {:induction false} FirstExists(tickets: map<Path, Ticket>, paths: set<Path>)
    requires paths != {} && paths <= tickets.Keys
    ensures exists p :: p in paths && forall q :: q in paths ==> !Earlier(tickets[q], tickets[p])
    decreases |paths|
  {
    var p :| p in paths;
    var rest, first := paths - {p}, p;
    EarlierIsTotal(tickets[p], tickets[p]);
    if rest != {} {
      FirstExists(tickets, rest);
      var q :| q in rest && forall r :: r in rest ==> !Earlier(tickets[r], tickets[q]);
      EarlierIsTotal(tickets[p], tickets[q]);
      if !Earlier(tickets[p], tickets[q]) { first := q; }
      forall r | r in rest ensures !Earlier(tickets[r], tickets[first]) {
        EarlierIsTransitive(tickets[first], tickets[q], tickets[r]);
      }
    }
    assert forall r :: r in paths ==> r == p || r in rest;
    assert forall r :: r in paths ==> !Earlier(tickets[r], tickets[first]);
  }

  /* ---------- specification ---------- */

  function VerdictOf(t: Tables, p: Path, fate: Fate): Verdict
  {
    if fate == Works || (fate.RemoveFails? && References(t, p)) then (if References(t, p) then Canceled else Deleted) else Unfinished
  }

  function ObjectsAfter(t: Tables, objects: map<Path, Bytes>, p: Path, fate: Fate): map<Path, Bytes>
  {
    if !References(t, p) && (fate == Works || fate.CompleteFails? || (fate.RemoveFails? && fate.applied)) then objects - {p} else objects
  }

  function TablesAfter(t: Tables, p: Path, fate: Fate): Tables
  {
    if VerdictOf(t, p, fate) != Unfinished || (fate.CompleteFails? && fate.applied) then CompleteDeletionTx(t, p) else t
  }

  function Counted(tally: L.Tally, v: Verdict): L.Tally
  {
    match v
    case Deleted => tally.(deleted := tally.deleted + 1)
    case Canceled => tally.(canceled := tally.canceled + 1)
    case Unfinished => tally.(failed := tally.failed + 1)
  }

  /** An entry leaves with its row; one that could not be finished is put off. */
  function TicketsAfter(t: Tables, tickets: map<Path, Ticket>, p: Path, h: Handling): map<Path, Ticket>
  {
    if p !in TablesAfter(t, p, h.fate).deletions then tickets - {p}
    else if VerdictOf(t, p, h.fate) == Unfinished && p in tickets && h.deferral != RolledBack
    then tickets[p := tickets[p].(due := h.failedAt + RETRY_DELAY)] else tickets
  }

  datatype Outcome = Outcome(tables: Tables, objects: map<Path, Bytes>, tickets: map<Path, Ticket>, tally: L.Tally)

  /** The run over the first n listed entries. */
  function Processing(start: Outcome, listed: seq<L.Deletion>, handlings: seq<Handling>, n: nat): Outcome
    requires n <= |listed| == |handlings|
  {
    if n == 0 then start
    else
      var o := Processing(start, listed, handlings, n - 1);
      var p, h := listed[n - 1].path, handlings[n - 1];
      Outcome(TablesAfter(o.tables, p, h.fate), ObjectsAfter(o.tables, o.objects, p, h.fate),
              TicketsAfter(o.tables, o.tickets, p, h), Counted(o.tally, VerdictOf(o.tables, p, h.fate)))
  }

  function Paths(listed: seq<L.Deletion>, n: nat): set<Path>
    requires n <= |listed|
  {
    set i | 0 <= i < n :: listed[i].path
  }

  /* ---------- what every run guarantees ---------- */

  /** Whatever fails: rows are untouched, no referenced object goes, and every entry is counted once. */
  lemma {:induction false} RunIsSafe(start: Outcome, listed: seq<L.Deletion>, handlings: seq<Handling>, n: nat)
    requires n <= |listed| == |handlings|
    ensures var o := Processing(start, listed, handlings, n);
            && o.tables.releases == start.tables.releases && o.tables.modules == start.tables.modules
            && o.tables.tombstones == start.tables.tombstones
            && (forall p :: p in start.objects && (References(start.tables, p) || p !in Paths(listed, n)) ==>
                  p in o.objects && o.objects[p] == start.objects[p])
            && o.objects.Keys <= start.objects.Keys
            && o.tally.deleted + o.tally.canceled + o.tally.failed
               == start.tally.deleted + start.tally.canceled + start.tally.failed + n
            && o.tally.attempted == start.tally.attempted
  {
    if n > 0 {
      RunIsSafe(start, listed, handlings, n - 1);
      var o := Processing(start, listed, handlings, n - 1);
      assert References(o.tables, listed[n - 1].path) == References(start.tables, listed[n - 1].path);
      assert Paths(listed, n) == Paths(listed, n - 1) + {listed[n - 1].path};
    }
  }

  /** An entry only leaves the queue once its object is gone or is referenced. */
  lemma {:induction false} LeavesQueueLast(start: Outcome, listed: seq<L.Deletion>, handlings: seq<Handling>, n: nat, p: Path)
    requires n <= |listed| == |handlings|
    requires p in start.tables.deletions && p !in Processing(start, listed, handlings, n).tables.deletions
    ensures p !in Processing(start, listed, handlings, n).objects || References(start.tables, p)
  {
    if n > 0 {
      var o := Processing(start, listed, handlings, n - 1);
      RunIsSafe(start, listed, handlings, n - 1);
      assert References(o.tables, p) == References(start.tables, p);
      if p !in o.tables.deletions { LeavesQueueLast(start, listed, handlings, n - 1, p); }
    }
  }

  /** When nothing fails the run removes exactly the listed entries, and their objects unless referenced. */
  lemma {:induction false} RunWithoutFaults(start: Outcome, listed: seq<L.Deletion>, handlings: seq<Handling>, n: nat)
    requires n <= |listed| == |handlings| && forall i :: 0 <= i < n ==> handlings[i].fate == Works
    ensures var o := Processing(start, listed, handlings, n);
            && o.tables == start.tables.(deletions := start.tables.deletions - Paths(listed, n))
            && (forall p :: p in o.objects <==>
                  p in start.objects && (References(start.tables, p) || p !in Paths(listed, n)))
            && o.tally.failed == start.tally.failed
  {
    if n > 0 {
      RunWithoutFaults(start, listed, handlings, n - 1);
      var o := Processing(start, listed, handlings, n - 1);
      var p := listed[n - 1].path;
      assert References(o.tables, p) == References(start.tables, p);
      assert Paths(listed, n) == Paths(listed, n - 1) + {p};
    } else {
      assert start.tables.deletions - Paths(listed, 0) == start.tables.deletions;
    }
  }

  predicate DueBy(tickets: map<Path, Ticket>, p: Path, now: int) { p in tickets && tickets[p].due <= now }

  function DuePaths(t: Tables, tickets: map<Path, Ticket>, now: int): set<Path>
  {
    set p | p in t.deletions && DueBy(tickets, p, now)
  }

  /** Queue entries in the order of their times. */
  ghost predicate InOrder(t: Tables, tickets: map<Path, Ticket>, listed: seq<L.Deletion>)
  {
    && (forall i :: 0 <= i < |listed| ==>
          listed[i].path in t.deletions && t.deletions[listed[i].path] == listed[i].mod && listed[i].path in tickets)
    && (forall i, j :: 0 <= i < j < |listed| ==>
          listed[i].path != listed[j].path && !Earlier(tickets[listed[j].path], tickets[listed[i].path]))
  }

  /** None of these comes before what is listed. */
  ghost predicate NoneEarlier(tickets: map<Path, Ticket>, listed: seq<L.Deletion>, others: set<Path>)
  {
    forall i, p :: 0 <= i < |listed| && p in others && p in tickets && listed[i].path in tickets ==>
      !Earlier(tickets[p], tickets[listed[i].path])
  }

  /** The listing the worker asks for: the first entries that are due, as many as the limit allows. */
  ghost predicate Listing(t: Tables, tickets: map<Path, Ticket>, now: int, listed: seq<L.Deletion>, limit: nat)
  {
    var due := DuePaths(t, tickets, now);
    && InOrder(t, tickets, listed) && Paths(listed, |listed|) <= due
    && NoneEarlier(tickets, listed, due - Paths(listed, |listed|))
    && |listed| == if |due| <= limit then |due| else limit
  }

  /** Some entries are listed and the rest of those due comes after them. */
  ghost predicate ListingSoFar(t: Tables, tickets: map<Path, Ticket>, due: set<Path>, listed: seq<L.Deletion>, rest: set<Path>)
  {
    && rest <= due && Paths(listed, |listed|) == due - rest && |listed| + |rest| == |due|
    && InOrder(t, tickets, listed) && NoneEarlier(tickets, listed, rest)
  }

  lemma ListNext(t: Tables, tickets: map<Path, Ticket>, due: set<Path>, listed: seq<L.Deletion>, rest: set<Path>, p: Path)
    requires ListingSoFar(t, tickets, due, listed, rest) && due <= t.deletions.Keys && due <= tickets.Keys
    requires p in rest && forall q :: q in rest ==> !Earlier(tickets[q], tickets[p])
    ensures ListingSoFar(t, tickets, due, listed + [L.Deletion(p, t.deletions[p])], rest - {p})
  {
    PathsExtended(listed, L.Deletion(p, t.deletions[p]));
    NextInOrder(t, tickets, listed, rest, p);
    assert due - rest + {p} == due - (rest - {p});
  }

  lemma NextInOrder(t: Tables, tickets: map<Path, Ticket>, listed: seq<L.Deletion>, rest: set<Path>, p: Path)
    requires InOrder(t, tickets, listed) && NoneEarlier(tickets, listed, rest) && Paths(listed, |listed|) !! rest
    requires p in rest && p in t.deletions && rest <= tickets.Keys && forall q :: q in rest ==> !Earlier(tickets[q], tickets[p])
    ensures InOrder(t, tickets, listed + [L.Deletion(p, t.deletions[p])])
    ensures NoneEarlier(tickets, listed + [L.Deletion(p, t.deletions[p])], rest - {p})
  {
    assert forall i :: 0 <= i < |listed| ==> listed[i].path in Paths(listed, |listed|);
  }

  lemma ListEnough(t: Tables, tickets: map<Path, Ticket>, now: int, listed: seq<L.Deletion>, rest: set<Path>, limit: nat)
    requires ListingSoFar(t, tickets, DuePaths(t, tickets, now), listed, rest) && |listed| <= limit
    requires |listed| == limit || rest == {}
    ensures Listing(t, tickets, now, listed, limit)
  {
    assert DuePaths(t, tickets, now) - Paths(listed, |listed|) == rest;
  }

  /** The order and the limit leave no choice: there is one listing. */
  lemma ListingIsDetermined(t: Tables, tickets: map<Path, Ticket>, now: int, a: seq<L.Deletion>, b: seq<L.Deletion>, limit: nat)
    requires Listing(t, tickets, now, a, limit) && Listing(t, tickets, now, b, limit) && Keyed(tickets)
    ensures a == b
  {
    SameStart(t, tickets, now, a, b, limit, |a|);
    assert a[..|a|] == a && b[..|a|] == b;
  }

  lemma {:induction false} SameStart(t: Tables, tickets: map<Path, Ticket>, now: int, a: seq<L.Deletion>, b: seq<L.Deletion>, limit: nat, n: nat)
    requires Listing(t, tickets, now, a, limit) && Listing(t, tickets, now, b, limit) && Keyed(tickets) && n <= |a| == |b|
    ensures a[..n] == b[..n]
  {
    if n > 0 {
      SameStart(t, tickets, now, a, b, limit, n - 1);
      SameNext(t, tickets, now, a, b, limit, n - 1);
      assert a[..n] == a[..n - 1] + [a[n - 1]] && b[..n] == b[..n - 1] + [b[n - 1]];
    }
  }

  lemma SameNext(t: Tables, tickets: map<Path, Ticket>, now: int, a: seq<L.Deletion>, b: seq<L.Deletion>, limit: nat, n: nat)
    requires Listing(t, tickets, now, a, limit) && Listing(t, tickets, now, b, limit) && Keyed(tickets) && n < |a| == |b|
    requires a[..n] == b[..n]
    ensures a[n] == b[n]
  {
    forall i | 0 <= i < n ensures a[i] == b[i] { assert a[i] == a[..n][i] && b[i] == b[..n][i]; }
    NotBefore(t, tickets, now, a, b, limit, n);
    NotBefore(t, tickets, now, b, a, limit, n);
    EarlierIsTotal(tickets[a[n].path], tickets[b[n].path]);
  }

  /** Of two listings with the same start, neither has an earlier entry next. */
  lemma NotBefore(t: Tables, tickets: map<Path, Ticket>, now: int, a: seq<L.Deletion>, b: seq<L.Deletion>, limit: nat, n: nat)
    requires Listing(t, tickets, now, a, limit) && Listing(t, tickets, now, b, limit) && n < |a|
    requires forall i :: 0 <= i < n ==> a[i] == b[i]
    ensures !Earlier(tickets[a[n].path], tickets[b[n].path])
  {
    var p := a[n].path;
    assert p in Paths(a, |a|);
    if p in Paths(b, |b|) {
      var j :| 0 <= j < |b| && b[j].path == p;
      EarlierIsTotal(tickets[p], tickets[p]);
      assert j >= n;
    } else {
      assert p in DuePaths(t, tickets, now) - Paths(b, |b|);
    }
  }

  lemma {:induction false} PathsCount(listed: seq<L.Deletion>, n: nat)
    requires n <= |listed| && forall i, j :: 0 <= i < j < |listed| ==> listed[i].path != listed[j].path
    ensures |Paths(listed, n)| == n
  {
    if n > 0 {
      PathsCount(listed, n - 1);
      assert Paths(listed, n) == Paths(listed, n - 1) + {listed[n - 1].path};
    }
  }

  lemma FullListing(t: Tables, tickets: map<Path, Ticket>, now: int, listed: seq<L.Deletion>, limit: nat)
    requires Listing(t, tickets, now, listed, limit) && |DuePaths(t, tickets, now)| <= limit
    ensures Paths(listed, |listed|) == DuePaths(t, tickets, now)
  {
    PathsCount(listed, |listed|);
    SubsetSize(Paths(listed, |listed|), DuePaths(t, tickets, now));
  }

  /**
   A large enough run in which nothing fails empties a queue that is due. If every
   stored artifact was referenced or queued, exactly the referenced ones remain.
   */
  lemma DrainingLeavesReferencedObjects(start: Outcome, listed: seq<L.Deletion>, handlings: seq<Handling>, now: int, limit: nat, p: Path)
    requires |listed| == |handlings| && Listing(start.tables, start.tickets, now, listed, limit)
    requires |start.tables.deletions| <= limit && forall q :: q in start.tables.deletions ==> DueBy(start.tickets, q, now)
    requires forall i :: 0 <= i < |handlings| ==> handlings[i].fate == Works
    requires p.Artifact? && p in start.objects ==> References(start.tables, p) || p in start.tables.deletions
    ensures var o := Processing(start, listed, handlings, |listed|);
            && o.tables.deletions == map[]
            && (p.Artifact? ==> (p in o.objects <==> p in start.objects && References(o.tables, p)))
  {
    assert DuePaths(start.tables, start.tickets, now) == start.tables.deletions.Keys;
    RunWithoutFaults(start, listed, handlings, |listed|);
    FullListing(start.tables, start.tickets, now, listed, limit);
    var o := Processing(start, listed, handlings, |listed|);
    assert References(o.tables, p) == References(start.tables, p);
  }

  /* ---------- the worker ---------- */

  class ArtifactService {
    const store: SqliteStore
    var objects: map<Path, Bytes>
    var tickets: map<Path, Ticket>  // the time columns of the queue's rows

    ghost predicate Valid()
      reads this, store
    {
      tickets.Keys == store.deletions.Keys && Keyed(tickets)
    }

    constructor (store: SqliteStore)
      requires store.deletions == map[]
      ensures this.store == store && objects == map[] && Valid()
    {
      this.store := store;
      objects, tickets := map[], map[];
    }

    method ListArtifactDeletions(limit: nat, now: int) returns (listed: seq<L.Deletion>)
      requires Valid()
      ensures Listing(store.Contents(), tickets, now, listed, limit)
      ensures forall other :: Listing(store.Contents(), tickets, now, other, limit) ==> other == listed
    {
      listed := [];
      ghost var T := store.Contents();
      var due := set p | p in tickets && tickets[p].due <= now;
      assert due == DuePaths(T, tickets, now);
      var rest := due;
      while |listed| < limit && rest != {}
        invariant |listed| <= limit && ListingSoFar(T, tickets, due, listed, rest)
        decreases |rest|
      {
        FirstExists(tickets, rest);
        var p :| p in rest && forall q :: q in rest ==> !Earlier(tickets[q], tickets[p]);
        ListNext(T, tickets, due, listed, rest, p);
        listed := listed + [L.Deletion(p, store.deletions[p])];
        rest := rest - {p};
      }
      ListEnough(T, tickets, now, listed, rest, limit);
      forall other | Listing(T, tickets, now, other, limit) ensures other == listed {
        ListingIsDetermined(T, tickets, now, other, listed, limit);
      }
    }

    method ProcessArtifactDeletion(deletion: L.Deletion, fate: Fate) returns (verdict: Verdict)
      requires Valid()
      modifies this, store
      ensures Valid() && verdict == VerdictOf(old(store.Contents()), deletion.path, fate)
      ensures objects == ObjectsAfter(old(store.Contents()), old(objects), deletion.path, fate)
      ensures store.Contents() == TablesAfter(old(store.Contents()), deletion.path, fate)
      ensures tickets == if deletion.path in store.deletions then old(tickets) else old(tickets) - {deletion.path}
    {
      assert deletion.path !in tickets ==> tickets - {deletion.path} == tickets;
      if fate == LockFails || fate == CheckFails { return Unfinished; }
      var referenced := store.IsArtifactReferenced(deletion.path);
      if !referenced {
        if fate.RemoveFails? {
          if fate.applied { objects := objects - {deletion.path}; }
          return Unfinished;
        }
        objects := objects - {deletion.path};
      }
      var commit := if !fate.CompleteFails? then Acknowledged else if fate.applied then ReplyLost else RolledBack;
      var status := store.CompleteArtifactDeletion(deletion.path, commit);
      if deletion.path !in store.deletions { tickets := tickets - {deletion.path}; }
      if status != Done { return Unfinished; }
      return if referenced then Canceled else Deleted;
    }

    /** One listed entry: what could not be finished is put off. */
    method ProcessListed(deletion: L.Deletion, h: Handling) returns (verdict: Verdict)
      requires Valid()
      modifies this, store
      ensures Valid() && verdict == VerdictOf(old(store.Contents()), deletion.path, h.fate)
      ensures objects == ObjectsAfter(old(store.Contents()), old(objects), deletion.path, h.fate)
      ensures store.Contents() == TablesAfter(old(store.Contents()), deletion.path, h.fate)
      ensures tickets == TicketsAfter(old(store.Contents()), old(tickets), deletion.path, h)
    {
      verdict := ProcessArtifactDeletion(deletion, h.fate);
      if verdict == Unfinished { DeferArtifactDeletion(deletion.path, h.failedAt + RETRY_DELAY, h.deferral); }
    }

    /** An update that finds no row, or is rolled back, changes nothing. */
    method DeferArtifactDeletion(p: Path, retryAt: int, commit: Commit)
      requires Valid()
      modifies this`tickets
      ensures Valid()
      ensures tickets == if p in old(tickets) && commit != RolledBack then old(tickets)[p := old(tickets)[p].(due := retryAt)]
                         else old(tickets)
    {
      if p in tickets && commit != RolledBack { tickets := tickets[p := tickets[p].(due := retryAt)]; }
    }

    /** `handlings` says how the calls for each possible entry turn out, `listable` and `countable` how the two others do. */
    method ProcessArtifactDeletions(limit: int, now: int, handlings: seq<Handling>, listable: bool, countable: bool)
      returns (result: Result, ghost listed: seq<L.Deletion>)
      requires Valid() && |handlings| >= limit
      modifies this, store
      ensures Valid()
      ensures limit <= 0 || !listable ==>
                && result == (if limit <= 0 then Invalid else Unlisted)
                && store.Contents() == old(store.Contents()) && objects == old(objects) && tickets == old(tickets)
      ensures limit > 0 && listable ==>
                && result.Processed? && Listing(old(store.Contents()), old(tickets), now, listed, limit)
                && Processing(Outcome(old(store.Contents()), old(objects), old(tickets), L.Tally(|listed|, 0, 0, 0)),
                              listed, handlings[..|listed|], |listed|)
                   == Outcome(store.Contents(), objects, tickets, result.tally)
                && result.tally.attempted == result.tally.deleted + result.tally.canceled + result.tally.failed
                && result.pending == (if countable then |store.Contents().deletions| else 0)
                && (result.error <==> result.tally.failed > 0 || !countable)
    {
      listed := [];
      if limit <= 0 { return Invalid, []; }
      if !listable { return Unlisted, []; }
      var deletions := ListArtifactDeletions(limit, now);
      listed := deletions;
      var tally := L.Tally(|deletions|, 0, 0, 0);
      ghost var start := Outcome(store.Contents(), objects, tickets, tally);
      var error := false;
      for n := 0 to |deletions|
        invariant Valid() && (error <==> tally.failed > 0)
        invariant Processing(start, deletions, handlings[..|deletions|], n) == Outcome(store.Contents(), objects, tickets, tally)
      {
        var verdict := ProcessListed(deletions[n], handlings[n]);
        match verdict
        case Unfinished => tally, error := tally.(failed := tally.failed + 1), true;
        case Canceled => tally := tally.(canceled := tally.canceled + 1);
        case Deleted => tally := tally.(deleted := tally.deleted + 1);
      }
      RunIsSafe(start, deletions, handlings[..|deletions|], |deletions|);
      result := Processed(tally, if countable then |store.deletions| else 0, error || !countable);
    }
  }

  lemma PathsExtended(listed: seq<L.Deletion>, d: L.Deletion)
    ensures Paths(listed + [d], |listed| + 1) == Paths(listed, |listed|) + {d.path}
  {
    forall p ensures p in Paths(listed + [d], |listed| + 1) <==> p in Paths(listed, |listed|) + {d.path} {
      if p in Paths(listed, |listed|) {
        var i :| 0 <= i < |listed| && listed[i].path == p;
        assert (listed + [d])[i].path == p;
      }
      assert (listed + [d])[|listed|] == d;
    }
  }
}
