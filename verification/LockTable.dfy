/**
 The per-module locks of the SQLite store: a table of shared entries, each with
 a one-token semaphore and a reference count, created by the first to ask and
 deleted by the last to leave. Any number of attempts on any number of keys
 interleave; an attempt is one call of LockModule together with the unlock
 function it returns.
 */
module LockTable {
  import opened Text

  type Tid = nat

  /** The key of a module's lock. */
  function LockKey(owner: string, name: string): string { owner + ['\0'] + name }

  /** Two modules share a lock only if they are the same: an owner has no NUL in it. */
  lemma LockKeysAreInjective(owner: string, name: string, owner': string, name': string)
    requires '\0' !in owner && '\0' !in owner'
    ensures LockKey(owner, name) == LockKey(owner', name') <==> owner == owner' && name == name'
  {
    BeforeOfSeparated(owner, '\0', name);
    BeforeOfSeparated(owner', '\0', name');
  }

  datatype Cell = Cell(token: bool, references: int)

  /** Where an attempt is: registered and waiting, holding, about to drop its reference, or through. */
  datatype Attempt<E> = Waiting(key: string, entry: E) | Holding(key: string, entry: E) | Leaving(key: string, entry: E) | Gone

  datatype State<E> = State(table: map<string, E>, entries: map<E, Cell>, attempts: map<Tid, Attempt<E>>)

  datatype Action = Enter(key: string) | Take | Cancel | Unlock | Leave

  predicate On<E(==)>(a: Attempt<E>, e: E) { !a.Gone? && a.entry == e }

  function Users<E(==)>(s: State<E>, e: E): set<Tid> { set t | t in s.attempts && On(s.attempts[t], e) }

  function Holders<E(==)>(s: State<E>, e: E): set<Tid>
  {
    set t | t in s.attempts && s.attempts[t].Holding? && s.attempts[t].entry == e
  }

  /* ---------- the atomic sections of LockModule and its unlock function ---------- */

  /** Under the mutex: find or create the entry and count a reference. */
  ghost predicate EnterStep<E>(s: State<E>, t: Tid, key: string, s': State<E>)
  {
    t !in s.attempts
    && if key in s.table && s.table[key] in s.entries then
         var e := s.table[key];
         s' == s.(entries := s.entries[e := s.entries[e].(references := s.entries[e].references + 1)],
                  attempts := s.attempts[t := Waiting(key, e)])
       else
         t in s'.attempts && s'.attempts[t].Waiting?
         && var e := s'.attempts[t].entry;
            e !in s.entries
            && s' == State(s.table[key := e], s.entries[e := Cell(true, 1)], s.attempts[t := Waiting(key, e)])
  }

  ghost predicate TakeStep<E>(s: State<E>, t: Tid, s': State<E>)
  {
    t in s.attempts && s.attempts[t].Waiting?
    && var e := s.attempts[t].entry;
       e in s.entries && s.entries[e].token
       && s' == s.(entries := s.entries[e := s.entries[e].(token := false)],
                   attempts := s.attempts[t := Holding(s.attempts[t].key, e)])
  }

  ghost predicate CancelStep<E>(s: State<E>, t: Tid, s': State<E>)
  {
    t in s.attempts && s.attempts[t].Waiting?
    && s' == s.(attempts := s.attempts[t := Leaving(s.attempts[t].key, s.attempts[t].entry)])
  }

  /** The send on the semaphore, which holds one token: possible only when it is empty. */
  predicate CanSend<E(==)>(s: State<E>, e: E) { e in s.entries && !s.entries[e].token }

  /** Only the first call of the unlock function does anything. */
  ghost predicate UnlockStep<E>(s: State<E>, t: Tid, s': State<E>)
  {
    t in s.attempts
    && if s.attempts[t].Holding? then
         var e := s.attempts[t].entry;
         CanSend(s, e)
         && s' == s.(entries := s.entries[e := s.entries[e].(token := true)],
                     attempts := s.attempts[t := Leaving(s.attempts[t].key, e)])
       else !s.attempts[t].Waiting? && s' == s
  }

  /** releaseModuleLockReference, under the mutex. */
  ghost predicate LeaveStep<E>(s: State<E>, t: Tid, s': State<E>)
  {
    t in s.attempts && s.attempts[t].Leaving?
    && var e, key := s.attempts[t].entry, s.attempts[t].key;
       e in s.entries
       && var left := s.entries[e].references - 1;
          s' == State(if left == 0 then s.table - {key} else s.table,
                      s.entries[e := s.entries[e].(references := left)],
                      s.attempts[t := Gone])
  }

  ghost predicate Step<E>(s: State<E>, t: Tid, action: Action, s': State<E>)
  {
    match action
    case Enter(key) => EnterStep(s, t, key, s')
    case Take => TakeStep(s, t, s')
    case Cancel => CancelStep(s, t, s')
    case Unlock => UnlockStep(s, t, s')
    case Leave => LeaveStep(s, t, s')
  }

  /* ---------- the invariant ---------- */

  ghost predicate Inv<E>(s: State<E>) { Linked(s) && Counts(s) }

  /** Every attempt's entry is the one in the table, and every entry in the table is in use. */
  ghost predicate Linked<E>(s: State<E>)
  {
    && (forall key :: key in s.table ==> s.table[key] in s.entries && Users(s, s.table[key]) != {})
    && (forall t :: t in s.attempts && !s.attempts[t].Gone? ==>
          s.attempts[t].key in s.table && s.table[s.attempts[t].key] == s.attempts[t].entry)
    && (forall k, l :: k in s.table && l in s.table && s.table[k] == s.table[l] ==> k == l)
  }

  ghost predicate Counts<E>(s: State<E>) { forall e :: e in s.entries ==> Counted(s, e) }

  ghost predicate Counted<E>(s: State<E>, e: E)
    requires e in s.entries
  {
    s.entries[e].references == |Users(s, e)| && |Holders(s, e)| + (if s.entries[e].token then 1 else 0) == 1
  }

  lemma UsersAfter<E>(s: State<E>, t: Tid, a: Attempt<E>, e: E)
    ensures Users(s.(attempts := s.attempts[t := a]), e) == if On(a, e) then Users(s, e) + {t} else Users(s, e) - {t}
    ensures Holders(s.(attempts := s.attempts[t := a]), e)
            == if a.Holding? && a.entry == e then Holders(s, e) + {t} else Holders(s, e) - {t}
  {
  }

  lemma UsersOnly<E>(s: State<E>, s': State<E>, e: E)
    requires s.attempts == s'.attempts
    ensures Users(s, e) == Users(s', e) && Holders(s, e) == Holders(s', e)
  {
  }

  /** Each action's effect on the users and holders of any entry. */
  lemma UsersAfterStep<E>(s: State<E>, t: Tid, s': State<E>, e: E)
    requires t in s'.attempts && s'.attempts == s.attempts[t := s'.attempts[t]]
    ensures Users(s', e) == if On(s'.attempts[t], e) then Users(s, e) + {t} else Users(s, e) - {t}
    ensures Holders(s', e)
            == if s'.attempts[t].Holding? && s'.attempts[t].entry == e then Holders(s, e) + {t} else Holders(s, e) - {t}
  {
    UsersAfter(s, t, s'.attempts[t], e);
    UsersOnly(s.(attempts := s.attempts[t := s'.attempts[t]]), s', e);
  }

  /** What an attempt does not touch stays counted. */
  lemma CountedElsewhere<E>(s: State<E>, t: Tid, s': State<E>, e: E)
    requires t in s'.attempts && s'.attempts == s.attempts[t := s'.attempts[t]]
    requires e in s.entries && e in s'.entries && s'.entries[e] == s.entries[e] && Counted(s, e)
    requires !On(s'.attempts[t], e) && (t in s.attempts ==> !On(s.attempts[t], e))
    ensures Counted(s', e)
  {
    UsersAfterStep(s, t, s', e);
    assert Users(s', e) == Users(s, e) && Holders(s', e) == Holders(s, e);
  }

  /** An entry stays in use while some other attempt, or the acting one still, is on it. */
  lemma StillUsed<E>(s: State<E>, t: Tid, s': State<E>, e: E)
    requires t in s'.attempts && s'.attempts == s.attempts[t := s'.attempts[t]]
    requires On(s'.attempts[t], e) || (Users(s, e) != {} && (t in s.attempts ==> !On(s.attempts[t], e)))
    ensures Users(s', e) != {}
  {
    UsersAfterStep(s, t, s', e);
    if On(s'.attempts[t], e) { assert t in Users(s', e); } else { assert Users(s', e) == Users(s, e); }
  }

  lemma EnterKeeps<E>(s: State<E>, t: Tid, key: string, s': State<E>)
    requires Inv(s) && EnterStep(s, t, key, s')
    ensures Inv(s')
  {
    var mine := s'.attempts[t].entry;
    EnteredCounted(s, t, key, s');
    forall e | e in s'.entries ensures Counted(s', e) {
      if e != mine { CountedElsewhere(s, t, s', e); }
    }
    EnteredLinked(s, t, key, s');
  }

  lemma EnteredLinked<E>(s: State<E>, t: Tid, key: string, s': State<E>)
    requires Linked(s) && EnterStep(s, t, key, s')
    ensures Linked(s')
  {
    forall k | k in s'.table ensures Users(s', s'.table[k]) != {} { StillUsed(s, t, s', s'.table[k]); }
  }

  lemma EnteredCounted<E>(s: State<E>, t: Tid, key: string, s': State<E>)
    requires Inv(s) && EnterStep(s, t, key, s')
    ensures Counted(s', s'.attempts[t].entry)
  {
    var e := s'.attempts[t].entry;
    UsersAfterStep(s, t, s', e);
    if e in s.entries {
      assert Counted(s, e) && t !in Users(s, e) && t !in Holders(s, e);
    } else {
      assert Users(s, e) == {} && Holders(s, e) == {};
    }
  }

  lemma TakeKeeps<E>(s: State<E>, t: Tid, s': State<E>)
    requires Inv(s) && TakeStep(s, t, s')
    ensures Inv(s')
  {
    var mine := s.attempts[t].entry;
    UsersAfterStep(s, t, s', mine);
    forall e | e in s'.entries ensures Counted(s', e) {
      if e != mine { CountedElsewhere(s, t, s', e); } else { TakenCounted(s, t, s'); }
    }
    forall k | k in s'.table ensures Users(s', s'.table[k]) != {} { StillUsed(s, t, s', s'.table[k]); }
  }

  lemma TakenCounted<E>(s: State<E>, t: Tid, s': State<E>)
    requires Inv(s) && TakeStep(s, t, s')
    ensures Counted(s', s.attempts[t].entry)
  {
    var e := s.attempts[t].entry;
    UsersAfterStep(s, t, s', e);
    assert Counted(s, e) && t in Users(s, e) && Holders(s, e) == {};
    assert Users(s', e) == Users(s, e) && Holders(s', e) == {t};
  }

  lemma CancelKeeps<E>(s: State<E>, t: Tid, s': State<E>)
    requires Inv(s) && CancelStep(s, t, s')
    ensures Inv(s')
  {
    CanceledCounted(s, t, s');
    forall e | e in s'.entries ensures Counted(s', e) {
      if e != s.attempts[t].entry { CountedElsewhere(s, t, s', e); }
    }
    forall k | k in s'.table ensures Users(s', s'.table[k]) != {} { StillUsed(s, t, s', s'.table[k]); }
  }

  lemma CanceledCounted<E>(s: State<E>, t: Tid, s': State<E>)
    requires Inv(s) && CancelStep(s, t, s')
    ensures Counted(s', s.attempts[t].entry)
  {
    var e := s.attempts[t].entry;
    UsersAfterStep(s, t, s', e);
    assert Counted(s, e) && t in Users(s, e) && t !in Holders(s, e);
    assert Users(s', e) == Users(s, e) && Holders(s', e) == Holders(s, e);
  }

  lemma UnlockKeeps<E>(s: State<E>, t: Tid, s': State<E>)
    requires Inv(s) && UnlockStep(s, t, s')
    ensures Inv(s')
  {
    if s' != s {
      var mine := s.attempts[t].entry;
      UsersAfterStep(s, t, s', mine);
      assert t in Users(s, mine) && t in Holders(s, mine) && Counted(s, mine);
      assert Users(s', mine) == Users(s, mine) && Holders(s', mine) == Holders(s, mine) - {t};
      forall e | e in s'.entries ensures Counted(s', e) {
        if e != mine { CountedElsewhere(s, t, s', e); }
      }
      forall k | k in s'.table ensures Users(s', s'.table[k]) != {} { StillUsed(s, t, s', s'.table[k]); }
    }
  }

  lemma LeaveKeeps<E>(s: State<E>, t: Tid, s': State<E>)
    requires Inv(s) && LeaveStep(s, t, s')
    ensures Inv(s')
  {
    var mine, key := s.attempts[t].entry, s.attempts[t].key;
    LeftCounted(s, t, s');
    forall e | e in s'.entries ensures Counted(s', e) {
      if e != mine { CountedElsewhere(s, t, s', e); }
    }
    forall k | k in s'.table ensures Users(s', s'.table[k]) != {} {
      if k != key { StillUsed(s, t, s', s'.table[k]); }
    }
    forall u | u in s'.attempts && !s'.attempts[u].Gone?
      ensures s'.attempts[u].key in s'.table && s'.table[s'.attempts[u].key] == s'.attempts[u].entry
    {
      if s'.attempts[u].key == key { assert u in Users(s', mine); }
    }
  }

  lemma LeftCounted<E>(s: State<E>, t: Tid, s': State<E>)
    requires Inv(s) && LeaveStep(s, t, s')
    ensures Counted(s', s.attempts[t].entry)
    ensures s'.entries[s.attempts[t].entry].references == 0 <==> Users(s', s.attempts[t].entry) == {}
  {
    var e := s.attempts[t].entry;
    UsersAfterStep(s, t, s', e);
    assert Counted(s, e) && t in Users(s, e) && t !in Holders(s, e);
    assert Users(s', e) == Users(s, e) - {t} && Holders(s', e) == Holders(s, e);
  }

  lemma StepKeepsInv<E>(s: State<E>, t: Tid, action: Action, s': State<E>)
    requires Inv(s) && Step(s, t, action, s')
    ensures Inv(s')
  {
    match action
    case Enter(key) => EnterKeeps(s, t, key, s');
    case Take => TakeKeeps(s, t, s');
    case Cancel => CancelKeeps(s, t, s');
    case Unlock => UnlockKeeps(s, t, s');
    case Leave => LeaveKeeps(s, t, s');
  }

  /* ---------- over whole runs ---------- */

  datatype Label = Label(attempt: Tid, action: Action)

  ghost predicate Run<E>(states: seq<State<E>>, labels: seq<Label>)
  {
    && |states| == |labels| + 1
    && states[0] == State(map[], map[], map[])
    && forall i :: 0 <= i < |labels| ==> Step(states[i], labels[i].attempt, labels[i].action, states[i + 1])
  }

  lemma {:induction false} ReachableInv<E>(states: seq<State<E>>, labels: seq<Label>, i: nat)
    requires Run(states, labels) && i < |states|
    ensures Inv(states[i])
  {
    if i > 0 {
      ReachableInv(states, labels, i - 1);
      StepKeepsInv(states[i - 1], labels[i - 1].attempt, labels[i - 1].action, states[i]);
    }
  }

  lemma {:induction false} AtMostOne(s: set<Tid>, a: Tid, b: Tid)
    requires |s| <= 1 && a in s && b in s
    ensures a == b
  {
    assert |s - {a}| == 0;
  }

  /** At most one attempt holds a key, and everyone on a key shares the entry in the table. */
  lemma MutualExclusion<E>(states: seq<State<E>>, labels: seq<Label>, i: nat, t: Tid, u: Tid)
    requires Run(states, labels) && i < |states|
    requires t in states[i].attempts && u in states[i].attempts
    requires !states[i].attempts[t].Gone? && !states[i].attempts[u].Gone? && states[i].attempts[t].key == states[i].attempts[u].key
    ensures states[i].attempts[t].key in states[i].table
    ensures states[i].attempts[t].entry == states[i].attempts[u].entry == states[i].table[states[i].attempts[t].key]
    ensures states[i].attempts[t].Holding? && states[i].attempts[u].Holding? ==> t == u
  {
    var s := states[i];
    ReachableInv(states, labels, i);
    var e := s.attempts[t].entry;
    assert e in s.entries;
    if s.attempts[t].Holding? && s.attempts[u].Holding? {
      assert t in Holders(s, e) && u in Holders(s, e);
      AtMostOne(Holders(s, e), t, u);
    }
  }

  /** The reference count is the number of waiting, holding and leaving attempts; tokens plus holders is one. */
  lemma ReferencesCountUsers<E>(states: seq<State<E>>, labels: seq<Label>, i: nat, key: string)
    requires Run(states, labels) && i < |states| && key in states[i].table
    ensures var s := states[i]; var e := s.table[key];
            && e in s.entries && s.entries[e].references == |Users(s, e)| > 0
            && |Holders(s, e)| + (if s.entries[e].token then 1 else 0) == 1
            && (forall t :: t in Users(s, e) ==> s.attempts[t].key == key)
  {
    ReachableInv(states, labels, i);
  }

  /** Unlocking never blocks: while the lock is held its semaphore is empty. */
  lemma UnlockNeverBlocks<E>(states: seq<State<E>>, labels: seq<Label>, i: nat, t: Tid)
    requires Run(states, labels) && i < |states| && t in states[i].attempts && states[i].attempts[t].Holding?
    ensures CanSend(states[i], states[i].attempts[t].entry)
  {
    ReachableInv(states, labels, i);
    HeldSemaphoreIsEmpty(states[i], t);
  }

  /** A key that is wanted and not held can be taken: no wake-up is lost. */
  lemma FreeLockCanBeTaken<E>(states: seq<State<E>>, labels: seq<Label>, i: nat, t: Tid)
    requires Run(states, labels) && i < |states| && t in states[i].attempts && states[i].attempts[t].Waiting?
    requires forall u :: u in states[i].attempts && states[i].attempts[u].Holding? ==>
               states[i].attempts[u].key != states[i].attempts[t].key
    ensures exists s' :: TakeStep(states[i], t, s')
  {
    var s := states[i];
    ReachableInv(states, labels, i);
    var e := s.attempts[t].entry;
    assert Holders(s, e) == {};
    var s' := s.(entries := s.entries[e := s.entries[e].(token := false)], attempts := s.attempts[t := Holding(s.attempts[t].key, e)]);
    assert TakeStep(s, t, s');
  }

  /** When every attempt is through, cancelled or not, the table is empty. */
  lemma IdleTableIsEmpty<E>(states: seq<State<E>>, labels: seq<Label>, i: nat)
    requires Run(states, labels) && i < |states|
    requires forall t :: t in states[i].attempts ==> states[i].attempts[t].Gone?
    ensures states[i].table == map[]
  {
    ReachableInv(states, labels, i);
    assert forall e :: Users(states[i], e) == {};
  }

  /* ---------- the table refines one plain lock per key ---------- */

  predicate HeldBy<E(==)>(s: State<E>, key: string, t: Tid)
  {
    t in s.attempts && s.attempts[t].Holding? && s.attempts[t].key == key
  }

  /**
   Seen as who holds which key, a step takes a lock nobody holds, gives up the
   acting attempt's own lock, or changes nothing.
   */
  lemma StepRefinesLocks<E>(s: State<E>, t: Tid, action: Action, s': State<E>)
    requires Inv(s) && Step(s, t, action, s')
    ensures action == Take ==>
              && (forall u :: !HeldBy(s, s.attempts[t].key, u))
              && (forall key, u :: HeldBy(s', key, u) <==> HeldBy(s, key, u) || (key == s.attempts[t].key && u == t))
    ensures action == Unlock && s.attempts[t].Holding? ==>
              && HeldBy(s, s.attempts[t].key, t)
              && (forall key, u :: HeldBy(s', key, u) <==> HeldBy(s, key, u) && u != t)
    ensures action != Take && !(action == Unlock && s.attempts[t].Holding?) ==>
              forall key, u :: HeldBy(s', key, u) <==> HeldBy(s, key, u)
  {
    if action == Take { TakenWasFree(s, t, s'); }
  }

  lemma TakenWasFree<E>(s: State<E>, t: Tid, s': State<E>)
    requires Inv(s) && TakeStep(s, t, s')
    ensures forall u :: !HeldBy(s, s.attempts[t].key, u)
  {
    var e := s.attempts[t].entry;
    assert Counted(s, e);
    assert Holders(s, e) == {};
    assert forall u :: HeldBy(s, s.attempts[t].key, u) ==> u in Holders(s, e);
  }

  /* ---------- in place ---------- */

  class ModuleLock {
    var semaphore: bool
    var references: int

    constructor ()
      ensures semaphore && references == 0
    {
      semaphore, references := true, 0;
    }
  }

  /** The table as the store keeps it. Each method is one atomic section; attempts are history. */
  class ModuleLocks {
    var moduleLocks: map<string, ModuleLock>
    ghost var entries: set<ModuleLock>
    ghost var attempts: map<Tid, Attempt<ModuleLock>>

    ghost function Model(): State<ModuleLock>
      reads this, entries
    {
      State(moduleLocks, map e | e in entries :: Cell(e.semaphore, e.references), attempts)
    }

    constructor ()
      ensures Model() == State(map[], map[], map[]) && Inv(Model()) && entries == {}
    {
      moduleLocks, entries, attempts := map[], {}, map[];
    }

    method Enter(t: Tid, owner: string, name: string) returns (entry: ModuleLock)
      requires Inv(Model()) && t !in attempts
      modifies this, entries
      ensures Step(old(Model()), t, Action.Enter(LockKey(owner, name)), Model()) && Inv(Model())
      ensures t in attempts && attempts[t] == Waiting(LockKey(owner, name), entry) && fresh(entries - old(entries))
    {
      var key := LockKey(owner, name);
      TableEntriesExist(Model());
      entry := FindOrCreate(t, key);
      EnterKeeps(old(Model()), t, key, Model());
    }

    method FindOrCreate(t: Tid, key: string) returns (entry: ModuleLock)
      requires moduleLocks.Values <= entries && t !in attempts
      modifies this, entries
      ensures EnterStep(old(Model()), t, key, Model())
      ensures t in attempts && attempts[t] == Waiting(key, entry) && fresh(entries - old(entries))
    {
      ghost var before := Model();
      if key in moduleLocks {
        entry := moduleLocks[key];
        assert entry in moduleLocks.Values;
      } else {
        entry := new ModuleLock();
        moduleLocks := moduleLocks[key := entry];
        entries := entries + {entry};
      }
      entry.references := entry.references + 1;
      attempts := attempts[t := Waiting(key, entry)];
      assert Model().entries == before.entries[entry := Cell(entry.semaphore, entry.references)];
    }

    /** Receiving from the semaphore succeeds exactly when its token is there. */
    method TryTake(ghost t: Tid, entry: ModuleLock) returns (taken: bool)
      requires Inv(Model()) && t in attempts && attempts[t].Waiting? && attempts[t].entry == entry
      modifies this`attempts, entries
      ensures taken == old(entry.semaphore) && Inv(Model())
      ensures if taken then Step(old(Model()), t, Take, Model()) else Model() == old(Model())
    {
      AttemptEntryExists(Model(), t);
      taken := Receive(t, entry);
      if taken { TakeKeeps(old(Model()), t, Model()); }
    }

    method Receive(ghost t: Tid, entry: ModuleLock) returns (taken: bool)
      requires entry in entries && t in attempts && attempts[t].Waiting? && attempts[t].entry == entry
      modifies this`attempts, entries
      ensures taken == old(entry.semaphore)
      ensures if taken then TakeStep(old(Model()), t, Model()) else Model() == old(Model())
    {
      ghost var before := Model();
      taken := entry.semaphore;
      if taken {
        entry.semaphore := false;
        attempts := attempts[t := Holding(attempts[t].key, entry)];
        assert Model().entries == before.entries[entry := Cell(false, entry.references)];
      }
    }

    method Leave(ghost t: Tid, key: string, entry: ModuleLock)
      requires entry in entries && t in attempts && attempts[t] == Leaving(key, entry)
      modifies this, entries
      ensures LeaveStep(old(Model()), t, Model()) && entries == old(entries)
    {
      ghost var before := Model();
      entry.references := entry.references - 1;
      if entry.references == 0 {
        moduleLocks := moduleLocks - {key};
      }
      attempts := attempts[t := Gone];
      assert Model().entries == before.entries[entry := Cell(entry.semaphore, entry.references)];
    }

    /** A waiter whose context is done drops its reference again. */
    method Cancel(ghost t: Tid, key: string, entry: ModuleLock)
      requires Inv(Model()) && t in attempts && attempts[t] == Waiting(key, entry)
      modifies this, entries
      ensures Inv(Model()) && entries == old(entries)
      ensures ThenLeaves(old(Model()), t, Action.Cancel, Model())
    {
      AttemptEntryExists(Model(), t);
      GiveUp(t, key, entry);
      LeavingKeeps(old(Model()), t, Action.Cancel, Model());
    }

    method GiveUp(ghost t: Tid, key: string, entry: ModuleLock)
      requires entry in entries && t in attempts && attempts[t] == Waiting(key, entry)
      modifies this, entries
      ensures entries == old(entries) && ThenLeaves(old(Model()), t, Action.Cancel, Model())
    {
      attempts := attempts[t := Leaving(key, entry)];
      assert Model() == AboutToLeave(old(Model()), t);
      Leave(t, key, entry);
    }

    /** The body of `once.Do`: the send finds the semaphore empty. */
    method Unlock(ghost t: Tid, key: string, entry: ModuleLock)
      requires Inv(Model()) && t in attempts && attempts[t] == Holding(key, entry)
      modifies this, entries
      ensures Inv(Model()) && entries == old(entries)
      ensures ThenLeaves(old(Model()), t, Action.Unlock, Model())
    {
      AttemptEntryExists(Model(), t);
      HeldSemaphoreIsEmpty(Model(), t);
      SendAndLeave(t, key, entry);
      LeavingKeeps(old(Model()), t, Action.Unlock, Model());
    }

    method SendAndLeave(ghost t: Tid, key: string, entry: ModuleLock)
      requires entry in entries && t in attempts && attempts[t] == Holding(key, entry) && !entry.semaphore
      modifies this, entries
      ensures entries == old(entries) && ThenLeaves(old(Model()), t, Action.Unlock, Model())
    {
      entry.semaphore := true;
      attempts := attempts[t := Leaving(key, entry)];
      assert Model().entries == AboutToLeave(old(Model()), t).entries;
      assert Model() == AboutToLeave(old(Model()), t);
      Leave(t, key, entry);
    }
  }

  /** The state after a waiter gives up, or after the holder has put the token back. */
  function AboutToLeave<E>(s: State<E>, t: Tid): State<E>
    requires t in s.attempts && !s.attempts[t].Gone? && s.attempts[t].entry in s.entries
  {
    var key, e := s.attempts[t].key, s.attempts[t].entry;
    State(s.table,
          if s.attempts[t].Holding? then s.entries[e := s.entries[e].(token := true)] else s.entries,
          s.attempts[t := Leaving(key, e)])
  }

  /** A step, and then dropping the reference. */
  ghost predicate ThenLeaves<E>(s: State<E>, t: Tid, action: Action, s': State<E>)
  {
    && t in s.attempts && !s.attempts[t].Gone? && s.attempts[t].entry in s.entries
    && Step(s, t, action, AboutToLeave(s, t)) && LeaveStep(AboutToLeave(s, t), t, s')
  }

  lemma LeavingKeeps<E>(s: State<E>, t: Tid, action: Action, s': State<E>)
    requires Inv(s) && ThenLeaves(s, t, action, s')
    ensures Inv(s')
  {
    StepKeepsInv(s, t, action, AboutToLeave(s, t));
    LeaveKeeps(AboutToLeave(s, t), t, s');
  }

  lemma TableEntriesExist<E>(s: State<E>)
    requires Inv(s)
    ensures s.table.Values <= s.entries.Keys
  {
  }

  lemma AttemptEntryExists<E>(s: State<E>, t: Tid)
    requires Inv(s) && t in s.attempts && !s.attempts[t].Gone?
    ensures s.attempts[t].entry in s.entries
  {
  }

  lemma HeldSemaphoreIsEmpty<E>(s: State<E>, t: Tid)
    requires Inv(s) && t in s.attempts && s.attempts[t].Holding?
    ensures CanSend(s, s.attempts[t].entry)
  {
    var e := s.attempts[t].entry;
    assert t in Holders(s, e) && Counted(s, e);
    assert Holders(s, e) != {};
  }
}
