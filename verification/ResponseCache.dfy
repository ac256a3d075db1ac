/**
 The cache of upstream JSON responses: a map with running byte accounting that
 evicts by retention deadline. A Set takes the lock twice, to store and to
 evict, and a Get may; the last part lets other calls run in between.
 */
module ResponseCache {
  import opened Version
  import opened Store

  datatype CacheEntry = CacheEntry(status: int, body: Bytes, expiresAt: int, staleUntil: int)

  type Entries = map<string, CacheEntry>

  function Deadline(e: CacheEntry): int { if e.staleUntil > e.expiresAt then e.staleUntil else e.expiresAt }

  /* ---------- byte accounting ---------- */

  ghost function TotalBytes(entries: Entries): nat
  {
    if entries == map[] then 0 else var k :| k in entries; |entries[k].body| + TotalBytes(entries - {k})
  }

  lemma {:induction false} TotalWithout(entries: Entries, k: string)
    requires k in entries
    ensures TotalBytes(entries) == |entries[k].body| + TotalBytes(entries - {k})
    decreases |entries|
  {
    var j :| j in entries && TotalBytes(entries) == |entries[j].body| + TotalBytes(entries - {j});
    if j != k {
      TotalWithout(entries - {j}, k);
      TotalWithout(entries - {k}, j);
      assert entries - {j} - {k} == entries - {k} - {j};
    }
  }

  lemma TotalWith(entries: Entries, k: string, e: CacheEntry)
    ensures TotalBytes(entries[k := e]) == TotalBytes(entries - {k}) + |e.body|
  {
    assert entries[k := e] - {k} == entries - {k};
    TotalWithout(entries[k := e], k);
  }

  /* ---------- limits and eviction ---------- */

  datatype Limits = Limits(maxEntries: int, maxBytes: int)

  ghost predicate Over(limits: Limits, entries: Entries)
  {
    (limits.maxEntries > 0 && |entries| > limits.maxEntries) || (limits.maxBytes > 0 && TotalBytes(entries) > limits.maxBytes)
  }

  /** What is still within its retention. */
  function Retained(entries: Entries, now: int): Entries { map k | k in entries && now <= Deadline(entries[k]) :: entries[k] }

  function Dropped(entries: Entries, order: seq<string>, n: nat): Entries
    requires n <= |order|
  {
    if n == 0 then entries else Dropped(entries, order, n - 1) - {order[n - 1]}
  }

  /** All keys, each once. */
  ghost predicate AllKeys(entries: Entries, order: seq<string>)
  {
    && (forall k :: k in entries <==> k in order)
    && (forall i, j :: 0 <= i < j < |order| ==> order[i] != order[j])
  }

  /** All keys, earliest deadline first; equal deadlines in any order. */
  ghost predicate DeadlineOrder(entries: Entries, order: seq<string>)
  {
    && AllKeys(entries, order)
    && (forall i, j :: 0 <= i < j < |order| && order[i] in entries && order[j] in entries ==>
          Deadline(entries[order[i]]) <= Deadline(entries[order[j]]))
  }

  /** Too much is left once n keys are gone. */
  ghost predicate OverAt(limits: Limits, entries: Entries, order: seq<string>, n: nat)
    requires n <= |order|
  {
    Over(limits, Dropped(entries, order, n))
  }

  ghost predicate OverBefore(limits: Limits, entries: Entries, order: seq<string>, n: nat)
    requires n <= |order|
  {
    forall j :: 0 <= j < n ==> OverAt(limits, entries, order, j)
  }

  lemma OverNext(limits: Limits, entries: Entries, order: seq<string>, n: nat)
    requires n < |order| && OverBefore(limits, entries, order, n) && OverAt(limits, entries, order, n)
    ensures OverBefore(limits, entries, order, n + 1)
  {
  }

  /** n is the length of the shortest prefix whose removal restores the limits. */
  ghost predicate Shortest(limits: Limits, entries: Entries, order: seq<string>, n: nat, entries': Entries)
  {
    n <= |order| && entries' == Dropped(entries, order, n) && !Over(limits, entries') && OverBefore(limits, entries, order, n)
  }

  /** The shortest prefix in deadline order is removed. */
  ghost predicate Trimmed(limits: Limits, entries: Entries, order: seq<string>, n: nat, entries': Entries)
  {
    DeadlineOrder(entries, order) && Shortest(limits, entries, order, n, entries')
  }

  lemma {:induction false} DroppedKeys(entries: Entries, order: seq<string>, n: nat, k: string)
    requires n <= |order|
    ensures k in Dropped(entries, order, n) <==> k in entries && k !in order[..n]
    ensures k in Dropped(entries, order, n) ==> Dropped(entries, order, n)[k] == entries[k]
  {
    if n > 0 {
      DroppedKeys(entries, order, n - 1, k);
      assert order[..n] == order[..n - 1] + [order[n - 1]];
    }
  }

  lemma DropNext(entries: Entries, order: seq<string>, n: nat)
    requires AllKeys(entries, order) && n < |order|
    ensures order[n] in Dropped(entries, order, n)
    ensures Dropped(entries, order, n + 1) == Dropped(entries, order, n) - {order[n]}
  {
    assert order[n] in order;
    DroppedKeys(entries, order, n, order[n]);
  }

  lemma DropAll(entries: Entries, order: seq<string>)
    requires AllKeys(entries, order)
    ensures Dropped(entries, order, |order|) == map[]
  {
    forall k ensures k !in Dropped(entries, order, |order|) {
      DroppedKeys(entries, order, |order|, k);
      assert order[..|order|] == order;
    }
  }

  /* ---------- the cache ---------- */

  class ResponseCache {
    var entries: Entries
    var bytes: int
    const limits: Limits

    /** `bytes` is always the sum of the body lengths. */
    ghost predicate Valid()
      reads this
    {
      bytes == TotalBytes(entries)
    }

    constructor (limits: Limits)
      ensures Valid() && entries == map[] && this.limits == limits && !Over(limits, entries)
    {
      entries, bytes, this.limits := map[], 0, limits;
    }

    predicate OverLimit()
      reads this
    {
      (limits.maxEntries > 0 && |entries| > limits.maxEntries) || (limits.maxBytes > 0 && bytes > limits.maxBytes)
    }

    method Delete(key: string)
      requires Valid() && key in entries
      modifies this
      ensures Valid() && entries == old(entries) - {key}
    {
      TotalWithout(entries, key);
      bytes := bytes - |entries[key].body|;
      entries := entries - {key};
    }

    method Get(key: string, now: int) returns (found: Option<CacheEntry>)
      requires Valid()
      modifies this
      ensures Valid() && found == Hit(old(entries), key, now) && entries == AfterGet(old(entries), key, now)
    {
      if key !in entries { return None; }
      var entry := entries[key];
      if now > entry.expiresAt {
        DeleteExpired(key, now);
        return None;
      }
      return Some(entry);
    }

    method DeleteExpired(key: string, now: int)
      requires Valid()
      modifies this
      ensures Valid() && entries == AfterDelete(old(entries), key, now)
    {
      if key in entries && now > Deadline(entries[key]) {
        Delete(key);
      }
    }

    method GetStale(key: string, now: int, maxStaleAge: int) returns (found: Option<CacheEntry>)
      requires Valid()
      modifies this
      ensures Valid() && found == StaleHit(old(entries), key, now, maxStaleAge)
      ensures entries == AfterGetStale(old(entries), key, now, maxStaleAge)
    {
      if maxStaleAge <= 0 {
        DeleteExpired(key, now);
        return None;
      }
      if key !in entries { return None; }
      var entry := entries[key];
      if now > entry.expiresAt + maxStaleAge {
        Delete(key);
        return None;
      }
      return Some(entry);
    }

    method Set(key: string, entry: CacheEntry, now: int) returns (ghost order: seq<string>, ghost n: nat)
      requires Valid()
      modifies this
      ensures Valid() && (!Over(limits, old(entries)) ==> !Over(limits, entries))
      ensures var stored := AfterStore(limits, old(entries), key, entry);
              if Fits(limits, entry) && Over(limits, stored) then Trimmed(limits, Retained(stored, now), order, n, entries)
              else entries == stored
    {
      order, n := [], 0;
      if !Over(limits, entries) { Shrinks(limits, entries, key); }
      var over := Store(key, entry);
      if over {
        order, n := Evict(now);
      }
    }

    /** The first section of a Set. A body over the byte limit is not cached, and replaces nothing but its own key. */
    method Store(key: string, entry: CacheEntry) returns (over: bool)
      requires Valid()
      modifies this
      ensures Valid() && entries == AfterStore(limits, old(entries), key, entry)
      ensures over <==> Fits(limits, entry) && Over(limits, entries)
    {
      if limits.maxBytes > 0 && |entry.body| > limits.maxBytes {
        if key in entries {
          Delete(key);
        } else {
          assert entries - {key} == entries;
        }
        return false;
      }
      TotalWith(entries, key, entry);
      if key in entries {
        TotalWithout(entries, key);
        bytes := bytes - |entries[key].body|;
      } else {
        assert entries - {key} == entries;
      }
      entries := entries[key := entry];
      bytes := bytes + |entry.body|;
      return OverLimit();
    }

    /** The second section of a Set. */
    method Evict(now: int) returns (ghost order: seq<string>, ghost n: nat)
      requires Valid()
      modifies this
      ensures Valid() && Trimmed(limits, Retained(old(entries), now), order, n, entries)
    {
      DropExpired(now);
      var keys := SortByDeadline(entries);
      order := keys;
      n := Trim(keys);
    }

    /** Deletes keys from the front until the limits hold. */
    method Trim(keys: seq<string>) returns (ghost n: nat)
      requires Valid() && AllKeys(entries, keys)
      modifies this
      ensures Valid() && Shortest(limits, old(entries), keys, n, entries)
    {
      ghost var live := entries;
      var i := 0;
      while i < |keys| && OverLimit()
        invariant 0 <= i <= |keys|
        invariant Valid()
        invariant entries == Dropped(live, keys, i)
        invariant OverBefore(limits, live, keys, i)
      {
        OverNext(limits, live, keys, i);
        DropNext(live, keys, i);
        Delete(keys[i]);
        i := i + 1;
      }
      if i == |keys| { DropAll(live, keys); }
      n := i;
    }

    /** The map iteration that drops what is past its deadline. */
    method DropExpired(now: int)
      requires Valid()
      modifies this
      ensures Valid() && entries == Retained(old(entries), now)
    {
      var rest := entries.Keys;
      while rest != {}
        invariant rest <= entries.Keys && Valid()
        invariant forall k :: k in entries ==> k in old(entries) && entries[k] == old(entries)[k]
        invariant forall k :: k in old(entries) && k !in rest ==> (k in entries <==> now <= Deadline(old(entries)[k]))
        decreases |rest|
      {
        var k :| k in rest;
        if now > Deadline(entries[k]) { Delete(k); }
        rest := rest - {k};
      }
    }
  }

  /** sort.Slice by deadline. */
  method SortByDeadline(entries: Entries) returns (order: seq<string>)
    ensures DeadlineOrder(entries, order)
  {
    order := [];
    var rest := entries.Keys;
    while rest != {}
      invariant rest <= entries.Keys
      invariant forall k :: k in order <==> k in entries && k !in rest
      invariant forall i, j :: 0 <= i < j < |order| ==> order[i] != order[j]
      invariant forall i, j :: 0 <= i < j < |order| ==> Deadline(entries[order[i]]) <= Deadline(entries[order[j]])
      invariant forall i, k :: 0 <= i < |order| && k in rest ==> Deadline(entries[order[i]]) <= Deadline(entries[k])
      decreases |rest|
    {
      var k := Earliest(entries, rest);
      order := order + [k];
      rest := rest - {k};
    }
  }

  method Earliest(entries: Entries, keys: set<string>) returns (first: string)
    requires keys != {} && keys <= entries.Keys
    ensures first in keys && forall k :: k in keys ==> Deadline(entries[first]) <= Deadline(entries[k])
  {
    first :| first in keys;
    var rest := keys - {first};
    while rest != {}
      invariant rest <= keys && first in keys
      invariant forall k :: k in keys && k !in rest ==> Deadline(entries[first]) <= Deadline(entries[k])
      decreases |rest|
    {
      var k :| k in rest;
      if Deadline(entries[k]) < Deadline(entries[first]) { first := k; }
      rest := rest - {k};
    }
  }

  lemma Shrinks(limits: Limits, entries: Entries, key: string)
    requires !Over(limits, entries)
    ensures !Over(limits, entries - {key})
  {
    if key in entries {
      TotalWithout(entries, key);
      assert |entries| == |entries.Keys| && |entries - {key}| == |(entries - {key}).Keys|;
      assert (entries - {key}).Keys == entries.Keys - {key};
    } else {
      assert entries - {key} == entries;
    }
  }

  /* ---------- the sections as functions ---------- */

  function Hit(entries: Entries, key: string, now: int): Option<CacheEntry>
  {
    if key in entries && now <= entries[key].expiresAt then Some(entries[key]) else None
  }

  function AfterDelete(entries: Entries, key: string, now: int): Entries
  {
    if key in entries && now > Deadline(entries[key]) then entries - {key} else entries
  }

  function AfterGet(entries: Entries, key: string, now: int): Entries
  {
    if Hit(entries, key, now).Some? then entries else AfterDelete(entries, key, now)
  }

  function StaleHit(entries: Entries, key: string, now: int, maxStaleAge: int): Option<CacheEntry>
  {
    if maxStaleAge > 0 && key in entries && now <= entries[key].expiresAt + maxStaleAge then Some(entries[key]) else None
  }

  function AfterGetStale(entries: Entries, key: string, now: int, maxStaleAge: int): Entries
  {
    if maxStaleAge <= 0 then AfterDelete(entries, key, now)
    else if key in entries && now > entries[key].expiresAt + maxStaleAge then entries - {key} else entries
  }

  predicate Fits(limits: Limits, entry: CacheEntry) { limits.maxBytes <= 0 || |entry.body| <= limits.maxBytes }

  function AfterStore(limits: Limits, entries: Entries, key: string, entry: CacheEntry): Entries
  {
    if Fits(limits, entry) then entries[key := entry] else entries - {key}
  }

  /** Eviction never drops an entry while one with an earlier deadline stays. */
  lemma EvictionGoesByDeadline(limits: Limits, live: Entries, order: seq<string>, n: nat, entries': Entries, gone: string, kept: string)
    requires Trimmed(limits, live, order, n, entries') && gone in live && gone !in entries' && kept in entries'
    ensures kept in live && Deadline(live[gone]) <= Deadline(live[kept])
  {
    DroppedKeys(live, order, n, gone);
    DroppedKeys(live, order, n, kept);
    var i :| 0 <= i < n && order[i] == gone;
    var j :| 0 <= j < |order| && order[j] == kept;
    assert forall i :: 0 <= i < n ==> order[i] in order[..n];
    assert j >= n;
  }

  /* ---------- any interleaving ---------- */

  /** What runs under the lock at one go and may change the cache; a lookup changes nothing. */
  datatype Section =
    | DeleteExpired(key: string, now: int)
    | GetStale(key: string, now: int)
    | Store(key: string, entry: CacheEntry)
    | Evict(now: int, order: seq<string>, n: nat)

  /** `evictions` counts the Sets between their two sections. */
  datatype State = State(entries: Entries, evictions: nat)

  ghost predicate Step(limits: Limits, maxStaleAge: int, s: State, c: Section, s': State)
  {
    match c
    case DeleteExpired(key, now) => s' == s.(entries := AfterDelete(s.entries, key, now))
    case GetStale(key, now) => s' == s.(entries := AfterGetStale(s.entries, key, now, maxStaleAge))
    case Store(key, entry) =>
      && s'.entries == AfterStore(limits, s.entries, key, entry)
      && s'.evictions == s.evictions + if Fits(limits, entry) && Over(limits, s'.entries) then 1 else 0
    case Evict(now, order, n) =>
      s.evictions == s'.evictions + 1 && Trimmed(limits, Retained(s.entries, now), order, n, s'.entries)
  }

  ghost predicate Run(limits: Limits, maxStaleAge: int, states: seq<State>, calls: seq<Section>)
  {
    && |states| == |calls| + 1 && states[0] == State(map[], 0)
    && forall i :: 0 <= i < |calls| ==> Step(limits, maxStaleAge, states[i], calls[i], states[i + 1])
  }

  lemma StepKeepsLimits(limits: Limits, maxStaleAge: int, s: State, c: Section, s': State)
    requires Step(limits, maxStaleAge, s, c, s') && (Over(limits, s.entries) ==> s.evictions > 0)
    ensures Over(limits, s'.entries) ==> s'.evictions > 0
  {
    if !c.Evict? && !Over(limits, s.entries) { Shrinks(limits, s.entries, c.key); }
  }

  /** The limits hold whenever no Set is about to evict. */
  lemma {:induction false} LimitsHold(limits: Limits, maxStaleAge: int, states: seq<State>, calls: seq<Section>, i: nat)
    requires Run(limits, maxStaleAge, states, calls) && i <= |calls|
    ensures Over(limits, states[i].entries) ==> states[i].evictions > 0
  {
    if i > 0 {
      LimitsHold(limits, maxStaleAge, states, calls, i - 1);
      StepKeepsLimits(limits, maxStaleAge, states[i - 1], calls[i - 1], states[i]);
    }
  }

  predicate Trims(c: Section, key: string) { c.Evict? && c.n <= |c.order| && key in c.order[..c.n] }

  /** Trimmed off by an eviction among calls[from..to]. */
  ghost predicate TrimmedOff(calls: seq<Section>, from: nat, to: nat, key: string)
    requires to <= |calls|
  {
    exists j :: from <= j < to && Trims(calls[j], key)
  }

  /** calls[i] stores an entry as the proxy does, none after it has the key, and no clock used after it is past `later`. */
  predicate LastStored(maxStaleAge: int, calls: seq<Section>, i: nat, later: int)
  {
    && i < |calls| && calls[i].Store? && calls[i].entry.staleUntil == calls[i].entry.expiresAt + maxStaleAge
    && forall j :: i < j < |calls| ==> if calls[j].Store? then calls[j].key != calls[i].key else calls[j].now <= later
  }

  /** After any run, what is served under a key: exactly what was stored last, unless it was too large, is too old, or was trimmed off. */
  lemma ServedExactly(limits: Limits, maxStaleAge: int, states: seq<State>, calls: seq<Section>, i: nat, later: int)
    requires Run(limits, maxStaleAge, states, calls) && LastStored(maxStaleAge, calls, i, later)
    ensures var (key, entry, entries) := (calls[i].key, calls[i].entry, states[|calls|].entries);
            var there := Fits(limits, entry) && !TrimmedOff(calls, i, |calls|, key);
            && Hit(entries, key, later) == (if there && later <= entry.expiresAt then Some(entry) else None)
            && StaleHit(entries, key, later, maxStaleAge)
               == (if there && maxStaleAge > 0 && later <= entry.expiresAt + maxStaleAge then Some(entry) else None)
  {
    StoredStays(limits, maxStaleAge, states, calls, i, later, |calls|);
  }

  /** Stored under the key, or gone for a reason. */
  ghost predicate KeptOrGone(entries: Entries, key: string, entry: CacheEntry, there: bool, later: int)
  {
    if key in entries then there && entries[key] == entry else there ==> Deadline(entry) < later
  }

  lemma {:induction false} StoredStays(limits: Limits, maxStaleAge: int, states: seq<State>, calls: seq<Section>,
                                       i: nat, later: int, m: nat)
    requires Run(limits, maxStaleAge, states, calls) && LastStored(maxStaleAge, calls, i, later) && i < m <= |calls|
    ensures var (key, entry) := (calls[i].key, calls[i].entry);
            KeptOrGone(states[m].entries, key, entry, Fits(limits, entry) && !TrimmedOff(calls, i, m, key), later)
  {
    var (key, entry) := (calls[i].key, calls[i].entry);
    assert Step(limits, maxStaleAge, states[m - 1], calls[m - 1], states[m]);
    TrimmedOffGrows(calls, i, m - 1, key);
    if m > i + 1 {
      StoredStays(limits, maxStaleAge, states, calls, i, later, m - 1);
      StepKeepsStored(limits, maxStaleAge, states[m - 1], calls[m - 1], states[m], key, entry,
                      Fits(limits, entry) && !TrimmedOff(calls, i, m - 1, key), later);
    }
  }

  /** One section other than a Store under the key. */
  lemma StepKeepsStored(limits: Limits, maxStaleAge: int, s: State, c: Section, s': State,
                        key: string, entry: CacheEntry, there: bool, later: int)
    requires Step(limits, maxStaleAge, s, c, s') && entry.staleUntil == entry.expiresAt + maxStaleAge
    requires if c.Store? then c.key != key else c.now <= later
    requires KeptOrGone(s.entries, key, entry, there, later)
    ensures KeptOrGone(s'.entries, key, entry, there && !Trims(c, key), later)
  {
    if c.Evict? { DroppedKeys(Retained(s.entries, c.now), c.order, c.n, key); }
  }

  lemma TrimmedOffGrows(calls: seq<Section>, i: nat, m: nat, key: string)
    requires i <= m < |calls|
    ensures TrimmedOff(calls, i, m + 1, key) <==> TrimmedOff(calls, i, m, key) || Trims(calls[m], key)
  {
    if TrimmedOff(calls, i, m, key) {
      var j :| i <= j < m && Trims(calls[j], key);
    }
  }
}
