/**
 Fixed-window rate limiting, twice: in memory, with a map and an expiry heap,
 and in SQL, with a saturating counter. Both are shown to do the same thing.
 */
module RateLimiter {
  import opened Text
  import opened Version
  import opened ExpiryHeap
  import opened ExpirySet
  import opened SetSizes

  datatype Bucket = Bucket(count: int, resetAt: int)

  /* ---------- the plain map ---------- */

  function Open(m: map<string, Bucket>, now: int): map<string, Bucket> { map k | k in m && now < m[k].resetAt :: m[k] }

  predicate ResetsFirst(m: map<string, Bucket>, k: string)
  {
    k in m && forall l :: l in m && l != k ==> m[k].resetAt < m[l].resetAt || (m[k].resetAt == m[l].resetAt && Compare(k, l) <= 0)
  }

  /** Counting a request in the key's open window, or opening one; what is due has been dropped. */
  ghost predicate Admits(open: map<string, Bucket>, key: string, limit: int, resetAt: int, maxKeys: int,
                         allowed: bool, evicted: Option<string>, m': map<string, Bucket>)
  {
    if key in open then
      evicted == None && allowed == (open[key].count < limit)
      && m' == if allowed then open[key := open[key].(count := open[key].count + 1)] else open
    else
      && allowed
      && (if maxKeys > 0 && |open| >= maxKeys then evicted.Some? && ResetsFirst(open, evicted.value) else evicted == None)
      && m' == (if evicted.Some? then open - {evicted.value} else open)[key := Bucket(1, resetAt)]
  }

  /** One call of Allow. */
  ghost predicate Allowed(m: map<string, Bucket>, key: string, limit: int, window: int, now: int, maxKeys: int,
                          allowed: bool, evicted: Option<string>, m': map<string, Bucket>)
  {
    if limit <= 0 || window <= 0 then allowed && evicted == None && m' == m
    else Admits(Open(m, now), key, limit, now + window, maxKeys, allowed, evicted, m')
  }

  /* ---------- map and heap ---------- */

  class RateLimiter {
    const maxKeys: int
    var buckets: map<string, Entry>
    const expiry: Heap

    ghost predicate Agree()
      reads this, expiry
    {
      Matches(buckets, Elements(expiry.entries))
    }

    ghost predicate Valid()
      reads this, expiry, expiry.entries
    {
      expiry.Valid() && Agree() && (maxKeys > 0 ==> |buckets| <= maxKeys)
    }

    ghost function View(): map<string, Bucket>
      reads this, buckets.Values
    {
      map k | k in buckets :: Bucket(buckets[k].count, buckets[k].expiresAt)
    }

    constructor (maxKeys: int)
      ensures Valid() && View() == map[] && fresh(expiry) && this.maxKeys == maxKeys
    {
      this.maxKeys := maxKeys;
      buckets := map[];
      expiry := new Heap();
    }

    method RemoveNextExpiry()
      requires expiry.Valid() && Agree() && |expiry.entries| > 0
      modifies this, expiry, Elements(expiry.entries)
      ensures expiry.Valid() && Agree() && Elements(expiry.entries) <= old(Elements(expiry.entries))
      ensures forall e <- old(expiry.entries) :: e.count == old(e.count)
      ensures var key := old(expiry.entries[0].key);
              key in old(buckets) && buckets == old(buckets) - {key} && ResetsFirst(old(View()), key)
    {
      ghost var view, before := View(), buckets;
      assert expiry.entries[0] in expiry.entries;
      var bucket := expiry.Pop();
      assert ResetsFirst(view, bucket.key) by { RootResetsFirst(view, before, bucket); }
      buckets := buckets - {bucket.key};
      MatchesWithout(before, old(Elements(expiry.entries)), bucket);
    }

    method DeleteExpired(now: int)
      requires expiry.Valid() && Agree()
      modifies this, expiry, Elements(expiry.entries)
      ensures expiry.Valid() && Agree() && Elements(expiry.entries) <= old(Elements(expiry.entries))
      ensures buckets.Keys <= old(buckets.Keys) && View() == Open(old(View()), now)
    {
      while |expiry.entries| > 0 && expiry.entries[0].expiresAt <= now
        invariant expiry.Valid() && Agree() && Elements(expiry.entries) <= old(Elements(expiry.entries))
        invariant buckets.Keys <= old(buckets.Keys)
        invariant forall k :: k in buckets ==> k in old(buckets) && buckets[k] == old(buckets)[k] && buckets[k].count == old(buckets[k].count)
        invariant forall k :: k in old(buckets) && k !in buckets ==> old(buckets)[k].expiresAt <= now
        decreases |buckets|
      {
        assert expiry.entries[0] in expiry.entries;
        RemoveNextExpiry();
      }
      if |expiry.entries| > 0 { RootsAreLeast(expiry.entries); }
      assert forall k :: k in buckets ==> buckets[k] in expiry.entries && now < buckets[k].expiresAt;
    }

    method MakeRoom() returns (ghost evicted: Option<string>)
      requires Valid()
      modifies this, expiry, Elements(expiry.entries)
      ensures expiry.Valid() && Agree() && (maxKeys > 0 ==> |buckets| < maxKeys)
      ensures Elements(expiry.entries) <= old(Elements(expiry.entries)) && buckets.Keys <= old(buckets.Keys)
      ensures if maxKeys > 0 && |old(View())| >= maxKeys then evicted.Some? && ResetsFirst(old(View()), evicted.value)
              else evicted == None
      ensures View() == if evicted.Some? then old(View()) - {evicted.value} else old(View())
    {
      evicted := None;
      assert |View()| == |buckets| by {
        assert View().Keys == buckets.Keys && |View()| == |View().Keys| && |buckets| == |buckets.Keys|;
      }
      if maxKeys > 0 && |buckets| >= maxKeys {
        assert |expiry.entries| > 0 by {
          var k :| k in buckets;
          assert buckets[k] in expiry.entries;
        }
        evicted := Some(expiry.entries[0].key);
        RemoveNextExpiry();
        assert |buckets| == |buckets.Keys| && |old(buckets)| == |old(buckets.Keys)|;
        assert buckets.Keys == old(buckets.Keys) - {evicted.value};
      }
    }

    method Register(key: string, resetAt: int)
      requires expiry.Valid() && Agree() && key !in buckets && (maxKeys > 0 ==> |buckets| < maxKeys)
      modifies this, expiry, Elements(expiry.entries)
      ensures Valid() && View() == old(View())[key := Bucket(1, resetAt)]
      ensures fresh(Elements(expiry.entries) - old(Elements(expiry.entries)))
    {
      var bucket := new Entry(key, resetAt, 1);
      MatchesWith(buckets, Elements(expiry.entries), bucket);
      buckets := buckets[key := bucket];
      expiry.Push(bucket);
    }

    method CountRequest(key: string, limit: int) returns (allowed: bool)
      requires Valid() && key in buckets
      modifies Elements(expiry.entries)
      ensures Valid() && Elements(expiry.entries) == old(Elements(expiry.entries)) && allowed == (old(View())[key].count < limit)
      ensures View() == if allowed then old(View())[key := old(View())[key].(count := old(View())[key].count + 1)] else old(View())
    {
      var bucket := buckets[key];
      if bucket.count >= limit { return false; }
      bucket.count := bucket.count + 1;
      return true;
    }

    method Allow(key: string, limit: int, window: int, now: int) returns (allowed: bool, ghost evicted: Option<string>)
      requires Valid()
      modifies this, expiry, Elements(expiry.entries)
      ensures Valid() && fresh(Elements(expiry.entries) - old(Elements(expiry.entries)))
      ensures Allowed(old(View()), key, limit, window, now, maxKeys, allowed, evicted, View())
    {
      evicted := None;
      if limit <= 0 || window <= 0 { return true, None; }
      DeleteExpired(now);
      assert |buckets| <= |old(buckets)| by {
        SubsetSize(buckets.Keys, old(buckets.Keys));
        assert |buckets| == |buckets.Keys| && |old(buckets)| == |old(buckets.Keys)|;
      }
      allowed, evicted := Admit(key, limit, now + window);
    }

    method Admit(key: string, limit: int, resetAt: int) returns (allowed: bool, ghost evicted: Option<string>)
      requires Valid()
      modifies this, expiry, Elements(expiry.entries)
      ensures Valid() && fresh(Elements(expiry.entries) - old(Elements(expiry.entries)))
      ensures Admits(old(View()), key, limit, resetAt, maxKeys, allowed, evicted, View())
    {
      if key in buckets {
        allowed := CountRequest(key, limit);
        return allowed, None;
      }
      evicted := OpenWindow(key, resetAt);
      return true, evicted;
    }

    method OpenWindow(key: string, resetAt: int) returns (ghost evicted: Option<string>)
      requires Valid() && key !in buckets
      modifies this, expiry, Elements(expiry.entries)
      ensures Valid() && fresh(Elements(expiry.entries) - old(Elements(expiry.entries)))
      ensures if maxKeys > 0 && |old(View())| >= maxKeys then evicted.Some? && ResetsFirst(old(View()), evicted.value)
              else evicted == None
      ensures View() == (if evicted.Some? then old(View()) - {evicted.value} else old(View()))[key := Bucket(1, resetAt)]
    {
      evicted := MakeRoom();
      Register(key, resetAt);
    }
  }

  lemma RootResetsFirst(view: map<string, Bucket>, buckets: map<string, Entry>, root: Entry)
    requires root.key in buckets && buckets[root.key] == root
    requires view.Keys == buckets.Keys && forall k :: k in buckets ==> view[k].resetAt == buckets[k].expiresAt
    requires forall k :: k in buckets ==> buckets[k].key == k && !Less(buckets[k], root)
    ensures ResetsFirst(view, root.key)
  {
    forall l | l in view && l != root.key
      ensures view[root.key].resetAt < view[l].resetAt
              || (view[root.key].resetAt == view[l].resetAt && Compare(root.key, l) <= 0)
    {
      CompareFlip(root.key, l);
    }
  }

  /* ---------- the SQL counter ---------- */

  /** The upsert of ConsumeRateLimit on the row of one key. */
  function Consumed(row: Option<Bucket>, limit: int, window: int, now: int): Bucket
  {
    if row.None? || row.value.resetAt <= now then Bucket(1, now + window)
    else row.value.(count := if row.value.count + 1 < limit + 1 then row.value.count + 1 else limit + 1)
  }

  function RowOf(rows: map<string, Bucket>, key: string): Option<Bucket> { if key in rows then Some(rows[key]) else None }

  /** None is the error the store returns for arguments it refuses. */
  function ConsumeRateLimit(rows: map<string, Bucket>, key: string, limit: int, window: int, now: int)
    : Option<(bool, map<string, Bucket>)>
  {
    if TrimSpace(key) == "" || limit <= 0 || window <= 0 then None
    else
      var row := Consumed(RowOf(rows, key), limit, window, now);
      Some((row.count <= limit, rows[key := row]))
  }

  function PurgeRateLimits(rows: map<string, Bucket>, before: int): map<string, Bucket>
  {
    map k | k in rows && rows[k].resetAt >= before :: rows[k]
  }

  /* ---------- agreement ---------- */

  predicate SameWindow(mem: map<string, Bucket>, rows: map<string, Bucket>, limit: int, now: int, k: string)
  {
    && (k in Open(mem, now) <==> k in Open(rows, now))
    && (k in Open(mem, now) ==>
          && mem[k].resetAt == rows[k].resetAt && rows[k].count >= 1
          && mem[k].count == if rows[k].count < limit then rows[k].count else limit)
  }

  /** On what is still open, memory holds the SQL count capped at the limit. */
  ghost predicate Agreeing(mem: map<string, Bucket>, rows: map<string, Bucket>, limit: int, now: int)
  {
    forall k :: SameWindow(mem, rows, limit, now, k)
  }

  lemma AgreeingLater(mem: map<string, Bucket>, rows: map<string, Bucket>, limit: int, now: int, later: int)
    requires Agreeing(mem, rows, limit, now) && now <= later
    ensures Agreeing(mem, rows, limit, later)
  {
    forall k ensures SameWindow(mem, rows, limit, later, k) { assert SameWindow(mem, rows, limit, now, k); }
  }

  /** Both limiters decide alike and keep agreeing. */
  lemma DecideAlike(mem: map<string, Bucket>, rows: map<string, Bucket>, key: string, limit: int, window: int, now: int,
                    maxKeys: int, allowed: bool, mem': map<string, Bucket>)
    requires limit > 0 && window > 0 && TrimSpace(key) != ""
    requires Agreeing(mem, rows, limit, now) && Allowed(mem, key, limit, window, now, maxKeys, allowed, None, mem')
    ensures var sql := ConsumeRateLimit(rows, key, limit, window, now);
            sql.Some? && sql.value.0 == allowed && Agreeing(mem', sql.value.1, limit, now)
  {
    var rows' := ConsumeRateLimit(rows, key, limit, window, now).value.1;
    assert SameWindow(mem, rows, limit, now, key);
    forall k ensures SameWindow(mem', rows', limit, now, k) { assert SameWindow(mem, rows, limit, now, k); }
  }

  lemma PurgeAgrees(mem: map<string, Bucket>, rows: map<string, Bucket>, limit: int, before: int, now: int)
    requires Agreeing(mem, rows, limit, now) && before <= now
    ensures Agreeing(mem, PurgeRateLimits(rows, before), limit, now)
  {
    var rows' := PurgeRateLimits(rows, before);
    forall k ensures SameWindow(mem, rows', limit, now, k) { assert SameWindow(mem, rows, limit, now, k); }
  }

  datatype Event = Request(key: string, now: int, allowed: bool) | Purge(before: int, now: int)

  /** Both limiters side by side; retention purges the SQL table at times not after the clock. */
  ghost predicate SideBySide(mems: seq<map<string, Bucket>>, tables: seq<map<string, Bucket>>, events: seq<Event>,
                             limit: int, window: int, maxKeys: int)
  {
    && |mems| == |tables| == |events| + 1
    && (forall i, j :: 0 <= i < j < |events| ==> events[i].now <= events[j].now)
    && forall i :: 0 <= i < |events| ==> Happens(mems[i], tables[i], events[i], limit, window, maxKeys, mems[i + 1], tables[i + 1])
  }

  ghost predicate Happens(mem: map<string, Bucket>, rows: map<string, Bucket>, e: Event, limit: int, window: int, maxKeys: int,
                          mem': map<string, Bucket>, rows': map<string, Bucket>)
  {
    match e
    case Request(key, now, allowed) =>
      && TrimSpace(key) != ""
      && Allowed(mem, key, limit, window, now, maxKeys, allowed, None, mem')
      && rows' == rows[key := Consumed(RowOf(rows, key), limit, window, now)]
    case Purge(before, now) => before <= now && mem' == mem && rows' == PurgeRateLimits(rows, before)
  }

  lemma EventKeepsAgreeing(mem: map<string, Bucket>, rows: map<string, Bucket>, e: Event, limit: int, window: int, maxKeys: int,
                           mem': map<string, Bucket>, rows': map<string, Bucket>)
    requires Happens(mem, rows, e, limit, window, maxKeys, mem', rows') && Agreeing(mem, rows, limit, e.now)
    requires limit > 0 && window > 0
    ensures Agreeing(mem', rows', limit, e.now)
  {
    match e
    case Request(key, now, allowed) => DecideAlike(mem, rows, key, limit, window, now, maxKeys, allowed, mem');
    case Purge(before, now) => PurgeAgrees(mem, rows, limit, before, now);
  }

  lemma {:induction false} StayAgreeing(mems: seq<map<string, Bucket>>, tables: seq<map<string, Bucket>>, events: seq<Event>,
                                        limit: int, window: int, maxKeys: int, i: nat)
    requires SideBySide(mems, tables, events, limit, window, maxKeys) && limit > 0 && window > 0
    requires mems[0] == map[] && tables[0] == map[] && i < |events|
    ensures Agreeing(mems[i], tables[i], limit, events[i].now)
    ensures Agreeing(mems[i + 1], tables[i + 1], limit, events[i].now)
  {
    if i == 0 {
    } else {
      StayAgreeing(mems, tables, events, limit, window, maxKeys, i - 1);
      AgreeingLater(mems[i], tables[i], limit, events[i - 1].now, events[i].now);
    }
    EventKeepsAgreeing(mems[i], tables[i], events[i], limit, window, maxKeys, mems[i + 1], tables[i + 1]);
  }

  /**
   On every run with one limit and window, a clock that never runs back and no
   eviction, the SQL counter allows exactly the requests that memory allows.
   */
  lemma LimitersAgree(mems: seq<map<string, Bucket>>, tables: seq<map<string, Bucket>>, events: seq<Event>,
                      limit: int, window: int, maxKeys: int, i: nat)
    requires SideBySide(mems, tables, events, limit, window, maxKeys) && limit > 0 && window > 0
    requires mems[0] == map[] && tables[0] == map[] && i < |events| && events[i].Request?
    ensures var e := events[i];
            ConsumeRateLimit(tables[i], e.key, limit, window, e.now) == Some((e.allowed, tables[i + 1]))
  {
    StayAgreeing(mems, tables, events, limit, window, maxKeys, i);
    var e := events[i];
    DecideAlike(mems[i], tables[i], e.key, limit, window, e.now, maxKeys, e.allowed, mems[i + 1]);
  }

  /* ---------- what a window allows ---------- */

  datatype Call = Call(key: string, now: int, allowed: bool, evicted: Option<string>)

  ghost predicate Trace(views: seq<map<string, Bucket>>, calls: seq<Call>, limit: int, window: int, maxKeys: int)
  {
    && |views| == |calls| + 1
    && forall i :: 0 <= i < |calls| ==> Made(views[i], calls[i], limit, window, maxKeys, views[i + 1])
  }

  ghost predicate Made(m: map<string, Bucket>, c: Call, limit: int, window: int, maxKeys: int, m': map<string, Bucket>)
  {
    Allowed(m, c.key, limit, window, c.now, maxKeys, c.allowed, c.evicted, m')
  }

  function Requests(calls: seq<Call>, key: string, i: nat, j: nat): nat
    requires i <= j <= |calls|
  {
    if i == j then 0 else Requests(calls, key, i, j - 1) + if calls[j - 1].key == key then 1 else 0
  }

  function Admitted(calls: seq<Call>, key: string, i: nat, j: nat): nat
    requires i <= j <= |calls|
  {
    if i == j then 0 else Admitted(calls, key, i, j - 1) + if calls[j - 1].key == key && calls[j - 1].allowed then 1 else 0
  }

  /** From the request that opens a window until it closes, exactly the first `limit` requests are admitted. */
  lemma {:induction false} WindowAdmitsTheFirst(views: seq<map<string, Bucket>>, calls: seq<Call>, limit: int, window: int,
                                                maxKeys: int, i: nat, j: nat, key: string)
    requires Trace(views, calls, limit, window, maxKeys) && limit > 0 && window > 0 && i < j <= |calls|
    requires calls[i].key == key && key !in Open(views[i], calls[i].now)
    requires forall k :: i <= k < j ==> calls[k].now < calls[i].now + window && calls[k].evicted != Some(key)
    ensures Admitted(calls, key, i, j) == if Requests(calls, key, i, j) < limit then Requests(calls, key, i, j) else limit
    ensures key in views[j] && views[j][key] == Bucket(Admitted(calls, key, i, j), calls[i].now + window)
  {
    var c := calls[j - 1];
    MadeInTrace(views, calls, limit, window, maxKeys, j - 1);
    assert Requests(calls, key, i, j) == Requests(calls, key, i, j - 1) + if c.key == key then 1 else 0;
    assert Admitted(calls, key, i, j) == Admitted(calls, key, i, j - 1) + if c.key == key && c.allowed then 1 else 0;
    if i + 1 < j {
      WindowAdmitsTheFirst(views, calls, limit, window, maxKeys, i, j - 1, key);
      InOpenWindow(views[j - 1], c, limit, window, maxKeys, views[j], key);
    } else {
      FirstInWindow(views[i], c, limit, window, maxKeys, views[j]);
    }
  }

  lemma MadeInTrace(views: seq<map<string, Bucket>>, calls: seq<Call>, limit: int, window: int, maxKeys: int, i: nat)
    requires Trace(views, calls, limit, window, maxKeys) && i < |calls|
    ensures Made(views[i], calls[i], limit, window, maxKeys, views[i + 1])
  {
  }

  lemma FirstInWindow(m: map<string, Bucket>, c: Call, limit: int, window: int, maxKeys: int, m': map<string, Bucket>)
    requires limit > 0 && window > 0 && Made(m, c, limit, window, maxKeys, m') && c.key !in Open(m, c.now)
    ensures c.allowed && c.key in m' && m'[c.key] == Bucket(1, c.now + window)
  {
  }

  /** While its window is open, a key's count goes up by its own admitted requests and by nothing else. */
  lemma InOpenWindow(m: map<string, Bucket>, c: Call, limit: int, window: int, maxKeys: int, m': map<string, Bucket>, key: string)
    requires limit > 0 && window > 0 && key in m && c.now < m[key].resetAt && c.evicted != Some(key)
    requires Made(m, c, limit, window, maxKeys, m')
    ensures key in m'
    ensures c.key != key ==> m'[key] == m[key]
    ensures c.key == key ==> c.allowed == (m[key].count < limit)
    ensures c.key == key ==> m'[key] == if c.allowed then m[key].(count := m[key].count + 1) else m[key]
  {
    assert key in Open(m, c.now);
  }
}
