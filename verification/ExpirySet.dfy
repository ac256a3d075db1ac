/**
 The expiry set that suppresses repeated keys for an interval while bounding
 memory. It keeps a map and a heap of the same entries; seen from outside it is
 a plain map from keys to deadlines.
 */
module ExpirySet {
  import opened Text
  import opened Version
  import opened ExpiryHeap
  import opened SetSizes

  /* ---------- the plain map ---------- */

  /** What is left once everything due at `now` is dropped. */
  function Live(m: map<string, int>, now: int): map<string, int> { map k | k in m && now < m[k] :: m[k] }

  /** k expires first; equal deadlines go by key. */
  predicate ExpiresFirst(m: map<string, int>, k: string)
  {
    k in m && forall l :: l in m && l != k ==> m[k] < m[l] || (m[k] == m[l] && Compare(k, l) <= 0)
  }

  /** Recording: drop what is due, refuse a live key, make room by evicting the first to expire. */
  ghost predicate Recorded(m: map<string, int>, key: string, now: int, interval: int, maxEntries: int,
                           accepted: bool, evicted: Option<string>, m': map<string, int>)
  {
    var live := Live(m, now);
    if key in live then !accepted && evicted == None && m' == live
    else
      && accepted
      && (if maxEntries > 0 && |live| >= maxEntries then evicted.Some? && ExpiresFirst(live, evicted.value) else evicted == None)
      && m' == (if evicted.Some? then live - {evicted.value} else live)[key := now + interval]
  }

  /** The first to expire is unique, so the set's behaviour is determined. */
  lemma FirstIsUnique(m: map<string, int>, k: string, l: string)
    requires ExpiresFirst(m, k) && ExpiresFirst(m, l)
    ensures k == l
  {
    CompareEqual(k, l);
    CompareFlip(k, l);
  }

  /* ---------- map and heap ---------- */

  /** Map and heap hold the same entries, each under its own key. */
  predicate Matches(recorded: map<string, Entry>, entries: set<Entry>)
  {
    && (forall k :: k in recorded ==> recorded[k] in entries && recorded[k].key == k)
    && (forall e <- entries :: e.key in recorded && recorded[e.key] == e)
  }

  lemma MatchesWithout(recorded: map<string, Entry>, entries: set<Entry>, e: Entry)
    requires Matches(recorded, entries) && e in entries
    ensures Matches(recorded - {e.key}, entries - {e})
  {
  }

  lemma MatchesWith(recorded: map<string, Entry>, entries: set<Entry>, e: Entry)
    requires Matches(recorded, entries) && e.key !in recorded
    ensures Matches(recorded[e.key := e], entries + {e})
  {
  }

  class ExpirySet {
    const maxEntries: int
    const interval: int
    var recorded: map<string, Entry>
    const expiry: Heap

    ghost predicate Agree()
      reads this, expiry
    {
      Matches(recorded, Elements(expiry.entries))
    }

    ghost predicate Valid()
      reads this, expiry, expiry.entries
    {
      expiry.Valid() && Agree() && (maxEntries > 0 ==> |recorded| <= maxEntries)
    }

    function View(): map<string, int>
      reads this
    {
      map k | k in recorded :: recorded[k].expiresAt
    }

    constructor (maxEntries: int, interval: int)
      ensures Valid() && View() == map[] && fresh(expiry)
      ensures this.maxEntries == maxEntries && this.interval == interval
    {
      this.maxEntries, this.interval := maxEntries, interval;
      recorded := map[];
      expiry := new Heap();
    }

    method RemoveNextExpiry()
      requires expiry.Valid() && Agree()
      modifies this, expiry, Elements(expiry.entries)
      ensures expiry.Valid() && Agree() && Elements(expiry.entries) <= old(Elements(expiry.entries))
      ensures old(expiry.entries) == [] ==> recorded == old(recorded) && expiry.entries == []
      ensures old(expiry.entries) != [] ==>
                && var key := old(expiry.entries[0].key);
                && key in old(recorded) && recorded == old(recorded) - {key}
                && ExpiresFirst(old(View()), key)
    {
      if |expiry.entries| == 0 { return; }
      ghost var view, before := View(), recorded;
      assert expiry.entries[0] in expiry.entries;
      var entry := expiry.Pop();
      RootExpiresFirst(view, before, entry);
      recorded := recorded - {entry.key};
      MatchesWithout(before, old(Elements(expiry.entries)), entry);
    }

    /** The loop pops exactly what is due. */
    method RemoveExpired(now: int)
      requires expiry.Valid() && Agree()
      modifies this, expiry, Elements(expiry.entries)
      ensures expiry.Valid() && Agree() && Elements(expiry.entries) <= old(Elements(expiry.entries))
      ensures recorded.Keys <= old(recorded.Keys) && View() == Live(old(View()), now)
    {
      while |expiry.entries| > 0 && expiry.entries[0].expiresAt <= now
        invariant expiry.Valid() && Agree() && Elements(expiry.entries) <= old(Elements(expiry.entries))
        invariant recorded.Keys <= old(recorded.Keys)
        invariant forall k :: k in recorded ==> k in old(recorded) && recorded[k] == old(recorded)[k]
        invariant forall k :: k in old(recorded) && k !in recorded ==> old(recorded)[k].expiresAt <= now
        decreases |recorded|
      {
        assert expiry.entries[0] in expiry.entries;
        RemoveNextExpiry();
      }
      if |expiry.entries| > 0 { RootsAreLeast(expiry.entries); }
      assert forall k :: k in recorded ==> recorded[k] in expiry.entries && now < recorded[k].expiresAt;
    }

    method Record(key: string, now: int) returns (accepted: bool, ghost evicted: Option<string>)
      requires Valid()
      modifies this, expiry, Elements(expiry.entries)
      ensures Valid() && fresh(Elements(expiry.entries) - old(Elements(expiry.entries)))
      ensures Recorded(old(View()), key, now, interval, maxEntries, accepted, evicted, View())
    {
      evicted := None;
      RemoveExpired(now);
      SubsetSize(recorded.Keys, old(recorded.Keys));
      assert |recorded| == |recorded.Keys| && |old(recorded)| == |old(recorded.Keys)|;
      if key in recorded { return false, None; }
      evicted := MakeRoom();
      Register(key, now + interval);
      return true, evicted;
    }

    method MakeRoom() returns (ghost evicted: Option<string>)
      requires Valid()
      modifies this, expiry, Elements(expiry.entries)
      ensures expiry.Valid() && Agree() && (maxEntries > 0 ==> |recorded| < maxEntries)
      ensures Elements(expiry.entries) <= old(Elements(expiry.entries)) && recorded.Keys <= old(recorded.Keys)
      ensures if maxEntries > 0 && |old(View())| >= maxEntries then evicted.Some? && ExpiresFirst(old(View()), evicted.value)
              else evicted == None
      ensures View() == if evicted.Some? then old(View()) - {evicted.value} else old(View())
    {
      evicted := None;
      assert |View()| == |recorded| by {
        assert View().Keys == recorded.Keys && |View()| == |View().Keys| && |recorded| == |recorded.Keys|;
      }
      if maxEntries > 0 && |recorded| >= maxEntries {
        HeapNotEmpty();
        evicted := Some(expiry.entries[0].key);
        RemoveNextExpiry();
        assert |recorded| == |recorded.Keys| && |old(recorded)| == |old(recorded.Keys)|;
        assert recorded.Keys == old(recorded.Keys) - {evicted.value};
      }
    }

    method Register(key: string, expiresAt: int)
      requires expiry.Valid() && Agree() && key !in recorded && (maxEntries > 0 ==> |recorded| < maxEntries)
      modifies this, expiry, Elements(expiry.entries)
      ensures Valid() && View() == old(View())[key := expiresAt]
      ensures fresh(Elements(expiry.entries) - old(Elements(expiry.entries)))
    {
      var entry := new Entry(key, expiresAt, 0);
      MatchesWith(recorded, Elements(expiry.entries), entry);
      recorded := recorded[key := entry];
      expiry.Push(entry);
    }

    lemma HeapNotEmpty()
      requires Agree() && |recorded| > 0
      ensures |expiry.entries| > 0
    {
      var k :| k in recorded;
      assert recorded[k] in expiry.entries;
    }

    method Forget(key: string)
      requires Valid()
      modifies this, expiry, Elements(expiry.entries)
      ensures Valid() && Elements(expiry.entries) <= old(Elements(expiry.entries))
      ensures View() == old(View()) - {key}
    {
      if key !in recorded {
        assert View() - {key} == View();
        return;
      }
      var entry := recorded[key];
      MatchesWithout(recorded, Elements(expiry.entries), entry);
      assert 0 <= entry.index < |expiry.entries| && expiry.entries[entry.index] == entry by { assert entry in expiry.entries; }
      var removed := expiry.Remove(entry.index);
      recorded := recorded - {key};
      SubsetSize(recorded.Keys, old(recorded.Keys));
      assert |recorded| == |recorded.Keys| && |old(recorded)| == |old(recorded.Keys)|;
    }
  }

  /** The root of the heap is the first to expire. */
  lemma RootExpiresFirst(view: map<string, int>, recorded: map<string, Entry>, root: Entry)
    requires root.key in recorded && recorded[root.key] == root
    requires view == map k | k in recorded :: recorded[k].expiresAt
    requires forall k :: k in recorded ==> recorded[k].key == k && !Less(recorded[k], root)
    ensures ExpiresFirst(view, root.key)
  {
    forall l | l in view && l != root.key
      ensures view[root.key] < view[l] || (view[root.key] == view[l] && Compare(root.key, l) <= 0)
    {
      CompareFlip(root.key, l);
    }
  }

  /* ---------- suppression ---------- */

  datatype Call = Record(key: string, now: int, accepted: bool, evicted: Option<string>) | Forget(key: string)

  ghost predicate Step(m: map<string, int>, c: Call, interval: int, maxEntries: int, m': map<string, int>)
  {
    match c
    case Record(key, now, accepted, evicted) => Recorded(m, key, now, interval, maxEntries, accepted, evicted, m')
    case Forget(key) => m' == m - {key}
  }

  ghost predicate Trace(views: seq<map<string, int>>, calls: seq<Call>, interval: int, maxEntries: int)
  {
    && |views| == |calls| + 1
    && forall i :: 0 <= i < |calls| ==> Step(views[i], calls[i], interval, maxEntries, views[i + 1])
  }

  ghost predicate ClockNeverRunsBack(calls: seq<Call>)
  {
    forall i, j :: 0 <= i < j < |calls| && calls[i].Record? && calls[j].Record? ==> calls[i].now <= calls[j].now
  }

  /** The call neither forgets nor evicts the key. */
  predicate Spares(c: Call, key: string)
  {
    match c
    case Record(_, _, _, evicted) => evicted != Some(key)
    case Forget(k) => k != key
  }

  /** Until its deadline passes on the clock, a spared key stays recorded with that deadline. */
  lemma {:induction false} StaysRecorded(views: seq<map<string, int>>, calls: seq<Call>, interval: int, maxEntries: int,
                                        i: nat, j: nat, key: string)
    requires Trace(views, calls, interval, maxEntries) && i < j <= |calls|
    requires calls[i].Record? && calls[i].key == key && calls[i].accepted
    requires forall k :: i < k < j ==> Spares(calls[k], key)
    requires forall k :: i < k < j && calls[k].Record? ==> calls[k].now < calls[i].now + interval
    ensures key in views[j] && views[j][key] == calls[i].now + interval
  {
    assert Step(views[j - 1], calls[j - 1], interval, maxEntries, views[j]);
    if i + 1 < j {
      StaysRecorded(views, calls, interval, maxEntries, i, j - 1, key);
    }
  }

  /**
   With a clock that never runs back, two accepted records of one key that is not
   forgotten or evicted in between are at least one interval apart.
   */
  lemma AcceptedAnIntervalApart(views: seq<map<string, int>>, calls: seq<Call>, interval: int, maxEntries: int,
                                i: nat, j: nat, key: string)
    requires Trace(views, calls, interval, maxEntries) && ClockNeverRunsBack(calls) && i < j < |calls|
    requires calls[i].Record? && calls[i].key == key && calls[i].accepted
    requires calls[j].Record? && calls[j].key == key && calls[j].accepted
    requires forall k :: i < k < j ==> Spares(calls[k], key)
    ensures calls[i].now + interval <= calls[j].now
  {
    assert Step(views[j], calls[j], interval, maxEntries, views[j + 1]);
    if calls[j].now < calls[i].now + interval { StaysRecorded(views, calls, interval, maxEntries, i, j, key); }
  }

  /** What is recorded was accepted, and is due an interval after that. */
  lemma {:induction false} RecordedWasAccepted(views: seq<map<string, int>>, calls: seq<Call>, interval: int, maxEntries: int,
                                               j: nat, key: string) returns (i: nat)
    requires Trace(views, calls, interval, maxEntries) && views[0] == map[] && j <= |calls| && key in views[j]
    ensures i < j && calls[i].Record? && calls[i].key == key && calls[i].accepted && views[j][key] == calls[i].now + interval
    ensures forall k :: i < k < j ==> Spares(calls[k], key)
    ensures forall k :: i < k < j && calls[k].Record? && calls[k].key == key ==> !calls[k].accepted
  {
    assert Step(views[j - 1], calls[j - 1], interval, maxEntries, views[j]);
    var c := calls[j - 1];
    if c.Record? && c.accepted && c.key == key {
      i := j - 1;
    } else {
      i := RecordedWasAccepted(views, calls, interval, maxEntries, j - 1, key);
    }
  }

  /** A record is refused only within the interval of the last accepted one, which was not forgotten or evicted since. */
  lemma RefusedWithinTheInterval(views: seq<map<string, int>>, calls: seq<Call>, interval: int, maxEntries: int, j: nat)
    returns (i: nat)
    requires Trace(views, calls, interval, maxEntries) && views[0] == map[] && j < |calls| && calls[j].Record? && !calls[j].accepted
    ensures i < j && calls[i].Record? && calls[i].key == calls[j].key && calls[i].accepted
    ensures calls[j].now < calls[i].now + interval && forall k :: i < k < j ==> Spares(calls[k], calls[j].key)
  {
    assert Step(views[j], calls[j], interval, maxEntries, views[j + 1]);
    i := RecordedWasAccepted(views, calls, interval, maxEntries, j, calls[j].key);
  }

  lemma DomainSize(m: map<string, int>)
    ensures |m| == |m.Keys|
  {
  }

  lemma LiveIsSmaller(m: map<string, int>, now: int)
    ensures |Live(m, now)| <= |m|
  {
    DomainSize(m);
    DomainSize(Live(m, now));
    SubsetSize(Live(m, now).Keys, m.Keys);
  }

  lemma WithoutIsSmaller(m: map<string, int>, key: string)
    ensures |m - {key}| == if key in m then |m| - 1 else |m|
  {
    DomainSize(m);
    DomainSize(m - {key});
    assert (m - {key}).Keys == m.Keys - {key};
  }

  lemma WithIsLarger(m: map<string, int>, key: string, expiresAt: int)
    ensures |m[key := expiresAt]| <= |m| + 1
  {
    DomainSize(m);
    DomainSize(m[key := expiresAt]);
    assert m[key := expiresAt].Keys == m.Keys + {key};
  }

  /** The size bound is kept by every call. */
  lemma SizeBounded(m: map<string, int>, c: Call, interval: int, maxEntries: int, m': map<string, int>)
    requires Step(m, c, interval, maxEntries, m') && maxEntries > 0 && |m| <= maxEntries
    ensures |m'| <= maxEntries
  {
    match c
    case Record(key, now, accepted, evicted) =>
      var live := Live(m, now);
      LiveIsSmaller(m, now);
      if accepted {
        if evicted.Some? { WithoutIsSmaller(live, evicted.value); }
        WithIsLarger(if evicted.Some? then live - {evicted.value} else live, key, now + interval);
      }
    case Forget(key) => WithoutIsSmaller(m, key);
  }
}
