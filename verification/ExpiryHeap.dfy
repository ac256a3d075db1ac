/**
 Binary heaps of keys ordered by deadline, then by key: the loops of Go's
 container/heap over the Less, Swap, Push and Pop that the expiry set and the
 rate limiter give it. Every entry knows its own position.
 */
module ExpiryHeap {
  import opened Text

  class Entry {
    const key: string
    const expiresAt: int
    var index: int
    var count: int

    constructor (key: string, expiresAt: int, count: int)
      ensures this.key == key && this.expiresAt == expiresAt && this.count == count
    {
      this.key, this.expiresAt, this.count, this.index := key, expiresAt, count, -1;
    }
  }

  predicate Less(a: Entry, b: Entry)
  {
    if a.expiresAt == b.expiresAt then Compare(a.key, b.key) < 0 else a.expiresAt < b.expiresAt
  }

  lemma LessTransitive(a: Entry, b: Entry, c: Entry)
    ensures !Less(a, b) && !Less(b, c) ==> !Less(a, c)
    ensures Less(a, b) && !Less(c, b) ==> Less(a, c)
    ensures !Less(a, a)
    ensures Less(a, b) ==> !Less(b, a)
  {
    KeysTransitive(a.key, b.key, c.key);
    KeysTransitive(c.key, b.key, a.key);
    KeysTransitive(a.key, c.key, c.key);
    KeysTransitive(b.key, c.key, c.key);
  }

  lemma KeysTransitive(a: string, b: string, c: string)
    ensures Compare(a, a) == 0 && Compare(b, a) == -Compare(a, b)
    ensures Compare(a, b) <= 0 && Compare(b, c) <= 0 ==> Compare(a, c) <= 0
    ensures Compare(a, b) == 0 <==> a == b
  {
    CompareEqual(a, a);
    CompareEqual(a, b);
    CompareFlip(a, b);
    if Compare(a, b) <= 0 && Compare(b, c) <= 0 { CompareTransitive(a, b, c); }
  }

  /* ---------- heap order ---------- */

  function Parent(i: int): int { (i - 1) / 2 }

  /** The entry at i is no less than its parent. */
  predicate Fits(s: seq<Entry>, i: int)
    requires 0 < i < |s|
  {
    !Less(s[i], s[Parent(i)])
  }

  predicate Ordered(s: seq<Entry>, n: int)
    requires n <= |s|
  {
    forall i :: 0 < i < n ==> Fits(s, i)
  }

  /** Ordered but for the entry at i, whose children still fit below its parent. */
  predicate Hole(s: seq<Entry>, i: int, n: int)
    requires 0 <= i && n <= |s|
  {
    && (forall k :: 0 < k < n && k != i && Parent(k) != i ==> Fits(s, k))
    && (forall k :: 0 < i < k < n && Parent(k) == i ==> !Less(s[k], s[Parent(i)]))
  }

  predicate ChildrenFit(s: seq<Entry>, i: int, n: int)
    requires 0 <= i && n <= |s|
  {
    forall k :: 0 < k < n && Parent(k) == i ==> Fits(s, k)
  }

  function Swapped(s: seq<Entry>, i: int, j: int): (r: seq<Entry>)
    requires 0 <= i < |s| && 0 <= j < |s|
    ensures |r| == |s|
  {
    s[i := s[j]][j := s[i]]
  }

  function Elements(s: seq<Entry>): set<Entry> { set e | e in s }

  lemma SwappedElements(s: seq<Entry>, i: int, j: int)
    requires 0 <= i < |s| && 0 <= j < |s|
    ensures Elements(Swapped(s, i, j)) == Elements(s)
  {
    var r := Swapped(s, i, j);
    assert r[i] == s[j] && r[j] == s[i];
    forall e | e in s ensures e in r {
      var k :| 0 <= k < |s| && s[k] == e;
      assert k != i && k != j ==> r[k] == e;
    }
  }

  lemma {:induction false} RootIsLeast(s: seq<Entry>, n: int, k: int)
    requires 0 <= k < n <= |s| && Ordered(s, n)
    ensures !Less(s[k], s[0])
    decreases k
  {
    LessTransitive(s[0], s[0], s[0]);
    if k > 0 {
      RootIsLeast(s, n, Parent(k));
      assert Fits(s, k);
      LessTransitive(s[k], s[Parent(k)], s[0]);
    }
  }

  /** Replacing one entry of an ordered heap leaves a hole there. */
  lemma ReplacedIsHole(s: seq<Entry>, i: int, x: Entry, n: int)
    requires 0 <= i < n <= |s| && Ordered(s, n)
    ensures Hole(s[i := x], i, n)
  {
    var r := s[i := x];
    forall k | 0 < k < n && k != i && Parent(k) != i ensures Fits(r, k) { assert Fits(s, k); }
    forall k | 0 < i < k < n && Parent(k) == i ensures !Less(r[k], r[Parent(i)]) {
      assert Fits(s, k) && Fits(s, i);
      LessTransitive(s[k], s[i], s[Parent(i)]);
    }
  }

  /** Moving the less entry up one place moves the hole up with it. */
  lemma UpStep(s: seq<Entry>, j: int, n: int)
    requires 0 < j < n <= |s| && Hole(s, j, n) && ChildrenFit(s, j, n) && Less(s[j], s[Parent(j)])
    ensures var i := Parent(j); Hole(Swapped(s, i, j), i, n) && ChildrenFit(Swapped(s, i, j), i, n)
  {
    var i := Parent(j);
    var r := Swapped(s, i, j);
    forall k | 0 < k < n && k != i && Parent(k) != i ensures Fits(r, k) {
      if Parent(k) == j {
        assert !Less(s[k], s[Parent(j)]);
      } else {
        assert Fits(s, k);
      }
    }
    forall k | 0 < k < n && Parent(k) == i ensures Fits(r, k) {
      if k == j {
        LessTransitive(s[j], s[i], s[i]);
      } else {
        assert Fits(s, k);
        LessTransitive(s[j], s[i], s[k]);
        LessTransitive(s[j], s[k], s[k]);
      }
    }
    forall k | 0 < i < k < n && Parent(k) == i ensures !Less(r[k], r[Parent(i)]) {
      assert Fits(s, i);
      if k != j {
        assert Fits(s, k);
        LessTransitive(s[k], s[i], s[Parent(i)]);
      }
    }
  }

  /** The child container/heap picks: the less of the two. */
  predicate LesserChild(s: seq<Entry>, i: int, j: int, n: int)
    requires 0 <= i && n <= |s|
  {
    && 0 < j < n && Parent(j) == i
    && forall k :: 0 < k < n && Parent(k) == i ==> !Less(s[k], s[j])
  }

  /** Moving the lesser child up one place moves the hole down. */
  lemma DownStep(s: seq<Entry>, i: int, j: int, n: int)
    requires 0 <= i < j < n <= |s| && Hole(s, i, n) && LesserChild(s, i, j, n) && Less(s[j], s[i])
    ensures var r := Swapped(s, i, j);
            && Hole(r, j, n) && Fits(r, j)
            && (i > 0 ==> Fits(r, i))
  {
    var r := Swapped(s, i, j);
    LessTransitive(s[j], s[i], s[i]);
    forall k | 0 < k < n && k != j && Parent(k) != j ensures Fits(r, k) {
      if k == i {
        assert !Less(s[j], s[Parent(i)]);
      } else if Parent(k) == i {
        assert !Less(s[k], s[j]);
      } else {
        assert Fits(s, k);
      }
    }
    forall k | 0 < j < k < n && Parent(k) == j ensures !Less(r[k], r[Parent(j)]) { assert Fits(s, k); }
  }

  lemma ChosenChild(s: seq<Entry>, i: int, j: int, n: int)
    requires 0 <= i && 2 * i + 1 < n <= |s|
    requires j == if 2 * i + 2 < n && Less(s[2 * i + 2], s[2 * i + 1]) then 2 * i + 2 else 2 * i + 1
    ensures LesserChild(s, i, j, n)
  {
    forall k | 0 < k < n && Parent(k) == i ensures !Less(s[k], s[j]) {
      assert k == 2 * i + 1 || k == 2 * i + 2;
      LessTransitive(s[j], s[k], s[k]);
    }
  }

  lemma ChildrenFitBelow(s: seq<Entry>, i: int, j: int, n: int)
    requires 0 <= i < n <= |s| && LesserChild(s, i, j, n) && !Less(s[j], s[i])
    ensures ChildrenFit(s, i, n)
  {
    forall k | 0 < k < n && Parent(k) == i ensures Fits(s, k) { LessTransitive(s[k], s[j], s[i]); }
  }

  /** Swapping the last entry into place i leaves a hole there in what remains. */
  lemma HoleInPrefix(s: seq<Entry>, i: int, n: int)
    requires 0 <= i < n == |s| - 1 && Ordered(s, |s|)
    ensures Hole(Swapped(s, i, n), i, n)
  {
    ReplacedIsHole(s, i, s[n], |s|);
    var r, t := Swapped(s, i, n), s[i := s[n]];
    forall k | 0 < k < n && k != i && Parent(k) != i ensures Fits(r, k) { assert Fits(t, k); }
  }

  lemma RootsAreLeast(s: seq<Entry>)
    requires |s| > 0 && Ordered(s, |s|)
    ensures forall e <- s :: !Less(e, s[0])
  {
    forall e <- s ensures !Less(e, s[0]) {
      var k :| 0 <= k < |s| && s[k] == e;
      RootIsLeast(s, |s|, k);
    }
  }

  /* ---------- the heap in place ---------- */

  class Heap {
    var entries: seq<Entry>

    constructor ()
      ensures entries == []
    {
      entries := [];
    }

    /** Back-pointers: every entry's index is its position. */
    ghost predicate Indexed()
      reads this, entries
    {
      forall i :: 0 <= i < |entries| ==> entries[i].index == i
    }

    ghost predicate Valid()
      reads this, entries
    {
      Indexed() && Ordered(entries, |entries|)
    }

    method Swap(i: int, j: int)
      requires 0 <= i < |entries| && 0 <= j < |entries| && Indexed()
      modifies this, Elements(entries)
      ensures entries == Swapped(old(entries), i, j) && Indexed()
      ensures forall e <- old(entries) :: e.count == old(e.count)
    {
      entries := entries[i := entries[j]][j := entries[i]];
      entries[i].index := i;
      entries[j].index := j;
    }

    /** The unexported `up`; n is the size of the heap it works in. */
    method Up(j0: int, ghost n: int)
      requires 0 <= j0 < n <= |entries| && Indexed() && Hole(entries, j0, n) && ChildrenFit(entries, j0, n)
      modifies this, Elements(entries)
      ensures Indexed() && |entries| == |old(entries)| && Ordered(entries, n)
      ensures Elements(entries) == old(Elements(entries)) && entries[n..] == old(entries[n..])
      ensures forall e <- old(entries) :: e.count == old(e.count)
    {
      var j := j0;
      while true
        invariant 0 <= j < n <= |entries| == |old(entries)| && Indexed() && Hole(entries, j, n) && ChildrenFit(entries, j, n)
        invariant Elements(entries) == old(Elements(entries)) && entries[n..] == old(entries[n..])
        invariant forall e <- old(entries) :: e.count == old(e.count)
        decreases j
      {
        var i := if j == 0 then 0 else (j - 1) / 2;   // Go's (j - 1) / 2 truncates toward zero
        if i == j || !Less(entries[j], entries[i]) { break; }
        UpStep(entries, j, n);
        SwappedElements(entries, i, j);
        Swap(i, j);
        j := i;
      }
    }

    /** The unexported `down` on the first n entries; reports whether it moved anything. */
    method Down(i0: int, n: nat) returns (moved: bool)
      requires 0 <= i0 && n <= |entries| && Indexed() && (i0 < n ==> Hole(entries, i0, n)) && (i0 >= n ==> Ordered(entries, n))
      modifies this, Elements(entries)
      ensures Indexed() && |entries| == |old(entries)|
      ensures Elements(entries) == old(Elements(entries)) && entries[n..] == old(entries[n..])
      ensures forall e <- old(entries) :: e.count == old(e.count)
      ensures moved || i0 == 0 || i0 >= n ==> Ordered(entries, n)
      ensures !moved ==> entries == old(entries) && ChildrenFit(entries, i0, n)
    {
      var i := i0;
      while true
        invariant i0 <= i && n <= |entries| == |old(entries)| && Indexed()
        invariant if i0 < n then i < n && Hole(entries, i, n) && (i0 < i ==> Fits(entries, i)) else i == i0
        invariant i == i0 ==> entries == old(entries)
        invariant Elements(entries) == old(Elements(entries)) && entries[n..] == old(entries[n..])
        invariant forall e <- old(entries) :: e.count == old(e.count)
        decreases n - i
      {
        var j1 := 2 * i + 1;
        if j1 >= n {
          assert i0 < n ==> forall k :: 0 < k < n ==> Parent(k) != i;
          break;
        }
        var j := j1;
        var j2 := j1 + 1;
        if j2 < n && Less(entries[j2], entries[j1]) { j := j2; }
        ChosenChild(entries, i, j, n);
        if !Less(entries[j], entries[i]) {
          ChildrenFitBelow(entries, i, j, n);
          break;
        }
        DownStep(entries, i, j, n);
        SwappedElements(entries, i, j);
        Swap(i, j);
        i := j;
      }
      moved := i > i0;
    }

    /** heap.Push. */
    method Push(e: Entry)
      requires Valid() && e !in entries
      modifies this, Elements(entries), e
      ensures e.count == old(e.count) && Valid() && Elements(entries) == old(Elements(entries)) + {e} && |entries| == |old(entries)| + 1
      ensures forall x <- old(entries) :: x.count == old(x.count)
    {
      e.index := |entries|;
      ghost var before := entries;
      entries := entries + [e];
      assert forall i :: 0 <= i < |before| ==> entries[i] == before[i];
      forall k | 0 < k < |before| ensures Fits(entries, k) { assert Fits(before, k); }
      Up(|entries| - 1, |entries|);
      assert entries[..|entries|] == entries;
    }

    /** The last entry, taken off; the rest is a valid heap. */
    method TakeLast() returns (e: Entry)
      requires |entries| > 0 && Indexed() && Ordered(entries, |entries| - 1)
      modifies this, Elements(entries)
      ensures Valid() && e == old(entries[|entries| - 1]) && entries == old(entries[..|entries| - 1])
      ensures e !in entries && Elements(entries) == old(Elements(entries)) - {e}
      ensures forall x <- old(entries) :: x.count == old(x.count)
    {
      var last := |entries| - 1;
      e := entries[last];
      assert forall i :: 0 <= i < last ==> entries[i] != e;
      e.index := -1;
      entries := entries[..last];
      forall k | 0 < k < |entries| ensures Fits(entries, k) { assert Fits(old(entries), k); }
    }

    /** heap.Pop: takes off a least entry. */
    method Pop() returns (least: Entry)
      requires Valid() && |entries| > 0
      modifies this, Elements(entries)
      ensures Valid() && least == old(entries[0]) && least !in entries
      ensures Elements(entries) == old(Elements(entries)) - {least}
      ensures forall e <- old(entries) :: e.count == old(e.count) && !Less(e, least)
    {
      var n := |entries| - 1;
      RootsAreLeast(entries);
      SwappedElements(entries, 0, n);
      if n > 0 { HoleInPrefix(entries, 0, n); }
      Swap(0, n);
      var moved := Down(0, n);
      assert entries[n] == old(entries[0]);
      least := TakeLast();
    }

    /** heap.Remove of the entry at position i. */
    method Remove(i: int) returns (removed: Entry)
      requires Valid() && 0 <= i < |entries|
      modifies this, Elements(entries)
      ensures Valid() && removed == old(entries[i]) && removed !in entries
      ensures Elements(entries) == old(Elements(entries)) - {removed}
      ensures forall e <- old(entries) :: e.count == old(e.count)
    {
      var n := |entries| - 1;
      if n != i {
        SwappedElements(entries, i, n);
        HoleInPrefix(entries, i, n);
        Swap(i, n);
        var moved := Down(i, n);
        if !moved { Up(i, n); }
      }
      assert entries[n] == old(entries[i]);
      removed := TakeLast();
    }
  }
}
