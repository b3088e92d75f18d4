/**
 * The two identity maps the importer fills while it creates one node per bean. Node
 * handles are handed out one after another, so the k-th bean of a phase gets handle
 * start + k. The map is a HashMap filled by put, so a later bean with the same key
 * replaces an earlier one.
 */
module KeyedNodes {

  /** The map after put(key(items[k]), start + k) for k = 0, 1, ..., n - 1, in that order. */
  function KeyMap<T, K>(key: T -> K, items: seq<T>, start: nat, n: nat): map<K, nat>
    requires n <= |items|
  {
    if n == 0 then map[] else KeyMap(key, items, start, n - 1)[key(items[n - 1]) := start + n - 1]
  }

  /** The records created for items[0], ..., items[n - 1], the k-th under handle start + k. */
  function Numbered<T, R>(f: T -> R, items: seq<T>, start: nat, n: nat): map<nat, R>
    requires n <= |items|
  {
    if n == 0 then map[] else Numbered(f, items, start, n - 1)[start + n - 1 := f(items[n - 1])]
  }

  /** A key is in the map exactly when one of the first n items has it. */
  lemma {:induction false} KeyMapDomain<T, K>(key: T -> K, items: seq<T>, start: nat, n: nat, k: K)
    requires n <= |items|
    ensures k in KeyMap(key, items, start, n) <==> exists j :: 0 <= j < n && key(items[j]) == k
  {
    if n > 0 {
      KeyMapDomain(key, items, start, n - 1, k);
      if key(items[n - 1]) != k && exists j :: 0 <= j < n && key(items[j]) == k {
        var j :| 0 <= j < n && key(items[j]) == k;
        assert j < n - 1;
      }
    }
  }

  /**
   * Every entry points at one of the handles handed out, and the item behind that handle
   * has the entry's key.
   */
  lemma {:induction false} KeyMapRange<T, K>(key: T -> K, items: seq<T>, start: nat, n: nat, k: K)
    requires n <= |items| && k in KeyMap(key, items, start, n)
    ensures start <= KeyMap(key, items, start, n)[k] < start + n
    ensures key(items[KeyMap(key, items, start, n)[k] - start]) == k
  {
    if key(items[n - 1]) != k {
      KeyMapRange(key, items, start, n - 1, k);
    }
  }

  /**
   * Last write wins: the entry for the key of item j points at item j's handle exactly
   * when no later item among the first n has the same key.
   */
  lemma {:induction false} KeyMapLastWins<T, K>(key: T -> K, items: seq<T>, start: nat, n: nat, j: nat)
    requires j < n <= |items|
    ensures key(items[j]) in KeyMap(key, items, start, n)
    ensures KeyMap(key, items, start, n)[key(items[j])] == start + j <==>
      forall i :: j < i < n ==> key(items[i]) != key(items[j])
  {
    if j < n - 1 {
      KeyMapLastWins(key, items, start, n - 1, j);
      if key(items[n - 1]) != key(items[j]) {
        if forall i :: j < i < n - 1 ==> key(items[i]) != key(items[j]) {
          forall i | j < i < n ensures key(items[i]) != key(items[j]) {
          }
        }
      }
    }
  }

  /**
   * The map's entries: the keys of the first n items, each pointing at a handle handed out
   * for an item with that key.
   */
  lemma KeyMapShape<T, K>(key: T -> K, items: seq<T>, start: nat, n: nat)
    requires n <= |items|
    ensures forall k :: k in KeyMap(key, items, start, n) <==> exists j :: 0 <= j < n && key(items[j]) == k
    ensures forall k :: k in KeyMap(key, items, start, n) ==>
      start <= KeyMap(key, items, start, n)[k] < start + n &&
      key(items[KeyMap(key, items, start, n)[k] - start]) == k
  {
    forall k ensures k in KeyMap(key, items, start, n) <==> exists j :: 0 <= j < n && key(items[j]) == k {
      KeyMapDomain(key, items, start, n, k);
    }
    forall k | k in KeyMap(key, items, start, n)
      ensures start <= KeyMap(key, items, start, n)[k] < start + n
      ensures key(items[KeyMap(key, items, start, n)[k] - start]) == k
    {
      KeyMapRange(key, items, start, n, k);
    }
  }

  /** Every one of the first n items has its key in the map. */
  lemma KeyMapCovers<T, K>(key: T -> K, items: seq<T>, start: nat, n: nat)
    requires n <= |items|
    ensures forall j :: 0 <= j < n ==> key(items[j]) in KeyMap(key, items, start, n)
  {
    forall j | 0 <= j < n ensures key(items[j]) in KeyMap(key, items, start, n) {
      KeyMapLastWins(key, items, start, n, j);
    }
  }

  /** Every entry points at one of the handles start, ..., start + n - 1. */
  lemma KeyMapInto<T, K>(key: T -> K, items: seq<T>, start: nat, n: nat)
    requires n <= |items|
    ensures forall k :: k in KeyMap(key, items, start, n) ==> start <= KeyMap(key, items, start, n)[k] < start + n
  {
    forall k | k in KeyMap(key, items, start, n) ensures start <= KeyMap(key, items, start, n)[k] < start + n {
      KeyMapRange(key, items, start, n, k);
    }
  }

  /** With pairwise different keys the map has one entry per item. */
  lemma {:induction false} KeyMapSize<T, K>(key: T -> K, items: seq<T>, start: nat, n: nat)
    requires n <= |items|
    ensures |KeyMap(key, items, start, n)| <= n
    ensures (forall i, j :: 0 <= i < j < n ==> key(items[i]) != key(items[j])) ==>
      |KeyMap(key, items, start, n)| == n
  {
    if n > 0 {
      KeyMapSize(key, items, start, n - 1);
      if forall i, j :: 0 <= i < j < n ==> key(items[i]) != key(items[j]) {
        assert key(items[n - 1]) !in KeyMap(key, items, start, n - 1) by {
          KeyMapDomain(key, items, start, n - 1, key(items[n - 1]));
        }
      }
    }
  }

  /** Exactly the handles start, ..., start + n - 1 are created, the k-th for item k. */
  lemma {:induction false} NumberedShape<T, R>(f: T -> R, items: seq<T>, start: nat, n: nat)
    requires n <= |items|
    ensures forall h :: h in Numbered(f, items, start, n) <==> start <= h < start + n
    ensures forall h :: h in Numbered(f, items, start, n) ==>
      Numbered(f, items, start, n)[h] == f(items[h - start])
    ensures |Numbered(f, items, start, n)| == n
  {
    if n > 0 {
      NumberedShape(f, items, start, n - 1);
      assert start + n - 1 !in Numbered(f, items, start, n - 1);
    }
  }

  /**
   * Two phases on an empty store: the first has handed out handles 0 up to m for `xs`,
   * the second the next z for `ys`. A phase's records are kept only when it got through
   * all its items.
   */
  function TwoPhases<A, B, R>(f: A -> R, g: B -> R, xs: seq<A>, ys: seq<B>, m: nat, z: nat): map<nat, R>
    requires m <= |xs| && z <= |ys|
  {
    var first: map<nat, R> := if m == |xs| then map[] + Numbered(f, xs, 0, m) else map[];
    if z == |ys| then first + Numbered(g, ys, m, z) else first
  }

  /** The handles live after two phases, and the record behind each. */
  lemma TwoPhasesShape<A, B, R>(f: A -> R, g: B -> R, xs: seq<A>, ys: seq<B>, m: nat, z: nat)
    requires m <= |xs| && z <= |ys|
    ensures var nodes := TwoPhases(f, g, xs, ys, m, z);
      && (forall h: nat :: h in nodes <==> (m == |xs| && h < m) || (z == |ys| && m <= h < m + z))
      && (forall h :: h in nodes && h < m ==> nodes[h] == f(xs[h]))
      && (forall h :: h in nodes && m <= h ==> nodes[h] == g(ys[h - m]))
  {
    NumberedShape(f, xs, 0, m);
    NumberedShape(g, ys, m, z);
  }

  /** Creating the next record on top of the records already in a store. */
  lemma NumberedNext<T, R>(f: T -> R, items: seq<T>, start: nat, n: nat, base: map<nat, R>)
    requires n < |items|
    ensures (base + Numbered(f, items, start, n))[start + n := f(items[n])] ==
      base + Numbered(f, items, start, n + 1)
  {
    assert Numbered(f, items, start, n + 1) == Numbered(f, items, start, n)[start + n := f(items[n])];
  }

  /** Putting the next item's key on top of the map of the items before it. */
  lemma KeyMapNext<T, K>(key: T -> K, items: seq<T>, start: nat, n: nat, k: K)
    requires n < |items| && k == key(items[n])
    ensures KeyMap(key, items, start, n)[k := start + n] == KeyMap(key, items, start, n + 1)
  {
  }

  /** What the items at positions lo up to hi contribute, one after another. */
  function Concat<T, E>(f: T -> seq<E>, items: seq<T>, lo: nat, hi: nat): seq<E>
    requires lo <= hi <= |items|
    decreases hi - lo
  {
    if hi == lo then [] else Concat(f, items, lo, hi - 1) + f(items[hi - 1])
  }

  /** The items can be taken in two runs: the result is that of each run, in order. */
  lemma {:induction false} ConcatSplit<T, E>(f: T -> seq<E>, items: seq<T>, lo: nat, mid: nat, hi: nat)
    requires lo <= mid <= hi <= |items|
    ensures Concat(f, items, lo, hi) == Concat(f, items, lo, mid) + Concat(f, items, mid, hi)
    decreases hi - mid
  {
    if hi > mid {
      ConcatSplit(f, items, lo, mid, hi - 1);
    }
  }

  /** An element is in the result exactly when one of the items contributed it. */
  lemma {:induction false} ConcatMembers<T, E>(f: T -> seq<E>, items: seq<T>, lo: nat, hi: nat, e: E)
    requires lo <= hi <= |items|
    ensures e in Concat(f, items, lo, hi) <==> exists j :: lo <= j < hi && e in f(items[j])
    decreases hi - lo
  {
    if hi > lo {
      ConcatMembers(f, items, lo, hi - 1, e);
      if e !in f(items[hi - 1]) && exists j :: lo <= j < hi && e in f(items[j]) {
        var j :| lo <= j < hi && e in f(items[j]);
        assert j < hi - 1;
      }
    }
  }
}
