/** The eviction store as a value: the recency order of the keys (index 0 is the
    most recently used, the last index the least recently used) and the mapping
    from key to value. Every operation of the store is a function here, and the
    lemmas below state what the store promises. */
module LruModel {
  import opened CacheTypes

  datatype Lru<K(==), T> = Lru(order: seq<K>, entries: map<K, Value<T>>)

  /** The result of a lookup: the store afterwards (a hit moves the key to the front),
      the value found (nil on a miss) and the hit flag. */
  datatype Lookup<K(==), T> = Lookup(next: Lru<K, T>, value: Value<T>, ok: bool)

  function Empty<K(==), T>(): Lru<K, T> { Lru([], map[]) }

  predicate Distinct<K(==)>(s: seq<K>)
  {
    forall i, j :: 0 <= i < j < |s| ==> s[i] != s[j]
  }

  /** The map and the list hold the same keys, each key once in the list. */
  ghost predicate Consistent<K, T>(s: Lru<K, T>)
  {
    && Distinct(s.order)
    && (forall k | k in s.entries :: k in s.order)
    && (forall k | k in s.order :: k in s.entries)
  }

  /** Consistent, and within capacity when a positive capacity is set (0 = unbounded). */
  ghost predicate Inv<K, T>(s: Lru<K, T>, capacity: nat)
  {
    && Consistent(s)
    && (capacity > 0 ==> |s.order| <= capacity)
  }

  /** The list with the element holding `k` unlinked. */
  function Without<K(==)>(xs: seq<K>, k: K): (r: seq<K>)
    ensures forall x | x in r :: x in xs && x != k
    ensures forall x | x in xs && x != k :: x in r
    ensures Distinct(xs) ==> Distinct(r)
    ensures Distinct(xs) && k in xs ==> |r| == |xs| - 1
    ensures k !in xs ==> r == xs
  {
    if xs == [] then []
    else if xs[0] == k then Without(xs[1..], k)
    else
      var rest := Without(xs[1..], k);
      assert Distinct(xs) ==> xs[0] !in xs[1..];
      [xs[0]] + rest
  }

  function Len<K(==), T>(s: Lru<K, T>): nat { |s.order| }

  /** get: a hit moves the key to the front and returns its value; a miss changes nothing. */
  function Get<K(==), T>(s: Lru<K, T>, k: K): Lookup<K, T>
  {
    if k in s.entries then Lookup(Lru([k] + Without(s.order, k), s.entries), s.entries[k], true)
    else Lookup(s, Nil, false)
  }

  /** removeElement: unlinks the key from the list and deletes it from the map. */
  function RemoveElement<K(==), T>(s: Lru<K, T>, k: K): Lru<K, T>
  {
    Lru(Without(s.order, k), s.entries - {k})
  }

  /** removeOldest: drops the back (least recently used) entry, if any. */
  function RemoveOldest<K(==), T>(s: Lru<K, T>): Lru<K, T>
  {
    if s.order == [] then s else RemoveElement(s, s.order[|s.order| - 1])
  }

  /** remove: drops the key if present. */
  function Remove<K(==), T>(s: Lru<K, T>, k: K): Lru<K, T>
  {
    if k in s.entries then RemoveElement(s, k) else s
  }

  /** put: an existing key gets the new value and moves to the front; a new key is
      pushed at the front and, if a capacity is set and now exceeded, the back entry
      is evicted. */
  function Put<K(==), T>(s: Lru<K, T>, capacity: nat, k: K, v: Value<T>): Lru<K, T>
  {
    if k in s.entries then Lru([k] + Without(s.order, k), s.entries[k := v])
    else
      var pushed := Lru([k] + s.order, s.entries[k := v]);
      if capacity != 0 && |pushed.order| > capacity then RemoveOldest(pushed) else pushed
  }

  /** Successive puts, first to last. */
  function PutAll<K(==), T>(s: Lru<K, T>, capacity: nat, kvs: seq<KeyVal<K, T>>): Lru<K, T>
    decreases |kvs|
  {
    if kvs == [] then s else PutAll(Put(s, capacity, kvs[0].key, kvs[0].value), capacity, kvs[1..])
  }

  function Reverse<K>(xs: seq<K>): (r: seq<K>)
    ensures |r| == |xs|
  {
    if xs == [] then [] else Reverse(xs[1..]) + [xs[0]]
  }

  // ---------------------------------------------------------------------------
  // The store's invariant is kept by every operation.

  lemma {:induction false} WithoutLast<K>(xs: seq<K>)
    requires Distinct(xs) && xs != []
    ensures Without(xs, xs[|xs| - 1]) == xs[..|xs| - 1]
  {
    if |xs| > 1 {
      WithoutLast(xs[1..]);
      assert xs[1..][..|xs| - 2] == xs[1..|xs| - 1];
      assert xs[..|xs| - 1] == [xs[0]] + xs[1..|xs| - 1];
    }
  }

  lemma RemoveElementConsistent<K, T>(s: Lru<K, T>, k: K)
    requires Consistent(s)
    ensures Consistent(RemoveElement(s, k))
    ensures k in s.entries ==> Len(RemoveElement(s, k)) == Len(s) - 1
  {
  }

  lemma RemoveOldestConsistent<K, T>(s: Lru<K, T>)
    requires Consistent(s)
    ensures Consistent(RemoveOldest(s))
    ensures s.order != [] ==> Len(RemoveOldest(s)) == Len(s) - 1
    ensures s.order != [] ==> RemoveOldest(s).order == s.order[..|s.order| - 1]
  {
    if s.order != [] {
      RemoveElementConsistent(s, s.order[|s.order| - 1]);
      WithoutLast(s.order);
    }
  }

  /** put keeps the map and list consistent and the length within capacity. */
  lemma PutInv<K, T>(s: Lru<K, T>, capacity: nat, k: K, v: Value<T>)
    requires Inv(s, capacity)
    ensures Inv(Put(s, capacity, k, v), capacity)
  {
    if k !in s.entries {
      var pushed := Lru([k] + s.order, s.entries[k := v]);
      assert Consistent(pushed);
      if capacity != 0 && |pushed.order| > capacity {
        RemoveOldestConsistent(pushed);
      }
    }
  }

  lemma GetInv<K, T>(s: Lru<K, T>, capacity: nat, k: K)
    requires Inv(s, capacity)
    ensures Inv(Get(s, k).next, capacity)
  {
  }

  lemma RemoveInv<K, T>(s: Lru<K, T>, capacity: nat, k: K)
    requires Inv(s, capacity)
    ensures Inv(Remove(s, k), capacity)
  {
    if k in s.entries { RemoveElementConsistent(s, k); }
  }

  lemma RemoveOldestInv<K, T>(s: Lru<K, T>, capacity: nat)
    requires Inv(s, capacity)
    ensures Inv(RemoveOldest(s), capacity)
  {
    RemoveOldestConsistent(s);
  }

  lemma {:induction false} DistinctCard<K>(xs: seq<K>)
    requires Distinct(xs)
    ensures |set x | x in xs| == |xs|
  {
    if xs != [] {
      DistinctCard(xs[1..]);
      assert (set x | x in xs) == {xs[0]} + (set x | x in xs[1..]);
    }
  }

  /** The list length reported by len equals the number of mapped keys. */
  lemma LenIsMapSize<K, T>(s: Lru<K, T>)
    requires Consistent(s)
    ensures |s.entries| == Len(s)
  {
    DistinctCard(s.order);
    assert s.entries.Keys == set x | x in s.order;
  }

  // ---------------------------------------------------------------------------
  // What get, put and remove promise.

  /** After put(k, v), get(k) returns (v, true). */
  lemma GetAfterPut<K, T>(s: Lru<K, T>, capacity: nat, k: K, v: Value<T>)
    requires Inv(s, capacity)
    ensures Get(Put(s, capacity, k, v), k).value == v
    ensures Get(Put(s, capacity, k, v), k).ok
  {
    if k !in s.entries {
      var pushed := Lru([k] + s.order, s.entries[k := v]);
      if capacity != 0 && |pushed.order| > capacity {
        assert pushed.order[|pushed.order| - 1] != k;
      }
    }
  }

  /** After remove(k), get(k) returns (nil, false) and leaves the store as it is. */
  lemma GetAfterRemove<K, T>(s: Lru<K, T>, k: K)
    ensures Get(Remove(s, k), k) == Lookup(Remove(s, k), Nil, false)
  {
  }

  /** put on an existing key replaces its value, moves it to the front, keeps len. */
  lemma PutExisting<K, T>(s: Lru<K, T>, capacity: nat, k: K, v: Value<T>)
    requires Inv(s, capacity) && k in s.entries
    ensures Put(s, capacity, k, v).order == [k] + Without(s.order, k)
    ensures Put(s, capacity, k, v).entries == s.entries[k := v]
    ensures Len(Put(s, capacity, k, v)) == Len(s)
  {
  }

  /** put on a new key with capacity 0 never evicts: len grows by one. */
  lemma PutNewUnbounded<K, T>(s: Lru<K, T>, k: K, v: Value<T>)
    requires k !in s.entries
    ensures Put(s, 0, k, v) == Lru([k] + s.order, s.entries[k := v])
    ensures Len(Put(s, 0, k, v)) == Len(s) + 1
  {
  }

  /** put on a new key into a full store evicts exactly the back entry. */
  lemma PutNewEvictsBack<K, T>(s: Lru<K, T>, capacity: nat, k: K, v: Value<T>)
    requires Inv(s, capacity) && capacity > 0 && k !in s.entries && Len(s) == capacity
    ensures Put(s, capacity, k, v).order == [k] + s.order[..|s.order| - 1]
    ensures Put(s, capacity, k, v).entries == s.entries[k := v] - {s.order[|s.order| - 1]}
    ensures Len(Put(s, capacity, k, v)) == capacity
  {
    var pushed := Lru([k] + s.order, s.entries[k := v]);
    var back := s.order[|s.order| - 1];
    assert pushed.order[|pushed.order| - 1] == back;
    assert Put(s, capacity, k, v) == RemoveElement(pushed, back);
    DistinctCons(k, s.order);
    WithoutLast(pushed.order);
    assert pushed.order[..|pushed.order| - 1] == [k] + s.order[..|s.order| - 1];
  }

  lemma DistinctCons<K>(x: K, xs: seq<K>)
    requires Distinct(xs) && x !in xs
    ensures Distinct([x] + xs)
  {
    var ys := [x] + xs;
    forall i, j | 0 <= i < j < |ys| ensures ys[i] != ys[j] {
      assert ys[j] == xs[j - 1];
      if i > 0 {
        assert ys[i] == xs[i - 1];
      }
    }
  }

  /** put on a new key into a store below capacity adds it at the front, evicting nothing. */
  lemma PutNewBelowCapacity<K, T>(s: Lru<K, T>, capacity: nat, k: K, v: Value<T>)
    requires k !in s.entries && (capacity == 0 || Len(s) < capacity)
    ensures Put(s, capacity, k, v) == Lru([k] + s.order, s.entries[k := v])
  {
  }

  /** A hit moves the key to the front and changes no key and no value;
      a miss returns (nil, false) and changes nothing. */
  lemma GetMovesToFront<K, T>(s: Lru<K, T>, k: K)
    requires Consistent(s)
    ensures Get(s, k).ok <==> k in s.entries
    ensures Get(s, k).ok ==> Get(s, k).next.order == [k] + Without(s.order, k)
                             && Get(s, k).value == s.entries[k]
    ensures Get(s, k).next.entries == s.entries
    ensures Len(Get(s, k).next) == Len(s)
    ensures !Get(s, k).ok ==> Get(s, k) == Lookup(s, Nil, false)
  {
  }

  /** remove of an absent key and removeOldest of an empty store change nothing. */
  lemma RemovalsOfNothing<K, T>(s: Lru<K, T>, k: K)
    ensures k !in s.entries ==> Remove(s, k) == s
    ensures s.order == [] ==> RemoveOldest(s) == s
  {
  }

  /** A put into a store holding at most the key itself leaves exactly that key. */
  lemma PutOnlyKey<K, T>(s: Lru<K, T>, capacity: nat, k: K, v: Value<T>)
    requires Consistent(s) && (s.order == [] || s.order == [k])
    ensures Put(s, capacity, k, v) == Lru([k], map[k := v])
  {
    if s.order == [] {
      assert s.entries == map[];
    } else {
      assert Without(s.order, k) == [];
      assert s.entries.Keys == {k};
      assert s.entries[k := v] == map[k := v];
    }
  }

  /** Repeated puts of one key leave one entry holding the last value. */
  lemma {:induction false} PutsOfOneKey<K, T>(s: Lru<K, T>, capacity: nat, k: K, vs: seq<Value<T>>)
    requires Consistent(s) && (s.order == [] || s.order == [k])
    requires s.order != [] || vs != []
    ensures var r := PutAll(s, capacity, KeyedBy(k, vs));
            r.order == [k] && r.entries.Keys == {k}
            && (vs != [] ==> r.entries[k] == vs[|vs| - 1])
    decreases |vs|
  {
    if vs == [] {
      assert s.entries.Keys == {k};
    } else {
      var s1 := Put(s, capacity, k, vs[0]);
      PutOnlyKey(s, capacity, k, vs[0]);
      assert KeyedBy(k, vs)[1..] == KeyedBy(k, vs[1..]);
      assert PutAll(s, capacity, KeyedBy(k, vs)) == PutAll(s1, capacity, KeyedBy(k, vs[1..]));
      PutsOfOneKey(s1, capacity, k, vs[1..]);
      if |vs| == 1 {
        assert vs[1..] == [];
      } else {
        assert vs[1..][|vs[1..]| - 1] == vs[|vs| - 1];
      }
    }
  }

  /** The puts of one key with the given values, in order. */
  function KeyedBy<K, T>(k: K, vs: seq<Value<T>>): (r: seq<KeyVal<K, T>>)
    ensures |r| == |vs| && forall i :: 0 <= i < |vs| ==> r[i] == KeyVal(k, vs[i])
  {
    if vs == [] then [] else [KeyVal(k, vs[0])] + KeyedBy(k, vs[1..])
  }

  /** The keys of a list of puts. */
  function KeysOf<K, T>(kvs: seq<KeyVal<K, T>>): (r: seq<K>)
    ensures |r| == |kvs| && forall i :: 0 <= i < |kvs| ==> r[i] == kvs[i].key
  {
    if kvs == [] then [] else [kvs[0].key] + KeysOf(kvs[1..])
  }

  /** Inserting distinct keys one after another into an empty store of capacity n > 0
      leaves exactly the last min(n, |keys|) of them, most recent first. */
  lemma {:induction false} DistinctInsertsKeepNewest<K, T>(capacity: nat, kvs: seq<KeyVal<K, T>>)
    requires capacity > 0 && Distinct(KeysOf(kvs))
    ensures var r := PutAll(Empty(), capacity, kvs);
            var m := if |kvs| < capacity then |kvs| else capacity;
            r.order == Reverse(KeysOf(kvs)[|kvs| - m..]) && Len(r) == m && Inv(r, capacity)
    decreases |kvs|
  {
    if kvs != [] {
      var n := |kvs|;
      var ks := KeysOf(kvs);
      var init := kvs[..n - 1];
      assert KeysOf(init) == ks[..n - 1];
      DistinctPrefix(ks, n - 1);
      DistinctInsertsKeepNewest(capacity, init);
      var prev := PutAll(Empty(), capacity, init);
      PutAllSnoc(Empty(), capacity, kvs);
      assert PutAll(Empty(), capacity, kvs) == Put(prev, capacity, ks[n - 1], kvs[n - 1].value);
      var mp := if n - 1 < capacity then n - 1 else capacity;
      var recent := ks[n - 1 - mp..n - 1];
      assert KeysOf(init)[n - 1 - mp..] == recent;
      assert prev.order == Reverse(recent);
      NewestWindow(ks, capacity);
      InsertStep(prev, capacity, recent, ks[n - 1], kvs[n - 1].value);
    }
  }

  lemma DistinctPrefix<K>(xs: seq<K>, n: nat)
    requires Distinct(xs) && n <= |xs|
    ensures Distinct(xs[..n])
  {
    assert forall i :: 0 <= i < n ==> xs[..n][i] == xs[i];
  }

  /** How the window of the newest keys moves when one more key arrives. */
  lemma NewestWindow<K>(ks: seq<K>, capacity: nat)
    requires capacity > 0 && ks != [] && Distinct(ks)
    ensures var n := |ks|;
            var mp := if n - 1 < capacity then n - 1 else capacity;
            var m := if n < capacity then n else capacity;
            var recent := ks[n - 1 - mp..n - 1];
            && ks[n - 1] !in recent
            && ks[n - m..] == (if mp < capacity then recent + [ks[n - 1]] else recent[1..] + [ks[n - 1]])
  {
    var n := |ks|;
    var mp := if n - 1 < capacity then n - 1 else capacity;
    var recent := ks[n - 1 - mp..n - 1];
    forall i | 0 <= i < |recent| ensures recent[i] != ks[n - 1] {
      assert recent[i] == ks[n - 1 - mp + i];
    }
    if mp < capacity {
      assert ks[n - n..] == ks[..n - 1] + [ks[n - 1]];
    } else {
      assert recent[1..] == ks[n - capacity..n - 1];
      assert ks[n - capacity..] == ks[n - capacity..n - 1] + [ks[n - 1]];
    }
  }

  /** One insertion step of DistinctInsertsKeepNewest. */
  lemma InsertStep<K, T>(prev: Lru<K, T>, capacity: nat, recent: seq<K>, k: K, v: Value<T>)
    requires Inv(prev, capacity) && capacity > 0 && |recent| <= capacity
    requires prev.order == Reverse(recent) && k !in recent
    ensures var r := Put(prev, capacity, k, v);
            Inv(r, capacity)
            && r.order == Reverse(if |recent| < capacity then recent + [k] else recent[1..] + [k])
  {
    ReverseMembers(recent);
    assert k !in prev.entries;
    PutInv(prev, capacity, k, v);
    if |recent| < capacity {
      PutNewBelowCapacity(prev, capacity, k, v);
      ReverseSnoc(recent, k);
    } else {
      PutNewEvictsBack(prev, capacity, k, v);
      ReverseSnoc(recent[1..], k);
      ReverseDropFirst(recent);
    }
  }

  lemma {:induction false} PutAllSnoc<K, T>(s: Lru<K, T>, capacity: nat, kvs: seq<KeyVal<K, T>>)
    requires kvs != []
    ensures PutAll(s, capacity, kvs)
            == Put(PutAll(s, capacity, kvs[..|kvs| - 1]), capacity, kvs[|kvs| - 1].key, kvs[|kvs| - 1].value)
  {
    var n := |kvs|;
    assert kvs == kvs[..n - 1] + [kvs[n - 1]];
    PutAllAppend(s, capacity, kvs[..n - 1], [kvs[n - 1]]);
  }

  /** Putting a + b is putting a, then b. */
  lemma {:induction false} PutAllAppend<K, T>(s: Lru<K, T>, capacity: nat, a: seq<KeyVal<K, T>>, b: seq<KeyVal<K, T>>)
    ensures PutAll(s, capacity, a + b) == PutAll(PutAll(s, capacity, a), capacity, b)
    decreases |a|
  {
    if a == [] {
      assert a + b == b;
    } else {
      assert (a + b)[0] == a[0] && (a + b)[1..] == a[1..] + b;
      PutAllAppend(Put(s, capacity, a[0].key, a[0].value), capacity, a[1..], b);
    }
  }

  lemma {:induction false} ReverseMembers<K>(xs: seq<K>)
    ensures forall x | x in Reverse(xs) :: x in xs
    ensures forall x | x in xs :: x in Reverse(xs)
  {
    if xs != [] { ReverseMembers(xs[1..]); }
  }

  lemma {:induction false} ReverseSnoc<K>(xs: seq<K>, x: K)
    ensures Reverse(xs + [x]) == [x] + Reverse(xs)
  {
    if xs != [] {
      assert (xs + [x])[1..] == xs[1..] + [x];
      ReverseSnoc(xs[1..], x);
    } else {
      assert [x][1..] == [];
    }
  }

  lemma {:induction false} ReverseDropFirst<K>(xs: seq<K>)
    requires xs != []
    ensures Reverse(xs[1..]) == Reverse(xs)[..|xs| - 1]
  {
  }

  /** put keeps every other key and its value, unless that key is the back entry
      evicted to make room for a new key. */
  lemma PutKeepsOthers<K, T>(s: Lru<K, T>, capacity: nat, k: K, v: Value<T>, j: K)
    requires Inv(s, capacity) && j != k && j in s.entries
    requires k in s.entries || capacity == 0 || Len(s) < capacity || j != s.order[|s.order| - 1]
    ensures j in Put(s, capacity, k, v).entries
    ensures Put(s, capacity, k, v).entries[j] == s.entries[j]
  {
    PutEntries(s, capacity, k, v);
  }

  /** The map after put: the key bound to the value and, when a new key overflows the
      capacity, the back entry deleted. */
  lemma PutEntries<K, T>(s: Lru<K, T>, capacity: nat, k: K, v: Value<T>)
    ensures var evicts := k !in s.entries && capacity != 0 && |s.order| + 1 > capacity;
            && (evicts ==> s.order != [] && Put(s, capacity, k, v).entries == s.entries[k := v] - {s.order[|s.order| - 1]})
            && (!evicts ==> Put(s, capacity, k, v).entries == s.entries[k := v])
  {
    if k !in s.entries {
      var pushed := Lru([k] + s.order, s.entries[k := v]);
      if capacity != 0 && |pushed.order| > capacity {
        assert pushed.order[|pushed.order| - 1] == s.order[|s.order| - 1];
      }
    }
  }

  /** A key just put survives the next put of another key when the capacity is not one:
      re-putting the oldest key protects it, and the entry evicted is another one. */
  lemma RecentPutSurvives<K, T>(s: Lru<K, T>, capacity: nat, k: K, v: Value<T>, n: K, w: Value<T>)
    requires Inv(s, capacity) && capacity != 1 && n != k
    ensures var r := Put(Put(s, capacity, k, v), capacity, n, w);
            k in r.entries && r.entries[k] == v && n in r.entries && r.entries[n] == w
  {
    var s1 := Put(s, capacity, k, v);
    PutInv(s, capacity, k, v);
    GetAfterPut(s, capacity, k, v);
    GetAfterPut(s1, capacity, n, w);
    assert s1.order[0] == k;
    if n !in s1.entries && capacity != 0 && Len(s1) >= capacity {
      assert s1.order[|s1.order| - 1] != k by {
        assert Distinct(s1.order) && |s1.order| >= 2;
      }
    }
    PutKeepsOthers(s1, capacity, n, w, k);
  }
}

/** The eviction store as the source has it: an object whose list and map are
    updated in place, and released (both set to nil) by clear. */
module LruCache {
  import opened CacheTypes
  import opened LruModel

  class Store<K(==), T> {
    /** Maximum number of entries before an item is evicted; 0 means no limit. */
    const capacity: nat
    /** The recency list, index 0 at the front (most recently used). */
    var order: seq<K>
    /** The key-to-entry map. */
    var entries: map<K, Value<T>>
    /** True after clear, when the list and the map are nil until the next put. */
    var released: bool

    function View(): Lru<K, T>
      reads this
    {
      Lru(order, entries)
    }

    /** Map and list agree; a released store holds nothing. */
    ghost predicate Wellformed()
      reads this
    {
      Consistent(View()) && (released ==> order == [] && entries == map[])
    }

    ghost predicate Valid()
      reads this
    {
      Wellformed() && Inv(View(), capacity)
    }

    /** newCache */
    constructor (maxEntries: nat)
      ensures Valid() && capacity == maxEntries && View() == Empty() && !released
    {
      capacity := maxEntries;
      order := [];
      entries := map[];
      released := false;
    }

    method Put(k: K, v: Value<T>)
      requires Valid()
      modifies this
      ensures Valid() && !released
      ensures View() == LruModel.Put(old(View()), capacity, k, v)
    {
      PutInv(View(), capacity, k, v);
      if released {
        entries := map[];
        order := [];
        released := false;
      }
      if k in entries {
        order := [k] + Without(order, k);
        entries := entries[k := v];
        return;
      }
      order := [k] + order;
      entries := entries[k := v];
      if capacity != 0 && |order| > capacity {
        RemoveOldest();
      }
    }

    method Get(k: K) returns (v: Value<T>, ok: bool)
      requires Valid()
      modifies this
      ensures Valid() && released == old(released)
      ensures View() == LruModel.Get(old(View()), k).next
      ensures v == LruModel.Get(old(View()), k).value && ok == LruModel.Get(old(View()), k).ok
    {
      v, ok := Nil, false;
      if released {
        return;
      }
      if k in entries {
        order := [k] + Without(order, k);
        v, ok := entries[k], true;
      }
    }

    method Remove(k: K)
      requires Valid()
      modifies this
      ensures Valid() && released == old(released)
      ensures View() == LruModel.Remove(old(View()), k)
    {
      RemoveInv(View(), capacity, k);
      if released {
        return;
      }
      if k in entries {
        RemoveElement(k);
      }
    }

    method RemoveOldest()
      requires Wellformed()
      modifies this
      ensures Wellformed() && released == old(released)
      ensures View() == LruModel.RemoveOldest(old(View()))
      ensures old(order) != [] ==> |order| == |old(order)| - 1
    {
      RemoveOldestConsistent(View());
      if released {
        return;
      }
      if order != [] {
        RemoveElement(order[|order| - 1]);
      }
    }

    method RemoveElement(k: K)
      requires Wellformed() && k in entries
      modifies this
      ensures Wellformed() && released == old(released)
      ensures View() == LruModel.RemoveElement(old(View()), k)
    {
      RemoveElementConsistent(View(), k);
      order := Without(order, k);
      entries := entries - {k};
    }

    method Len() returns (n: nat)
      requires Valid()
      ensures n == LruModel.Len(View()) && n == |entries|
    {
      LenIsMapSize(View());
      if released {
        return 0;
      }
      n := |order|;
    }

    /** clear: releases both structures; a later put re-creates them. */
    method Clear()
      requires Valid()
      modifies this
      ensures Valid() && released && View() == Empty()
    {
      order := [];
      entries := map[];
      released := true;
    }
  }
}
