/** The loading cache: a basic cache whose GetBatch asks a caller-supplied loader for
    every key that missed or failed, merges the loaded values into the results, and
    hands the successful loads to a background write-back. */
module LruWithLoad {
  import opened CacheTypes
  import opened LruModel
  import Lru

  datatype LoaderResult<K, T> = LoaderResult(key: K, value: Value<T>, err: Option<Error>)

  /** What the caller-supplied loader does when invoked: it returns results and an
      error, or it faults (panics) with a message. */
  datatype LoaderBehaviour<K, T> =
    | Returns(results: seq<LoaderResult<K, T>>, err: Option<Error>)
    | Faults(detail: string)

  /** What the loading cache receives from the protected loader. */
  datatype LoaderReply<K, T> = LoaderReply(results: seq<LoaderResult<K, T>>, err: Option<Error>)

  /** The wrapper NewLoadingCache puts around the loader: a fault never escapes, it
      becomes the error "unexpected error: <detail>" with no results. */
  function Guarded<K, T>(b: LoaderBehaviour<K, T>): (r: LoaderReply<K, T>)
    ensures b.Faults? ==> r == LoaderReply([], Some(Unexpected(b.detail)))
    ensures b.Returns? ==> r == LoaderReply(b.results, b.err)
  {
    match b
    case Returns(results, err) => LoaderReply(results, err)
    case Faults(detail) => LoaderReply([], Some(Unexpected(detail)))
  }

  /** NewLoadingCache's checks: a context already done, a nil loader, then NewBasicCache's. */
  function ConfigureLoading(ctxDone: bool, hasLoader: bool, maxEntries: int, timeout: int): (r: Result<Lru.Config>)
    ensures ctxDone ==> r == Failure(InvalidContext)
    ensures !ctxDone && !hasLoader ==> r == Failure(InvalidLoader)
    ensures !ctxDone && hasLoader ==> r == Lru.Configure(ctxDone, maxEntries, timeout)
    ensures r.Success? <==> !ctxDone && hasLoader && maxEntries >= 0
  {
    if ctxDone then Failure(InvalidContext)
    else if !hasLoader then Failure(InvalidLoader)
    else Lru.Configure(ctxDone, maxEntries, timeout)
  }

  /** A result the loader is asked to fill: it carries an error or was not found. */
  predicate NeedsLoad<K, T>(r: CacheResult<K, T>)
  {
    r.err.Some? || !r.ok
  }

  /** The loader keys: the keys of the results that need a load, in result order. */
  function MissingKeys<K, T>(res: seq<CacheResult<K, T>>): (keys: seq<K>)
    ensures |keys| <= |res|
    decreases |res|
  {
    if res == [] then []
    else
      var last := res[|res| - 1];
      MissingKeys(res[..|res| - 1]) + (if NeedsLoad(last) then [last.key] else [])
  }

  /** Index of the first result with the given key, or |res| when there is none. */
  function FirstWithKey<K(==), T>(res: seq<CacheResult<K, T>>, k: K): (i: nat)
    ensures i <= |res|
    ensures i < |res| ==> res[i].key == k
    ensures forall j :: 0 <= j < i ==> res[j].key != k
  {
    if res == [] then 0
    else if res[0].key == k then 0
    else 1 + FirstWithKey(res[1..], k)
  }

  /** One loader result applied to a cache result: an error is recorded and clears the
      hit flag; otherwise the value is taken, and the hit flag set only for a non-nil value. */
  function ApplyLoad<K, T>(r: CacheResult<K, T>, lr: LoaderResult<K, T>): CacheResult<K, T>
  {
    if lr.err.Some? then r.(err := lr.err, ok := false)
    else if lr.value != Nil then r.(value := lr.value, ok := true)
    else r.(value := lr.value)
  }

  /** One loader result merged into the first result with an equal key (if any). */
  function MergeOne<K(==), T>(res: seq<CacheResult<K, T>>, lr: LoaderResult<K, T>): (merged: seq<CacheResult<K, T>>)
    ensures |merged| == |res|
    ensures forall j :: 0 <= j < |res| ==> merged[j].key == res[j].key
  {
    var i := FirstWithKey(res, lr.key);
    if i < |res| then res[i := ApplyLoad(res[i], lr)] else res
  }

  /** Every loader result merged, in loader order. */
  function MergeAll<K(==), T>(res: seq<CacheResult<K, T>>, loads: seq<LoaderResult<K, T>>)
    : (merged: seq<CacheResult<K, T>>)
    ensures |merged| == |res|
    ensures forall j :: 0 <= j < |res| ==> merged[j].key == res[j].key
    decreases |loads|
  {
    if loads == [] then res
    else MergeOne(MergeAll(res, loads[..|loads| - 1]), loads[|loads| - 1])
  }

  /** A loader result that is written back: it matched a result, has no error and a non-nil value. */
  predicate Cacheable<K(==), T>(res: seq<CacheResult<K, T>>, lr: LoaderResult<K, T>)
  {
    FirstWithKey(res, lr.key) < |res| && lr.err.None? && lr.value != Nil
  }

  /** The toCache list: the cacheable loader results, in loader order. */
  function ToCache<K(==), T>(res: seq<CacheResult<K, T>>, loads: seq<LoaderResult<K, T>>)
    : (toCache: seq<LoaderResult<K, T>>)
    decreases |loads|
  {
    if loads == [] then []
    else
      var last := loads[|loads| - 1];
      ToCache(res, loads[..|loads| - 1]) + (if Cacheable(res, last) then [last] else [])
  }

  /** The outcome of a loading GetBatch: the result, the keys the loader was asked for
      (None when it was not invoked) and the loads handed to the write-back. */
  datatype Loaded<K, T> = Loaded(result: Result<seq<CacheResult<K, T>>>, asked: Option<seq<K>>,
                                 toCache: seq<LoaderResult<K, T>>)

  /** The loading GetBatch after the wrapped cache's GetBatch has returned `inner`. */
  function LoadStep<K(==), T>(keys: seq<K>, inner: Result<seq<CacheResult<K, T>>>,
                              loader: seq<K> -> LoaderBehaviour<K, T>): Loaded<K, T>
  {
    if inner.Failure? then Loaded(Failure(inner.error), None, [])
    else if |inner.value| != |keys| then Loaded(Failure(Unknown), None, [])
    else
      var missing := MissingKeys(inner.value);
      if missing == [] then Loaded(Success(inner.value), None, [])
      else
        var reply := Guarded(loader(missing));
        if reply.err.Some? then Loaded(Failure(reply.err.value), Some(missing), [])
        else if |reply.results| != |missing| then Loaded(Failure(Unknown), Some(missing), [])
        else Loaded(Success(MergeAll(inner.value, reply.results)), Some(missing),
                    ToCache(inner.value, reply.results))
  }

  /** The puts the write-back performs, one per loaded entry, in order. */
  function WriteBackPuts<K, T>(toCache: seq<LoaderResult<K, T>>): (kvs: seq<KeyVal<K, T>>)
    ensures |kvs| == |toCache|
    ensures forall i :: 0 <= i < |toCache| ==> kvs[i] == KeyVal(toCache[i].key, toCache[i].value)
  {
    if toCache == [] then [] else [KeyVal(toCache[0].key, toCache[0].value)] + WriteBackPuts(toCache[1..])
  }

  // ---------------------------------------------------------------------------
  // The loops of GetBatch.

  /** Collects the loader keys. */
  method CollectMissing<K, T>(res: seq<CacheResult<K, T>>) returns (keys: seq<K>)
    ensures keys == MissingKeys(res)
  {
    keys := [];
    var i := 0;
    while i < |res|
      invariant 0 <= i <= |res|
      invariant keys == MissingKeys(res[..i])
    {
      assert res[..i + 1][..i] == res[..i];
      if res[i].err.Some? || !res[i].ok {
        keys := keys + [res[i].key];
      }
      i := i + 1;
    }
    assert res[..i] == res;
  }

  /** Merges the loader results into the results, in loader order, and collects toCache. */
  method Merge<K(==), T>(res: seq<CacheResult<K, T>>, loads: seq<LoaderResult<K, T>>)
    returns (merged: seq<CacheResult<K, T>>, toCache: seq<LoaderResult<K, T>>)
    ensures merged == MergeAll(res, loads)
    ensures toCache == ToCache(res, loads)
  {
    merged, toCache := res, [];
    var i := 0;
    while i < |loads|
      invariant 0 <= i <= |loads|
      invariant merged == MergeAll(res, loads[..i])
      invariant toCache == ToCache(res, loads[..i])
    {
      var lr := loads[i];
      MergeStep(res, loads, i);
      var j := FindKey(merged, lr.key);
      FirstWithKeyUnique(res, lr.key, j);
      ghost var before := merged;
      if j < |merged| {
        if lr.err.Some? {
          merged := merged[j := merged[j].(err := lr.err, ok := false)];
        } else {
          merged := merged[j := merged[j].(value := lr.value)];
          if lr.value != Nil {
            merged := merged[j := merged[j].(ok := true)];
            toCache := toCache + [lr];
          }
        }
        assert merged == before[j := ApplyLoad(before[j], lr)];
      }
      i := i + 1;
    }
    assert loads[..i] == loads;
  }

  /** One more loader result: merged into the results so far, and appended to toCache
      when it is cacheable. */
  lemma MergeStep<K, T>(res: seq<CacheResult<K, T>>, loads: seq<LoaderResult<K, T>>, i: nat)
    requires i < |loads|
    ensures MergeAll(res, loads[..i + 1]) == MergeOne(MergeAll(res, loads[..i]), loads[i])
    ensures ToCache(res, loads[..i + 1])
            == ToCache(res, loads[..i]) + (if Cacheable(res, loads[i]) then [loads[i]] else [])
  {
    assert loads[..i + 1][..i] == loads[..i];
  }

  /** The inner search of the merge: the first result with the key, or |res|. */
  method FindKey<K(==), T>(res: seq<CacheResult<K, T>>, k: K) returns (j: nat)
    ensures j == FirstWithKey(res, k)
  {
    j := 0;
    while j < |res| && res[j].key != k
      invariant 0 <= j <= |res|
      invariant forall m :: 0 <= m < j ==> res[m].key != k
    {
      j := j + 1;
    }
    FirstWithKeyUnique(res, k, j);
  }

  lemma FirstWithKeyUnique<K, T>(res: seq<CacheResult<K, T>>, k: K, j: nat)
    requires j <= |res| && (j < |res| ==> res[j].key == k)
    requires forall m :: 0 <= m < j ==> res[m].key != k
    ensures j == FirstWithKey(res, k)
  {
  }

  // ---------------------------------------------------------------------------
  // What the merge promises.

  /** The loader is asked for exactly the results that need a load: none of them when
      every result is a hit without error, and every key that missed or failed otherwise. */
  lemma {:induction false} MissingKeysExact<K, T>(res: seq<CacheResult<K, T>>)
    ensures MissingKeys(res) == [] <==> forall i :: 0 <= i < |res| ==> !NeedsLoad(res[i])
    ensures forall i :: 0 <= i < |res| && NeedsLoad(res[i]) ==> res[i].key in MissingKeys(res)
    ensures forall x | x in MissingKeys(res) :: exists i :: 0 <= i < |res| && NeedsLoad(res[i]) && res[i].key == x
    decreases |res|
  {
    if res != [] {
      var init := res[..|res| - 1];
      MissingKeysExact(init);
      assert forall i :: 0 <= i < |init| ==> init[i] == res[i];
    }
  }

  /** The write-back's puts from entry i on: the i-th put, then the rest. */
  lemma WriteBackStep<K, T>(s: LruModel.Lru<K, T>, capacity: nat, toCache: seq<LoaderResult<K, T>>, i: nat)
    requires i < |toCache|
    ensures PutAll(s, capacity, WriteBackPuts(toCache[i..]))
            == PutAll(Put(s, capacity, toCache[i].key, toCache[i].value), capacity, WriteBackPuts(toCache[i + 1..]))
  {
    assert toCache[i..][1..] == toCache[i + 1..];
  }

  /** The loader results that apply to one key, in loader order. */
  function LoadsFor<K(==), T>(loads: seq<LoaderResult<K, T>>, k: K): seq<LoaderResult<K, T>>
    decreases |loads|
  {
    if loads == [] then []
    else
      var last := loads[|loads| - 1];
      LoadsFor(loads[..|loads| - 1], k) + (if last.key == k then [last] else [])
  }

  /** Successive loader results applied to one cache result. */
  function ApplyAll<K, T>(r: CacheResult<K, T>, lrs: seq<LoaderResult<K, T>>): CacheResult<K, T>
    decreases |lrs|
  {
    if lrs == [] then r else ApplyLoad(ApplyAll(r, lrs[..|lrs| - 1]), lrs[|lrs| - 1])
  }

  /** Merge works by key: the first result with a key receives every loader result for
      that key, in loader order; every other result is left exactly as it was. */
  lemma {:induction false} MergeAllAt<K, T>(res: seq<CacheResult<K, T>>, loads: seq<LoaderResult<K, T>>, i: nat)
    requires i < |res|
    ensures MergeAll(res, loads)[i]
            == if FirstWithKey(res, res[i].key) == i then ApplyAll(res[i], LoadsFor(loads, res[i].key)) else res[i]
    decreases |loads|
  {
    if loads != [] {
      var init := loads[..|loads| - 1];
      var lr := loads[|loads| - 1];
      MergeAllAt(res, init, i);
      var m := MergeAll(res, init);
      var key := res[i].key;
      var f := FirstWithKey(res, lr.key);
      FirstWithKeyUnique(m, lr.key, f);
      assert LoadsFor(loads, key) == LoadsFor(init, key) + (if lr.key == key then [lr] else []);
      if f == i {
        assert MergeAll(res, loads)[i] == ApplyLoad(m[i], lr);
        var xs := LoadsFor(init, key) + [lr];
        assert xs[..|xs| - 1] == LoadsFor(init, key);
      } else {
        assert MergeAll(res, loads)[i] == m[i];
        if FirstWithKey(res, key) == i {
          assert lr.key != key;
          assert LoadsFor(loads, key) == LoadsFor(init, key);
        }
      }
    }
  }

  /** toCache holds exactly the loader results that matched a result, carry no error and
      a non-nil value. */
  lemma {:induction false} ToCacheExact<K, T>(res: seq<CacheResult<K, T>>, loads: seq<LoaderResult<K, T>>)
    ensures forall lr | lr in ToCache(res, loads) :: lr in loads && Cacheable(res, lr)
    ensures forall lr | lr in loads && Cacheable(res, lr) :: lr in ToCache(res, loads)
    decreases |loads|
  {
    if loads != [] {
      var init := loads[..|loads| - 1];
      ToCacheExact(res, init);
      assert loads == init + [loads[|loads| - 1]];
    }
  }

  /** A batch in which every key hits without error is returned unchanged, and the
      loader is not invoked. */
  lemma AllHitsUnchanged<K, T>(keys: seq<K>, res: seq<CacheResult<K, T>>, loader: seq<K> -> LoaderBehaviour<K, T>)
    requires |res| == |keys|
    requires forall i :: 0 <= i < |res| ==> res[i].ok && res[i].err.None?
    ensures LoadStep(keys, Success(res), loader) == Loaded(Success(res), None, [])
  {
    MissingKeysExact(res);
  }

  /** Every failure fails the whole call with no results and nothing to write back:
      the wrapped cache's error, a result count that differs from the key count, the
      loader's error, or a loader result count that differs from the loader key count. */
  lemma FailuresFailWhole<K, T>(keys: seq<K>, inner: Result<seq<CacheResult<K, T>>>,
                                loader: seq<K> -> LoaderBehaviour<K, T>)
    ensures var l := LoadStep(keys, inner, loader);
            && (l.result.Failure? ==> l.toCache == [])
            && (inner.Failure? ==> l.result == Failure(inner.error) && l.asked == None)
            && (inner.Success? && |inner.value| != |keys| ==> l.result == Failure(Unknown) && l.asked == None)
            && (l.asked.Some? ==> l.asked.value == MissingKeys(inner.value) && l.asked.value != [])
            && (l.asked.Some? && Guarded(loader(l.asked.value)).err.Some? ==>
                  l.result == Failure(Guarded(loader(l.asked.value)).err.value))
            && ((l.asked.Some? && Guarded(loader(l.asked.value)).err.None?
                 && |Guarded(loader(l.asked.value)).results| != |l.asked.value|) ==> l.result == Failure(Unknown))
  {
  }

  /** A successful call returns one result per requested key, each result keeping its key. */
  lemma SuccessKeepsShape<K, T>(keys: seq<K>, inner: Result<seq<CacheResult<K, T>>>,
                                loader: seq<K> -> LoaderBehaviour<K, T>)
    requires LoadStep(keys, inner, loader).result.Success?
    ensures var out := LoadStep(keys, inner, loader).result.value;
            && inner.Success? && |out| == |keys|
            && forall i :: 0 <= i < |out| ==> out[i].key == inner.value[i].key
  {
  }

  /** A miss that the loader fills: Get returns the loaded value as found, and the load
      is queued for the write-back. */
  lemma LoadedMissIsFound<K, T>(k: K, v: Value<T>, loader: seq<K> -> LoaderBehaviour<K, T>)
    requires v != Nil && loader([k]) == Returns([LoaderResult(k, v, None)], None)
    ensures var l := LoadStep([k], Success([CacheResult(k, Nil, false, None)]), loader);
            && l.asked == Some([k])
            && FirstResult(l.result) == GetOutcome(v, true, None)
            && l.toCache == [LoaderResult(k, v, None)]
  {
    var res := [CacheResult(k, Nil, false, None)];
    assert MissingKeys(res) == [k] by {
      assert res[..0] == [];
    }
    var loads := [LoaderResult(k, v, None)];
    assert loads[..0] == [];
    assert MergeAll(res, loads) == [CacheResult(k, v, true, None)];
    assert ToCache(res, loads) == loads;
  }

  /** A loader that faults makes Get return (nil, false, "unexpected error: ..."). */
  lemma LoaderFaultSurfaces<K, T>(k: K, detail: string, loader: seq<K> -> LoaderBehaviour<K, T>)
    requires loader([k]) == Faults(detail)
    ensures var l := LoadStep([k], Success([CacheResult<K, T>.CacheResult(k, Nil, false, None)]), loader);
            FirstResult(l.result) == GetOutcome(Nil, false, Some(Unexpected(detail))) && l.toCache == []
  {
    var res := [CacheResult<K, T>.CacheResult(k, Nil, false, None)];
    assert MissingKeys(res) == [k] by {
      assert res[..0] == [];
    }
  }

  /** A Get that misses, is loaded and written back is followed by a Get that hits the
      cache with the same value without invoking the loader. */
  lemma SecondGetHitsCache<K, T>(s: LruModel.Lru<K, T>, capacity: nat, k: K, v: Value<T>,
                                 loader: seq<K> -> LoaderBehaviour<K, T>)
    requires Inv(s, capacity) && k !in s.entries
    requires v != Nil && loader([k]) == Returns([LoaderResult(k, v, None)], None)
    ensures var first := Lru.GetBatchStep(s, false, false, [k], Replied);
            var l1 := LoadStep([k], first.out, loader);
            var warmed := PutAll(first.next, capacity, WriteBackPuts(l1.toCache));
            var second := Lru.GetBatchStep(warmed, false, false, [k], Replied);
            var l2 := LoadStep([k], second.out, loader);
            && FirstResult(l1.result) == GetOutcome(v, true, None)
            && l2.asked == None
            && FirstResult(l2.result) == GetOutcome(v, true, None)
  {
    Lru.GetOneKey(s, capacity, k);
    var first := Lru.GetBatchStep(s, false, false, [k], Replied);
    LoadedMissIsFound(k, v, loader);
    var l1 := LoadStep([k], first.out, loader);
    assert WriteBackPuts(l1.toCache) == [KeyVal(k, v)];
    var warmed := Put(first.next, capacity, k, v);
    assert PutAll(first.next, capacity, [KeyVal(k, v)]) == warmed;
    PutInv(first.next, capacity, k, v);
    GetAfterPut(first.next, capacity, k, v);
    GetMovesToFront(warmed, k);
    Lru.GetOneKey(warmed, capacity, k);
    var second := Lru.GetBatchStep(warmed, false, false, [k], Replied);
    AllHitsUnchanged([k], second.out.value, loader);
  }

  // ---------------------------------------------------------------------------

  /** The loading cache object: a basic cache and the loader behind it. */
  class LoadingCache<K(==), T> {
    const cache: Lru.BasicCache<K, T>
    const loader: seq<K> -> LoaderBehaviour<K, T>

    ghost predicate Valid()
      reads this, cache, cache.store
    {
      cache.Valid()
    }

    constructor (cache: Lru.BasicCache<K, T>, loader: seq<K> -> LoaderBehaviour<K, T>)
      requires cache.Valid()
      ensures Valid() && this.cache == cache && this.loader == loader
    {
      this.cache := cache;
      this.loader := loader;
    }

    /** `asked` records the keys the loader was called with, if it was called at all. */
    method GetBatch(ctxDone: bool, keys: seq<K>, wait: Wait)
      returns (r: Result<seq<CacheResult<K, T>>>, toCache: seq<LoaderResult<K, T>>, ghost asked: Option<seq<K>>)
      requires Valid()
      modifies cache.store
      ensures Valid()
      ensures ctxDone ==> r == Failure(InvalidContext) && toCache == [] && asked == None
                          && cache.State() == old(cache.State())
      ensures !ctxDone ==>
                var inner := Lru.GetBatchStep(old(cache.State()), cache.closed, false, keys, wait);
                var l := LoadStep(keys, inner.out, loader);
                cache.State() == inner.next && r == l.result && toCache == l.toCache && asked == l.asked
    {
      toCache, asked := [], None;
      if ctxDone {
        return Failure(InvalidContext), [], None;
      }
      var res := cache.GetBatch(false, keys, wait);
      if res.Failure? {
        return Failure(res.error), [], None;
      }
      if |res.value| != |keys| {
        return Failure(Unknown), [], None;
      }
      var loaderKeys := CollectMissing(res.value);
      if |loaderKeys| > 0 {
        asked := Some(loaderKeys);
        var reply := Guarded(loader(loaderKeys));
        if reply.err.Some? {
          return Failure(reply.err.value), [], asked;
        }
        if |reply.results| != |loaderKeys| {
          return Failure(Unknown), [], asked;
        }
        var merged;
        merged, toCache := Merge(res.value, reply.results);
        return Success(merged), toCache, asked;
      }
      r := res;
    }

    /** Get is GetBatch of the one key, unwrapped. */
    method Get(ctxDone: bool, k: K, wait: Wait) returns (o: GetOutcome<T>, toCache: seq<LoaderResult<K, T>>)
      requires Valid()
      modifies cache.store
      ensures Valid()
      ensures ctxDone ==> o == GetOutcome(Nil, false, Some(InvalidContext)) && cache.State() == old(cache.State())
      ensures !ctxDone ==>
                var inner := Lru.GetBatchStep(old(cache.State()), cache.closed, false, [k], wait);
                var l := LoadStep([k], inner.out, loader);
                cache.State() == inner.next && o == FirstResult(l.result) && toCache == l.toCache
    {
      var r;
      ghost var asked;
      r, toCache, asked := GetBatch(ctxDone, [k], wait);
      o := FirstResult(r);
    }

    /** The background write-back: puts each loaded entry in turn, ignoring errors. */
    method WriteBack(toCache: seq<LoaderResult<K, T>>)
      requires Valid()
      modifies cache.store
      ensures Valid()
      ensures !cache.closed && (forall i :: 0 <= i < |toCache| ==> toCache[i].value != Nil) ==>
                cache.State() == PutAll(old(cache.State()), cache.store.capacity, WriteBackPuts(toCache))
      ensures cache.closed ==> cache.State() == old(cache.State())
    {
      var i := 0;
      while i < |toCache|
        invariant 0 <= i <= |toCache|
        invariant Valid()
        invariant cache.closed ==> cache.State() == old(cache.State())
        invariant !cache.closed && (forall m :: 0 <= m < |toCache| ==> toCache[m].value != Nil) ==>
                    PutAll(old(cache.State()), cache.store.capacity, WriteBackPuts(toCache))
                    == PutAll(cache.State(), cache.store.capacity, WriteBackPuts(toCache[i..]))
      {
        Lru.PutOneKey(cache.State(), cache.store.capacity, cache.closed, toCache[i].key, toCache[i].value);
        WriteBackStep(cache.State(), cache.store.capacity, toCache, i);
        var _ := cache.Put(false, toCache[i].key, toCache[i].value, Replied);
        i := i + 1;
      }
    }

    method Put(k: K, v: Value<T>, wait: Wait) returns (err: Option<Error>)
      requires Valid()
      modifies cache.store
      ensures Valid()
      ensures Lru.Step(cache.State(), err)
              == Lru.PutBatchStep(old(cache.State()), cache.store.capacity, cache.closed, false, [KeyVal(k, v)], [wait])
    {
      err := cache.Put(false, k, v, wait);
    }

    method Remove(k: K, deadline: Deadline) returns (err: Option<Error>)
      requires Valid()
      modifies cache.store
      ensures Valid()
      ensures Lru.Step(cache.State(), err) == Lru.RemoveStep(old(cache.State()), cache.closed, k, deadline)
    {
      err := cache.Remove(k, deadline);
    }

    method Len(deadline: Deadline) returns (l: int, err: Option<Error>)
      requires Valid()
      ensures Lru.LenOutcome(l, err) == Lru.LenStep(cache.State(), cache.closed, deadline)
    {
      l, err := cache.Len(deadline);
    }

    method Close()
      requires Valid()
      modifies cache, cache.store
      ensures Valid() && cache.closed && cache.State() == Empty()
    {
      cache.Close();
    }
  }

  /** NewLoadingCache: validates the arguments, then wraps a new basic cache. */
  method NewLoadingCache<K(==), T>(ctxDone: bool, loader: Option<seq<K> -> LoaderBehaviour<K, T>>,
                                   maxEntries: int, timeout: int) returns (r: Result<LoadingCache<K, T>>)
    ensures r.Success? <==> ConfigureLoading(ctxDone, loader.Some?, maxEntries, timeout).Success?
    ensures r.Failure? ==> r.error == ConfigureLoading(ctxDone, loader.Some?, maxEntries, timeout).error
    ensures r.Success? ==> && fresh(r.value) && fresh(r.value.cache) && r.value.Valid()
                           && r.value.loader == loader.value && !r.value.cache.closed
                           && r.value.cache.State() == Empty()
                           && r.value.cache.store.capacity == maxEntries
                           && r.value.cache.timeout == Lru.NormalizeTimeout(timeout)
  {
    if ctxDone {
      return Failure(InvalidContext);
    }
    if loader.None? {
      return Failure(InvalidLoader);
    }
    var c := Lru.NewBasicCache<K, T>(ctxDone, maxEntries, timeout);
    if c.Failure? {
      return Failure(c.error);
    }
    var l := new LoadingCache(c.value, loader.value);
    r := Success(l);
  }
}
