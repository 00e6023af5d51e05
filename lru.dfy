/** The basic cache: a client facade whose every call is one request to an actor
    that owns an eviction store. The actor serves one request at a time, so each
    request is one step of a state machine over the store. The channels, the
    goroutine and the timers are replaced by explicit outcomes: a `Wait` or a
    `Deadline` says how the caller's wait for the reply ended. */
module Lru {
  import opened CacheTypes
  import opened LruModel
  import LruCache

  /** 24 hours as a Go time.Duration (nanoseconds): the "effectively infinite" timeout. */
  const DayNanos: int := 24 * 60 * 60 * 1_000_000_000

  /** A non-positive timeout becomes 24 hours; a positive one is kept. */
  function NormalizeTimeout(d: int): (r: int)
    ensures r > 0
    ensures d > 0 ==> r == d
    ensures d <= 0 ==> r == DayNanos
  {
    if d <= 0 then DayNanos else d
  }

  /** What a successfully constructed cache is configured with. */
  datatype Config = Config(capacity: nat, timeout: int)

  /** NewBasicCache's checks: a context already done, then a negative maxEntries. */
  function Configure(ctxDone: bool, maxEntries: int, timeout: int): (r: Result<Config>)
    ensures r.Success? <==> !ctxDone && maxEntries >= 0
    ensures ctxDone ==> r == Failure(InvalidContext)
    ensures !ctxDone && maxEntries < 0 ==> r == Failure(InvalidMaxEntries)
    ensures r.Success? ==> r.value.capacity == maxEntries && r.value.timeout > 0
    ensures r.Success? && timeout > 0 ==> r.value.timeout == timeout
  {
    if ctxDone then Failure(InvalidContext)
    else if maxEntries < 0 then Failure(InvalidMaxEntries)
    else Success(Config(maxEntries, NormalizeTimeout(timeout)))
  }

  /** A store transition together with what the caller receives. */
  datatype Step<K(==), T, R> = Step(next: Lru<K, T>, out: R)

  datatype LenOutcome = LenOutcome(len: int, err: Option<Error>)

  /** The actor's get handler: one lookup per requested key, in request order. */
  function Served<K(==), T>(s: Lru<K, T>, keys: seq<K>): Step<K, T, seq<CacheResult<K, T>>>
    decreases |keys|
  {
    if keys == [] then Step(s, [])
    else
      var prev := Served(s, keys[..|keys| - 1]);
      var k := keys[|keys| - 1];
      var look := LruModel.Get(prev.next, k);
      Step(look.next, prev.out + [CacheResult(k, look.value, look.ok, None)])
  }

  /** GetBatch: a done context first, then a closed cache, then the wait for the reply. */
  function GetBatchStep<K(==), T>(s: Lru<K, T>, closed: bool, ctxDone: bool, keys: seq<K>, wait: Wait)
    : Step<K, T, Result<seq<CacheResult<K, T>>>>
  {
    if ctxDone then Step(s, Failure(InvalidContext))
    else if closed then Step(s, Failure(AttemptToUseInvalidCache))
    else
      var served := Served(s, keys);
      match wait
      case Replied => Step(served.next, Success(served.out))
      case TimedOut(serviced) => Step(if serviced then served.next else s, Failure(Timeout))
      case Cancelled(serviced) => Step(if serviced then served.next else s, Failure(InvalidContext))
  }

  /** The wait for the i-th put of a batch; waits not given end with the reply. */
  function WaitAt(waits: seq<Wait>, i: nat): Wait
  {
    if i < |waits| then waits[i] else Replied
  }

  /** PutBatch's loop from entry i on: a nil value stops the batch, a closed cache
      refuses the request, otherwise the put handler applies one put per entry. */
  function PutEach<K(==), T>(s: Lru<K, T>, capacity: nat, closed: bool, vals: seq<KeyVal<K, T>>,
                             waits: seq<Wait>, i: nat): Step<K, T, Option<Error>>
    decreases |vals| - i
  {
    if i >= |vals| then Step(s, None)
    else if vals[i].value == Nil then Step(s, Some(InvalidValueToAddToCache))
    else if closed then Step(s, Some(AttemptToUseInvalidCache))
    else
      var applied := LruModel.Put(s, capacity, vals[i].key, vals[i].value);
      match WaitAt(waits, i)
      case Replied => PutEach(applied, capacity, closed, vals, waits, i + 1)
      case TimedOut(serviced) => Step(if serviced then applied else s, Some(Timeout))
      case Cancelled(serviced) => Step(if serviced then applied else s, Some(InvalidContext))
  }

  /** PutBatch: a done context first, then an empty batch (no request at all), then the loop. */
  function PutBatchStep<K(==), T>(s: Lru<K, T>, capacity: nat, closed: bool, ctxDone: bool,
                                  vals: seq<KeyVal<K, T>>, waits: seq<Wait>): Step<K, T, Option<Error>>
  {
    if ctxDone then Step(s, Some(InvalidContext))
    else if vals == [] then Step(s, None)
    else PutEach(s, capacity, closed, vals, waits, 0)
  }

  /** Remove: a closed cache refuses; otherwise the remove handler removes the key. */
  function RemoveStep<K(==), T>(s: Lru<K, T>, closed: bool, k: K, deadline: Deadline): Step<K, T, Option<Error>>
  {
    if closed then Step(s, Some(AttemptToUseInvalidCache))
    else match deadline
      case Met => Step(LruModel.Remove(s, k), None)
      case Missed(serviced) => Step(if serviced then LruModel.Remove(s, k) else s, Some(Timeout))
  }

  /** Len: a closed cache refuses with length 0; otherwise the len handler reports the store's len. */
  function LenStep<K(==), T>(s: Lru<K, T>, closed: bool, deadline: Deadline): LenOutcome
  {
    if closed then LenOutcome(0, Some(AttemptToUseInvalidCache))
    else match deadline
      case Met => LenOutcome(LruModel.Len(s), None)
      case Missed(_) => LenOutcome(0, Some(Timeout))
  }

  /** Index of the first nil value of a batch, or |vals| when there is none. */
  function FirstNil<K, T>(vals: seq<KeyVal<K, T>>): (j: nat)
    ensures j <= |vals|
    ensures j < |vals| ==> vals[j].value == Nil
    ensures forall i :: 0 <= i < j ==> vals[i].value != Nil
  {
    if vals == [] then 0
    else if vals[0].value == Nil then 0
    else 1 + FirstNil(vals[1..])
  }

  // ---------------------------------------------------------------------------
  // Properties of the request handlers.

  /** The get handler returns exactly one result per requested key, in request order:
      its key is the requested key, its hit flag says whether the key is stored, and its
      value is the stored value (nil on a miss). Only the recency order changes. */
  lemma {:induction false} ServedResults<K, T>(s: Lru<K, T>, capacity: nat, keys: seq<K>)
    requires Inv(s, capacity)
    ensures var st := Served(s, keys);
            && Inv(st.next, capacity)
            && st.next.entries == s.entries
            && |st.out| == |keys|
            && forall i :: 0 <= i < |keys| ==>
                 st.out[i] == CacheResult(keys[i], if keys[i] in s.entries then s.entries[keys[i]] else Nil,
                                          keys[i] in s.entries, None)
    decreases |keys|
  {
    if keys != [] {
      var init := keys[..|keys| - 1];
      ServedResults(s, capacity, init);
      var prev := Served(s, init);
      GetInv(prev.next, capacity, keys[|keys| - 1]);
    }
  }

  /** GetBatch's outcomes: a done context gives ErrInvalidContext and a closed cache
      ErrAttemptToUseInvalidCache, both without a request to the actor; a timeout or a
      cancellation fails the call, the request having been applied or not; a reply
      carries one result per key, in order, with the stored value and hit flag. No
      outcome changes an entry. */
  lemma GetBatchResults<K, T>(s: Lru<K, T>, capacity: nat, closed: bool, ctxDone: bool, keys: seq<K>, wait: Wait)
    requires Inv(s, capacity)
    ensures var st := GetBatchStep(s, closed, ctxDone, keys, wait);
            && Inv(st.next, capacity)
            && st.next.entries == s.entries
            && (ctxDone ==> st == Step(s, Failure(InvalidContext)))
            && (!ctxDone && closed ==> st == Step(s, Failure(AttemptToUseInvalidCache)))
            && (!ctxDone && !closed && wait.TimedOut? ==> st.out == Failure(Timeout))
            && (!ctxDone && !closed && wait.Cancelled? ==> st.out == Failure(InvalidContext))
            && (!ctxDone && !closed && !wait.Replied? && !wait.serviced ==> st.next == s)
            && (!ctxDone && !closed && wait.Replied? ==>
                  && st.out.Success?
                  && |st.out.value| == |keys|
                  && forall i :: 0 <= i < |keys| ==>
                       st.out.value[i] == CacheResult(keys[i], if keys[i] in s.entries then s.entries[keys[i]] else Nil,
                                                      keys[i] in s.entries, None))
  {
    ServedResults(s, capacity, keys);
  }

  /** A one-key GetBatch answered by the actor: the single result says whether the key
      is stored and with what value; no entry changes. */
  lemma GetOneKey<K, T>(s: Lru<K, T>, capacity: nat, k: K)
    requires Inv(s, capacity)
    ensures var st := GetBatchStep(s, false, false, [k], Replied);
            && st.out == Success([CacheResult(k, if k in s.entries then s.entries[k] else Nil, k in s.entries, None)])
            && Inv(st.next, capacity) && st.next.entries == s.entries
  {
    GetBatchResults(s, capacity, false, false, [k], Replied);
    var st := GetBatchStep(s, false, false, [k], Replied);
    assert st.out.value == [st.out.value[0]];
  }

  /** PutBatch fails fast at the first nil value and keeps the puts before it (no rollback);
      a batch without nil values applies every put in order, and an empty one changes nothing. */
  lemma {:induction false} PutBatchNoRollback<K, T>(s: Lru<K, T>, capacity: nat, vals: seq<KeyVal<K, T>>)
    ensures var st := PutBatchStep(s, capacity, false, false, vals, []);
            var j := FirstNil(vals);
            && st.next == PutAll(s, capacity, vals[..j])
            && st.out == (if j < |vals| then Some(InvalidValueToAddToCache) else None)
  {
    if vals != [] {
      PutEachFrom(s, capacity, vals, 0);
      assert vals[0..] == vals;
    }
  }

  lemma {:induction false} PutEachFrom<K, T>(s: Lru<K, T>, capacity: nat, vals: seq<KeyVal<K, T>>, i: nat)
    requires i <= |vals|
    ensures var st := PutEach(s, capacity, false, vals, [], i);
            var j := FirstNil(vals[i..]);
            && st.next == PutAll(s, capacity, vals[i..][..j])
            && st.out == (if j < |vals| - i then Some(InvalidValueToAddToCache) else None)
    decreases |vals| - i
  {
    if i == |vals| {
      assert vals[i..] == [];
    } else if vals[i].value == Nil {
      assert vals[i..][0] == vals[i];
      assert vals[i..][..0] == [];
    } else {
      var applied := LruModel.Put(s, capacity, vals[i].key, vals[i].value);
      PutEachFrom(applied, capacity, vals, i + 1);
      var rest := vals[i..];
      assert rest[0] == vals[i] && rest[1..] == vals[i + 1..];
      var j := FirstNil(vals[i + 1..]);
      assert FirstNil(rest) == 1 + j;
      var done := rest[..1 + j];
      assert done[0] == vals[i] && done[1..] == vals[i + 1..][..j];
      assert PutAll(s, capacity, done) == PutAll(applied, capacity, done[1..]);
    }
  }

  /** A one-entry PutBatch whose reply arrives: a nil value is refused, a closed cache
      refuses, otherwise the store performs exactly one put. */
  lemma PutOneKey<K, T>(s: Lru<K, T>, capacity: nat, closed: bool, k: K, v: Value<T>)
    ensures PutBatchStep(s, capacity, closed, false, [KeyVal(k, v)], [Replied])
            == if v == Nil then Step(s, Some(InvalidValueToAddToCache))
               else if closed then Step(s, Some(AttemptToUseInvalidCache))
               else Step(LruModel.Put(s, capacity, k, v), None)
  {
    if v != Nil && !closed {
      var applied := LruModel.Put(s, capacity, k, v);
      assert PutEach(applied, capacity, closed, [KeyVal(k, v)], [Replied], 1) == Step(applied, None);
    }
  }

  /** After Close every call reports ErrAttemptToUseInvalidCache (Len with 0) and changes
      nothing; the checks of a done context and of nil values come first, and an empty
      PutBatch sends no request and succeeds. */
  lemma ClosedRejects<K, T>(s: Lru<K, T>, capacity: nat, keys: seq<K>, wait: Wait, k: K,
                            deadline: Deadline, vals: seq<KeyVal<K, T>>, waits: seq<Wait>)
    ensures GetBatchStep(s, true, false, keys, wait) == Step(s, Failure(AttemptToUseInvalidCache))
    ensures LenStep(s, true, deadline) == LenOutcome(0, Some(AttemptToUseInvalidCache))
    ensures RemoveStep(s, true, k, deadline) == Step(s, Some(AttemptToUseInvalidCache))
    ensures PutBatchStep(s, capacity, true, false, vals, waits).next == s
    ensures vals != [] ==> PutBatchStep(s, capacity, true, false, vals, waits).out
                           == Some(if vals[0].value == Nil then InvalidValueToAddToCache
                                   else AttemptToUseInvalidCache)
    ensures vals == [] ==> PutBatchStep(s, capacity, true, false, vals, waits).out == None
  {
  }

  /** Put then Get through the cache returns the value put, found. */
  lemma GetAfterPutThroughCache<K, T>(s: Lru<K, T>, capacity: nat, k: K, v: Value<T>)
    requires Inv(s, capacity) && v != Nil
    ensures var p := PutBatchStep(s, capacity, false, false, [KeyVal(k, v)], [Replied]);
            && p.out == None
            && FirstResult(GetBatchStep(p.next, false, false, [k], Replied).out) == GetOutcome(v, true, None)
  {
    var after := LruModel.Put(s, capacity, k, v);
    assert PutEach(after, capacity, false, [KeyVal(k, v)], [Replied], 1) == Step(after, None);
    assert PutBatchStep(s, capacity, false, false, [KeyVal(k, v)], [Replied]).next == after;
    PutInv(s, capacity, k, v);
    GetAfterPut(s, capacity, k, v);
    ServedResults(after, capacity, [k]);
  }

  /** Remove then Get through the cache misses with no error. */
  lemma GetAfterRemoveThroughCache<K, T>(s: Lru<K, T>, capacity: nat, k: K)
    requires Inv(s, capacity)
    ensures var r := RemoveStep(s, false, k, Met);
            && r.out == None
            && FirstResult(GetBatchStep(r.next, false, false, [k], Replied).out) == GetOutcome(Nil, false, None)
  {
    RemoveInv(s, capacity, k);
    ServedResults(LruModel.Remove(s, k), capacity, [k]);
  }

  /** Len follows the store: a put of a new key counts one, removing it counts zero again. */
  lemma LenAfterPutAndRemove<K, T>(capacity: nat, k: K, v: Value<T>)
    requires v != Nil
    ensures var p := PutBatchStep(Empty(), capacity, false, false, [KeyVal(k, v)], [Replied]);
            && LenStep(p.next, false, Met) == LenOutcome(1, None)
            && LenStep(RemoveStep(p.next, false, k, Met).next, false, Met) == LenOutcome(0, None)
  {
    var after := LruModel.Put(Empty<K, T>(), capacity, k, v);
    assert after == Lru([k], map[k := v]);
    assert PutEach(after, capacity, false, [KeyVal(k, v)], [Replied], 1) == Step(after, None);
    assert Without([k], k) == [];
  }

  /** The basic cache object: an actor's store and the client calls that reach it. */
  class BasicCache<K(==), T> {
    /** The per-call timeout, in nanoseconds. */
    const timeout: int
    /** The store owned by the actor. */
    const store: LruCache.Store<K, T>
    /** True once the request channels are closed (Close, or the governing context ended). */
    var closed: bool

    ghost predicate Valid()
      reads this, store
    {
      store.Valid() && timeout > 0 && (closed ==> store.View() == Empty())
    }

    function State(): Lru<K, T>
      reads store
    {
      store.View()
    }

    constructor (config: Config)
      requires config.timeout > 0
      ensures Valid() && fresh(store) && !closed
      ensures State() == Empty() && store.capacity == config.capacity && timeout == config.timeout
    {
      timeout := config.timeout;
      store := new LruCache.Store(config.capacity);
      closed := false;
    }

    /** The actor's get handler: looks up each key in turn and collects the results. */
    method HandleGet(keys: seq<K>) returns (resp: seq<CacheResult<K, T>>)
      requires Valid() && !closed
      modifies store
      ensures Valid()
      ensures Step(State(), resp) == Served(old(State()), keys)
    {
      resp := [];
      var i := 0;
      while i < |keys|
        invariant 0 <= i <= |keys|
        invariant store.Valid()
        invariant Step(State(), resp) == Served(old(State()), keys[..i])
      {
        assert keys[..i + 1][..i] == keys[..i];
        var v, ok := store.Get(keys[i]);
        resp := resp + [CacheResult(keys[i], v, ok, None)];
        i := i + 1;
      }
      assert keys[..i] == keys;
    }

    method GetBatch(ctxDone: bool, keys: seq<K>, wait: Wait) returns (r: Result<seq<CacheResult<K, T>>>)
      requires Valid()
      modifies store
      ensures Valid()
      ensures Step(State(), r) == GetBatchStep(old(State()), closed, ctxDone, keys, wait)
    {
      if ctxDone {
        return Failure(InvalidContext);
      }
      if closed {
        return Failure(AttemptToUseInvalidCache);
      }
      match wait
      case Replied =>
        var resp := HandleGet(keys);
        r := Success(resp);
      case TimedOut(serviced) =>
        if serviced {
          var _ := HandleGet(keys);
        }
        r := Failure(Timeout);
      case Cancelled(serviced) =>
        if serviced {
          var _ := HandleGet(keys);
        }
        r := Failure(InvalidContext);
    }

    /** Get is GetBatch of the one key, unwrapped. */
    method Get(ctxDone: bool, k: K, wait: Wait) returns (o: GetOutcome<T>)
      requires Valid()
      modifies store
      ensures Valid()
      ensures var st := GetBatchStep(old(State()), closed, ctxDone, [k], wait);
              State() == st.next && o == FirstResult(st.out)
    {
      var r := GetBatch(ctxDone, [k], wait);
      o := FirstResult(r);
    }

    method PutBatch(ctxDone: bool, vals: seq<KeyVal<K, T>>, waits: seq<Wait>) returns (err: Option<Error>)
      requires Valid()
      modifies store
      ensures Valid()
      ensures Step(State(), err) == PutBatchStep(old(State()), store.capacity, closed, ctxDone, vals, waits)
    {
      if ctxDone {
        return Some(InvalidContext);
      }
      if |vals| == 0 {
        return None;
      }
      var i := 0;
      while i < |vals|
        invariant 0 <= i <= |vals|
        invariant Valid()
        invariant PutEach(old(State()), store.capacity, closed, vals, waits, 0)
                  == PutEach(State(), store.capacity, closed, vals, waits, i)
      {
        if vals[i].value == Nil {
          return Some(InvalidValueToAddToCache);
        }
        if closed {
          return Some(AttemptToUseInvalidCache);
        }
        match WaitAt(waits, i) {
          case Replied =>
            store.Put(vals[i].key, vals[i].value);
          case TimedOut(serviced) =>
            if serviced {
              store.Put(vals[i].key, vals[i].value);
            }
            return Some(Timeout);
          case Cancelled(serviced) =>
            if serviced {
              store.Put(vals[i].key, vals[i].value);
            }
            return Some(InvalidContext);
        }
        i := i + 1;
      }
      return None;
    }

    /** Put is PutBatch of the one pair. */
    method Put(ctxDone: bool, k: K, v: Value<T>, wait: Wait) returns (err: Option<Error>)
      requires Valid()
      modifies store
      ensures Valid()
      ensures Step(State(), err) == PutBatchStep(old(State()), store.capacity, closed, ctxDone, [KeyVal(k, v)], [wait])
    {
      err := PutBatch(ctxDone, [KeyVal(k, v)], [wait]);
    }

    method Remove(k: K, deadline: Deadline) returns (err: Option<Error>)
      requires Valid()
      modifies store
      ensures Valid()
      ensures Step(State(), err) == RemoveStep(old(State()), closed, k, deadline)
    {
      if closed {
        return Some(AttemptToUseInvalidCache);
      }
      match deadline
      case Met =>
        store.Remove(k);
        err := None;
      case Missed(serviced) =>
        if serviced {
          store.Remove(k);
        }
        err := Some(Timeout);
    }

    method Len(deadline: Deadline) returns (l: int, err: Option<Error>)
      requires Valid()
      ensures LenOutcome(l, err) == LenStep(State(), closed, deadline)
    {
      if closed {
        return 0, Some(AttemptToUseInvalidCache);
      }
      match deadline
      case Met =>
        var n := store.Len();
        l, err := n, None;
      case Missed(_) =>
        l, err := 0, Some(Timeout);
    }

    /** Close closes the request channels; the actor then stops and clears its store.
        Closing again changes nothing. Cancelling the governing context has the same effect. */
    method Close()
      requires Valid()
      modifies this, store
      ensures Valid() && closed && State() == Empty()
    {
      closed := true;
      store.Clear();
    }
  }

  /** NewBasicCache: validates the arguments, then starts a cache with an empty store. */
  method NewBasicCache<K(==), T>(ctxDone: bool, maxEntries: int, timeout: int) returns (r: Result<BasicCache<K, T>>)
    ensures r.Success? <==> Configure(ctxDone, maxEntries, timeout).Success?
    ensures r.Failure? ==> r.error == Configure(ctxDone, maxEntries, timeout).error
    ensures r.Success? ==> && fresh(r.value) && fresh(r.value.store) && r.value.Valid() && !r.value.closed
                           && r.value.State() == Empty()
                           && r.value.store.capacity == maxEntries
                           && r.value.timeout == NormalizeTimeout(timeout)
  {
    var config := Configure(ctxDone, maxEntries, timeout);
    if config.Failure? {
      return Failure(config.error);
    }
    var c := new BasicCache(config.value);
    r := Success(c);
  }
}
