/** The partitioned cache: a router that sends every key to the cache of the partition
    its partitioner names. The delegate caches are opaque handles of type C; what a
    delegate answers is given as a function of the handle and the request. */
module LruByPartition {
  import opened CacheTypes
  import LruModel
  import Lru

  /** One named partition and its cache (None for a nil cache). */
  datatype PartitionInfo<C> = PartitionInfo(name: string, cache: Option<C>)

  /** Every entry has a cache and no name repeats. */
  predicate WellFormedInfos<C>(infos: seq<PartitionInfo<C>>)
  {
    && (forall i :: 0 <= i < |infos| ==> infos[i].cache.Some?)
    && (forall i, j :: 0 <= i < j < |infos| ==> infos[i].name != infos[j].name)
  }

  /** The constructor's loop: entries in list order, the nil-cache check before the
      duplicate-name check of each entry. */
  function BuildTable<C>(infos: seq<PartitionInfo<C>>): (r: Result<map<string, C>>)
    ensures r.Failure? ==> r.error == PartitionWithNoCache || r.error == PartitionInfoHasDuplicates
    decreases |infos|
  {
    if infos == [] then Success(map[])
    else
      match BuildTable(infos[..|infos| - 1])
      case Failure(e) => Failure(e)
      case Success(m) =>
        var last := infos[|infos| - 1];
        if last.cache.None? then Failure(PartitionWithNoCache)
        else if last.name in m then Failure(PartitionInfoHasDuplicates)
        else Success(m[last.name := last.cache.value])
  }

  /** NewPartitionedCache's checks: a nil partitioner, an empty list, then the entries. */
  function ConfigurePartitions<C>(hasPartitioner: bool, infos: seq<PartitionInfo<C>>): (r: Result<map<string, C>>)
  {
    if !hasPartitioner then Failure(InvalidPartitioner)
    else if |infos| == 0 then Failure(InvalidPartitionInfo)
    else BuildTable(infos)
  }

  /** getCacheForKey: an empty table is a closed router; a partitioner error is passed
      through; a partition name the table does not hold is refused. */
  function CacheForKey<K, C(==)>(table: map<string, C>, partitioner: K -> Result<string>, key: K): (r: Result<C>)
    ensures r.Success? ==> r.value in table.Values
  {
    if |table| == 0 then Failure(AttemptToUseInvalidCache)
    else
      match partitioner(key)
      case Failure(e) => Failure(e)
      case Success(part) => if part in table then Success(table[part]) else Failure(InvalidPartition)
  }

  /** A key with the cache it resolved to. */
  datatype Routed<K, C> = Routed(key: K, cache: C)

  /** The resolution of every key, in key order; the first key that fails stops it. */
  function Route<K, C(==)>(table: map<string, C>, partitioner: K -> Result<string>, keys: seq<K>)
    : (r: Result<seq<Routed<K, C>>>)
    decreases |keys|
  {
    if keys == [] then Success([])
    else
      match Route(table, partitioner, keys[..|keys| - 1])
      case Failure(e) => Failure(e)
      case Success(rs) =>
        var k := keys[|keys| - 1];
        match CacheForKey(table, partitioner, k)
        case Failure(e) => Failure(e)
        case Success(c) => Success(rs + [Routed(k, c)])
  }

  /** The keys sent to one delegate in one GetBatch. */
  datatype Group<K, C> = Group(cache: C, keys: seq<K>)

  /** Index of the group of a cache, or |groups| when it has none yet. */
  function GroupIndex<K, C(==)>(groups: seq<Group<K, C>>, c: C): (i: nat)
    ensures i <= |groups|
    ensures i < |groups| ==> groups[i].cache == c
    ensures forall j :: 0 <= j < i ==> groups[j].cache != c
  {
    if groups == [] then 0
    else if groups[0].cache == c then 0
    else 1 + GroupIndex(groups[1..], c)
  }

  /** One resolved key added to the groups: appended to its cache's group, or opening a new group. */
  function AddKey<K, C(==)>(groups: seq<Group<K, C>>, r: Routed<K, C>): seq<Group<K, C>>
  {
    var i := GroupIndex(groups, r.cache);
    if i < |groups| then groups[i := Group(r.cache, groups[i].keys + [r.key])]
    else groups + [Group(r.cache, [r.key])]
  }

  function Groups<K, C(==)>(rs: seq<Routed<K, C>>): seq<Group<K, C>>
    decreases |rs|
  {
    if rs == [] then [] else AddKey(Groups(rs[..|rs| - 1]), rs[|rs| - 1])
  }

  /** The responses of the groups' delegates, in group order: the first error fails the
      whole call, otherwise the results are concatenated. */
  function Gather<K, T, C>(groups: seq<Group<K, C>>, fetch: (C, seq<K>) -> Result<seq<CacheResult<K, T>>>)
    : Result<seq<CacheResult<K, T>>>
    decreases |groups|
  {
    if groups == [] then Success([])
    else
      match Gather(groups[..|groups| - 1], fetch)
      case Failure(e) => Failure(e)
      case Success(acc) =>
        var g := groups[|groups| - 1];
        match fetch(g.cache, g.keys)
        case Failure(e) => Failure(e)
        case Success(res) => Success(acc + res)
  }

  /** The partitioned GetBatch: a done context, then the resolution of every key, then one
      delegate GetBatch per group. */
  function PartitionedGetBatch<K, T, C(==)>(table: map<string, C>, partitioner: K -> Result<string>, ctxDone: bool,
                                            keys: seq<K>, fetch: (C, seq<K>) -> Result<seq<CacheResult<K, T>>>)
    : Result<seq<CacheResult<K, T>>>
  {
    if ctxDone then Failure(InvalidContext)
    else
      match Route(table, partitioner, keys)
      case Failure(e) => Failure(e)
      case Success(rs) => Gather(Groups(rs), fetch)
  }

  /** The sum of the partitions' lengths, over a set of partition names. */
  ghost function SumLens<C>(names: set<string>, table: map<string, C>, lenOf: C -> Lru.LenOutcome): int
    requires names <= table.Keys
    decreases names
  {
    if names == {} then 0
    else
      var n := PickName(names);
      lenOf(table[n]).len + SumLens(names - {n}, table, lenOf)
  }

  ghost function PickName(names: set<string>): (n: string)
    requires names != {}
    ensures n in names
  {
    var n :| n in names; n
  }

  // ---------------------------------------------------------------------------
  // Helper sequences for stating the grouping.

  function CachesOf<K, C>(rs: seq<Routed<K, C>>): (cs: seq<C>)
    ensures |cs| == |rs| && forall i :: 0 <= i < |rs| ==> cs[i] == rs[i].cache
  {
    seq(|rs|, i requires 0 <= i < |rs| => rs[i].cache)
  }

  function GroupCaches<K, C>(groups: seq<Group<K, C>>): (cs: seq<C>)
    ensures |cs| == |groups| && forall i :: 0 <= i < |groups| ==> cs[i] == groups[i].cache
  {
    seq(|groups|, i requires 0 <= i < |groups| => groups[i].cache)
  }

  /** The distinct elements of a sequence, in order of first appearance. */
  function FirstAppearances<C(==)>(cs: seq<C>): seq<C>
    decreases |cs|
  {
    if cs == [] then []
    else
      var seen := FirstAppearances(cs[..|cs| - 1]);
      seen + (if cs[|cs| - 1] in seen then [] else [cs[|cs| - 1]])
  }

  /** The keys, in order, that resolved to the cache c. */
  function KeysRoutedTo<K, C(==)>(rs: seq<Routed<K, C>>, c: C): seq<K>
    decreases |rs|
  {
    if rs == [] then []
    else KeysRoutedTo(rs[..|rs| - 1], c) + (if rs[|rs| - 1].cache == c then [rs[|rs| - 1].key] else [])
  }

  function TotalKeys<K, C>(groups: seq<Group<K, C>>): nat
    decreases |groups|
  {
    if groups == [] then 0 else TotalKeys(groups[..|groups| - 1]) + |groups[|groups| - 1].keys|
  }

  // ---------------------------------------------------------------------------
  // The router object.

  class PartitionedCache<K, T, C(==)> {
    const partitioner: K -> Result<string>
    /** The partition table; Close empties it. */
    var partitions: map<string, C>

    constructor (partitioner: K -> Result<string>, partitions: map<string, C>)
      ensures this.partitioner == partitioner && this.partitions == partitions
    {
      this.partitioner := partitioner;
      this.partitions := partitions;
    }

    /** GetBatch: resolves and groups the keys, then queries the groups' delegates. */
    method GetBatch(ctxDone: bool, keys: seq<K>, fetch: (C, seq<K>) -> Result<seq<CacheResult<K, T>>>)
      returns (r: Result<seq<CacheResult<K, T>>>)
      ensures r == PartitionedGetBatch(partitions, partitioner, ctxDone, keys, fetch)
    {
      if ctxDone {
        return Failure(InvalidContext);
      }
      var grouped := GroupKeys(keys);
      if grouped.Failure? {
        return Failure(grouped.error);
      }
      r := QueryGroups(grouped.value, fetch);
    }

    /** GetBatch's first loop: resolves each key in turn, stopping at the first key that
        does not resolve, and appends it to its cache's group or opens a new group. */
    method GroupKeys(keys: seq<K>) returns (r: Result<seq<Group<K, C>>>)
      ensures Route(partitions, partitioner, keys).Failure? ==>
                r == Failure(Route(partitions, partitioner, keys).error)
      ensures Route(partitions, partitioner, keys).Success? ==>
                r == Success(Groups(Route(partitions, partitioner, keys).value))
    {
      var groups: seq<Group<K, C>> := [];
      ghost var rs: seq<Routed<K, C>> := [];
      var i := 0;
      while i < |keys|
        invariant 0 <= i <= |keys|
        invariant Route(partitions, partitioner, keys[..i]) == Success(rs)
        invariant groups == Groups(rs)
      {
        assert keys[..i + 1][..i] == keys[..i];
        var c := CacheForKey(partitions, partitioner, keys[i]);
        if c.Failure? {
          RouteFailureSticks(partitions, partitioner, keys, i + 1);
          return Failure(c.error);
        }
        var j := FindGroup(groups, c.value);
        ghost var routed := Routed(keys[i], c.value);
        ghost var before := groups;
        if j < |groups| {
          groups := groups[j := groups[j].(keys := groups[j].keys + [keys[i]])];
        } else {
          groups := groups + [Group(c.value, [keys[i]])];
        }
        assert groups == AddKey(before, routed);
        assert (rs + [routed])[..|rs|] == rs;
        rs := rs + [Routed(keys[i], c.value)];
        i := i + 1;
      }
      assert keys[..i] == keys;
      r := Success(groups);
    }

    /** Get is GetBatch of the one key, unwrapped. */
    method Get(ctxDone: bool, k: K, fetch: (C, seq<K>) -> Result<seq<CacheResult<K, T>>>) returns (o: GetOutcome<T>)
      ensures o == FirstResult(PartitionedGetBatch(partitions, partitioner, ctxDone, [k], fetch))
    {
      var r := GetBatch(ctxDone, [k], fetch);
      o := FirstResult(r);
    }

    /** Len: the partitions' lengths summed, visiting the table in no fixed order; the first
        partition that reports an error ends the call with length 0 and that error. */
    method Len(lenOf: C -> Lru.LenOutcome) returns (l: int, err: Option<Error>)
      ensures (forall n | n in partitions :: lenOf(partitions[n]).err.None?) ==>
                l == SumLens(partitions.Keys, partitions, lenOf) && err == None
      ensures (exists n | n in partitions :: lenOf(partitions[n]).err.Some?) ==>
                l == 0 && exists n | n in partitions :: lenOf(partitions[n]).err.Some? && lenOf(partitions[n]).err == err
    {
      var total := 0;
      var remaining := partitions.Keys;
      while remaining != {}
        invariant remaining <= partitions.Keys
        invariant forall n | n in partitions.Keys - remaining :: lenOf(partitions[n]).err.None?
        invariant total + SumLens(remaining, partitions, lenOf) == SumLens(partitions.Keys, partitions, lenOf)
        decreases remaining
      {
        var n :| n in remaining;
        var o := lenOf(partitions[n]);
        if o.err.Some? {
          return 0, o.err;
        }
        SumLensPick(remaining, partitions, lenOf, n);
        total := total + o.len;
        remaining := remaining - {n};
      }
      return total, None;
    }

    /** Put goes to the resolved partition's cache. */
    method Put(k: K, v: Value<T>, put: (C, K, Value<T>) -> Option<Error>) returns (err: Option<Error>)
      ensures CacheForKey(partitions, partitioner, k).Failure? ==>
                err == Some(CacheForKey(partitions, partitioner, k).error)
      ensures CacheForKey(partitions, partitioner, k).Success? ==>
                err == put(CacheForKey(partitions, partitioner, k).value, k, v)
    {
      var c := CacheForKey(partitions, partitioner, k);
      if c.Failure? {
        return Some(c.error);
      }
      err := put(c.value, k, v);
    }

    /** Remove goes to the resolved partition's cache. */
    method Remove(k: K, remove: (C, K) -> Option<Error>) returns (err: Option<Error>)
      ensures CacheForKey(partitions, partitioner, k).Failure? ==>
                err == Some(CacheForKey(partitions, partitioner, k).error)
      ensures CacheForKey(partitions, partitioner, k).Success? ==>
                err == remove(CacheForKey(partitions, partitioner, k).value, k)
    {
      var c := CacheForKey(partitions, partitioner, k);
      if c.Failure? {
        return Some(c.error);
      }
      err := remove(c.value, k);
    }

    /** Close closes every delegate (returned as the set of caches closed) and empties the table. */
    method Close() returns (closedCaches: set<C>)
      modifies this
      ensures closedCaches == old(partitions).Values
      ensures partitions == map[]
    {
      closedCaches := partitions.Values;
      partitions := map[];
    }
  }

  /** The inner search of GetBatch's first loop: the group of a cache, or |groups|. */
  method FindGroup<K, C(==)>(groups: seq<Group<K, C>>, c: C) returns (j: nat)
    ensures j == GroupIndex(groups, c)
  {
    j := 0;
    while j < |groups| && groups[j].cache != c
      invariant 0 <= j <= |groups|
      invariant forall m :: 0 <= m < j ==> groups[m].cache != c
    {
      j := j + 1;
    }
    GroupIndexUnique(groups, c, j);
  }

  /** GetBatch's second loop: waits for the groups' delegates in group order, failing
      at the first error and concatenating the results otherwise. */
  method QueryGroups<K, T, C>(groups: seq<Group<K, C>>, fetch: (C, seq<K>) -> Result<seq<CacheResult<K, T>>>)
    returns (r: Result<seq<CacheResult<K, T>>>)
    ensures r == Gather(groups, fetch)
  {
    var acc: seq<CacheResult<K, T>> := [];
    var g := 0;
    while g < |groups|
      invariant 0 <= g <= |groups|
      invariant Gather(groups[..g], fetch) == Success(acc)
    {
      assert groups[..g + 1][..g] == groups[..g];
      var res := fetch(groups[g].cache, groups[g].keys);
      if res.Failure? {
        GatherFailureSticks(groups, g + 1, fetch);
        return Failure(res.error);
      }
      acc := acc + res.value;
      g := g + 1;
    }
    assert groups[..g] == groups;
    r := Success(acc);
  }

  /** The constructor's loop, filling the table entry by entry. */
  method FillTable<C>(infos: seq<PartitionInfo<C>>) returns (r: Result<map<string, C>>)
    ensures r == BuildTable(infos)
  {
    var m: map<string, C> := map[];
    var i := 0;
    while i < |infos|
      invariant 0 <= i <= |infos|
      invariant BuildTable(infos[..i]) == Success(m)
    {
      assert infos[..i + 1][..i] == infos[..i];
      if infos[i].cache.None? {
        BuildFailureSticks(infos, i + 1);
        return Failure(PartitionWithNoCache);
      }
      if infos[i].name in m {
        BuildFailureSticks(infos, i + 1);
        return Failure(PartitionInfoHasDuplicates);
      }
      m := m[infos[i].name := infos[i].cache.value];
      i := i + 1;
    }
    assert infos[..i] == infos;
    r := Success(m);
  }

  /** NewPartitionedCache: validates the partitioner and the partition list, then builds the router. */
  method NewPartitionedCache<K, T, C(==)>(partitioner: Option<K -> Result<string>>, infos: seq<PartitionInfo<C>>)
    returns (r: Result<PartitionedCache<K, T, C>>)
    ensures r.Success? <==> ConfigurePartitions(partitioner.Some?, infos).Success?
    ensures r.Failure? ==> r.error == ConfigurePartitions(partitioner.Some?, infos).error
    ensures r.Success? ==> && fresh(r.value) && r.value.partitioner == partitioner.value
                           && r.value.partitions == ConfigurePartitions(partitioner.Some?, infos).value
  {
    if partitioner.None? {
      return Failure(InvalidPartitioner);
    }
    if |infos| == 0 {
      return Failure(InvalidPartitionInfo);
    }
    var m := FillTable(infos);
    if m.Failure? {
      return Failure(m.error);
    }
    var p := new PartitionedCache(partitioner.value, m.value);
    r := Success(p);
  }

  // ---------------------------------------------------------------------------
  // Helpers for the loops.

  lemma GroupIndexUnique<K, C>(groups: seq<Group<K, C>>, c: C, j: nat)
    requires j <= |groups| && (j < |groups| ==> groups[j].cache == c)
    requires forall m :: 0 <= m < j ==> groups[m].cache != c
    ensures j == GroupIndex(groups, c)
  {
  }

  /** Once a prefix of the keys fails to resolve, the whole resolution fails the same way. */
  lemma {:induction false} RouteFailureSticks<K, C>(table: map<string, C>, partitioner: K -> Result<string>,
                                                    keys: seq<K>, j: nat)
    requires j <= |keys| && Route(table, partitioner, keys[..j]).Failure?
    ensures Route(table, partitioner, keys) == Route(table, partitioner, keys[..j])
    decreases |keys|
  {
    if j < |keys| {
      var init := keys[..|keys| - 1];
      assert init[..j] == keys[..j];
      RouteFailureSticks(table, partitioner, init, j);
    } else {
      assert keys[..j] == keys;
    }
  }

  /** Once a prefix of the groups fails, the gathering fails the same way. */
  lemma {:induction false} GatherFailureSticks<K, T, C>(groups: seq<Group<K, C>>, j: nat,
                                                        fetch: (C, seq<K>) -> Result<seq<CacheResult<K, T>>>)
    requires j <= |groups| && Gather(groups[..j], fetch).Failure?
    ensures Gather(groups, fetch) == Gather(groups[..j], fetch)
    decreases |groups|
  {
    if j < |groups| {
      var init := groups[..|groups| - 1];
      assert init[..j] == groups[..j];
      GatherFailureSticks(init, j, fetch);
    } else {
      assert groups[..j] == groups;
    }
  }

  /** Once a prefix of the entries is refused, the constructor refuses the list the same way. */
  lemma {:induction false} BuildFailureSticks<C>(infos: seq<PartitionInfo<C>>, j: nat)
    requires j <= |infos| && BuildTable(infos[..j]).Failure?
    ensures BuildTable(infos) == BuildTable(infos[..j])
    decreases |infos|
  {
    if j < |infos| {
      var init := infos[..|infos| - 1];
      assert init[..j] == infos[..j];
      BuildFailureSticks(init, j);
    } else {
      assert infos[..j] == infos;
    }
  }

  /** The sum does not depend on the order in which names are visited. */
  lemma {:induction false} SumLensPick<C>(names: set<string>, table: map<string, C>, lenOf: C -> Lru.LenOutcome,
                                          x: string)
    requires names <= table.Keys && x in names
    ensures SumLens(names, table, lenOf) == lenOf(table[x]).len + SumLens(names - {x}, table, lenOf)
    decreases names
  {
    var y := PickName(names);
    if y != x {
      SumLensPick(names - {y}, table, lenOf, x);
      assert names - {y} - {x} == names - {x} - {y};
      SumLensPick(names - {x}, table, lenOf, y);
    }
  }

  // ---------------------------------------------------------------------------
  // What the router promises.

  /** A table that was built maps each entry's name to the entry's cache, holds no other
      name, and has one entry per partition entry. */
  lemma TableContents<C>(infos: seq<PartitionInfo<C>>)
    requires BuildTable(infos).Success?
    ensures var m := BuildTable(infos).value;
            && |m| == |infos|
            && (forall i :: 0 <= i < |infos| ==> infos[i].name in m && infos[i].cache == Some(m[infos[i].name]))
            && (forall x | x in m :: exists i :: 0 <= i < |infos| && infos[i].name == x)
  {
    TableSize(infos);
    TableMapsEntries(infos);
    TableNamesFromEntries(infos);
  }

  lemma {:induction false} TableSize<C>(infos: seq<PartitionInfo<C>>)
    requires BuildTable(infos).Success?
    ensures |BuildTable(infos).value| == |infos|
    decreases |infos|
  {
    if infos != [] {
      TableSize(infos[..|infos| - 1]);
    }
  }

  lemma {:induction false} TableMapsEntries<C>(infos: seq<PartitionInfo<C>>)
    requires BuildTable(infos).Success?
    ensures var m := BuildTable(infos).value;
            forall i :: 0 <= i < |infos| ==> infos[i].name in m && infos[i].cache == Some(m[infos[i].name])
    decreases |infos|
  {
    if infos != [] {
      var init := infos[..|infos| - 1];
      var last := infos[|infos| - 1];
      TableMapsEntries(init);
      var m := BuildTable(init).value;
      var after := m[last.name := last.cache.value];
      assert BuildTable(infos).value == after;
      forall i | 0 <= i < |infos|
        ensures infos[i].name in after && infos[i].cache == Some(after[infos[i].name])
      {
        if i < |init| {
          assert infos[i] == init[i];
        }
      }
    }
  }

  lemma {:induction false} TableNamesFromEntries<C>(infos: seq<PartitionInfo<C>>)
    requires BuildTable(infos).Success?
    ensures forall x | x in BuildTable(infos).value :: exists i :: 0 <= i < |infos| && infos[i].name == x
    decreases |infos|
  {
    if infos != [] {
      var init := infos[..|infos| - 1];
      var last := infos[|infos| - 1];
      TableNamesFromEntries(init);
      var m := BuildTable(init).value;
      var after := m[last.name := last.cache.value];
      assert BuildTable(infos).value == after;
      forall x | x in after
        ensures exists i :: 0 <= i < |infos| && infos[i].name == x
      {
        if x != last.name {
          var i :| 0 <= i < |init| && init[i].name == x;
          assert infos[i].name == x;
        }
      }
    }
  }

  /** Appending an entry keeps the list well formed exactly when the entry has a cache and
      a name no earlier entry has. */
  lemma WellFormedSnoc<C>(init: seq<PartitionInfo<C>>, last: PartitionInfo<C>)
    ensures WellFormedInfos(init + [last]) <==>
              && WellFormedInfos(init) && last.cache.Some?
              && forall i :: 0 <= i < |init| ==> init[i].name != last.name
  {
    var infos := init + [last];
    assert forall i :: 0 <= i < |init| ==> infos[i] == init[i];
    assert infos[|init|] == last;
  }

  /** Construction succeeds exactly when every entry has a cache and no name repeats. */
  lemma {:induction false} TableSucceedsIff<C>(infos: seq<PartitionInfo<C>>)
    ensures BuildTable(infos).Success? <==> WellFormedInfos(infos)
    decreases |infos|
  {
    if infos != [] {
      var init := infos[..|infos| - 1];
      var last := infos[|infos| - 1];
      assert infos == init + [last];
      TableSucceedsIff(init);
      WellFormedSnoc(init, last);
      if BuildTable(init).Success? {
        NameInTable(init, last.name);
      }
    }
  }

  /** A built table holds a name exactly when some entry carries it. */
  lemma NameInTable<C>(infos: seq<PartitionInfo<C>>, x: string)
    requires BuildTable(infos).Success?
    ensures x in BuildTable(infos).value <==> exists i :: 0 <= i < |infos| && infos[i].name == x
  {
    TableMapsEntries(infos);
    TableNamesFromEntries(infos);
  }

  /** A refused list is refused at its first bad entry: the entries before it are fine, and
      the error names what is wrong with that entry, a missing cache taking precedence. */
  lemma {:induction false} FirstBadEntryDecides<C>(infos: seq<PartitionInfo<C>>)
    requires BuildTable(infos).Failure?
    ensures exists j :: && 0 <= j < |infos| && WellFormedInfos(infos[..j])
                        && (infos[j].cache.None? ==> BuildTable(infos).error == PartitionWithNoCache)
                        && (infos[j].cache.Some? ==>
                              && BuildTable(infos).error == PartitionInfoHasDuplicates
                              && exists i :: 0 <= i < j && infos[i].name == infos[j].name)
    decreases |infos|
  {
    var init := infos[..|infos| - 1];
    var j := |infos| - 1;
    if BuildTable(init).Failure? {
      FirstBadEntryDecides(init);
      var j' :| && 0 <= j' < |init| && WellFormedInfos(init[..j'])
                && (init[j'].cache.None? ==> BuildTable(init).error == PartitionWithNoCache)
                && (init[j'].cache.Some? ==>
                      && BuildTable(init).error == PartitionInfoHasDuplicates
                      && exists i :: 0 <= i < j' && init[i].name == init[j'].name);
      assert init[..j'] == infos[..j'];
      if init[j'].cache.Some? {
        var i :| 0 <= i < j' && init[i].name == init[j'].name;
        assert infos[i].name == infos[j'].name;
      }
    } else {
      TableSucceedsIff(init);
      NameInTable(init, infos[j].name);
      assert infos[..j] == init;
      if infos[j].cache.Some? {
        var i :| 0 <= i < |init| && init[i].name == infos[j].name;
        assert infos[i].name == infos[j].name;
      }
    }
  }

  /** Construction checks the partitioner first, the list's emptiness second, the entries last. */
  lemma ConfigureOrder<C>(hasPartitioner: bool, infos: seq<PartitionInfo<C>>)
    ensures !hasPartitioner ==> ConfigurePartitions(hasPartitioner, infos) == Failure(InvalidPartitioner)
    ensures hasPartitioner && infos == [] ==> ConfigurePartitions(hasPartitioner, infos) == Failure(InvalidPartitionInfo)
    ensures ConfigurePartitions(hasPartitioner, infos).Success? <==>
              hasPartitioner && infos != [] && WellFormedInfos(infos)
  {
    TableSucceedsIff(infos);
  }

  /** A resolved cache is the table's cache for the partition the partitioner named;
      every other outcome is one of the three refusals. */
  lemma ResolutionExact<K, C>(table: map<string, C>, partitioner: K -> Result<string>, key: K)
    ensures var r := CacheForKey(table, partitioner, key);
            && (r.Success? <==> |table| > 0 && partitioner(key).Success? && partitioner(key).value in table)
            && (r.Success? ==> r.value == table[partitioner(key).value])
            && (|table| == 0 ==> r == Failure(AttemptToUseInvalidCache))
            && (|table| > 0 && partitioner(key).Failure? ==> r == Failure(partitioner(key).error))
            && (|table| > 0 && partitioner(key).Success? && partitioner(key).value !in table ==>
                  r == Failure(InvalidPartition))
  {
  }

  /** Resolution succeeds exactly when every key resolves, and then gives each key its
      cache, in key order. */
  lemma {:induction false} RouteResolvesAll<K, C>(table: map<string, C>, partitioner: K -> Result<string>,
                                                  keys: seq<K>)
    ensures var r := Route(table, partitioner, keys);
            && (r.Success? <==> forall i :: 0 <= i < |keys| ==> CacheForKey(table, partitioner, keys[i]).Success?)
            && (r.Success? ==> |r.value| == |keys| && forall i :: 0 <= i < |keys| ==>
                  r.value[i] == Routed(keys[i], CacheForKey(table, partitioner, keys[i]).value))
    decreases |keys|
  {
    if keys != [] {
      var init := keys[..|keys| - 1];
      RouteResolvesAll(table, partitioner, init);
      assert forall i :: 0 <= i < |init| ==> init[i] == keys[i];
    }
  }

  /** A failed resolution fails with the error of the first key that does not resolve. */
  lemma {:induction false} RouteFirstFailure<K, C>(table: map<string, C>, partitioner: K -> Result<string>,
                                                   keys: seq<K>)
    requires Route(table, partitioner, keys).Failure?
    ensures exists j :: && 0 <= j < |keys|
                        && CacheForKey(table, partitioner, keys[j]) == Failure(Route(table, partitioner, keys).error)
                        && forall i :: 0 <= i < j ==> CacheForKey(table, partitioner, keys[i]).Success?
    decreases |keys|
  {
    var init := keys[..|keys| - 1];
    if Route(table, partitioner, init).Failure? {
      RouteFirstFailure(table, partitioner, init);
      var j :| && 0 <= j < |init|
               && CacheForKey(table, partitioner, init[j]) == Failure(Route(table, partitioner, init).error)
               && forall i :: 0 <= i < j ==> CacheForKey(table, partitioner, init[i]).Success?;
      assert forall i :: 0 <= i < |init| ==> init[i] == keys[i];
    } else {
      RouteResolvesAll(table, partitioner, init);
      assert forall i :: 0 <= i < |init| ==> init[i] == keys[i];
      assert CacheForKey(table, partitioner, keys[|keys| - 1]) == Failure(Route(table, partitioner, keys).error);
    }
  }

  lemma {:induction false} FirstAppearancesFacts<C>(cs: seq<C>)
    ensures forall x :: x in FirstAppearances(cs) <==> x in cs
    ensures LruModel.Distinct(FirstAppearances(cs))
    decreases |cs|
  {
    if cs != [] {
      FirstAppearancesFacts(cs[..|cs| - 1]);
      assert cs == cs[..|cs| - 1] + [cs[|cs| - 1]];
    }
  }

  lemma {:induction false} KeysRoutedToAbsent<K, C>(rs: seq<Routed<K, C>>, c: C)
    requires c !in CachesOf(rs)
    ensures KeysRoutedTo(rs, c) == []
    decreases |rs|
  {
    if rs != [] {
      var init := rs[..|rs| - 1];
      assert CachesOf(init) == CachesOf(rs)[..|rs| - 1];
      KeysRoutedToAbsent(init, c);
      assert CachesOf(rs)[|rs| - 1] == rs[|rs| - 1].cache;
    }
  }

  lemma {:induction false} TotalKeysUpdate<K, C>(groups: seq<Group<K, C>>, i: nat, g: Group<K, C>)
    requires i < |groups|
    ensures TotalKeys(groups[i := g]) == TotalKeys(groups) - |groups[i].keys| + |g.keys|
    decreases |groups|
  {
    var n := |groups| - 1;
    if i < n {
      TotalKeysUpdate(groups[..n], i, g);
      assert groups[i := g][..n] == groups[..n][i := g];
    } else {
      assert groups[i := g][..n] == groups[..n];
    }
  }

  /** The groups' caches are the resolved caches in order of first appearance. */
  lemma {:induction false} GroupCachesOrder<K, C>(rs: seq<Routed<K, C>>)
    ensures GroupCaches(Groups(rs)) == FirstAppearances(CachesOf(rs))
    decreases |rs|
  {
    if rs != [] {
      var init := rs[..|rs| - 1];
      var r := rs[|rs| - 1];
      GroupCachesOrder(init);
      var groups := Groups(init);
      assert CachesOf(rs)[..|rs| - 1] == CachesOf(init);
      assert CachesOf(rs)[|rs| - 1] == r.cache;
      var i := GroupIndex(groups, r.cache);
      if i < |groups| {
        assert GroupCaches(groups)[i] == r.cache;
        var after := groups[i := Group(r.cache, groups[i].keys + [r.key])];
        assert GroupCaches(after) == GroupCaches(groups);
      } else {
        assert r.cache !in GroupCaches(groups);
        var after := groups + [Group(r.cache, [r.key])];
        assert GroupCaches(after) == GroupCaches(groups) + [r.cache];
      }
    }
  }

  /** The groups of GetBatch follow the resolved caches: the groups' caches are the
      resolved caches in order of first appearance, no cache has two groups, and every
      key's cache has a group. */
  lemma GroupCachesInFirstAppearanceOrder<K, C>(rs: seq<Routed<K, C>>)
    ensures var groups := Groups(rs);
            && GroupCaches(groups) == FirstAppearances(CachesOf(rs))
            && LruModel.Distinct(GroupCaches(groups))
            && (forall i :: 0 <= i < |rs| ==> rs[i].cache in GroupCaches(groups))
  {
    GroupCachesOrder(rs);
    FirstAppearancesFacts(CachesOf(rs));
    forall i | 0 <= i < |rs|
      ensures rs[i].cache in GroupCaches(Groups(rs))
    {
      assert CachesOf(rs)[i] == rs[i].cache;
    }
  }

  /** No two groups share a cache. */
  lemma {:induction false} GroupsDistinct<K, C>(rs: seq<Routed<K, C>>)
    ensures forall a, b :: 0 <= a < b < |Groups(rs)| ==> Groups(rs)[a].cache != Groups(rs)[b].cache
    decreases |rs|
  {
    if rs != [] {
      var init := rs[..|rs| - 1];
      GroupsDistinct(init);
    }
  }

  /** The keys routed to a cache grow by the last key exactly when it went to that cache. */
  lemma KeysRoutedToSnoc<K, C>(rs: seq<Routed<K, C>>, c: C)
    requires rs != []
    ensures KeysRoutedTo(rs, c)
            == KeysRoutedTo(rs[..|rs| - 1], c) + (if rs[|rs| - 1].cache == c then [rs[|rs| - 1].key] else [])
  {
  }

  /** Each group holds exactly the keys that resolved to its cache, in key order. */
  lemma {:induction false} GroupKeysMatch<K, C>(rs: seq<Routed<K, C>>)
    ensures forall j :: 0 <= j < |Groups(rs)| ==> Groups(rs)[j].keys == KeysRoutedTo(rs, Groups(rs)[j].cache)
    decreases |rs|
  {
    if rs != [] {
      var init := rs[..|rs| - 1];
      var r := rs[|rs| - 1];
      GroupKeysMatch(init);
      GroupsDistinct(init);
      var groups := Groups(init);
      var after := Groups(rs);
      var i := GroupIndex(groups, r.cache);
      forall j | 0 <= j < |after|
        ensures after[j].keys == KeysRoutedTo(rs, after[j].cache)
      {
        KeysRoutedToSnoc(rs, after[j].cache);
        if j < |groups| && j != i {
          assert after[j] == groups[j];
        } else if j == |groups| {
          assert r.cache !in CachesOf(init) by {
            GroupCachesInFirstAppearanceOrder(init);
          }
          KeysRoutedToAbsent(init, r.cache);
        }
      }
    }
  }

  /** The groups together hold one key per resolved key. */
  lemma {:induction false} GroupTotal<K, C>(rs: seq<Routed<K, C>>)
    ensures TotalKeys(Groups(rs)) == |rs|
    decreases |rs|
  {
    if rs != [] {
      var init := rs[..|rs| - 1];
      var r := rs[|rs| - 1];
      GroupTotal(init);
      var groups := Groups(init);
      var i := GroupIndex(groups, r.cache);
      if i < |groups| {
        TotalKeysUpdate(groups, i, Group(r.cache, groups[i].keys + [r.key]));
      } else {
        var after := groups + [Group(r.cache, [r.key])];
        assert after[..|after| - 1] == groups;
      }
    }
  }

  /** Each group of GetBatch holds exactly the keys that resolved to its cache, in key
      order, and the groups together hold as many keys as were resolved: every key is in
      exactly one group. */
  lemma GroupKeysExact<K, C>(rs: seq<Routed<K, C>>)
    ensures var groups := Groups(rs);
            && (forall j :: 0 <= j < |groups| ==> groups[j].keys == KeysRoutedTo(rs, groups[j].cache))
            && TotalKeys(groups) == |rs|
  {
    GroupKeysMatch(rs);
    GroupTotal(rs);
  }

  /** Gathering succeeds exactly when every group's delegate answers; otherwise it fails
      with the error of the first group, in group order, whose delegate failed. When every
      delegate answers one result per key, there is one result per key of the groups. */
  lemma {:induction false} GatherExact<K, T, C>(groups: seq<Group<K, C>>,
                                                fetch: (C, seq<K>) -> Result<seq<CacheResult<K, T>>>)
    ensures var r := Gather(groups, fetch);
            && (r.Success? <==> forall j :: 0 <= j < |groups| ==> fetch(groups[j].cache, groups[j].keys).Success?)
            && (r.Failure? ==> exists j :: && 0 <= j < |groups|
                                          && fetch(groups[j].cache, groups[j].keys) == Failure(r.error)
                                          && forall i :: 0 <= i < j ==> fetch(groups[i].cache, groups[i].keys).Success?)
            && ((forall j :: 0 <= j < |groups| ==>
                   && fetch(groups[j].cache, groups[j].keys).Success?
                   && |fetch(groups[j].cache, groups[j].keys).value| == |groups[j].keys|) ==>
                  |r.value| == TotalKeys(groups))
    decreases |groups|
  {
    if groups != [] {
      var init := groups[..|groups| - 1];
      GatherExact(init, fetch);
      assert forall i :: 0 <= i < |init| ==> init[i] == groups[i];
      if Gather(init, fetch).Failure? {
        var j :| && 0 <= j < |init|
                 && fetch(init[j].cache, init[j].keys) == Failure(Gather(init, fetch).error)
                 && forall i :: 0 <= i < j ==> fetch(init[i].cache, init[i].keys).Success?;
        assert groups[j] == init[j];
      }
    }
  }

  /** A key that does not resolve fails GetBatch with its error before any delegate is
      queried: the result does not depend on the delegates. */
  lemma ResolutionErrorQueriesNothing<K, T, C>(table: map<string, C>, partitioner: K -> Result<string>,
                                               keys: seq<K>, fetch: (C, seq<K>) -> Result<seq<CacheResult<K, T>>>)
    requires Route(table, partitioner, keys).Failure?
    ensures PartitionedGetBatch(table, partitioner, false, keys, fetch) == Failure(Route(table, partitioner, keys).error)
  {
  }

  /** When every key resolves and every delegate answers one result per key of its group,
      GetBatch returns one result per requested key. */
  lemma OneResultPerKey<K, T, C>(table: map<string, C>, partitioner: K -> Result<string>,
                                 keys: seq<K>, fetch: (C, seq<K>) -> Result<seq<CacheResult<K, T>>>)
    requires forall i :: 0 <= i < |keys| ==> CacheForKey(table, partitioner, keys[i]).Success?
    requires forall c, ks :: fetch(c, ks).Success? && |fetch(c, ks).value| == |ks|
    ensures var r := PartitionedGetBatch(table, partitioner, false, keys, fetch);
            r.Success? && |r.value| == |keys|
  {
    RouteResolvesAll(table, partitioner, keys);
    var rs := Route(table, partitioner, keys).value;
    GroupKeysExact(rs);
    var groups := Groups(rs);
    EveryGroupAnswered(groups, fetch);
    GatherExact(groups, fetch);
    assert PartitionedGetBatch(table, partitioner, false, keys, fetch) == Gather(groups, fetch);
  }

  lemma EveryGroupAnswered<K, T, C>(groups: seq<Group<K, C>>, fetch: (C, seq<K>) -> Result<seq<CacheResult<K, T>>>)
    requires forall c, ks :: fetch(c, ks).Success? && |fetch(c, ks).value| == |ks|
    ensures forall j :: 0 <= j < |groups| ==>
              fetch(groups[j].cache, groups[j].keys).Success?
              && |fetch(groups[j].cache, groups[j].keys).value| == |groups[j].keys|
  {
  }

  /** Get of a key that resolves is the resolved delegate's answer to GetBatch of that key. */
  lemma GetAsksOwnPartition<K, T, C>(table: map<string, C>, partitioner: K -> Result<string>, k: K,
                                     fetch: (C, seq<K>) -> Result<seq<CacheResult<K, T>>>)
    requires CacheForKey(table, partitioner, k).Success?
    ensures PartitionedGetBatch(table, partitioner, false, [k], fetch)
            == fetch(CacheForKey(table, partitioner, k).value, [k])
  {
    var c := CacheForKey(table, partitioner, k).value;
    assert [k][..0] == [];
    assert Route<K, C>(table, partitioner, []) == Success([]);
    assert [k][|[k]| - 1] == k;
    assert [] + [Routed(k, c)] == [Routed(k, c)];
    assert Route(table, partitioner, [k]) == Success([Routed(k, c)]);
    assert [Routed(k, c)][..0] == [];
    assert Groups([Routed(k, c)]) == [Group(c, [k])];
    assert [Group(c, [k])][..0] == [];
    assert Gather<K, T, C>([], fetch) == Success([]);
    var res := fetch(c, [k]);
    if res.Success? {
      assert [] + res.value == res.value;
    }
    assert Gather([Group(c, [k])], fetch) == res;
  }

  /** After Close the table is empty: every key is refused as an invalid cache, so Get,
      Put and Remove report ErrAttemptToUseInvalidCache, while GetBatch of no keys still
      succeeds with no results and Len sums nothing. */
  lemma ClosedRouterRefuses<K, T, C>(partitioner: K -> Result<string>, k: K, keys: seq<K>,
                                     fetch: (C, seq<K>) -> Result<seq<CacheResult<K, T>>>,
                                     lenOf: C -> Lru.LenOutcome)
    ensures CacheForKey<K, C>(map[], partitioner, k) == Failure(AttemptToUseInvalidCache)
    ensures FirstResult(PartitionedGetBatch(map[], partitioner, false, [k], fetch))
            == GetOutcome(Nil, false, Some(AttemptToUseInvalidCache))
    ensures keys != [] ==> PartitionedGetBatch(map[], partitioner, false, keys, fetch)
                           == Failure(AttemptToUseInvalidCache)
    ensures PartitionedGetBatch(map[], partitioner, false, [], fetch) == Success([])
    ensures SumLens({}, map[], lenOf) == 0
  {
    assert [k][..0] == [];
    assert Route<K, C>(map[], partitioner, [k]) == Failure(AttemptToUseInvalidCache);
    if keys != [] {
      RouteResolvesAll<K, C>(map[], partitioner, keys);
      assert CacheForKey<K, C>(map[], partitioner, keys[0]).Failure?;
      RouteFirstFailure<K, C>(map[], partitioner, keys);
    }
  }
}
