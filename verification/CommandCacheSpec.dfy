// The bounded cache of command results as a value: what pruning and inserting mean.
module CommandCacheSpec {
  import opened Basics

  const COMMAND_CACHE_TTL := 300_000 // milliseconds
  const MAX_CACHED_COMMANDS_PER_DEVICE := 256
  const MAX_CACHED_COMMAND_BYTES_PER_DEVICE := 8 * 1024 * 1024
  const MAX_CACHED_COMMANDS_GLOBAL := 1024
  const MAX_CACHED_COMMAND_BYTES_GLOBAL := 64 * 1024 * 1024

  datatype Key = Key(device: Bytes, idempotency: Bytes)

  /** A response; `retryable` is absent when it carries no status. */
  datatype Response = Response(requestId: nat, retryable: Option<bool>, body: Bytes)

  datatype Cached = Cached(command: Bytes, response: Response, createdAt: nat, size: nat)

  type Entries = map<Key, Cached>

  /** The cached results and their keys from oldest to newest insertion. */
  datatype Cache = Cache(entries: Entries, order: seq<Key>)

  function Restrict(entries: Entries, keep: set<Key>): Entries
  {
    map key | key in entries && key in keep :: entries[key]
  }

  /** The cache reduced to the keys `order`. */
  function Only(c: Cache, order: seq<Key>): Cache
  {
    Cache(Restrict(c.entries, ElementsOf(order)), order)
  }

  ghost predicate Listed(c: Cache)
  {
    Unique(c.order) && forall key :: key in c.order <==> key in c.entries
  }

  /** Oldest first. */
  ghost predicate Aged(c: Cache)
  {
    forall i, j :: 0 <= i < j < |c.order| && c.order[i] in c.entries && c.order[j] in c.entries ==>
      c.entries[c.order[i]].createdAt <= c.entries[c.order[j]].createdAt
  }

  // ---------- Counting ----------

  ghost function Sizes(entries: Entries): map<Key, nat>
  {
    map key | key in entries :: entries[key].size
  }

  ghost function DeviceSizes(entries: Entries, device: Bytes): map<Key, nat>
  {
    map key | key in entries && key.device == device :: entries[key].size
  }

  ghost predicate GlobalOver(entries: Entries)
  {
    |entries| > MAX_CACHED_COMMANDS_GLOBAL || Sum(Sizes(entries)) > MAX_CACHED_COMMAND_BYTES_GLOBAL
  }

  ghost predicate DeviceOver(entries: Entries, device: Bytes)
  {
    || |DeviceSizes(entries, device)| > MAX_CACHED_COMMANDS_PER_DEVICE
    || Sum(DeviceSizes(entries, device)) > MAX_CACHED_COMMAND_BYTES_PER_DEVICE
  }

  ghost predicate Bounded(entries: Entries)
  {
    !GlobalOver(entries) && forall device :: !DeviceOver(entries, device)
  }

  /** A well-formed cache within all its limits. */
  ghost predicate Sound(c: Cache)
  {
    Listed(c) && Aged(c) && Bounded(c.entries)
  }

  // ---------- Pruning ----------

  predicate IsExpired(c: Cache, key: Key, now: nat)
  {
    key in c.entries && c.entries[key].createdAt + COMMAND_CACHE_TTL <= now
  }

  /** `k` is where the queue's expired front ends. */
  ghost predicate LiveFrom(c: Cache, now: nat, k: nat)
  {
    && k <= |c.order| && (forall i :: 0 <= i < k ==> IsExpired(c, c.order[i], now))
    && (k < |c.order| ==> !IsExpired(c, c.order[k], now))
  }

  /** `k` is the first position at or after `from` behind which the global limits hold. */
  ghost predicate FitsFrom(c: Cache, from: nat, k: nat)
  {
    && from <= k <= |c.order| && !GlobalOver(Only(c, c.order[k..]).entries)
    && forall i :: from <= i < k ==> GlobalOver(Only(c, c.order[i..]).entries)
  }

  /** What pruning does: the longest suffix behind the expired front that meets the global limits stays. */
  ghost predicate PrunedAt(c: Cache, now: nat, live: nat, k: nat, c': Cache)
  {
    LiveFrom(c, now, live) && FitsFrom(c, live, k) && c' == Only(c, c.order[k..])
  }

  ghost predicate Pruned(c: Cache, now: nat, c': Cache)
  {
    exists live: nat, k: nat :: PrunedAt(c, now, live, k, c')
  }

  // ---------- Inserting ----------

  function EntrySize(key: Key, command: Bytes, responseLen: nat): nat
  {
    SatAdd(SatAdd(|key.idempotency|, |command|), responseLen)
  }

  function Without(c: Cache, key: Key): Cache
  {
    Only(c, Filter(c.order, ElementsOf(c.order) - {key}))
  }

  function With(c: Cache, key: Key, cached: Cached): Cache
  {
    Cache(c.entries[key := cached], c.order + [key])
  }

  /** The keys of one device among the first `k`. */
  function DeviceKeys(order: seq<Key>, device: Bytes, k: nat): set<Key>
    requires k <= |order|
  {
    set key | key in order[..k] && key.device == device
  }

  /** The cache without the device's keys among the first `k`. */
  function WithoutDevice(c: Cache, device: Bytes, k: nat): Cache
    requires k <= |c.order|
  {
    Only(c, Filter(c.order, ElementsOf(c.order) - DeviceKeys(c.order, device, k)))
  }

  /** Dropping the device's keys among the first `k`, and no fewer, brings it within its limits. */
  ghost predicate TrimmedAt(c: Cache, device: Bytes, k: nat, c': Cache)
  {
    && k <= |c.order| && c' == WithoutDevice(c, device, k) && !DeviceOver(c'.entries, device)
    && forall i :: 0 <= i < k ==> DeviceOver(WithoutDevice(c, device, i).entries, device)
  }

  ghost predicate Trimmed(c: Cache, device: Bytes, c': Cache)
  {
    exists k: nat :: TrimmedAt(c, device, k, c')
  }

  /** What inserting does: `added` is the cache with the new entry last, `trimmed` what its device may keep of that. */
  ghost predicate InsertedVia(c: Cache, key: Key, cached: Cached, later: nat, trimmed: Cache, c': Cache)
  {
    if cached.size > MAX_CACHED_COMMAND_BYTES_PER_DEVICE then
      c' == Without(c, key)
    else
      Trimmed(With(Without(c, key), key, cached), key.device, trimmed) && Pruned(trimmed, later, c')
  }

  ghost predicate Inserted(c: Cache, key: Key, cached: Cached, later: nat, c': Cache)
  {
    exists trimmed :: InsertedVia(c, key, cached, later, trimmed, c')
  }

  // ---------- Reductions ----------

  lemma OnlyIsListed(c: Cache, order: seq<Key>)
    requires Listed(c) && Unique(order) && forall key :: key in order ==> key in c.order
    ensures Listed(Only(c, order))
    ensures forall key :: key in order ==> Only(c, order).entries[key] == c.entries[key]
  {
  }

  lemma FilterListed(c: Cache, keep: set<Key>)
    requires Listed(c)
    ensures Listed(Only(c, Filter(c.order, keep)))
    ensures Aged(c) ==> Aged(Only(c, Filter(c.order, keep)))
    ensures forall key :: key in Only(c, Filter(c.order, keep)).entries <==> key in c.entries && key in keep
  {
    FilterIsExact(c.order, keep);
    OnlyIsListed(c, Filter(c.order, keep));
    if Aged(c) {
      var order := Filter(c.order, keep);
      var d := Only(c, order);
      forall i, j | 0 <= i < j < |order| ensures d.entries[order[i]].createdAt <= d.entries[order[j]].createdAt {
        FilterKeepsOrder(c.order, keep, i, j);
        var a, b :| 0 <= a < b < |c.order| && c.order[a] == order[i] && c.order[b] == order[j];
        assert order[i] in order && order[j] in order;
      }
    }
  }

  lemma {:induction false} FilterKeepsOrder(q: seq<Key>, keep: set<Key>, i: nat, j: nat)
    requires i < j < |Filter(q, keep)|
    ensures exists a, b :: 0 <= a < b < |q| && q[a] == Filter(q, keep)[i] && q[b] == Filter(q, keep)[j]
  {
    var init := q[..|q| - 1];
    var f := Filter(init, keep);
    if j < |f| {
      FilterKeepsOrder(init, keep, i, j);
      var a, b :| 0 <= a < b < |init| && init[a] == f[i] && init[b] == f[j];
      assert q[a] == f[i] && q[b] == f[j];
    } else {
      FilterIsExact(init, keep);
      assert f[i] in f;
      var a :| 0 <= a < |init| && init[a] == f[i];
      assert q[a] == f[i] && q[|q| - 1] == Filter(q, keep)[j];
    }
  }

  lemma SuffixListed(c: Cache, k: nat)
    requires Listed(c) && k <= |c.order|
    ensures Listed(Only(c, c.order[k..]))
    ensures Aged(c) ==> Aged(Only(c, c.order[k..]))
    ensures forall key :: key in Only(c, c.order[k..]).entries <==> key in c.order[k..]
  {
    OnlyIsListed(c, c.order[k..]);
  }

  ghost predicate Part(part: Entries, entries: Entries)
  {
    forall key :: key in part ==> key in entries && part[key] == entries[key]
  }

  lemma PartCountsLess(part: Entries, entries: Entries)
    requires Part(part, entries)
    ensures |part| <= |entries| && Sum(Sizes(part)) <= Sum(Sizes(entries))
    ensures forall device :: !DeviceOver(entries, device) ==> !DeviceOver(part, device)
  {
    SumPart(Sizes(part), Sizes(entries));
    assert Sizes(part).Keys == part.Keys && Sizes(entries).Keys == entries.Keys;
    assert |part| == |part.Keys| == |Sizes(part).Keys| == |Sizes(part)|;
    assert |entries| == |entries.Keys| == |Sizes(entries).Keys| == |Sizes(entries)|;
    forall device | !DeviceOver(entries, device) ensures !DeviceOver(part, device) {
      SumPart(DeviceSizes(part, device), DeviceSizes(entries, device));
    }
  }

  // ---------- Pruning is exact ----------

  lemma PrunedIsSuffix(c: Cache, now: nat, c': Cache)
    requires Listed(c) && Pruned(c, now, c')
    ensures Listed(c') && Part(c'.entries, c.entries) && !GlobalOver(c'.entries)
    ensures Aged(c) ==> Aged(c')
    ensures exists k :: 0 <= k <= |c.order| && c'.order == c.order[k..]
  {
    var live: nat, k: nat :| PrunedAt(c, now, live, k, c');
    SuffixListed(c, k);
  }

  lemma PruneKeepsSound(c: Cache, now: nat, c': Cache)
    requires Listed(c) && Aged(c) && (forall device :: !DeviceOver(c.entries, device)) && Pruned(c, now, c')
    ensures Sound(c')
  {
    PrunedIsSuffix(c, now, c');
    PartCountsLess(c'.entries, c.entries);
  }

  /**
   * Looking at the front only is enough: nothing expired stays, and an unexpired entry goes only if it and what came
   * after it exceeded the global limits.
   */
  lemma PruneIsExact(c: Cache, now: nat, c': Cache, i: nat)
    requires Listed(c) && Aged(c) && Pruned(c, now, c') && i < |c.order|
    ensures IsExpired(c, c.order[i], now) ==> c.order[i] !in c'.entries
    ensures !IsExpired(c, c.order[i], now) && c.order[i] !in c'.entries ==> GlobalOver(Only(c, c.order[i..]).entries)
  {
    var live: nat, k: nat :| PrunedAt(c, now, live, k, c');
    SuffixListed(c, k);
    hide GlobalOver;
    assert c.order[i] in c.order;
    if i >= live {
      assert c.order[live] in c.order;
      assert !IsExpired(c, c.order[i], now);
    }
    if i >= k {
      assert c.order[k..][i - k] == c.order[i];
    } else {
      assert c.order[i] !in c.order[k..];
    }
  }

  /** A cache within its global limits loses exactly its expired entries. */
  lemma PruneWithinLimits(c: Cache, now: nat, c': Cache)
    requires Listed(c) && Aged(c) && Pruned(c, now, c') && !GlobalOver(c.entries)
    ensures forall key :: key in c'.entries <==> key in c.entries && !IsExpired(c, key, now)
  {
    hide GlobalOver, Pruned, Aged, Only;
    PrunedIsSuffix(c, now, c');
    forall key | key in c.entries ensures key in c'.entries <==> !IsExpired(c, key, now) {
      assert key in c.order;
      var i :| 0 <= i < |c.order| && c.order[i] == key;
      PruneIsExact(c, now, c', i);
      SuffixWithin(c, i);
    }
  }

  lemma SuffixWithin(c: Cache, i: nat)
    requires Listed(c) && i <= |c.order| && !GlobalOver(c.entries)
    ensures !GlobalOver(Only(c, c.order[i..]).entries)
  {
    SuffixListed(c, i);
    PartCountsLess(Only(c, c.order[i..]).entries, c.entries);
  }

  /** Pruning has one outcome. */
  lemma PrunedOnce(c: Cache, now: nat, a: Cache, b: Cache)
    requires Pruned(c, now, a) && Pruned(c, now, b)
    ensures a == b
  {
    hide GlobalOver, Only;
    var liveA: nat, kA: nat :| PrunedAt(c, now, liveA, kA, a);
    var liveB: nat, kB: nat :| PrunedAt(c, now, liveB, kB, b);
    assert liveA == liveB;
    assert kA == kB;
  }

  // ---------- Inserting ----------

  lemma WithoutIsListed(c: Cache, key: Key)
    requires Listed(c)
    ensures Listed(Without(c, key)) && key !in Without(c, key).entries
    ensures Aged(c) ==> Aged(Without(c, key))
    ensures Without(c, key).entries == c.entries - {key}
  {
    FilterListed(c, ElementsOf(c.order) - {key});
  }

  lemma WithIsListed(c: Cache, key: Key, cached: Cached)
    requires Listed(c) && Aged(c) && key !in c.entries
    requires forall other :: other in c.entries ==> c.entries[other].createdAt <= cached.createdAt
    ensures Listed(With(c, key, cached)) && Aged(With(c, key, cached))
  {
  }

  lemma TrimmedIsListed(c: Cache, device: Bytes, c': Cache)
    requires Listed(c) && Aged(c) && Trimmed(c, device, c')
    ensures Listed(c') && Aged(c') && Part(c'.entries, c.entries) && !DeviceOver(c'.entries, device)
    ensures forall key :: key in c.entries && key.device != device ==> key in c'.entries
  {
    var k: nat :| TrimmedAt(c, device, k, c');
    FilterListed(c, ElementsOf(c.order) - DeviceKeys(c.order, device, k));
  }

  /** Only the inserting device can exceed its limits through an insert. */
  lemma OthersStayWithin(entries: Entries, key: Key, cached: Cached, device: Bytes)
    requires key !in entries && !DeviceOver(entries, device) && device != key.device
    ensures !DeviceOver(entries[key := cached], device)
  {
    assert DeviceSizes(entries[key := cached], device) == DeviceSizes(entries, device);
  }

  /** After an insert every limit holds. */
  lemma InsertKeepsSound(c: Cache, key: Key, cached: Cached, later: nat, c': Cache)
    requires Sound(c) && Inserted(c, key, cached, later, c')
    requires forall other :: other in c.entries ==> c.entries[other].createdAt <= cached.createdAt
    ensures Sound(c')
  {
    hide DeviceOver, GlobalOver, Trimmed, Pruned, Without;
    var trimmed :| InsertedVia(c, key, cached, later, trimmed, c');
    var base := Without(c, key);
    WithoutIsListed(c, key);
    PartCountsLess(base.entries, c.entries);
    if cached.size > MAX_CACHED_COMMAND_BYTES_PER_DEVICE {
      WithoutStaysBounded(c.entries, base.entries);
    } else {
      var added := With(base, key, cached);
      WithIsListed(base, key, cached);
      TrimmedIsListed(added, key.device, trimmed);
      forall device ensures !DeviceOver(trimmed.entries, device) {
        if device != key.device {
          OthersStayWithin(base.entries, key, cached, device);
          PartCountsLess(trimmed.entries, added.entries);
        }
      }
      PruneKeepsSound(trimmed, later, c');
    }
  }

  lemma WithoutStaysBounded(entries: Entries, part: Entries)
    requires Bounded(entries) && Part(part, entries)
    ensures Bounded(part)
  {
    PartCountsLess(part, entries);
  }

  lemma SumOfOne(key: Key, size: nat)
    ensures Sum(map[key := size]) == size && Sum<Key>(map[]) == 0
  {
    SumInsert(map[], key, size);
    assert map[][key := size] == map[key := size];
  }

  lemma OneEntryFits(key: Key, cached: Cached, device: Bytes)
    requires cached.size <= MAX_CACHED_COMMAND_BYTES_PER_DEVICE
    ensures !DeviceOver(map[key := cached], device) && !GlobalOver(map[key := cached])
  {
    var one := map[key := cached];
    var sizes := Sizes(one);
    assert sizes == map[key := cached.size];
    SumOfOne(key, cached.size);
    assert |one| == |one.Keys| == 1 && |sizes| == |sizes.Keys| == 1;
    if device == key.device {
      assert DeviceSizes(map[key := cached], device) == sizes;
    } else {
      assert DeviceSizes(map[key := cached], device) == map[];
    }
  }

  /** Without its older entries a device is within its limits. */
  lemma NewestAloneFits(c: Cache, key: Key, cached: Cached)
    requires Listed(c) && key !in c.entries && cached.size <= MAX_CACHED_COMMAND_BYTES_PER_DEVICE
    ensures !DeviceOver(WithoutDevice(With(c, key, cached), key.device, |c.order|).entries, key.device)
  {
    hide Filter, DeviceOver;
    var added := With(c, key, cached);
    var n := |c.order|;
    assert added.order[..n] == c.order;
    assert Listed(added);
    FilterListed(added, ElementsOf(added.order) - DeviceKeys(added.order, key.device, n));
    var before := WithoutDevice(added, key.device, n);
    forall other | other in before.entries && other.device == key.device ensures other == key {
      assert other in added.order && other !in c.order;
    }
    SingleEntry(before.entries, key, cached);
  }

  lemma SingleEntry(entries: Entries, key: Key, cached: Cached)
    requires forall other :: other in entries && other.device == key.device ==> other == key
    requires key in entries ==> entries[key] == cached
    requires cached.size <= MAX_CACHED_COMMAND_BYTES_PER_DEVICE
    ensures !DeviceOver(entries, key.device)
  {
    OneEntryFits(key, cached, key.device);
    var one := map[key := cached];
    SumPart(DeviceSizes(entries, key.device), DeviceSizes(one, key.device));
  }

  /** The new entry, last in the queue, survives the trimming of its device. */
  lemma NewestSurvivesTrim(c: Cache, key: Key, cached: Cached, c': Cache)
    requires Listed(c) && key !in c.entries && cached.size <= MAX_CACHED_COMMAND_BYTES_PER_DEVICE
    requires Trimmed(With(c, key, cached), key.device, c')
    ensures key in c'.entries && c'.entries[key] == cached
    ensures c'.order != [] && c'.order[|c'.order| - 1] == key
  {
    hide Filter, DeviceOver, Aged;
    var added := With(c, key, cached);
    var n := |c.order|;
    var k: nat :| TrimmedAt(added, key.device, k, c');
    NewestAloneFits(c, key, cached);
    assert k <= n;
    assert Listed(added);
    var keep := ElementsOf(added.order) - DeviceKeys(added.order, key.device, k);
    assert added.order[n] == key && key !in added.order[..k];
    FilterListed(added, keep);
    FilterStep(added.order, n, keep);
    assert added.order[..n + 1] == added.order;
  }

  lemma NewestSurvivesPrune(c: Cache, key: Key, cached: Cached, now: nat, c': Cache)
    requires Listed(c) && key in c.entries && c.entries[key] == cached
             && cached.size <= MAX_CACHED_COMMAND_BYTES_PER_DEVICE
    requires c.order != [] && c.order[|c.order| - 1] == key && now < cached.createdAt + COMMAND_CACHE_TTL
             && Pruned(c, now, c')
    ensures key in c'.entries && c'.entries[key] == cached
  {
    var live: nat, k: nat :| PrunedAt(c, now, live, k, c');
    var n := |c.order| - 1;
    assert live <= n;
    if k == n + 1 {
      assert GlobalOver(Only(c, c.order[n..]).entries);
      assert c.order[n..] == [key];
      assert Only(c, [key]).entries == map[key := cached];
      OneEntryFits(key, cached, key.device);
    }
    assert c.order[k..][n - k] == key;
  }

  /** An entry that fits its device's limit and has not expired by the time it is inserted is cached. */
  lemma InsertSurvives(c: Cache, key: Key, cached: Cached, later: nat, c': Cache)
    requires Sound(c) && Inserted(c, key, cached, later, c')
    requires forall other :: other in c.entries ==> c.entries[other].createdAt <= cached.createdAt
    requires cached.size <= MAX_CACHED_COMMAND_BYTES_PER_DEVICE && later < cached.createdAt + COMMAND_CACHE_TTL
    ensures key in c'.entries && c'.entries[key] == cached
  {
    hide DeviceOver, GlobalOver, Trimmed, Pruned, Without;
    var trimmed :| InsertedVia(c, key, cached, later, trimmed, c');
    WithoutIsListed(c, key);
    WithIsListed(Without(c, key), key, cached);
    NewestSurvivesTrim(Without(c, key), key, cached, trimmed);
    TrimmedIsListed(With(Without(c, key), key, cached), key.device, trimmed);
    NewestSurvivesPrune(trimmed, key, cached, later, c');
  }

  /** A result that expires while it is inserted is not kept. */
  lemma InsertTooOld(c: Cache, key: Key, cached: Cached, later: nat, c': Cache)
    requires Sound(c) && Inserted(c, key, cached, later, c')
    requires forall other :: other in c.entries ==> c.entries[other].createdAt <= cached.createdAt
    requires cached.size <= MAX_CACHED_COMMAND_BYTES_PER_DEVICE && cached.createdAt + COMMAND_CACHE_TTL <= later
    ensures key !in c'.entries
  {
    hide DeviceOver, GlobalOver, Trimmed, Pruned, Without;
    var trimmed :| InsertedVia(c, key, cached, later, trimmed, c');
    var base := Without(c, key);
    WithoutIsListed(c, key);
    WithIsListed(base, key, cached);
    NewestSurvivesTrim(base, key, cached, trimmed);
    TrimmedIsListed(With(base, key, cached), key.device, trimmed);
    var i :| 0 <= i < |trimmed.order| && trimmed.order[i] == key;
    PruneIsExact(trimmed, later, c', i);
  }

  /** An insert adds nothing but the new entry. */
  lemma InsertAddsOne(c: Cache, key: Key, cached: Cached, later: nat, c': Cache)
    requires Sound(c) && Inserted(c, key, cached, later, c')
    requires forall other :: other in c.entries ==> c.entries[other].createdAt <= cached.createdAt
    ensures Part(c'.entries, c.entries[key := cached])
  {
    hide DeviceOver, GlobalOver, Trimmed, Pruned, Without;
    var trimmed :| InsertedVia(c, key, cached, later, trimmed, c');
    WithoutIsListed(c, key);
    if cached.size <= MAX_CACHED_COMMAND_BYTES_PER_DEVICE {
      var added := With(Without(c, key), key, cached);
      WithIsListed(Without(c, key), key, cached);
      TrimmedIsListed(added, key.device, trimmed);
      PrunedIsSuffix(trimmed, later, c');
    }
  }

  /** An entry too large for its device is not cached; nothing but an older result under its key goes. */
  lemma InsertTooLarge(c: Cache, key: Key, cached: Cached, later: nat, c': Cache)
    requires Sound(c) && Inserted(c, key, cached, later, c') && cached.size > MAX_CACHED_COMMAND_BYTES_PER_DEVICE
    ensures c'.entries == c.entries - {key}
  {
    hide Without;
    var trimmed :| InsertedVia(c, key, cached, later, trimmed, c');
    WithoutIsListed(c, key);
  }

  /**
   * Why an insert drops another entry: it expired, the global limits are exceeded, or it is of the same device and that
   * is.
   */
  lemma InsertDropsForCause(c: Cache, key: Key, cached: Cached, later: nat, c': Cache, other: Key)
    requires Sound(c) && Inserted(c, key, cached, later, c') && other in c.entries && other != key
    requires forall k :: k in c.entries ==> c.entries[k].createdAt <= cached.createdAt
    ensures other in c'.entries ==> c'.entries[other] == c.entries[other]
    ensures other !in c'.entries ==>
              || IsExpired(c, other, later)
              || GlobalOver(c.entries[key := cached])
              || (other.device == key.device && DeviceOver(c.entries[key := cached], key.device))
  {
    hide DeviceOver, GlobalOver, Pruned, Without, Trimmed;
    var trimmed :| InsertedVia(c, key, cached, later, trimmed, c');
    var base := Without(c, key);
    WithoutIsListed(c, key);
    if cached.size <= MAX_CACHED_COMMAND_BYTES_PER_DEVICE {
      var added := With(base, key, cached);
      WithIsListed(base, key, cached);
      assert added.entries == c.entries[key := cached];
      TrimmedIsListed(added, key.device, trimmed);
      PrunedIsSuffix(trimmed, later, c');
      if other !in trimmed.entries {
        TrimNeedsPressure(added, key.device, trimmed, other);
      } else if other !in c'.entries {
        assert other in trimmed.order;
        var i :| 0 <= i < |trimmed.order| && trimmed.order[i] == other;
        PruneIsExact(trimmed, later, c', i);
        SuffixListed(trimmed, i);
        OverIsMonotone(Only(trimmed, trimmed.order[i..]).entries, added.entries);
      }
    }
  }

  lemma OverIsMonotone(part: Entries, entries: Entries)
    requires Part(part, entries)
    ensures GlobalOver(part) ==> GlobalOver(entries)
  {
    PartCountsLess(part, entries);
  }

  lemma TrimNeedsPressure(c: Cache, device: Bytes, c': Cache, key: Key)
    requires Listed(c) && Trimmed(c, device, c') && key in c.entries && key !in c'.entries
    ensures key.device == device && DeviceOver(c.entries, device)
  {
    hide DeviceOver, Filter, Only, Aged;
    var k: nat :| TrimmedAt(c, device, k, c');
    FilterListed(c, ElementsOf(c.order) - DeviceKeys(c.order, device, k));
    assert key in DeviceKeys(c.order, device, k);
    assert DeviceOver(WithoutDevice(c, device, 0).entries, device);
    NothingTrimmed(c, device);
  }

  lemma NothingTrimmed(c: Cache, device: Bytes)
    requires Listed(c)
    ensures WithoutDevice(c, device, 0).entries == c.entries
  {
    hide Filter;
    FilterListed(c, ElementsOf(c.order) - DeviceKeys(c.order, device, 0));
  }

  /** The inserting device loses its entries oldest first. */
  lemma TrimOldestFirst(c: Cache, device: Bytes, c': Cache, i: nat, j: nat)
    requires Listed(c) && Trimmed(c, device, c') && i < j < |c.order|
    requires c.order[i].device == device && c.order[i] in c'.entries
    ensures c.order[j] in c'.entries
  {
    var k: nat :| TrimmedAt(c, device, k, c');
    FilterListed(c, ElementsOf(c.order) - DeviceKeys(c.order, device, k));
    assert c.order[i] in c.order && c.order[j] in c.order;
    assert k <= i;
    assert c.order[j] !in c.order[..k];
  }

  lemma PruneOldestFirst(c: Cache, now: nat, c': Cache, i: nat, j: nat)
    requires Listed(c) && Pruned(c, now, c') && i < j < |c.order| && c.order[i] in c'.entries
    ensures c.order[j] in c'.entries
  {
    var live: nat, k: nat :| PrunedAt(c, now, live, k, c');
    SuffixListed(c, k);
    assert k <= i;
    assert c.order[k..][j - k] == c.order[j];
  }

  lemma InsertOldestFirst(c: Cache, key: Key, cached: Cached, later: nat, c': Cache, i: nat, j: nat)
    requires Sound(c) && Inserted(c, key, cached, later, c') && i < j < |c.order|
    requires forall k :: k in c.entries ==> c.entries[k].createdAt <= cached.createdAt
    requires c.order[i].device == key.device && c.order[i] != key && c.order[j] != key && c.order[i] in c'.entries
    ensures c.order[j] in c'.entries
  {
    hide DeviceOver, GlobalOver, Pruned, Trimmed, Only;
    var trimmed :| InsertedVia(c, key, cached, later, trimmed, c');
    var keep := ElementsOf(c.order) - {key};
    var base := Without(c, key);
    WithoutIsListed(c, key);
    assert c.order[i] in c.order && c.order[j] in c.order;
    if cached.size <= MAX_CACHED_COMMAND_BYTES_PER_DEVICE {
      var a, b := FilterOrder(c.order, keep, i, j);
      var added := With(base, key, cached);
      WithIsListed(base, key, cached);
      WithoutOrder(c, key);
      TrimmedIsListed(added, key.device, trimmed);
      PrunedIsSuffix(trimmed, later, c');
      assert added.order[a] == c.order[i] && added.order[b] == c.order[j];
      TrimOldestFirst(added, key.device, trimmed, a, b);
      var x, y := TrimKeepsOrder(added, key.device, trimmed, a, b);
      PruneOldestFirst(trimmed, later, c', x, y);
    }
  }

  lemma WithoutOrder(c: Cache, key: Key)
    ensures Without(c, key).order == Filter(c.order, ElementsOf(c.order) - {key})
  {
  }

  lemma TrimKeepsOrder(c: Cache, device: Bytes, c': Cache, a: nat, b: nat) returns (x: nat, y: nat)
    requires Listed(c) && Trimmed(c, device, c') && a < b < |c.order| && c.order[a] in c'.entries
             && c.order[b] in c'.entries
    ensures x < y < |c'.order| && c'.order[x] == c.order[a] && c'.order[y] == c.order[b]
  {
    var k: nat :| TrimmedAt(c, device, k, c');
    var keep := ElementsOf(c.order) - DeviceKeys(c.order, device, k);
    FilterListed(c, keep);
    x, y := FilterOrder(c.order, keep, a, b);
  }
}
