// The bounded cache of command results, with its running counters.
module CommandCache {
  import opened Basics
  import opened CommandCacheSpec

  // ---------- Counters ----------

  ghost predicate Counted(entries: Entries, totalBytes: nat, perDeviceBytes: map<Bytes, nat>,
                          perDeviceEntries: map<Bytes, nat>)
  {
    && totalBytes == Sum(Sizes(entries))
    && (forall device :: Count(perDeviceBytes, device) == Sum(DeviceSizes(entries, device)))
    && (forall device :: Count(perDeviceEntries, device) == |DeviceSizes(entries, device)|)
  }

  lemma DecrementExact(m: map<Bytes, nat>, key: Bytes, amount: nat)
    requires amount <= Count(m, key)
    ensures forall other ::
              Count(Decrement(m, key, amount), other) == Count(m, other) - (if other == key then amount else 0)
  {
  }

  lemma RemovedSizes(entries: Entries, key: Key)
    requires key in entries
    ensures Sum(Sizes(entries)) == entries[key].size + Sum(Sizes(entries - {key}))
    ensures forall device :: device != key.device ==>
              DeviceSizes(entries - {key}, device) == DeviceSizes(entries, device)
    ensures Sum(DeviceSizes(entries, key.device)) == entries[key].size + Sum(DeviceSizes(entries - {key}, key.device))
    ensures |DeviceSizes(entries, key.device)| == 1 + |DeviceSizes(entries - {key}, key.device)|
  {
    SumRemove(Sizes(entries), key);
    assert Sizes(entries) - {key} == Sizes(entries - {key});
    var m := DeviceSizes(entries, key.device);
    SumRemove(m, key);
    SizeRemove(m, key);
    assert m - {key} == DeviceSizes(entries - {key}, key.device);
    forall device | device != key.device ensures DeviceSizes(entries - {key}, device) == DeviceSizes(entries, device) {
    }
  }

  lemma CountedAfterRemove(entries: Entries, totalBytes: nat, perDeviceBytes: map<Bytes, nat>,
                           perDeviceEntries: map<Bytes, nat>, key: Key)
    requires Counted(entries, totalBytes, perDeviceBytes, perDeviceEntries) && key in entries
    ensures Counted(entries - {key}, SatSub(totalBytes, entries[key].size),
                    Decrement(perDeviceBytes, key.device, entries[key].size),
                    Decrement(perDeviceEntries, key.device, 1))
  {
    hide Decrement, Count, DeviceSizes, Sizes;
    RemovedSizes(entries, key);
    DecrementExact(perDeviceBytes, key.device, entries[key].size);
    DecrementExact(perDeviceEntries, key.device, 1);
  }

  lemma CountedAfterAdd(entries: Entries, totalBytes: nat, perDeviceBytes: map<Bytes, nat>,
                        perDeviceEntries: map<Bytes, nat>, key: Key, cached: Cached)
    requires Counted(entries, totalBytes, perDeviceBytes, perDeviceEntries) && key !in entries
             && totalBytes + cached.size <= USIZE_MAX
    ensures Counted(entries[key := cached], SatAdd(totalBytes, cached.size),
                    perDeviceBytes[key.device := Count(perDeviceBytes, key.device) + cached.size],
                    perDeviceEntries[key.device := Count(perDeviceEntries, key.device) + 1])
  {
    hide DeviceSizes, Sizes;
    var after := entries[key := cached];
    RemovedSizes(after, key);
    assert after - {key} == entries;
  }

  /** The counters tell exactly whether a limit is exceeded. */
  lemma CountersDecide(entries: Entries, totalBytes: nat, perDeviceBytes: map<Bytes, nat>,
                       perDeviceEntries: map<Bytes, nat>, device: Bytes)
    requires Counted(entries, totalBytes, perDeviceBytes, perDeviceEntries)
    ensures GlobalOver(entries) <==>
              |entries| > MAX_CACHED_COMMANDS_GLOBAL || totalBytes > MAX_CACHED_COMMAND_BYTES_GLOBAL
    ensures DeviceOver(entries, device) <==>
              Count(perDeviceEntries, device) > MAX_CACHED_COMMANDS_PER_DEVICE
              || Count(perDeviceBytes, device) > MAX_CACHED_COMMAND_BYTES_PER_DEVICE
  {
  }

  /** A device over its limits is known to the entry counters and has an entry in the queue. */
  lemma OverHasEntries(c: Cache, totalBytes: nat, perDeviceBytes: map<Bytes, nat>, perDeviceEntries: map<Bytes, nat>,
                       device: Bytes) returns (key: Key)
    requires Counted(c.entries, totalBytes, perDeviceBytes, perDeviceEntries) && Listed(c)
             && DeviceOver(c.entries, device)
    ensures device in perDeviceEntries && key in c.order && key.device == device
  {
    var sizes := DeviceSizes(c.entries, device);
    assert sizes == map[] ==> Sum(sizes) == 0;
    key :| key in sizes;
    assert |sizes| == |sizes.Keys|;
    assert sizes.Keys != {};
  }

  // ---------- Steps on the queue ----------

  lemma DropFront(c: Cache, k: nat)
    requires Listed(c) && k < |c.order|
    ensures var now := Only(c, c.order[k..]);
            && now.order[0] == c.order[k] && now.order[1..] == c.order[k + 1..]
            && now.entries - {c.order[k]} == Only(c, c.order[k + 1..]).entries
            && c.order[k] in now.entries && now.entries[c.order[k]] == c.entries[c.order[k]]
  {
    var now, next := Only(c, c.order[k..]), Only(c, c.order[k + 1..]);
    assert c.order[k] in c.order;
    assert c.order[k..] == [c.order[k]] + c.order[k + 1..];
    assert c.order[k] !in c.order[k + 1..];
    assert now.entries - {c.order[k]} == next.entries;
  }

  lemma NoFrontDropped(c: Cache)
    requires Listed(c)
    ensures Only(c, c.order[0..]) == c
  {
    assert c.order[0..] == c.order;
    assert Restrict(c.entries, ElementsOf(c.order)) == c.entries;
  }

  lemma NoDeviceDropped(c: Cache, device: Bytes)
    requires Listed(c)
    ensures WithoutDevice(c, device, 0) == c
  {
    hide Filter, Restrict, Unique;
    assert DeviceKeys(c.order, device, 0) == {};
    assert ElementsOf(c.order) - {} == ElementsOf(c.order);
    FilterAll(c.order, ElementsOf(c.order));
    NoFrontDropped(c);
    assert c.order[0..] == c.order;
  }

  lemma SameDeviceKeys(order: seq<Key>, device: Bytes, k: nat, i: nat)
    requires k <= i <= |order| && forall x :: k <= x < i ==> order[x].device != device
    ensures DeviceKeys(order, device, i) == DeviceKeys(order, device, k)
  {
    assert order[..i] == order[..k] + order[k..i];
  }

  /** Where the device's oldest remaining key stands in the whole queue. */
  lemma OldestOfDevice(c: Cache, device: Bytes, k: nat, p: nat) returns (q: nat)
    requires Listed(c) && k <= |c.order|
    requires var order := WithoutDevice(c, device, k).order;
             p < |order| && order[p].device == device && forall i :: 0 <= i < p ==> order[i].device != device
    ensures k <= q < |c.order| && c.order[q] == WithoutDevice(c, device, k).order[p]
    ensures forall i :: k <= i < q ==> c.order[i].device != device
  {
    hide Restrict, Filter;
    var keep := ElementsOf(c.order) - DeviceKeys(c.order, device, k);
    var order := Filter(c.order, keep);
    FilterIsExact(c.order, keep);
    assert order[p] in order;
    q :| 0 <= q < |c.order| && c.order[q] == order[p];
    assert order[p] !in c.order[..k];
    forall i | k <= i < q ensures c.order[i].device != device {
      if c.order[i].device == device {
        KeptBehind(c, device, k, i);
        var a, b := FilterOrder(c.order, keep, i, q);
      }
    }
  }

  lemma KeptBehind(c: Cache, device: Bytes, k: nat, i: nat)
    requires Unique(c.order) && k <= i < |c.order|
    ensures c.order[i] in ElementsOf(c.order) - DeviceKeys(c.order, device, k)
  {
    assert c.order[i] in c.order && c.order[i] !in c.order[..k];
  }

  /** Dropping the device's oldest remaining key moves the cut just behind it. */
  lemma DropOldestOfDevice(c: Cache, device: Bytes, k: nat, p: nat) returns (next: nat)
    requires Listed(c) && k <= |c.order|
    requires var order := WithoutDevice(c, device, k).order;
             p < |order| && order[p].device == device && forall i :: 0 <= i < p ==> order[i].device != device
    ensures k < next <= |c.order|
    ensures forall i :: k <= i < next ==> WithoutDevice(c, device, i) == WithoutDevice(c, device, k)
    ensures var now := WithoutDevice(c, device, k);
            && Listed(now) && Listed(WithoutDevice(c, device, next))
            && WithoutDevice(c, device, next) ==
                 Cache(now.entries - {now.order[p]}, now.order[..p] + now.order[p + 1..])
  {
    var q := OldestOfDevice(c, device, k, p);
    next := q + 1;
    forall i | k <= i < next ensures WithoutDevice(c, device, i) == WithoutDevice(c, device, k) {
      SameDeviceKeys(c.order, device, k, i);
    }
    SameDeviceKeys(c.order, device, k, q);
    KeptBehind(c, device, k, q);
    DropKey(c, device, k, q, p);
  }

  lemma OneMoreDeviceKey(order: seq<Key>, device: Bytes, q: nat)
    requires q < |order| && order[q].device == device
    ensures DeviceKeys(order, device, q + 1) == DeviceKeys(order, device, q) + {order[q]}
  {
    assert order[..q + 1] == order[..q] + [order[q]];
  }

  lemma DropKey(c: Cache, device: Bytes, k: nat, q: nat, p: nat)
    requires Listed(c) && k <= q < |c.order| && c.order[q].device == device
    requires DeviceKeys(c.order, device, q) == DeviceKeys(c.order, device, k)
    requires var order := WithoutDevice(c, device, k).order; p < |order| && order[p] == c.order[q]
    ensures var now := WithoutDevice(c, device, k);
            && Listed(now) && Listed(WithoutDevice(c, device, q + 1))
            && WithoutDevice(c, device, q + 1) ==
                 Cache(now.entries - {now.order[p]}, now.order[..p] + now.order[p + 1..])
  {
    hide Filter, Restrict, Unique, Aged, DeviceKeys;
    var all, key, now := ElementsOf(c.order), c.order[q], WithoutDevice(c, device, k);
    var keep := all - DeviceKeys(c.order, device, k);
    FilterListed(c, keep);
    OneMoreDeviceKey(c.order, device, q);
    assert all - (DeviceKeys(c.order, device, k) + {key}) == keep * (all - {key});
    FilterListed(c, keep * (all - {key}));
    FilterTwice(c.order, keep, all - {key});
    RemoveAtFilters(now.order, p);
    FilterIsExact(c.order, keep);
    FilterSame(now.order, ElementsOf(now.order) - {key}, all - {key});
    SameEntries(c, WithoutDevice(c, device, q + 1).order, now.order, key);
  }

  lemma SameEntries(c: Cache, after: seq<Key>, before: seq<Key>, key: Key)
    requires forall x :: x in after <==> x in before && x != key
    ensures Only(c, after).entries == Only(c, before).entries - {key}
  {
  }

  // ---------- The cache object ----------

  class CommandCache {
    var entries: Entries
    var insertionOrder: seq<Key>
    var perDeviceBytes: map<Bytes, nat>
    var perDeviceEntries: map<Bytes, nat>
    var totalBytes: nat

    ghost function Contents(): Cache
      reads this
    {
      Cache(entries, insertionOrder)
    }

    /** The queue lists the entries once each and the counters are exact. */
    ghost predicate Consistent()
      reads this
    {
      Listed(Contents()) && Counted(entries, totalBytes, perDeviceBytes, perDeviceEntries)
    }

    /** Consistent, and within every limit. */
    ghost predicate Valid()
      reads this
    {
      Consistent() && Sound(Contents())
    }

    constructor ()
      ensures Valid() && Contents() == Cache(map[], [])
    {
      entries, insertionOrder, perDeviceBytes, perDeviceEntries, totalBytes := map[], [], map[], map[], 0;
      new;
      EmptyIsSound();
    }

    method RemoveEntry(key: Key)
      requires Counted(entries, totalBytes, perDeviceBytes, perDeviceEntries)
      modifies `entries, `perDeviceBytes, `perDeviceEntries, `totalBytes
      ensures Counted(entries, totalBytes, perDeviceBytes, perDeviceEntries)
      ensures entries == old(entries) - {key}
    {
      hide Counted;
      if key in entries {
        CountedAfterRemove(entries, totalBytes, perDeviceBytes, perDeviceEntries, key);
        var size := entries[key].size;
        entries := entries - {key};
        totalBytes := SatSub(totalBytes, size);
        perDeviceBytes := Decrement(perDeviceBytes, key.device, size);
        perDeviceEntries := Decrement(perDeviceEntries, key.device, 1);
      } else {
        assert entries - {key} == entries;
      }
    }

    predicate GlobalLimitsExceeded()
      reads this
    {
      |entries| > MAX_CACHED_COMMANDS_GLOBAL || totalBytes > MAX_CACHED_COMMAND_BYTES_GLOBAL
    }

    /** Pops the front of the queue. */
    method PopFront(ghost c: Cache, ghost k: nat)
      requires Consistent() && Listed(c) && k < |c.order| && Contents() == Only(c, c.order[k..])
      modifies this
      ensures Consistent() && Contents() == Only(c, c.order[k + 1..])
    {
      hide Counted, Only, Unique;
      DropFront(c, k);
      SuffixListed(c, k + 1);
      OnlyOrder(c, c.order[k..]);
      OnlyOrder(c, c.order[k + 1..]);
      var key := insertionOrder[0];
      insertionOrder := insertionOrder[1..];
      RemoveEntry(key);
    }

    /** The first loop of pruning: expired entries go, up to the first live one. */
    method PruneExpired(now: nat) returns (ghost live: nat)
      requires Consistent()
      modifies this
      ensures Consistent() && LiveFrom(old(Contents()), now, live)
      ensures Contents() == Only(old(Contents()), old(Contents()).order[live..])
    {
      hide Counted, Only, Unique, Listed;
      ghost var c := Contents();
      live := 0;
      NoFrontDropped(c);
      while insertionOrder != [] && IsExpired(Cache(entries, insertionOrder), insertionOrder[0], now)
        invariant live <= |c.order| && Consistent() && Contents() == Only(c, c.order[live..])
        invariant forall i :: 0 <= i < live ==> IsExpired(c, c.order[i], now)
        decreases |c.order| - live
      {
        OnlyOrder(c, c.order[live..]);
        FrontOf(c, live);
        PopFront(c, live);
        live := live + 1;
      }
      OnlyOrder(c, c.order[live..]);
      if live < |c.order| {
        FrontOf(c, live);
      }
    }

    /** The second loop: entries go from the front while the cache as a whole is over its limits. */
    method PruneOver(ghost c: Cache, ghost live: nat) returns (ghost k: nat)
      requires Consistent() && Listed(c) && live <= |c.order| && Contents() == Only(c, c.order[live..])
      modifies this
      ensures Consistent() && FitsFrom(c, live, k) && Contents() == Only(c, c.order[k..])
    {
      hide Counted, Only, Unique, GlobalOver, Listed;
      k := live;
      while GlobalLimitsExceeded() && insertionOrder != []
        invariant live <= k <= |c.order| && Consistent() && Contents() == Only(c, c.order[k..])
        invariant forall i :: live <= i < k ==> GlobalOver(Only(c, c.order[i..]).entries)
        decreases |c.order| - k
      {
        CountersDecide(entries, totalBytes, perDeviceBytes, perDeviceEntries, []);
        OnlyOrder(c, c.order[k..]);
        PopFront(c, k);
        k := k + 1;
      }
      CountersDecide(entries, totalBytes, perDeviceBytes, perDeviceEntries, []);
      if insertionOrder == [] {
        EmptyFits(Contents());
      }
    }

    method Prune(now: nat)
      requires Consistent()
      modifies this
      ensures Consistent() && Pruned(old(Contents()), now, Contents())
    {
      hide Counted, Only, Unique, GlobalOver;
      ghost var c := Contents();
      ghost var live := PruneExpired(now);
      ghost var k := PruneOver(c, live);
      assert PrunedAt(c, now, live, k, Contents());
    }

    predicate DeviceLimitsExceeded(device: Bytes)
      reads this
    {
      || Count(perDeviceEntries, device) > MAX_CACHED_COMMANDS_PER_DEVICE
      || Count(perDeviceBytes, device) > MAX_CACHED_COMMAND_BYTES_PER_DEVICE
    }

    /** The position of the first key of a device. */
    method Position(device: Bytes) returns (p: nat)
      requires exists key :: key in insertionOrder && key.device == device
      ensures p < |insertionOrder| && insertionOrder[p].device == device
      ensures forall i :: 0 <= i < p ==> insertionOrder[i].device != device
    {
      p := 0;
      while insertionOrder[p].device != device
        invariant p < |insertionOrder| && forall i :: 0 <= i < p ==> insertionOrder[i].device != device
        decreases |insertionOrder| - p
      {
        p := p + 1;
      }
    }

    /** Drops the device's entries from the oldest until its limits hold. */
    method TrimDevice(device: Bytes)
      requires Consistent()
      modifies this
      ensures Consistent() && Trimmed(old(Contents()), device, Contents())
    {
      hide Counted, Unique, DeviceOver, Listed, WithoutDevice;
      ghost var c := Contents();
      ghost var k := 0;
      NoDeviceDropped(c, device);
      while DeviceLimitsExceeded(device)
        invariant k <= |c.order| && Consistent() && Contents() == WithoutDevice(c, device, k)
        invariant forall i :: 0 <= i < k ==> DeviceOver(WithoutDevice(c, device, i).entries, device)
        decreases |c.order| - k
      {
        CountersDecide(entries, totalBytes, perDeviceBytes, perDeviceEntries, device);
        ghost var present := OverHasEntries(Contents(), totalBytes, perDeviceBytes, perDeviceEntries, device);
        var p := Position(device);
        ghost var next := DropOldestOfDevice(c, device, k, p);
        var key := insertionOrder[p];
        insertionOrder := insertionOrder[..p] + insertionOrder[p + 1..];
        RemoveEntry(key);
        k := next;
      }
      CountersDecide(entries, totalBytes, perDeviceBytes, perDeviceEntries, device);
      assert TrimmedAt(c, device, k, Contents());
    }

    /** Brings every device within its limits: those over them are trimmed one after the other. */
    method EnforceDeviceLimits() returns (ghost devices: seq<Bytes>)
      requires Consistent() && Aged(Contents())
      modifies this
      ensures Consistent() && Aged(Contents()) && forall device :: !DeviceOver(entries, device)
      ensures Unique(devices) && forall device :: device in devices <==> DeviceOver(old(entries), device)
      ensures TrimmedThrough(old(Contents()), devices, Contents())
    {
      hide Counted, Unique, DeviceOver, Listed, WithoutDevice, Trimmed, TrimmedThrough, Aged, DeviceSizes;
      ghost var c := Contents();
      var overBudget := set other | other in perDeviceEntries && DeviceLimitsExceeded(other);
      forall other ensures DeviceOver(entries, other) <==> other in overBudget {
        CountersDecide(entries, totalBytes, perDeviceBytes, perDeviceEntries, other);
        if DeviceOver(entries, other) {
          var present := OverHasEntries(Contents(), totalBytes, perDeviceBytes, perDeviceEntries, other);
        }
      }
      devices := [];
      NoneTrimmed(c);
      while overBudget != {}
        invariant Consistent() && Aged(Contents()) && TrimmedThrough(c, devices, Contents()) && Unique(devices)
        invariant forall other :: other in devices || other in overBudget <==> DeviceOver(c.entries, other)
        invariant forall other :: other in overBudget ==> other !in devices
        invariant forall other :: DeviceOver(entries, other) <==> other in overBudget
        decreases |overBudget|
      {
        var next :| next in overBudget;
        ghost var before := Contents();
        TrimDevice(next);
        OthersUntouched(before, next, Contents());
        OneMoreTrimmed(c, devices, before, next, Contents());
        devices := devices + [next];
        overBudget := overBudget - {next};
      }
    }

    method Insert(key: Key, command: Bytes, response: Response, responseLen: nat, now: nat, later: nat)
      requires Valid() && forall other :: other in entries ==> entries[other].createdAt <= now
      modifies this
      ensures Valid()
      ensures Inserted(old(Contents()), key, Cached(command, response, now, EntrySize(key, command, responseLen)),
                       later, Contents())
      ensures WithinLimits(entries)
      ensures key in entries <==>
                |key.idempotency| + |command| + responseLen <= 8 * 1024 * 1024 && later < now + 300_000
      ensures key in entries ==>
                && entries[key].command == command && entries[key].response == response
                && entries[key].createdAt == now
    {
      hide Consistent, Sound, Inserted, WithinLimits, EntrySize;
      ghost var c := Contents();
      InsertEntry(key, command, response, responseLen, now, later);
      ghost var cached := Cached(command, response, now, EntrySize(key, command, responseLen));
      InsertOutcome(c, key, cached, responseLen, later, Contents());
    }

    method InsertEntry(key: Key, command: Bytes, response: Response, responseLen: nat, now: nat, later: nat)
      requires Valid() && forall other :: other in entries ==> entries[other].createdAt <= now
      modifies this
      ensures Valid()
      ensures Inserted(old(Contents()), key, Cached(command, response, now, EntrySize(key, command, responseLen)),
                       later, Contents())
    {
      hide Counted, Unique, Listed, Aged, Bounded, DeviceOver, GlobalOver, Trimmed, Pruned, Without, Restrict, Filter,
           TrimmedThrough;
      ghost var c := Contents();
      var size := EntrySize(key, command, responseLen);
      ghost var cached := Cached(command, response, now, size);
      RemoveEntry(key);
      insertionOrder := Filter(insertionOrder, ElementsOf(insertionOrder) - {key});
      ghost var base := Without(c, key);
      WithoutIsListed(c, key);
      WithoutOrder(c, key);
      if size > MAX_CACHED_COMMAND_BYTES_PER_DEVICE || size > MAX_CACHED_COMMAND_BYTES_GLOBAL {
        assert InsertedVia(c, key, cached, later, Contents(), Contents());
        InsertKeepsSound(c, key, cached, later, Contents());
        return;
      }
      WithinWord(c.entries, base.entries, totalBytes, perDeviceBytes, perDeviceEntries);
      CountedAfterAdd(entries, totalBytes, perDeviceBytes, perDeviceEntries, key, cached);
      WithIsListed(base, key, cached);
      totalBytes := SatAdd(totalBytes, size);
      perDeviceBytes := perDeviceBytes[key.device := Count(perDeviceBytes, key.device) + size];
      perDeviceEntries := perDeviceEntries[key.device := Count(perDeviceEntries, key.device) + 1];
      entries := entries[key := Cached(command, response, now, size)];
      insertionOrder := insertionOrder + [key];
      OnlyInserterOver(c.entries, base.entries, key, cached, entries);
      ghost var added := Contents();
      ghost var devices := EnforceDeviceLimits();
      ghost var trimmed := Contents();
      OneTrimmed(added, devices, key.device, trimmed);
      Prune(later);
      assert InsertedVia(c, key, cached, later, trimmed, Contents());
      InsertKeepsSound(c, key, cached, later, Contents());
    }
  }

  // ---------- Lemmas for the methods ----------

  /** At most 1024 results of 64 MiB in all, and 256 of 8 MiB for each device. */
  ghost predicate WithinLimits(entries: Entries)
  {
    && |entries| <= 1024 && Sum(Sizes(entries)) <= 64 * 1024 * 1024
    && forall device :: |DeviceSizes(entries, device)| <= 256 && Sum(DeviceSizes(entries, device)) <= 8 * 1024 * 1024
  }

  lemma SoundIsWithin(c: Cache)
    requires Sound(c)
    ensures WithinLimits(c.entries)
  {
    hide Sum, Sizes, DeviceSizes;
    forall device
      ensures |DeviceSizes(c.entries, device)| <= 256 && Sum(DeviceSizes(c.entries, device)) <= 8 * 1024 * 1024
    {
      assert !DeviceOver(c.entries, device);
    }
  }

  lemma InsertOutcome(c: Cache, key: Key, cached: Cached, responseLen: nat, later: nat, c': Cache)
    requires Sound(c) && Sound(c') && Inserted(c, key, cached, later, c')
    requires cached.size == EntrySize(key, cached.command, responseLen)
    requires forall other :: other in c.entries ==> c.entries[other].createdAt <= cached.createdAt
    ensures WithinLimits(c'.entries)
    ensures key in c'.entries <==>
              && |key.idempotency| + |cached.command| + responseLen <= 8 * 1024 * 1024
              && later < cached.createdAt + 300_000
    ensures key in c'.entries ==> c'.entries[key] == cached
  {
    SoundIsWithin(c');
    hide Inserted, Sound, WithinLimits;
    if cached.size > MAX_CACHED_COMMAND_BYTES_PER_DEVICE {
      InsertTooLarge(c, key, cached, later, c');
    } else if later < cached.createdAt + COMMAND_CACHE_TTL {
      InsertSurvives(c, key, cached, later, c');
    } else {
      InsertTooOld(c, key, cached, later, c');
    }
  }

  lemma EmptyIsSound()
    ensures Sound(Cache(map[], [])) && Counted(map[], 0, map[], map[])
  {
    var none: Entries := map[];
    assert Sizes(none) == map[];
    forall device ensures DeviceSizes(none, device) == map[] {
    }
  }

  lemma OnlyOrder(c: Cache, order: seq<Key>)
    ensures Only(c, order).order == order
  {
  }

  lemma FrontOf(c: Cache, k: nat)
    requires Listed(c) && k < |c.order|
    ensures var d := Only(c, c.order[k..]);
            && d.order != [] && d.order[0] == c.order[k]
            && forall now: nat :: IsExpired(d, c.order[k], now) <==> IsExpired(c, c.order[k], now)
  {
    assert c.order[k] in c.order[k..] && c.order[k] in c.order;
  }

  lemma EmptyFits(c: Cache)
    requires Listed(c) && c.order == []
    ensures !GlobalOver(c.entries)
  {
    assert c.entries == map[];
    assert Sizes(c.entries) == map[];
  }

  /** The devices are trimmed one after the other. */
  ghost predicate TrimmedThrough(c: Cache, devices: seq<Bytes>, c': Cache)
  {
    if devices == [] then c' == c
    else
      var n := |devices| - 1;
      exists mid :: TrimmedThrough(c, devices[..n], mid) && Trimmed(mid, devices[n], c')
  }

  lemma NoneTrimmed(c: Cache)
    ensures TrimmedThrough(c, [], c) && Unique<Bytes>([])
  {
  }

  lemma OneMoreTrimmed(c: Cache, devices: seq<Bytes>, mid: Cache, device: Bytes, c': Cache)
    requires TrimmedThrough(c, devices, mid) && Trimmed(mid, device, c')
    ensures TrimmedThrough(c, devices + [device], c')
    ensures Unique(devices) && device !in devices ==> Unique(devices + [device])
  {
    assert (devices + [device])[..|devices|] == devices;
  }

  /** Trimming one device leaves every other as it was. */
  lemma OthersUntouched(c: Cache, device: Bytes, c': Cache)
    requires Listed(c) && Aged(c) && Trimmed(c, device, c')
    ensures Aged(c') && !DeviceOver(c'.entries, device)
    ensures forall other :: other != device ==> (DeviceOver(c'.entries, other) <==> DeviceOver(c.entries, other))
  {
    hide Trimmed, Aged;
    TrimmedIsListed(c, device, c');
    forall other | other != device ensures DeviceSizes(c'.entries, other) == DeviceSizes(c.entries, other) {
    }
  }

  /** Where one device can be over its limits, the others do not change the outcome. */
  lemma OneTrimmed(c: Cache, devices: seq<Bytes>, device: Bytes, c': Cache)
    requires Listed(c) && TrimmedThrough(c, devices, c') && Unique(devices)
    requires forall other :: other in devices <==> DeviceOver(c.entries, other)
    requires forall other :: other != device ==> !DeviceOver(c.entries, other)
    ensures Trimmed(c, device, c')
  {
    hide DeviceOver, Listed, Trimmed;
    if devices == [] {
      NothingToTrim(c, device);
    } else {
      assert devices[0] in devices && devices[|devices| - 1] in devices;
      assert |devices| == 1;
      assert devices[..0] == [];
    }
  }

  lemma NothingToTrim(c: Cache, device: Bytes)
    requires Listed(c) && !DeviceOver(c.entries, device)
    ensures Trimmed(c, device, c)
  {
    NoDeviceDropped(c, device);
    assert TrimmedAt(c, device, 0, c);
  }

  lemma WithinWord(entries: Entries, part: Entries, totalBytes: nat, perDeviceBytes: map<Bytes, nat>,
                   perDeviceEntries: map<Bytes, nat>)
    requires Bounded(entries) && Part(part, entries) && Counted(part, totalBytes, perDeviceBytes, perDeviceEntries)
    ensures totalBytes <= MAX_CACHED_COMMAND_BYTES_GLOBAL
  {
    PartCountsLess(part, entries);
  }

  lemma OnlyInserterOver(entries: Entries, part: Entries, key: Key, cached: Cached, after: Entries)
    requires Bounded(entries) && Part(part, entries) && key !in part && after == part[key := cached]
    ensures forall other :: other != key.device ==> !DeviceOver(after, other)
  {
    PartCountsLess(part, entries);
    forall other | other != key.device ensures !DeviceOver(after, other) {
      OthersStayWithin(part, key, cached, other);
    }
  }
}
