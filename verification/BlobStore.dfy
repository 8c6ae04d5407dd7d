// The content-addressed blob cache: per-device quotas, tickets that pin blobs, reclamation and lazy expiry.
module BlobStore {
  import opened Basics
  import opened BlobAccounts
  import opened BlobCharges
  import opened BlobReclaim
  import opened BlobExpiry

  predicate Acceptable(owner: Bytes, bytes: Bytes, mediaType: string)
  {
    && 0 < |owner| <= 128 && 0 < |bytes| <= MAX_CACHED_BLOB_BYTES
    && mediaType != [] && Utf8Len(mediaType) <= 256 && NoControl(mediaType)
  }

  /** `live`, `queue` and `liveTickets` are what expiry at `now` leaves. */
  ghost predicate Expired(entries: Entries, order: seq<Bytes>, tickets: Tickets, now: nat, live: Entries,
                          queue: seq<Bytes>, liveTickets: Tickets)
  {
    && live == LiveEntries(entries, tickets, now) && liveTickets == LiveTickets(tickets, now)
    && queue == Filter(order, live.Keys)
  }

  /** What inserting an acceptable blob does to a store from which everything expired is gone. */
  ghost predicate Inserted(digest: Bytes -> Bytes, live: Entries, queue: seq<Bytes>, tickets: Tickets, owner: Bytes,
                           bytes: Bytes, mediaType: string, time: nat, released: seq<Bytes>, settled: Entries,
                           settledQueue: seq<Bytes>, result: Option<BlobRef>, entries: Entries, order: seq<Bytes>)
  {
    var id := digest(bytes);
    var owns := id in live && owner in live[id].owners;
    && (owns ==> released == [] && settled == live && settledQueue == queue)
    && (!owns ==> Reclaimed(live, queue, tickets, owner, |bytes|, 1, released, settled, settledQueue))
    && (id in live <==> id in settled) && (id in live ==> settled[id] == live[id])
    && (result.Some? <==>
          || owns
          || (RoomFor(settled, owner, |bytes|, 1)
              && (id in settled || (|settled| < MAX_CACHED_BLOBS
                 && Sum(Sizes(settled)) + |bytes| <= MAX_CACHED_BLOB_BYTES))))
    && (result.None? ==> entries == settled && order == settledQueue)
    && (result.Some? ==>
          if id in settled then
            // A deduplicated insert answers with the first insert's reference.
            && entries == settled[id := settled[id].(lastAccess := time, owners := settled[id].owners + {owner})]
            && order == settledQueue && result.value == settled[id].reference
          else
            && entries == settled[id := BlobEntry(result.value, bytes, time, {owner}, {})]
            && order == settledQueue + [id] && result.value == BlobRef(id, |bytes|, mediaType, id))
  }

  datatype Issue = Granted(transferId: nat, key: Bytes, reference: BlobRef) | NotFound | ResourceExhausted

  const I64_MAX := 0x7FFF_FFFF_FFFF_FFFF

  /** A transfer identifier and a ticket that the sampling loops would accept. */
  predicate Fresh(tickets: Tickets, transferId: nat, key: Bytes)
  {
    && 0 < transferId <= I64_MAX && key !in tickets
    && forall other :: other in tickets ==> tickets[other].transferId != transferId
  }

  ghost predicate Issued(live: Entries, liveTickets: Tickets, owner: Bytes, blobId: Bytes, accessed: nat, issued: nat,
                         transferId: nat, key: Bytes, result: Issue, entries: Entries, tickets: Tickets)
  {
    if blobId !in live || owner !in live[blobId].owners then
      result == NotFound && entries == live && tickets == liveTickets
    else
      && entries == live[blobId := live[blobId].(lastAccess := accessed)]
      && if |liveTickets| >= MAX_OUTSTANDING_TICKETS
         || |ForDevice(liveTickets, owner)| >= MAX_OUTSTANDING_TICKETS_PER_DEVICE then
           result == ResourceExhausted && tickets == liveTickets
         else
           && result == Granted(transferId, key, live[blobId].reference)
           && tickets == liveTickets[key := TicketEntry(transferId, blobId, owner, issued + TICKET_TTL)]
  }

  datatype Refusal = InvalidTicket | WrongTransfer | WrongDevice | TicketExpired

  datatype Redemption = Delivered(reference: BlobRef, bytes: Bytes) | Refused(reason: Refusal)

  /**
   * A live ticket presented by its owner for its transfer is spent and delivers the stored blob; anything else is
   * refused.
   */
  ghost predicate Redeemed(digest: Bytes -> Bytes, live: Entries, liveTickets: Tickets, owner: Bytes, transferId: nat,
                           key: Bytes, checked: nat, accessed: nat, result: Redemption, entries: Entries,
                           tickets: Tickets)
  {
    if key !in liveTickets then
      result == Refused(InvalidTicket) && entries == live && tickets == liveTickets
    else
      var ticket := liveTickets[key];
      if ticket.transferId != transferId then
        result == Refused(WrongTransfer) && entries == live && tickets == liveTickets
      else if ticket.owner != owner then
        result == Refused(WrongDevice) && entries == live && tickets == liveTickets
      else if ticket.expiresAt <= checked then
        result == Refused(TicketExpired) && entries == live && tickets == liveTickets
      else
        && ticket.blobId in live && tickets == liveTickets - {key}
        && result == Delivered(live[ticket.blobId].reference, live[ticket.blobId].bytes)
        && digest(result.bytes) == ticket.blobId && result.reference.blobId == ticket.blobId
        && var entry := live[ticket.blobId];
        && entries == live[ticket.blobId := entry.(lastAccess := accessed,
                                                   deliveredOwners := entry.deliveredOwners + {owner})]
  }

  class BlobStore {
    const digest: Bytes -> Bytes

    var entries: Entries
    var insertionOrder: seq<Bytes>
    var tickets: Tickets
    var transferIds: set<nat>
    var blobTickets: Counters
    var deviceBytes: Counters
    var deviceEntries: Counters
    var deviceTickets: Counters
    var totalBytes: nat
    var nextPruneAt: Option<nat>

    /** The latest time any operation has seen. */
    ghost var clock: nat

    ghost predicate Counted()
      reads this
    {
      EntriesCounted(entries, totalBytes, deviceBytes, deviceEntries)
      && EntryLimits(entries, totalBytes, deviceBytes, deviceEntries)
    }

    ghost predicate TicketsValid()
      reads this
    {
      TicketsCounted(tickets, transferIds, blobTickets, deviceTickets) && TicketLimits(tickets, deviceTickets)
    }

    ghost predicate Shaped()
      reads this
    {
      && SoundEntries(digest, entries) && TicketsHonoured(entries, tickets) && Clocked(entries, tickets, clock)
      && DeadlineBounds(entries, tickets, nextPruneAt)
    }

    ghost predicate Valid()
      reads this
    {
      Counted() && TicketsValid() && Shaped() && Queued(entries, insertionOrder)
    }

    method RemoveEntry(id: Bytes)
      requires Counted()
      modifies this`entries, this`totalBytes, this`deviceBytes, this`deviceEntries
      ensures entries == old(entries) - {id} && Counted()
      ensures Fewer(deviceBytes, old(deviceBytes)) && Fewer(deviceEntries, old(deviceEntries))
    {
      hide StillCharged, Decrement, Sizes, EntriesCounted, Count;
      if id !in entries {
        assert entries - {id} == entries;
        return;
      }
      var entry := entries[id];
      ChargeRemoved(entries, id, totalBytes, deviceBytes, deviceEntries);
      SizeOfEntries(entries, id);
      entries := entries - {id};
      totalBytes := SatSub(totalBytes, |entry.bytes|);
      var rest := entry.owners;
      while rest != {}
        invariant StillCharged(entries, deviceBytes, deviceEntries, rest, |entry.bytes|)
        invariant Fewer(deviceBytes, old(deviceBytes)) && Fewer(deviceEntries, old(deviceEntries))
        modifies this`deviceBytes, this`deviceEntries
        decreases rest
      {
        var owner :| owner in rest;
        ChargeDropped(entries, deviceBytes, deviceEntries, rest, |entry.bytes|, owner);
        deviceBytes := Decrement(deviceBytes, owner, |entry.bytes|);
        deviceEntries := Decrement(deviceEntries, owner, 1);
        rest := rest - {owner};
      }
      NothingCharged(entries, totalBytes, deviceBytes, deviceEntries, |entry.bytes|);
    }

    method RemoveTicket(key: Bytes)
      requires TicketsValid()
      modifies this`tickets, this`transferIds, this`blobTickets, this`deviceTickets
      ensures tickets == old(tickets) - {key} && TicketsValid()
    {
      hide Decrement, ForBlob, ForDevice, Count, NoZero;
      if key !in tickets {
        assert tickets - {key} == tickets;
        return;
      }
      var entry := tickets[key];
      TicketDropped(tickets, transferIds, blobTickets, deviceTickets, key);
      tickets := tickets - {key};
      transferIds := transferIds - {entry.transferId};
      blobTickets := Decrement(blobTickets, entry.blobId, 1);
      deviceTickets := Decrement(deviceTickets, entry.owner, 1);
    }

    method SchedulePrune(deadline: nat)
      modifies this`nextPruneAt
      ensures nextPruneAt == Earlier(old(nextPruneAt), deadline)
    {
      nextPruneAt := Some(if nextPruneAt.None? then deadline else Min(nextPruneAt.value, deadline));
    }

    predicate OwnerHasRoom(owner: Bytes, bytes: nat, count: nat)
      reads this
    {
      && SatAdd(Count(deviceBytes, owner), bytes) <= MAX_CACHED_BLOB_BYTES_PER_DEVICE
      && SatAdd(Count(deviceEntries, owner), count) <= MAX_CACHED_BLOBS_PER_DEVICE
    }

    predicate BlobHasTicket(id: Bytes)
      reads this
    {
      Count(blobTickets, id) > 0
    }

    /** Takes `owner` off one entry and drops the entry with its last owner. */
    method Release(owner: Bytes, id: Bytes)
      requires Counted() && id in entries && owner in entries[id].owners
      modifies this`entries, this`totalBytes, this`deviceBytes, this`deviceEntries
      ensures Counted()
      ensures entries == if old(entries[id]).owners == {owner} then old(entries) - {id}
                         else old(entries)[id := Disowned(old(entries)[id], owner)]
    {
      hide EntriesCounted, Decrement, Count;
      var entry := entries[id];
      DisownCounts(entries, id, owner, totalBytes, deviceBytes, deviceEntries);
      SameSize(entries, id, Disowned(entry, owner));
      entries := entries[id := Disowned(entry, owner)];
      deviceBytes := Decrement(deviceBytes, owner, |entry.bytes|);
      deviceEntries := Decrement(deviceEntries, owner, 1);
      if entries[id].owners == {} {
        RemoveEntry(id);
        assert entry.owners == {owner};
      }
    }

    /** Releases the requesting owner's delivered, unticketed blobs, oldest first, until there is room. */
    method ReclaimDeliveredForOwner(owner: Bytes, bytes: nat, count: nat) returns (ghost released: seq<Bytes>)
      requires Valid()
      modifies this`entries, this`insertionOrder, this`totalBytes, this`deviceBytes, this`deviceEntries
      ensures Valid()
      ensures Reclaimed(old(entries), old(insertionOrder), tickets, owner, bytes, count, released, entries,
                        insertionOrder)
      ensures forall id :: id in released ==>
                && id in old(entries) && owner in old(entries)[id].deliveredOwners && !Pinned(tickets, id)
                && (id in entries ==> owner !in entries[id].owners)
      ensures forall id :: id in old(entries) && id !in released ==> id in entries && entries[id] == old(entries)[id]
    {
      hide EntriesCounted, EntryLimits, TicketsCounted, Reclaiming, Reclaimed, Queued, Count, SoundEntries,
           TicketsHonoured, Clocked, DeadlineBounds, RoomFor, Reclaimable, SoundEntry, Pinned;
      ghost var before := entries;
      released := [];
      RoomIsCounted(entries, totalBytes, deviceBytes, deviceEntries, owner, bytes, count);
      ReclaimStart(entries, insertionOrder, tickets, owner, bytes, count);
      if OwnerHasRoom(owner, bytes, count) {
        ReclaimStop(before, insertionOrder, 0, tickets, owner, bytes, count, [], before, []);
        assert [] + insertionOrder[0..] == insertionOrder;
        ReclaimMeans(before, insertionOrder, tickets, owner, bytes, count, released, entries, insertionOrder);
        return;
      }
      var candidates := insertionOrder;
      insertionOrder := [];
      var i := 0;
      while i < |candidates| && !OwnerHasRoom(owner, bytes, count)
        invariant 0 <= i <= |candidates|
        invariant Counted()
        invariant Reclaiming(before, candidates, i, tickets, owner, bytes, count, released, entries, insertionOrder)
        modifies this`entries, this`insertionOrder, this`totalBytes, this`deviceBytes, this`deviceEntries
      {
        var id := candidates[i];
        RoomIsCounted(entries, totalBytes, deviceBytes, deviceEntries, owner, bytes, count);
        ReclaimTest(digest, before, candidates, i, tickets, owner, bytes, count, released, entries, insertionOrder,
                    transferIds, blobTickets, deviceTickets);
        if BlobHasTicket(id) || owner !in entries[id].deliveredOwners || owner !in entries[id].owners {
          ReclaimSkip(before, candidates, i, tickets, owner, bytes, count, released, entries, insertionOrder);
          insertionOrder := insertionOrder + [id];
        } else {
          ReclaimTake(before, candidates, i, tickets, owner, bytes, count, released, entries, insertionOrder);
          assert insertionOrder + [] == insertionOrder;
          Release(owner, id);
          released := released + [id];
          if id in entries {
            insertionOrder := insertionOrder + [id];
          }
        }
        i := i + 1;
      }
      RoomIsCounted(entries, totalBytes, deviceBytes, deviceEntries, owner, bytes, count);
      ReclaimStop(before, candidates, i, tickets, owner, bytes, count, released, entries, insertionOrder);
      insertionOrder := insertionOrder + candidates[i..];
      ReclaimedKeepsShape(digest, before, candidates, tickets, clock, nextPruneAt, owner, bytes, count, released,
                          entries, insertionOrder);
      ReclaimMeans(before, candidates, tickets, owner, bytes, count, released, entries, insertionOrder);
    }

    /** Expiry as the store does it: skipped altogether before the deadline. */
    method Prune(now: nat)
      requires Valid() && clock == now
      modifies this`entries, this`insertionOrder, this`tickets, this`transferIds, this`blobTickets, this`deviceBytes,
               this`deviceEntries, this`deviceTickets, this`totalBytes, this`nextPruneAt
      ensures Valid()
      // Exactly what an unconditional expiry leaves.
      ensures forall key :: key in tickets <==> key in old(tickets) && now < old(tickets)[key].expiresAt
      ensures forall key :: key in tickets ==> tickets[key] == old(tickets)[key]
      ensures forall id :: id in entries <==>
                && id in old(entries)
                && (now < old(entries)[id].lastAccess + 300_000 || HeldAt(old(tickets), id, now))
      ensures forall id :: id in entries ==> entries[id] == old(entries)[id]
      ensures tickets == LiveTickets(old(tickets), now)
      ensures entries == LiveEntries(old(entries), old(tickets), now)
      ensures insertionOrder == Filter(old(insertionOrder), entries.Keys)
    {
      hide EntriesCounted, EntryLimits, TicketsCounted, TicketLimits, SoundEntries, TicketsHonoured, Clocked,
           DeadlineBounds, Filter, HeldAt, LiveTickets, LiveEntries;
      ExpiryIsExact(entries, tickets, now);
      if nextPruneAt.None? || now < nextPruneAt.value {
        NothingDueYet(entries, tickets, nextPruneAt, now);
        FilterAll(insertionOrder, entries.Keys);
        return;
      }
      FullPrune(now);
    }

    /** Unconditional expiry of tickets and idle blobs, and the next deadline. */
    method FullPrune(now: nat)
      requires Valid() && clock == now
      modifies this`entries, this`insertionOrder, this`tickets, this`transferIds, this`blobTickets, this`deviceBytes,
               this`deviceEntries, this`deviceTickets, this`totalBytes, this`nextPruneAt
      ensures Valid()
      ensures forall key :: key in tickets <==> key in old(tickets) && now < old(tickets)[key].expiresAt
      ensures forall key :: key in tickets ==> tickets[key] == old(tickets)[key]
      ensures forall id :: id in entries <==>
                && id in old(entries)
                && (now < old(entries)[id].lastAccess + 300_000 || HeldAt(old(tickets), id, now))
      ensures forall id :: id in entries ==> entries[id] == old(entries)[id]
      ensures tickets == LiveTickets(old(tickets), now)
      ensures entries == LiveEntries(old(entries), old(tickets), now)
      ensures insertionOrder == Filter(old(insertionOrder), entries.Keys)
      ensures DeadlineAttained(entries, tickets, nextPruneAt)
    {
      hide EntriesCounted, EntryLimits, TicketsCounted, TicketLimits, SoundEntries, TicketsHonoured, Clocked,
           DeadlineBounds, Filter, DeadlineAttained, Expiring, Idle, LiveEntries, LiveTickets, Queued, Count, Pinned,
           HeldAt;
      ghost var entries0, tickets0 := entries, tickets;
      ExpiryIsExact(entries, tickets, now);
      nextPruneAt := None;
      RemoveExpiredTickets(now);
      nextPruneAt := EarliestExpiry(tickets);
      var order := insertionOrder;
      insertionOrder := [];
      ExpiringStart(entries, order, tickets, now, nextPruneAt);
      var i := 0;
      while i < |order|
        invariant 0 <= i <= |order|
        invariant Counted()
        invariant Expiring(entries0, order, i, tickets, now, entries, insertionOrder, nextPruneAt)
        modifies this`entries, this`insertionOrder, this`deviceBytes, this`deviceEntries, this`totalBytes,
                 this`nextPruneAt
      {
        var id := order[i];
        ExpiringTest(entries0, order, i, tickets, now, entries, insertionOrder, nextPruneAt, transferIds, blobTickets,
                     deviceTickets);
        var pinned := BlobHasTicket(id);
        if id !in entries || (!pinned && entries[id].lastAccess + BLOB_IDLE_TTL <= now) {
          ExpiringDrop(entries0, order, i, tickets, now, entries, insertionOrder, nextPruneAt);
          RemoveEntry(id);
        } else {
          ExpiringKeep(entries0, order, i, tickets, now, entries, insertionOrder, nextPruneAt);
          if !pinned {
            SchedulePrune(entries[id].lastAccess + BLOB_IDLE_TTL);
          }
          insertionOrder := insertionOrder + [id];
        }
        i := i + 1;
      }
      ExpiringEnd(digest, entries0, order, tickets0, tickets, now, entries, insertionOrder, nextPruneAt, clock);
    }

    method RemoveExpiredTickets(now: nat)
      requires TicketsValid()
      modifies this`tickets, this`transferIds, this`blobTickets, this`deviceTickets
      ensures TicketsValid() && tickets == LiveTickets(old(tickets), now)
    {
      hide TicketsCounted, TicketLimits;
      ghost var tickets0 := tickets;
      var expired := set key | key in tickets && tickets[key].expiresAt <= now;
      ghost var all := expired;
      assert tickets - (all - expired) == tickets;
      while expired != {}
        invariant expired <= all
        invariant TicketsValid() && tickets == tickets0 - (all - expired)
        decreases expired
      {
        var key :| key in expired;
        RemoveTicket(key);
        expired := expired - {key};
        assert tickets0 - (all - expired) == tickets;
      }
    }

    constructor (digest: Bytes -> Bytes)
      ensures Valid() && this.digest == digest && clock == 0
      ensures entries == map[] && tickets == map[] && insertionOrder == []
    {
      this.digest := digest;
      entries, insertionOrder, tickets, transferIds := map[], [], map[], {};
      blobTickets, deviceBytes, deviceEntries, deviceTickets := map[], map[], map[], map[];
      totalBytes, nextPruneAt, clock := 0, None, 0;
      new;
      EmptyIsCounted();
    }

    ghost method MoveClock(time: nat)
      requires Valid() && clock <= time
      modifies this`clock
      ensures Valid() && clock == time
    {
      hide EntriesCounted, EntryLimits, TicketsCounted, TicketLimits, SoundEntries, TicketsHonoured, DeadlineBounds,
           Queued;
      ClockMoves(digest, entries, tickets, clock, time);
      clock := time;
    }

    /** Replaces an entry by a later view of the same blob with the same owners. */
    method TouchEntry(id: Bytes, entry: BlobEntry)
      requires Valid() && id in entries && SameBlob(entries[id], entry) && entry.owners == entries[id].owners
               && entry.lastAccess == clock
      modifies this`entries
      ensures Valid() && entries == old(entries)[id := entry]
    {
      hide EntriesCounted, EntryLimits, TicketsCounted, TicketLimits, SoundEntries, TicketsHonoured, DeadlineBounds,
           Queued, Pinned;
      TouchCounts(entries, id, entry, totalBytes, deviceBytes, deviceEntries);
      TouchKeepsShape(digest, entries, tickets, clock, clock, nextPruneAt, id, entry);
      TouchKeepsQueue(entries, insertionOrder, id, entry);
      entries := entries[id := entry];
    }

    /** A deduplicated insert: the stored blob gains an owner. */
    method AdoptEntry(owner: Bytes, id: Bytes, time: nat)
      requires Valid() && id in entries && owner !in entries[id].owners && time == clock
      requires RoomFor(entries, owner, |entries[id].bytes|, 1)
      modifies this`entries, this`deviceBytes, this`deviceEntries
      ensures Valid()
      ensures entries ==
                old(entries)[id := old(entries)[id].(lastAccess := time, owners := old(entries)[id].owners + {owner})]
    {
      hide EntriesCounted, EntryLimits, TicketsCounted, TicketLimits, TicketsHonoured, DeadlineBounds, Queued, Count,
           Pinned, RoomFor, Charge;
      var entry := entries[id].(lastAccess := time, owners := entries[id].owners + {owner});
      assert SoundEntry(digest, id, entries[id]);
      AdoptCounts(entries, id, entry, owner, totalBytes, deviceBytes, deviceEntries);
      TouchKeepsShape(digest, entries, tickets, clock, clock, nextPruneAt, id, entry);
      TouchKeepsQueue(entries, insertionOrder, id, entry);
      deviceBytes := Charge(deviceBytes, owner, |entry.bytes|);
      deviceEntries := Charge(deviceEntries, owner, 1);
      entries := entries[id := entry];
    }

    /** A blob the store has not seen. */
    method AddEntry(owner: Bytes, id: Bytes, bytes: Bytes, mediaType: string, time: nat)
      returns (result: Option<BlobRef>)
      requires Valid() && id !in entries && id == digest(bytes) && bytes != [] && time == clock
      requires RoomFor(entries, owner, |bytes|, 1) && |entries| < MAX_CACHED_BLOBS
               && totalBytes + |bytes| <= MAX_CACHED_BLOB_BYTES
      modifies this`entries, this`insertionOrder, this`totalBytes, this`deviceBytes, this`deviceEntries,
               this`nextPruneAt
      ensures Valid() && result == Some(BlobRef(id, |bytes|, mediaType, id))
      ensures entries == old(entries)[id := BlobEntry(result.value, bytes, time, {owner}, {})]
      ensures insertionOrder == old(insertionOrder) + [id]
    {
      hide EntriesCounted, EntryLimits, TicketsCounted, TicketLimits, SoundEntries, TicketsHonoured, DeadlineBounds,
           Queued, Count, Clocked, RoomFor, Charge, SatAdd, Earlier;
      var reference := BlobRef(id, |bytes|, mediaType, id);
      var entry := BlobEntry(reference, bytes, time, {owner}, {});
      AddCounts(entries, id, entry, owner, totalBytes, deviceBytes, deviceEntries);
      AddKeepsShape(digest, entries, tickets, clock, nextPruneAt, id, entry);
      AddKeepsQueue(entries, insertionOrder, id, entry);
      SchedulePrune(time + BLOB_IDLE_TTL);
      entries, insertionOrder, totalBytes, deviceBytes, deviceEntries :=
        entries[id := entry], insertionOrder + [id], SatAdd(totalBytes, |bytes|),
        Charge(deviceBytes, owner, |bytes|), Charge(deviceEntries, owner, 1);
      result := Some(reference);
    }

    /**
     * Hands out a ticket for a blob the device owns. `transferId` and `key` are the random choices, fresh by rejection.
     */
    method IssueTicket(owner: Bytes, blobId: Bytes, now: nat, later: nat, latest: nat, transferId: nat, key: Bytes)
      returns (result: Issue, ghost live: Entries, ghost liveTickets: Tickets)
      requires Valid() && clock <= now <= later <= latest
      requires Fresh(LiveTickets(tickets, now), transferId, key)
      modifies this
      ensures Valid() && clock == latest
      ensures Expired(old(entries), old(insertionOrder), old(tickets), now, live, insertionOrder, liveTickets)
      ensures Issued(live, liveTickets, owner, blobId, later, latest, transferId, key, result, entries, tickets)
      ensures result != NotFound ==> blobId in entries && entries[blobId].lastAccess == later
      ensures result.Granted? ==> key in tickets && tickets[key].expiresAt == latest + 30_000
    {
      hide EntriesCounted, EntryLimits, TicketsCounted, TicketLimits, SoundEntries, TicketsHonoured, Clocked,
           DeadlineBounds, Filter, Queued, LiveEntries, LiveTickets, Expired, SameBlob, Count, ForDevice, Counted,
           TicketsValid, Shaped, HeldAt;
      MoveClock(now);
      Prune(now);
      live, liveTickets := entries, tickets;
      JustExpired(old(entries), old(insertionOrder), old(tickets), now, live, insertionOrder, liveTickets);
      MoveClock(later);
      if blobId !in entries || owner !in entries[blobId].owners {
        MoveClock(latest);
        return NotFound, live, liveTickets;
      }
      SeenNow(blobId, later);
      TouchEntry(blobId, entries[blobId].(lastAccess := later));
      var reference := entries[blobId].reference;
      MoveClock(latest);
      KnownTickets(owner, transferId);
      if |tickets| >= MAX_OUTSTANDING_TICKETS || Count(deviceTickets, owner) >= MAX_OUTSTANDING_TICKETS_PER_DEVICE {
        return ResourceExhausted, live, liveTickets;
      }
      AddTicket(key, TicketEntry(transferId, blobId, owner, latest + TICKET_TTL));
      result := Granted(transferId, key, reference);
    }

    lemma SeenNow(id: Bytes, time: nat)
      requires Valid() && id in entries
      ensures SameBlob(entries[id], entries[id].(lastAccess := time))
    {
      SeenAgain(digest, entries, id, time, {});
    }

    lemma KnownTickets(owner: Bytes, transferId: nat)
      requires Valid()
      ensures Count(deviceTickets, owner) == |ForDevice(tickets, owner)|
      ensures (forall other :: other in tickets ==> tickets[other].transferId != transferId) ==>
                transferId !in transferIds
    {
    }

    method AddTicket(key: Bytes, ticket: TicketEntry)
      requires Valid() && key !in tickets && ticket.transferId !in transferIds
      requires ticket.blobId in entries && ticket.owner in entries[ticket.blobId].owners
               && ticket.expiresAt <= clock + TICKET_TTL
      requires |tickets| < MAX_OUTSTANDING_TICKETS
               && Count(deviceTickets, ticket.owner) < MAX_OUTSTANDING_TICKETS_PER_DEVICE
      modifies this`tickets, this`transferIds, this`blobTickets, this`deviceTickets, this`nextPruneAt
      ensures Valid() && tickets == old(tickets)[key := ticket]
    {
      hide EntriesCounted, EntryLimits, TicketsCounted, TicketLimits, SoundEntries, TicketsHonoured, Clocked,
           DeadlineBounds, Queued, Charge, Count;
      IssueCounts(tickets, transferIds, blobTickets, deviceTickets, key, ticket);
      IssueKeepsShape(digest, entries, tickets, clock, nextPruneAt, key, ticket);
      SchedulePrune(ticket.expiresAt);
      tickets, transferIds, blobTickets, deviceTickets :=
        tickets[key := ticket], transferIds + {ticket.transferId},
        Charge(blobTickets, ticket.blobId, 1), Charge(deviceTickets, ticket.owner, 1);
    }

    /** Redeems a ticket for the blob's bytes. */
    method Redeem(owner: Bytes, transferId: nat, key: Bytes, now: nat, later: nat, latest: nat)
      returns (result: Redemption, ghost live: Entries, ghost liveTickets: Tickets)
      requires Valid() && clock <= now <= later <= latest
      modifies this
      ensures Valid() && clock == latest
      ensures Expired(old(entries), old(insertionOrder), old(tickets), now, live, insertionOrder, liveTickets)
      ensures Redeemed(digest, live, liveTickets, owner, transferId, key, later, latest, result, entries, tickets)
      ensures result.Delivered? <==> Presentable(old(tickets), owner, transferId, key, later)
      ensures result.Delivered? ==>
                && var id := old(tickets)[key].blobId;
                && id in old(entries) && id in entries && key !in tickets
                && result == Delivered(old(entries)[id].reference, old(entries)[id].bytes)
                && entries[id].lastAccess == latest && owner in entries[id].deliveredOwners
    {
      hide EntriesCounted, EntryLimits, TicketsCounted, TicketLimits, SoundEntries, TicketsHonoured, Clocked,
           DeadlineBounds, Filter, Queued, LiveEntries, LiveTickets, HeldAt, Redeemed, Expired, Valid;
      MoveClock(now);
      Prune(now);
      live, liveTickets := entries, tickets;
      JustExpired(old(entries), old(insertionOrder), old(tickets), now, live, insertionOrder, liveTickets);
      result := RedeemLive(owner, transferId, key, later, latest);
      RedeemMeans(digest, old(entries), old(tickets), now, live, liveTickets, owner, transferId, key, later, latest,
                  result, entries, tickets);
    }

    /** Redeems a ticket in a store from which everything expired is gone. */
    method RedeemLive(owner: Bytes, transferId: nat, key: Bytes, later: nat, latest: nat) returns (result: Redemption)
      requires Valid() && clock <= later <= latest
      modifies this
      ensures Valid() && clock == latest && insertionOrder == old(insertionOrder)
      ensures Redeemed(digest, old(entries), old(tickets), owner, transferId, key, later, latest, result, entries,
                       tickets)
    {
      hide EntriesCounted, EntryLimits, TicketsCounted, TicketLimits, SoundEntries, TicketsHonoured, Clocked,
           DeadlineBounds, Filter, Queued, SameBlob, Count;
      if key !in tickets {
        MoveClock(latest);
        return Refused(InvalidTicket);
      }
      var ticket := tickets[key];
      if ticket.transferId != transferId {
        MoveClock(latest);
        return Refused(WrongTransfer);
      }
      if ticket.owner != owner {
        MoveClock(latest);
        return Refused(WrongDevice);
      }
      if ticket.expiresAt <= later {
        MoveClock(latest);
        return Refused(TicketExpired);
      }
      TicketHasBlob(digest, entries, tickets, key);
      // The blob cannot have been evicted: its ticket pins it.
      var blob := entries[ticket.blobId];
      var entry := blob.(lastAccess := latest, deliveredOwners := blob.deliveredOwners + {owner});
      SeenAgain(digest, entries, ticket.blobId, latest, {owner});
      RedeemKeepsShape(digest, entries, tickets, clock, latest, nextPruneAt, key, entry);
      TouchCounts(entries, ticket.blobId, entry, totalBytes, deviceBytes, deviceEntries);
      TouchKeepsQueue(entries, insertionOrder, ticket.blobId, entry);
      RemoveTicket(key);
      entries := entries[ticket.blobId := entry];
      clock := latest;
      result := Delivered(entry.reference, entry.bytes);
    }

    predicate MakeRoomFor(bytes: nat)
      reads this
    {
      && bytes <= MAX_CACHED_BLOB_BYTES
      && |entries| < MAX_CACHED_BLOBS
      && SatAdd(totalBytes, bytes) <= MAX_CACHED_BLOB_BYTES
    }

    /**
     * Stores a blob for `owner`. `live` and `queue` are what expiry left, `released` what was then reclaimed for the
     * owner, `settled` and `settledQueue` what that left.
     */
    method Insert(owner: Bytes, bytes: Bytes, mediaType: string, now: nat, later: nat)
      returns (result: Option<BlobRef>, ghost live: Entries, ghost queue: seq<Bytes>, ghost released: seq<Bytes>,
               ghost settled: Entries, ghost settledQueue: seq<Bytes>)
      requires Valid() && clock <= now <= later
      // The digest does not collide with a stored blob.
      requires forall id :: id in entries && digest(bytes) == id ==> entries[id].bytes == bytes
      modifies this
      ensures Valid() && clock == later
      ensures !Acceptable(owner, bytes, mediaType) ==>
                && result.None? && entries == old(entries) && tickets == old(tickets)
                && insertionOrder == old(insertionOrder)
      ensures Acceptable(owner, bytes, mediaType) ==>
                && Expired(old(entries), old(insertionOrder), old(tickets), now, live, queue, tickets)
                && Inserted(digest, live, queue, tickets, owner, bytes, mediaType, later, released, settled,
                            settledQueue, result, entries, insertionOrder)
      ensures result.Some? ==>
                && 0 < |owner| <= 128 && 0 < |bytes| <= 64 * 1024 * 1024
                && mediaType != [] && Utf8Len(mediaType) <= 256 && NoControl(mediaType)
                && StoredFor(entries, digest(bytes), owner, bytes, later)
                && result.value == entries[digest(bytes)].reference
      ensures OthersKept(old(entries), entries, digest(bytes), owner)
      ensures WithinLimits(entries)
      ensures result.None? && Acceptable(owner, bytes, mediaType) ==>
                NoRoom(entries, tickets, owner, bytes, digest(bytes))
    {
      hide EntriesCounted, EntryLimits, TicketsCounted, TicketLimits, SoundEntries, TicketsHonoured, Clocked,
           DeadlineBounds, Filter, Queued, Reclaimed, LiveEntries, LiveTickets, RoomFor, Inserted, Expired, Counted,
           TicketsValid, Shaped, HeldAt, StoredFor, WithinLimits, NoRoom;
      live, queue, released, settled, settledQueue := entries, insertionOrder, [], entries, insertionOrder;
      MoveClock(now);
      if owner == [] || |owner| > 128 || bytes == [] || |bytes| > MAX_CACHED_BLOB_BYTES
         || mediaType == [] || Utf8Len(mediaType) > 256 || !NoControl(mediaType) {
        LimitsHold();
        MoveClock(later);
        return None, live, queue, released, settled, settledQueue;
      }
      Prune(now);
      live, queue := entries, insertionOrder;
      JustExpired(old(entries), old(insertionOrder), old(tickets), now, live, queue, tickets);
      StillNoCollision(old(entries), old(tickets), now, digest(bytes), bytes);
      MoveClock(later);
      result, released, settled, settledQueue := InsertLive(owner, digest(bytes), bytes, mediaType, later);
      InsertMeans(digest, old(entries), old(tickets), now, live, queue, tickets, owner, bytes, mediaType, later,
                  released,
                  settled, settledQueue, result, entries, insertionOrder);
      LimitsHold();
      RefusedFor(digest, live, queue, tickets, owner, bytes, mediaType, later, released, settled, settledQueue, result,
                 entries, insertionOrder);
    }

    lemma LimitsHold()
      requires Valid()
      ensures WithinLimits(entries)
    {
    }

    /** Inserts an acceptable blob into a store from which everything expired is gone. */
    method InsertLive(owner: Bytes, id: Bytes, bytes: Bytes, mediaType: string, time: nat)
      returns (result: Option<BlobRef>, ghost released: seq<Bytes>, ghost settled: Entries,
               ghost settledQueue: seq<Bytes>)
      requires Valid() && clock == time && id == digest(bytes) && Acceptable(owner, bytes, mediaType)
      requires id in entries ==> entries[id].bytes == bytes
      modifies this`entries, this`insertionOrder, this`totalBytes, this`deviceBytes, this`deviceEntries,
               this`nextPruneAt
      ensures Valid()
      ensures Inserted(digest, old(entries), old(insertionOrder), tickets, owner, bytes, mediaType, time, released,
                       settled, settledQueue, result, entries, insertionOrder)
    {
      hide EntriesCounted, EntryLimits, TicketsCounted, TicketLimits, SoundEntries, TicketsHonoured, Clocked,
           DeadlineBounds, Filter, Queued, Reclaimed, RoomFor, SameBlob, Count, Charge, AfterRelease, Sizes,
           Reclaimable, Inserted;
      ghost var live, queue := entries, insertionOrder;
      released, settled, settledQueue := [], entries, insertionOrder;
      if id in entries && owner in entries[id].owners {
        SeenAgain(digest, entries, id, time, {});
        TouchEntry(id, entries[id].(lastAccess := time));
        result := Some(entries[id].reference);
        InsertedAgain(digest, live, queue, tickets, owner, bytes, mediaType, time, result);
        return;
      }
      released := ReclaimDeliveredForOwner(owner, |bytes|, 1);
      settled, settledQueue := entries, insertionOrder;
      NotReleased(digest, live, queue, tickets, owner, |bytes|, released, settled, settledQueue, id);
      RoomIsCounted(entries, totalBytes, deviceBytes, deviceEntries, owner, |bytes|, 1);
      TotalIsCounted(entries, totalBytes, deviceBytes, deviceEntries, |bytes|);
      result := None;
      if OwnerHasRoom(owner, |bytes|, 1) {
        if id in entries {
          AdoptEntry(owner, id, time);
          result := Some(entries[id].reference);
        } else if MakeRoomFor(|bytes|) {
          result := AddEntry(owner, id, bytes, mediaType, time);
        }
      }
      InsertedForOwner(digest, live, queue, tickets, owner, bytes, mediaType, time, released, settled, settledQueue,
                       result, entries, insertionOrder);
    }
  }

  /** At most 4096 blobs of 64 MiB in all, and 1024 of 32 MiB for each device. */
  ghost predicate WithinLimits(entries: Entries)
  {
    && |entries| <= 4096 && Sum(Sizes(entries)) <= 64 * 1024 * 1024
    && forall owner :: |Owned(entries, owner)| <= 1024 && Sum(Owned(entries, owner)) <= 32 * 1024 * 1024
  }

  /**
   * The blob does not fit: the device has no room, and none of its delivered blobs is left to give up, or the store has
   * none for a blob it does not hold yet.
   */
  ghost predicate NoRoom(entries: Entries, tickets: Tickets, owner: Bytes, bytes: Bytes, id: Bytes)
  {
    || (&& (|Owned(entries, owner)| >= 1024 || Sum(Owned(entries, owner)) + |bytes| > 32 * 1024 * 1024)
        && forall other :: other in entries && owner in entries[other].deliveredOwners ==> Pinned(tickets, other))
    || (id !in entries && (|entries| >= 4096 || Sum(Sizes(entries)) + |bytes| > 64 * 1024 * 1024))
  }

  lemma RefusedFor(digest: Bytes -> Bytes, live: Entries, queue: seq<Bytes>, tickets: Tickets, owner: Bytes,
                   bytes: Bytes, mediaType: string, later: nat, released: seq<Bytes>, settled: Entries,
                   settledQueue: seq<Bytes>, result: Option<BlobRef>, entries: Entries, order: seq<Bytes>)
    requires Queued(live, queue)
    requires Inserted(digest, live, queue, tickets, owner, bytes, mediaType, later, released, settled, settledQueue,
                      result, entries, order)
    ensures result.None? ==> NoRoom(entries, tickets, owner, bytes, digest(bytes))
  {
    hide Filter, Sum, Sizes, Owned, Pinned;
    if result.None? {
      FilterIsExact(queue, Reclaimable(live, tickets, owner));
    }
  }

  /** A ticket that is there, for that transfer and device, and has not expired. */
  ghost predicate Presentable(tickets: Tickets, owner: Bytes, transferId: nat, key: Bytes, time: nat)
  {
    && key in tickets && tickets[key].transferId == transferId && tickets[key].owner == owner
    && time < tickets[key].expiresAt
  }

  lemma RedeemMeans(digest: Bytes -> Bytes, before: Entries, beforeTickets: Tickets, now: nat, live: Entries,
                    liveTickets: Tickets, owner: Bytes, transferId: nat, key: Bytes, later: nat, latest: nat,
                    result: Redemption, entries: Entries, tickets: Tickets)
    requires live == LiveEntries(before, beforeTickets, now) && liveTickets == LiveTickets(beforeTickets, now)
    requires now <= later
    requires Redeemed(digest, live, liveTickets, owner, transferId, key, later, latest, result, entries, tickets)
    ensures result.Delivered? <==> Presentable(beforeTickets, owner, transferId, key, later)
    ensures result.Delivered? ==>
              && var id := beforeTickets[key].blobId;
              && id in before && id in entries && key !in tickets
              && result == Delivered(before[id].reference, before[id].bytes)
              && entries[id].lastAccess == latest && owner in entries[id].deliveredOwners
  {
    hide LiveEntries, HeldAt;
    ExpiryIsExact(before, beforeTickets, now);
  }

  /** Other blobs keep their bytes, their age and their other owners. */
  ghost predicate OthersKept(before: Entries, entries: Entries, id: Bytes, owner: Bytes)
  {
    forall other :: other in entries && other != id ==>
      && other in before && entries[other].reference == before[other].reference
      && entries[other].bytes == before[other].bytes && entries[other].lastAccess == before[other].lastAccess
      && before[other].owners - {owner} <= entries[other].owners <= before[other].owners
  }

  /** A stored blob is there for its owner, freshly used. */
  ghost predicate StoredFor(entries: Entries, id: Bytes, owner: Bytes, bytes: Bytes, time: nat)
  {
    id in entries && entries[id].bytes == bytes && owner in entries[id].owners && entries[id].lastAccess == time
  }

  lemma InsertMeans(digest: Bytes -> Bytes, before: Entries, beforeTickets: Tickets, now: nat, live: Entries,
                    queue: seq<Bytes>, tickets: Tickets, owner: Bytes, bytes: Bytes, mediaType: string, later: nat,
                    released: seq<Bytes>, settled: Entries, settledQueue: seq<Bytes>, result: Option<BlobRef>,
                    entries: Entries, order: seq<Bytes>)
    requires live == LiveEntries(before, beforeTickets, now)
    requires digest(bytes) in before ==> before[digest(bytes)].bytes == bytes
    requires Inserted(digest, live, queue, tickets, owner, bytes, mediaType, later, released, settled, settledQueue,
                      result, entries, order)
    ensures result.Some? ==>
              && StoredFor(entries, digest(bytes), owner, bytes, later)
              && result.value == entries[digest(bytes)].reference
    ensures OthersKept(before, entries, digest(bytes), owner)
    ensures digest(bytes) in live && owner in live[digest(bytes)].owners ==> result.Some?
  {
    hide Inserted, LiveEntries, HeldAt, Reclaimed, StoredFor;
    ExpiryIsExact(before, beforeTickets, now);
    InsertStages(digest, live, queue, tickets, owner, bytes, mediaType, later, released, settled, settledQueue, result,
                 entries, order);
    SettledKeeps(live, queue, tickets, owner, bytes, released, settled, settledQueue, digest(bytes));
  }

  lemma InsertStages(digest: Bytes -> Bytes, live: Entries, queue: seq<Bytes>, tickets: Tickets, owner: Bytes,
                     bytes: Bytes, mediaType: string, later: nat, released: seq<Bytes>, settled: Entries,
                     settledQueue: seq<Bytes>, result: Option<BlobRef>, entries: Entries, order: seq<Bytes>)
    requires digest(bytes) in live ==> live[digest(bytes)].bytes == bytes
    requires Inserted(digest, live, queue, tickets, owner, bytes, mediaType, later, released, settled, settledQueue,
                      result, entries, order)
    ensures settled == live || Reclaimed(live, queue, tickets, owner, |bytes|, 1, released, settled, settledQueue)
    ensures forall other :: other != digest(bytes) ==>
              && (other in entries <==> other in settled) && (other in settled ==> entries[other] == settled[other])
    ensures result.Some? ==>
              && StoredFor(entries, digest(bytes), owner, bytes, later)
              && result.value == entries[digest(bytes)].reference
    ensures digest(bytes) in live && owner in live[digest(bytes)].owners ==> result.Some?
  {
    hide RoomFor, Sum, Sizes, Reclaimed;
  }

  lemma SettledKeeps(live: Entries, queue: seq<Bytes>, tickets: Tickets, owner: Bytes, bytes: Bytes,
                     released: seq<Bytes>, settled: Entries, settledQueue: seq<Bytes>, id: Bytes)
    requires settled == live || Reclaimed(live, queue, tickets, owner, |bytes|, 1, released, settled, settledQueue)
    ensures OthersKept(live, settled, id, owner)
  {
    hide RoomFor, Filter, Reclaimable;
  }

  /** A device inserts a blob it already owns. */
  lemma InsertedAgain(digest: Bytes -> Bytes, live: Entries, queue: seq<Bytes>, tickets: Tickets, owner: Bytes,
                      bytes: Bytes, mediaType: string, time: nat, result: Option<BlobRef>)
    requires var id := digest(bytes); id in live && owner in live[id].owners && result == Some(live[id].reference)
    ensures var id := digest(bytes);
            Inserted(digest, live, queue, tickets, owner, bytes, mediaType, time, [], live, queue, result,
                     live[id := live[id].(lastAccess := time)], queue)
  {
    var id := digest(bytes);
    assert live[id].owners + {owner} == live[id].owners;
  }

  /** A device inserts a blob it does not own: after reclaiming, the blob is adopted, added or refused. */
  lemma InsertedForOwner(digest: Bytes -> Bytes, live: Entries, queue: seq<Bytes>, tickets: Tickets, owner: Bytes,
                         bytes: Bytes, mediaType: string, time: nat, released: seq<Bytes>, settled: Entries,
                         settledQueue: seq<Bytes>, result: Option<BlobRef>, entries: Entries, order: seq<Bytes>)
    requires var id := digest(bytes);
             && !(id in live && owner in live[id].owners)
             && Reclaimed(live, queue, tickets, owner, |bytes|, 1, released, settled, settledQueue)
             && (id in live <==> id in settled) && (id in live ==> settled[id] == live[id])
             && (result.Some? <==>
                   && RoomFor(settled, owner, |bytes|, 1)
                   && (id in settled
                       || (|settled| < MAX_CACHED_BLOBS && Sum(Sizes(settled)) + |bytes| <= MAX_CACHED_BLOB_BYTES)))
             && (if result.None? then entries == settled && order == settledQueue
                 else if id in settled then
                   && entries == settled[id := settled[id].(lastAccess := time, owners := settled[id].owners + {owner})]
                   && order == settledQueue && result.value == settled[id].reference
                 else
                   && entries == settled[id := BlobEntry(result.value, bytes, time, {owner}, {})]
                   && order == settledQueue + [id] && result.value == BlobRef(id, |bytes|, mediaType, id))
    ensures Inserted(digest, live, queue, tickets, owner, bytes, mediaType, time, released, settled, settledQueue,
                     result, entries, order)
  {
    hide Reclaimed, RoomFor, Sizes;
  }

  lemma EmptyIsCounted()
    ensures EntriesCounted(map[], 0, map[], map[]) && EntryLimits(map[], 0, map[], map[])
    ensures TicketsCounted(map[], {}, map[], map[]) && TicketLimits(map[], map[])
  {
    assert Sizes(map[]) == map[];
    assert forall owner :: Owned(map[], owner) == map[];
    assert forall id :: ForBlob(map[], id) == {};
    assert forall owner :: ForDevice(map[], owner) == {};
  }

  lemma StillNoCollision(entries: Entries, tickets: Tickets, now: nat, id: Bytes, bytes: Bytes)
    requires id in entries ==> entries[id].bytes == bytes
    ensures id in LiveEntries(entries, tickets, now) ==> LiveEntries(entries, tickets, now)[id].bytes == bytes
  {
  }

  /** Reclaiming for a device does not touch a blob it does not own. */
  lemma NotReleased(digest: Bytes -> Bytes, live: Entries, queue: seq<Bytes>, tickets: Tickets, owner: Bytes,
                    bytes: nat, released: seq<Bytes>, settled: Entries, settledQueue: seq<Bytes>, id: Bytes)
    requires SoundEntries(digest, live)
             && Reclaimed(live, queue, tickets, owner, bytes, 1, released, settled, settledQueue)
    requires id in live ==> owner !in live[id].owners
    ensures id in live <==> id in settled
    ensures id in live ==> settled[id] == live[id]
  {
    var reclaimable := Reclaimable(live, tickets, owner);
    FilterIsExact(queue, reclaimable);
    if id in live {
      assert SoundEntry(digest, id, live[id]);
      assert id !in reclaimable;
      assert id !in released;
    }
  }

  lemma SeenAgain(digest: Bytes -> Bytes, entries: Entries, id: Bytes, time: nat, delivered: set<Bytes>)
    requires SoundEntries(digest, entries) && id in entries && delivered <= entries[id].owners
    ensures SameBlob(entries[id], entries[id].(lastAccess := time))
    ensures SameBlob(entries[id],
                     entries[id].(lastAccess := time, deliveredOwners := entries[id].deliveredOwners + delivered))
  {
    assert SoundEntry(digest, id, entries[id]);
  }

  lemma JustExpired(entries: Entries, order: seq<Bytes>, tickets: Tickets, now: nat, live: Entries, queue: seq<Bytes>,
                    liveTickets: Tickets)
    requires live == LiveEntries(entries, tickets, now) && liveTickets == LiveTickets(tickets, now)
             && queue == Filter(order, live.Keys)
    ensures Expired(entries, order, tickets, now, live, queue, liveTickets)
  {
  }

  lemma TicketHasBlob(digest: Bytes -> Bytes, entries: Entries, tickets: Tickets, key: Bytes)
    requires SoundEntries(digest, entries) && TicketsHonoured(entries, tickets) && key in tickets
    ensures tickets[key].blobId in entries && tickets[key].owner in entries[tickets[key].blobId].owners
    ensures SoundEntry(digest, tickets[key].blobId, entries[tickets[key].blobId])
  {
  }

  lemma TotalIsCounted(entries: Entries, totalBytes: nat, deviceBytes: Counters, deviceEntries: Counters, bytes: nat)
    requires EntriesCounted(entries, totalBytes, deviceBytes, deviceEntries)
    ensures totalBytes == Sum(Sizes(entries))
    ensures SatAdd(totalBytes, bytes) <= MAX_CACHED_BLOB_BYTES <==> Sum(Sizes(entries)) + bytes <= MAX_CACHED_BLOB_BYTES
  {
  }
}
