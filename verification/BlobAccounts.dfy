// What the blob store's indexes, counters, limits and expiry deadline stand for.
module BlobAccounts {
  import opened Basics

  const MAX_CACHED_BLOB_BYTES := 64 * 1024 * 1024
  const MAX_CACHED_BLOB_BYTES_PER_DEVICE := 32 * 1024 * 1024
  const MAX_CACHED_BLOBS := 4096
  const MAX_CACHED_BLOBS_PER_DEVICE := 1024
  const MAX_OUTSTANDING_TICKETS := 4096
  const MAX_OUTSTANDING_TICKETS_PER_DEVICE := 128
  const BLOB_IDLE_TTL := 300_000 // milliseconds
  const TICKET_TTL := 30_000

  datatype BlobRef = BlobRef(blobId: Bytes, size: nat, mediaType: string, sha256: Bytes)

  datatype BlobEntry = BlobEntry(
    reference: BlobRef,
    bytes: Bytes,
    lastAccess: nat,
    owners: set<Bytes>,
    deliveredOwners: set<Bytes>)

  datatype TicketEntry = TicketEntry(transferId: nat, blobId: Bytes, owner: Bytes, expiresAt: nat)

  type Entries = map<Bytes, BlobEntry>
  type Tickets = map<Bytes, TicketEntry>
  type Counters = map<Bytes, nat>

  // ---------- Entries and their counters ----------

  /** Sizes of all blobs. */
  ghost function Sizes(entries: Entries): Counters
  {
    map id | id in entries :: |entries[id].bytes|
  }

  /** Sizes of the blobs one device owns. */
  ghost function Owned(entries: Entries, owner: Bytes): Counters
  {
    map id | id in entries && owner in entries[id].owners :: |entries[id].bytes|
  }

  ghost predicate NoZero(m: Counters)
  {
    forall key :: key in m ==> m[key] > 0
  }

  /** The counters are exact: bytes in all, bytes per device and entries per device. */
  ghost predicate EntriesCounted(entries: Entries, totalBytes: nat, deviceBytes: Counters, deviceEntries: Counters)
  {
    && totalBytes == Sum(Sizes(entries))
    && NoZero(deviceBytes) && NoZero(deviceEntries)
    && (forall owner :: Count(deviceBytes, owner) == Sum(Owned(entries, owner)))
    && (forall owner :: Count(deviceEntries, owner) == |Owned(entries, owner)|)
  }

  lemma RemoveFromSizes(entries: Entries, id: Bytes)
    requires id in entries
    ensures Sum(Sizes(entries)) == |entries[id].bytes| + Sum(Sizes(entries - {id}))
  {
    SumRemove(Sizes(entries), id);
    assert Sizes(entries) - {id} == Sizes(entries - {id});
  }

  lemma RemoveFromOwned(entries: Entries, id: Bytes, owner: Bytes)
    requires id in entries
    ensures owner in entries[id].owners ==>
              && Sum(Owned(entries, owner)) == |entries[id].bytes| + Sum(Owned(entries - {id}, owner))
              && |Owned(entries, owner)| == 1 + |Owned(entries - {id}, owner)|
    ensures owner !in entries[id].owners ==> Owned(entries, owner) == Owned(entries - {id}, owner)
  {
    var m := Owned(entries, owner);
    if owner in entries[id].owners {
      SumRemove(m, id);
      SizeRemove(m, id);
      assert m - {id} == Owned(entries - {id}, owner);
    } else {
      assert m == Owned(entries - {id}, owner);
    }
  }

  /** Putting an entry under a fresh identifier. */
  lemma AddToOwned(entries: Entries, id: Bytes, entry: BlobEntry, owner: Bytes)
    requires id !in entries
    ensures owner in entry.owners ==>
              && Sum(Owned(entries[id := entry], owner)) == Sum(Owned(entries, owner)) + |entry.bytes|
              && |Owned(entries[id := entry], owner)| == |Owned(entries, owner)| + 1
    ensures owner !in entry.owners ==> Owned(entries[id := entry], owner) == Owned(entries, owner)
  {
    var after := entries[id := entry];
    RemoveFromOwned(after, id, owner);
    assert after - {id} == entries;
  }

  lemma AddToSizes(entries: Entries, id: Bytes, entry: BlobEntry)
    requires id !in entries
    ensures Sum(Sizes(entries[id := entry])) == Sum(Sizes(entries)) + |entry.bytes|
  {
    var after := entries[id := entry];
    RemoveFromSizes(after, id);
    assert after - {id} == entries;
  }

  /** The entry after `owner` has been taken off it, if anyone else still owns it. */
  function Disowned(entry: BlobEntry, owner: Bytes): BlobEntry
  {
    entry.(owners := entry.owners - {owner}, deliveredOwners := entry.deliveredOwners - {owner})
  }

  lemma SameOwned(entries: Entries, id: Bytes, entry: BlobEntry, owner: Bytes)
    requires id in entries && entry.bytes == entries[id].bytes
    requires owner in entry.owners <==> owner in entries[id].owners
    ensures Owned(entries[id := entry], owner) == Owned(entries, owner)
  {
  }

  /** Replacing an entry by one with the same bytes and possibly other owners. */
  lemma ReplaceInOwned(entries: Entries, id: Bytes, entry: BlobEntry, owner: Bytes)
    requires id in entries && entry.bytes == entries[id].bytes
    ensures (owner in entry.owners <==> owner in entries[id].owners)
              ==> Owned(entries[id := entry], owner) == Owned(entries, owner)
    ensures owner in entry.owners && owner !in entries[id].owners ==>
              && Sum(Owned(entries[id := entry], owner)) == Sum(Owned(entries, owner)) + |entry.bytes|
              && |Owned(entries[id := entry], owner)| == |Owned(entries, owner)| + 1
    ensures owner !in entry.owners && owner in entries[id].owners ==>
              && Sum(Owned(entries[id := entry], owner)) + |entry.bytes| == Sum(Owned(entries, owner))
              && |Owned(entries[id := entry], owner)| + 1 == |Owned(entries, owner)|
  {
    hide Owned, Sum;
    var bare := entries - {id};
    assert bare[id := entry] == entries[id := entry];
    RemoveFromOwned(entries, id, owner);
    AddToOwned(bare, id, entry, owner);
    if owner in entry.owners <==> owner in entries[id].owners {
      SameOwned(entries, id, entry, owner);
    }
  }

  lemma ReplaceInSizes(entries: Entries, id: Bytes, entry: BlobEntry)
    requires id in entries && entry.bytes == entries[id].bytes
    ensures Sizes(entries[id := entry]) == Sizes(entries)
  {
  }

  // ---------- Tickets and their counters ----------

  ghost function ForBlob(tickets: Tickets, id: Bytes): set<Bytes>
  {
    set key | key in tickets && tickets[key].blobId == id
  }

  ghost function ForDevice(tickets: Tickets, owner: Bytes): set<Bytes>
  {
    set key | key in tickets && tickets[key].owner == owner
  }

  /** The tracked transfer identifiers are those of the outstanding tickets. */
  ghost predicate IdsTracked(tickets: Tickets, transferIds: set<nat>)
  {
    forall id :: id in transferIds <==> exists key :: key in tickets && tickets[key].transferId == id
  }

  /** The ticket indexes are exact, and no two outstanding tickets share a transfer. */
  ghost predicate TicketsCounted(tickets: Tickets, transferIds: set<nat>, blobTickets: Counters,
                                 deviceTickets: Counters)
  {
    && IdsTracked(tickets, transferIds)
    && (forall a, b :: a in tickets && b in tickets && tickets[a].transferId == tickets[b].transferId ==> a == b)
    && NoZero(blobTickets) && NoZero(deviceTickets)
    && (forall id :: Count(blobTickets, id) == |ForBlob(tickets, id)|)
    && (forall owner :: Count(deviceTickets, owner) == |ForDevice(tickets, owner)|)
  }

  lemma DropTicket(tickets: Tickets, key: Bytes)
    requires key in tickets
    ensures forall id ::
              |ForBlob(tickets, id)| ==
              |ForBlob(tickets - {key}, id)| + (if tickets[key].blobId == id then 1 else 0)
    ensures forall owner ::
              |ForDevice(tickets, owner)| ==
              |ForDevice(tickets - {key}, owner)| + (if tickets[key].owner == owner then 1 else 0)
  {
    forall id
      ensures |ForBlob(tickets, id)| == |ForBlob(tickets - {key}, id)| + (if tickets[key].blobId == id then 1 else 0)
    {
      assert ForBlob(tickets - {key}, id) == ForBlob(tickets, id) - {key};
    }
    forall owner
      ensures |ForDevice(tickets, owner)| ==
                |ForDevice(tickets - {key}, owner)| + (if tickets[key].owner == owner then 1 else 0)
    {
      assert ForDevice(tickets - {key}, owner) == ForDevice(tickets, owner) - {key};
    }
  }

  predicate Pinned(tickets: Tickets, id: Bytes)
  {
    exists key :: key in tickets && tickets[key].blobId == id
  }

  lemma PinnedIsCounted(tickets: Tickets, id: Bytes)
    ensures Pinned(tickets, id) <==> |ForBlob(tickets, id)| > 0
  {
    if Pinned(tickets, id) {
      var key :| key in tickets && tickets[key].blobId == id;
      assert key in ForBlob(tickets, id);
    }
    if |ForBlob(tickets, id)| > 0 {
      var key :| key in ForBlob(tickets, id);
    }
  }

  // ---------- Shape ----------

  /** A stored blob is its digest's preimage, has an owner, and was delivered to owners only. */
  ghost predicate SoundEntry(digest: Bytes -> Bytes, id: Bytes, entry: BlobEntry)
  {
    && digest(entry.bytes) == id && entry.bytes != []
    && entry.reference.blobId == id && entry.reference.sha256 == id && entry.reference.size == |entry.bytes|
    && entry.owners != {} && entry.deliveredOwners <= entry.owners
  }

  ghost predicate SoundEntries(digest: Bytes -> Bytes, entries: Entries)
  {
    forall id :: id in entries ==> SoundEntry(digest, id, entries[id])
  }

  /** The queue is a duplicate-free listing of the entries. */
  ghost predicate Queued(entries: Entries, order: seq<Bytes>)
  {
    Unique(order) && forall id :: id in order <==> id in entries
  }

  /** Every outstanding ticket's blob is stored and owned by the ticket's owner. */
  ghost predicate TicketsHonoured(entries: Entries, tickets: Tickets)
  {
    forall key :: key in tickets ==>
      tickets[key].blobId in entries && tickets[key].owner in entries[tickets[key].blobId].owners
  }

  ghost predicate EntryLimits(entries: Entries, totalBytes: nat, deviceBytes: Counters, deviceEntries: Counters)
  {
    && |entries| <= MAX_CACHED_BLOBS && totalBytes <= MAX_CACHED_BLOB_BYTES
    && (forall owner :: Count(deviceBytes, owner) <= MAX_CACHED_BLOB_BYTES_PER_DEVICE)
    && (forall owner :: Count(deviceEntries, owner) <= MAX_CACHED_BLOBS_PER_DEVICE)
  }

  ghost predicate TicketLimits(tickets: Tickets, deviceTickets: Counters)
  {
    && |tickets| <= MAX_OUTSTANDING_TICKETS
    && (forall owner :: Count(deviceTickets, owner) <= MAX_OUTSTANDING_TICKETS_PER_DEVICE)
  }

  // ---------- Time ----------

  /** Nothing was touched in the future and no ticket outlives its time to live. */
  ghost predicate Clocked(entries: Entries, tickets: Tickets, clock: nat)
  {
    && (forall id :: id in entries ==> entries[id].lastAccess <= clock)
    && (forall key :: key in tickets ==> tickets[key].expiresAt <= clock + TICKET_TTL)
  }

  predicate Due(deadline: Option<nat>, time: nat)
  {
    deadline.Some? && deadline.value <= time
  }

  /** The deadline is no later than any ticket's expiry and any unpinned blob's idle limit. */
  ghost predicate DeadlineBounds(entries: Entries, tickets: Tickets, deadline: Option<nat>)
  {
    && (forall key :: key in tickets ==> Due(deadline, tickets[key].expiresAt))
    && (forall id :: id in entries && !Pinned(tickets, id) ==> Due(deadline, entries[id].lastAccess + BLOB_IDLE_TTL))
  }

  function LiveTickets(tickets: Tickets, now: nat): Tickets
  {
    map key | key in tickets && now < tickets[key].expiresAt :: tickets[key]
  }

  predicate Idle(entries: Entries, tickets: Tickets, now: nat, id: Bytes)
  {
    id in entries && !Pinned(tickets, id) && entries[id].lastAccess + BLOB_IDLE_TTL <= now
  }

  /** What an unconditional expiry at `now` keeps of the entries. */
  function LiveEntries(entries: Entries, tickets: Tickets, now: nat): Entries
  {
    map id | id in entries && !Idle(entries, LiveTickets(tickets, now), now, id) :: entries[id]
  }

  /**
   * A ticket stays until its time is up, a blob while a live ticket holds it or it was used in the last five minutes.
   */
  lemma ExpiryIsExact(entries: Entries, tickets: Tickets, now: nat)
    ensures forall key :: key in LiveTickets(tickets, now) <==> key in tickets && now < tickets[key].expiresAt
    ensures forall key :: key in LiveTickets(tickets, now) ==> LiveTickets(tickets, now)[key] == tickets[key]
    ensures forall id :: id in LiveEntries(entries, tickets, now) <==>
              id in entries && (now < entries[id].lastAccess + 300_000 || HeldAt(tickets, id, now))
    ensures forall id :: id in LiveEntries(entries, tickets, now) ==>
              LiveEntries(entries, tickets, now)[id] == entries[id]
  {
    forall id ensures Pinned(LiveTickets(tickets, now), id) <==> HeldAt(tickets, id, now) {
      if Pinned(LiveTickets(tickets, now), id) {
        var key :| key in LiveTickets(tickets, now) && LiveTickets(tickets, now)[key].blobId == id;
        assert key in tickets && tickets[key].blobId == id;
      }
      if HeldAt(tickets, id, now) {
        var key :| key in tickets && tickets[key].blobId == id && now < tickets[key].expiresAt;
        assert key in LiveTickets(tickets, now);
      }
    }
  }

  /** A ticket that has not expired holds the blob. */
  ghost predicate HeldAt(tickets: Tickets, id: Bytes, now: nat)
  {
    exists key :: key in tickets && tickets[key].blobId == id && now < tickets[key].expiresAt
  }

  /** Before the deadline an unconditional expiry would have nothing to do. */
  lemma NothingDueYet(entries: Entries, tickets: Tickets, deadline: Option<nat>, now: nat)
    requires DeadlineBounds(entries, tickets, deadline)
    requires deadline.None? || now < deadline.value
    ensures LiveTickets(tickets, now) == tickets && LiveEntries(entries, tickets, now) == entries
  {
    assert LiveTickets(tickets, now) == tickets;
  }
}
