// How each change to the blob store moves its counters.
module BlobCharges {
  import opened Basics
  import opened BlobAccounts

  lemma DecrementCounts(m: Counters, key: Bytes, amount: nat)
    requires NoZero(m) && amount <= Count(m, key)
    ensures NoZero(Decrement(m, key, amount))
    ensures forall other ::
              Count(Decrement(m, key, amount), other) == Count(m, other) - (if other == key then amount else 0)
  {
  }

  /** The counters while an entry of `size` bytes is still charged to the owners in `rest`. */
  ghost predicate StillCharged(entries: Entries, deviceBytes: Counters, deviceEntries: Counters, rest: set<Bytes>,
                               size: nat)
  {
    && NoZero(deviceBytes) && NoZero(deviceEntries)
    && (forall owner :: Count(deviceBytes, owner) == Sum(Owned(entries, owner)) + (if owner in rest then size else 0))
    && (forall owner :: Count(deviceEntries, owner) == |Owned(entries, owner)| + (if owner in rest then 1 else 0))
  }

  lemma ChargeRemoved(entries: Entries, id: Bytes, totalBytes: nat, deviceBytes: Counters, deviceEntries: Counters)
    requires id in entries && EntriesCounted(entries, totalBytes, deviceBytes, deviceEntries)
    ensures StillCharged(entries - {id}, deviceBytes, deviceEntries, entries[id].owners, |entries[id].bytes|)
    ensures SatSub(totalBytes, |entries[id].bytes|) == Sum(Sizes(entries - {id}))
  {
    RemoveFromSizes(entries, id);
    forall owner
      ensures Sum(Owned(entries, owner)) ==
                Sum(Owned(entries - {id}, owner)) + (if owner in entries[id].owners then |entries[id].bytes| else 0)
      ensures |Owned(entries, owner)| == |Owned(entries - {id}, owner)| + (if owner in entries[id].owners then 1 else 0)
    {
      RemoveFromOwned(entries, id, owner);
    }
  }

  lemma ChargeDropped(entries: Entries, deviceBytes: Counters, deviceEntries: Counters, rest: set<Bytes>, size: nat,
                      owner: Bytes)
    requires StillCharged(entries, deviceBytes, deviceEntries, rest, size) && owner in rest
    ensures StillCharged(entries, Decrement(deviceBytes, owner, size), Decrement(deviceEntries, owner, 1),
                         rest - {owner}, size)
    ensures forall other :: Count(Decrement(deviceBytes, owner, size), other) <= Count(deviceBytes, other)
    ensures forall other :: Count(Decrement(deviceEntries, owner, 1), other) <= Count(deviceEntries, other)
  {
    hide Decrement, Owned, NoZero, Count;
    assert size <= Count(deviceBytes, owner) && 1 <= Count(deviceEntries, owner);
    DecrementCounts(deviceBytes, owner, size);
    DecrementCounts(deviceEntries, owner, 1);
  }

  lemma NothingCharged(entries: Entries, totalBytes: nat, deviceBytes: Counters, deviceEntries: Counters, size: nat)
    requires StillCharged(entries, deviceBytes, deviceEntries, {}, size) && totalBytes == Sum(Sizes(entries))
    ensures EntriesCounted(entries, totalBytes, deviceBytes, deviceEntries)
  {
  }

  ghost predicate Fewer(now: Counters, before: Counters)
  {
    forall key :: Count(now, key) <= Count(before, key)
  }

  lemma DisownCounts(entries: Entries, id: Bytes, owner: Bytes, totalBytes: nat, deviceBytes: Counters,
                     deviceEntries: Counters)
    requires EntriesCounted(entries, totalBytes, deviceBytes, deviceEntries)
    requires id in entries && owner in entries[id].owners
    ensures var size := |entries[id].bytes|;
            EntriesCounted(entries[id := Disowned(entries[id], owner)], totalBytes, Decrement(deviceBytes, owner, size),
                           Decrement(deviceEntries, owner, 1))
    ensures Fewer(Decrement(deviceBytes, owner, |entries[id].bytes|), deviceBytes)
            && Fewer(Decrement(deviceEntries, owner, 1), deviceEntries)
  {
    hide Decrement, Owned, NoZero, Count, Sizes;
    var entry := Disowned(entries[id], owner);
    var after := entries[id := entry];
    ReplaceInSizes(entries, id, entry);
    ReplaceInOwned(entries, id, entry, owner);
    assert |entry.bytes| <= Count(deviceBytes, owner) && 1 <= Count(deviceEntries, owner);
    DecrementCounts(deviceBytes, owner, |entry.bytes|);
    DecrementCounts(deviceEntries, owner, 1);
    forall other | other != owner ensures Owned(after, other) == Owned(entries, other) {
      ReplaceInOwned(entries, id, entry, other);
    }
  }

  function Charge(m: Counters, owner: Bytes, amount: nat): Counters
  {
    m[owner := SatAdd(Count(m, owner), amount)]
  }

  lemma ChargeCounts(m: Counters, owner: Bytes, amount: nat)
    requires NoZero(m) && 0 < amount && Count(m, owner) + amount <= USIZE_MAX
    ensures NoZero(Charge(m, owner, amount))
    ensures forall other ::
              Count(Charge(m, owner, amount), other) == Count(m, other) + (if other == owner then amount else 0)
  {
  }

  /** A device that did not own a stored blob now does. */
  lemma AdoptCounts(entries: Entries, id: Bytes, entry: BlobEntry, owner: Bytes, totalBytes: nat, deviceBytes: Counters,
                    deviceEntries: Counters)
    requires EntriesCounted(entries, totalBytes, deviceBytes, deviceEntries)
             && EntryLimits(entries, totalBytes, deviceBytes, deviceEntries)
    requires id in entries && entry.bytes == entries[id].bytes && entry.bytes != []
    requires owner !in entries[id].owners && entry.owners == entries[id].owners + {owner}
    requires RoomFor(entries, owner, |entry.bytes|, 1)
    ensures EntriesCounted(entries[id := entry], totalBytes, Charge(deviceBytes, owner, |entry.bytes|),
                           Charge(deviceEntries, owner, 1))
    ensures EntryLimits(entries[id := entry], totalBytes, Charge(deviceBytes, owner, |entry.bytes|),
                        Charge(deviceEntries, owner, 1))
  {
    hide Charge, Owned, NoZero, Count, Sizes;
    ReplaceInSizes(entries, id, entry);
    SameSize(entries, id, entry);
    ChargeCounts(deviceBytes, owner, |entry.bytes|);
    ChargeCounts(deviceEntries, owner, 1);
    ReplaceInOwned(entries, id, entry, owner);
    forall other | other != owner ensures Owned(entries[id := entry], other) == Owned(entries, other) {
      ReplaceInOwned(entries, id, entry, other);
    }
  }

  /** Touching an entry without changing its owners moves no counter. */
  lemma TouchCounts(entries: Entries, id: Bytes, entry: BlobEntry, totalBytes: nat, deviceBytes: Counters,
                    deviceEntries: Counters)
    requires EntriesCounted(entries, totalBytes, deviceBytes, deviceEntries)
             && EntryLimits(entries, totalBytes, deviceBytes, deviceEntries)
    requires id in entries && entry.bytes == entries[id].bytes && entry.owners == entries[id].owners
    ensures EntriesCounted(entries[id := entry], totalBytes, deviceBytes, deviceEntries)
    ensures EntryLimits(entries[id := entry], totalBytes, deviceBytes, deviceEntries)
  {
    hide Owned, NoZero, Count, Sizes;
    ReplaceInSizes(entries, id, entry);
    SameSize(entries, id, entry);
    forall other ensures Owned(entries[id := entry], other) == Owned(entries, other) {
      ReplaceInOwned(entries, id, entry, other);
    }
  }

  /** A new blob with its first owner. */
  lemma AddCounts(entries: Entries, id: Bytes, entry: BlobEntry, owner: Bytes, totalBytes: nat, deviceBytes: Counters,
                  deviceEntries: Counters)
    requires EntriesCounted(entries, totalBytes, deviceBytes, deviceEntries)
             && EntryLimits(entries, totalBytes, deviceBytes, deviceEntries)
    requires id !in entries && entry.bytes != [] && entry.owners == {owner} && RoomFor(entries, owner, |entry.bytes|, 1)
    requires |entries| < MAX_CACHED_BLOBS && totalBytes + |entry.bytes| <= MAX_CACHED_BLOB_BYTES
    ensures EntriesCounted(entries[id := entry], SatAdd(totalBytes, |entry.bytes|),
                           Charge(deviceBytes, owner, |entry.bytes|), Charge(deviceEntries, owner, 1))
    ensures EntryLimits(entries[id := entry], SatAdd(totalBytes, |entry.bytes|),
                        Charge(deviceBytes, owner, |entry.bytes|), Charge(deviceEntries, owner, 1))
  {
    hide Charge, Owned, NoZero, Count, Sizes;
    AddToSizes(entries, id, entry);
    ChargeCounts(deviceBytes, owner, |entry.bytes|);
    ChargeCounts(deviceEntries, owner, 1);
    AddToOwned(entries, id, entry, owner);
    forall other | other != owner ensures Owned(entries[id := entry], other) == Owned(entries, other) {
      AddToOwned(entries, id, entry, other);
    }
    assert entries[id := entry].Keys == entries.Keys + {id};
    assert |entries[id := entry]| == |entries[id := entry].Keys| && |entries| == |entries.Keys|;
  }

  lemma SameSize(entries: Entries, id: Bytes, entry: BlobEntry)
    requires id in entries
    ensures |entries[id := entry]| == |entries|
  {
    assert entries[id := entry].Keys == entries.Keys;
    assert |entries| == |entries.Keys| && |entries[id := entry]| == |entries[id := entry].Keys|;
  }

  lemma SizeOfEntries(entries: Entries, id: Bytes)
    requires id in entries
    ensures |entries - {id}| == |entries| - 1
  {
    assert (entries - {id}).Keys == entries.Keys - {id};
    assert |entries| == |entries.Keys| && |entries - {id}| == |(entries - {id}).Keys|;
  }

  ghost predicate RoomFor(entries: Entries, owner: Bytes, bytes: nat, count: nat)
  {
    && Sum(Owned(entries, owner)) + bytes <= MAX_CACHED_BLOB_BYTES_PER_DEVICE
    && |Owned(entries, owner)| + count <= MAX_CACHED_BLOBS_PER_DEVICE
  }

  /** The counters tell exactly whether there is room; their saturation never shows. */
  lemma RoomIsCounted(entries: Entries, totalBytes: nat, deviceBytes: Counters, deviceEntries: Counters, owner: Bytes,
                      bytes: nat, count: nat)
    requires EntriesCounted(entries, totalBytes, deviceBytes, deviceEntries)
    ensures SatAdd(Count(deviceBytes, owner), bytes) <= MAX_CACHED_BLOB_BYTES_PER_DEVICE
            && SatAdd(Count(deviceEntries, owner), count) <= MAX_CACHED_BLOBS_PER_DEVICE
            <==> RoomFor(entries, owner, bytes, count)
  {
  }

  lemma TicketDropped(tickets: Tickets, transferIds: set<nat>, blobTickets: Counters, deviceTickets: Counters,
                      key: Bytes)
    requires key in tickets && TicketsCounted(tickets, transferIds, blobTickets, deviceTickets)
             && TicketLimits(tickets, deviceTickets)
    ensures TicketsCounted(tickets - {key}, transferIds - {tickets[key].transferId},
                           Decrement(blobTickets, tickets[key].blobId, 1),
                           Decrement(deviceTickets, tickets[key].owner, 1))
    ensures TicketLimits(tickets - {key}, Decrement(deviceTickets, tickets[key].owner, 1))
  {
    hide Decrement, ForBlob, ForDevice, NoZero, Count;
    DropTicket(tickets, key);
    assert |ForBlob(tickets, tickets[key].blobId)| >= 1 && |ForDevice(tickets, tickets[key].owner)| >= 1;
    DecrementCounts(blobTickets, tickets[key].blobId, 1);
    DecrementCounts(deviceTickets, tickets[key].owner, 1);
    var tid := tickets[key].transferId;
    forall id
      ensures id in transferIds - {tid} <==>
                exists other :: other in tickets - {key} && (tickets - {key})[other].transferId == id
    {
      if id in transferIds - {tid} {
        var other :| other in tickets && tickets[other].transferId == id;
        assert other in tickets - {key};
      }
    }
    SizeRemove(tickets, key);
  }

  lemma TicketsOfBlobAreFew(tickets: Tickets, id: Bytes)
    ensures |ForBlob(tickets, id)| <= |tickets|
  {
    assert tickets.Keys == ForBlob(tickets, id) + (tickets.Keys - ForBlob(tickets, id));
    assert |tickets| == |tickets.Keys|;
  }

  /** A fresh identifier joins the identifiers of the outstanding tickets. */
  lemma IssueIds(tickets: Tickets, transferIds: set<nat>, key: Bytes, ticket: TicketEntry)
    requires IdsTracked(tickets, transferIds) && key !in tickets && ticket.transferId !in transferIds
    ensures IdsTracked(tickets[key := ticket], transferIds + {ticket.transferId})
    ensures forall other :: other in tickets ==> tickets[other].transferId != ticket.transferId
  {
    var after := tickets[key := ticket];
    forall id
      ensures id in transferIds + {ticket.transferId} <==>
              exists other :: other in after && after[other].transferId == id
    {
      if id in transferIds {
        var other :| other in tickets && tickets[other].transferId == id;
        assert other in after && after[other].transferId == id;
      }
      if id == ticket.transferId {
        assert key in after && after[key].transferId == id;
      }
    }
  }

  /** One ticket more in the counters of its blob and its device. */
  lemma IssueCharges(tickets: Tickets, transferIds: set<nat>, blobTickets: Counters, deviceTickets: Counters,
                     key: Bytes, ticket: TicketEntry)
    requires TicketsCounted(tickets, transferIds, blobTickets, deviceTickets) && key !in tickets
    requires |tickets| < MAX_OUTSTANDING_TICKETS
             && Count(deviceTickets, ticket.owner) < MAX_OUTSTANDING_TICKETS_PER_DEVICE
    ensures NoZero(Charge(blobTickets, ticket.blobId, 1)) && NoZero(Charge(deviceTickets, ticket.owner, 1))
    ensures forall id :: Count(Charge(blobTickets, ticket.blobId, 1), id) == |ForBlob(tickets[key := ticket], id)|
    ensures forall owner ::
              Count(Charge(deviceTickets, ticket.owner, 1), owner) == |ForDevice(tickets[key := ticket], owner)|
  {
    hide Charge, ForBlob, ForDevice, NoZero, Count, IdsTracked;
    var after := tickets[key := ticket];
    DropTicket(after, key);
    assert after - {key} == tickets;
    TicketsOfBlobAreFew(tickets, ticket.blobId);
    ChargeCounts(blobTickets, ticket.blobId, 1);
    ChargeCounts(deviceTickets, ticket.owner, 1);
  }

  lemma IssueLimits(tickets: Tickets, deviceTickets: Counters, key: Bytes, ticket: TicketEntry)
    requires TicketLimits(tickets, deviceTickets) && NoZero(deviceTickets) && key !in tickets
    requires |tickets| < MAX_OUTSTANDING_TICKETS
             && Count(deviceTickets, ticket.owner) < MAX_OUTSTANDING_TICKETS_PER_DEVICE
    ensures TicketLimits(tickets[key := ticket], Charge(deviceTickets, ticket.owner, 1))
  {
    hide Charge, Count, NoZero;
    ChargeCounts(deviceTickets, ticket.owner, 1);
    assert tickets[key := ticket] - {key} == tickets;
    SizeRemove(tickets[key := ticket], key);
  }

  lemma IssueCounts(tickets: Tickets, transferIds: set<nat>, blobTickets: Counters, deviceTickets: Counters, key: Bytes,
                    ticket: TicketEntry)
    requires TicketsCounted(tickets, transferIds, blobTickets, deviceTickets) && TicketLimits(tickets, deviceTickets)
    requires key !in tickets && ticket.transferId !in transferIds
    requires |tickets| < MAX_OUTSTANDING_TICKETS
             && Count(deviceTickets, ticket.owner) < MAX_OUTSTANDING_TICKETS_PER_DEVICE
    ensures TicketsCounted(tickets[key := ticket], transferIds + {ticket.transferId},
                           Charge(blobTickets, ticket.blobId, 1), Charge(deviceTickets, ticket.owner, 1))
    ensures TicketLimits(tickets[key := ticket], Charge(deviceTickets, ticket.owner, 1))
  {
    hide Charge, ForBlob, ForDevice, NoZero, Count, IdsTracked;
    IssueIds(tickets, transferIds, key, ticket);
    IssueCharges(tickets, transferIds, blobTickets, deviceTickets, key, ticket);
    IssueLimits(tickets, deviceTickets, key, ticket);
    hide TicketLimits;
  }
}
