// Expiry of tickets and idle blobs, and what keeps the expiry deadline sound.
module BlobExpiry {
  import opened Basics
  import opened BlobAccounts

  function Earlier(deadline: Option<nat>, time: nat): Option<nat>
  {
    Some(if deadline.None? then time else Min(deadline.value, time))
  }

  /** The deadline, where there is one, is the time of something. */
  ghost predicate DeadlineAttained(entries: Entries, tickets: Tickets, deadline: Option<nat>)
  {
    deadline.Some? ==>
      || (exists key :: key in tickets && tickets[key].expiresAt == deadline.value)
      || (exists id ::
            && id in entries && !Pinned(tickets, id)
            && entries[id].lastAccess + BLOB_IDLE_TTL == deadline.value)
  }

  method EarliestExpiry(tickets: Tickets) returns (earliest: Option<nat>)
    ensures forall key :: key in tickets ==> Due(earliest, tickets[key].expiresAt)
    ensures earliest.Some? ==> exists key :: key in tickets && tickets[key].expiresAt == earliest.value
  {
    earliest := None;
    var rest := tickets.Keys;
    while rest != {}
      invariant rest <= tickets.Keys
      invariant forall key :: key in tickets && key !in rest ==> Due(earliest, tickets[key].expiresAt)
      invariant earliest.Some? ==> exists key :: key in tickets && tickets[key].expiresAt == earliest.value
      decreases rest
    {
      var key :| key in rest;
      if earliest.None? || tickets[key].expiresAt < earliest.value {
        earliest := Some(tickets[key].expiresAt);
      }
      rest := rest - {key};
    }
  }

  ghost function Unexpired(before: Entries, done: seq<Bytes>, tickets: Tickets, now: nat): Entries
  {
    map id | id in before && !(id in done && Idle(before, tickets, now, id)) :: before[id]
  }

  ghost predicate KeptBounds(before: Entries, kept: seq<Bytes>, tickets: Tickets, deadline: Option<nat>)
  {
    && (forall key :: key in tickets ==> Due(deadline, tickets[key].expiresAt))
    && (forall id :: id in kept && id in before && !Pinned(tickets, id) ==>
          Due(deadline, before[id].lastAccess + BLOB_IDLE_TTL))
  }

  ghost predicate KeptAttains(before: Entries, kept: seq<Bytes>, tickets: Tickets, deadline: Option<nat>)
  {
    deadline.Some? ==>
      || (exists key :: key in tickets && tickets[key].expiresAt == deadline.value)
      || (exists id ::
            && id in kept && id in before && !Pinned(tickets, id)
            && before[id].lastAccess + BLOB_IDLE_TTL == deadline.value)
  }

  /** The first `i` blobs of the queue have been looked at, against the tickets that are still alive. */
  ghost predicate Expiring(before: Entries, order: seq<Bytes>, i: nat, tickets: Tickets, now: nat, current: Entries,
                           kept: seq<Bytes>, deadline: Option<nat>)
  {
    && i <= |order| && Queued(before, order)
    && current == Unexpired(before, order[..i], tickets, now)
    && kept == Filter(order[..i], current.Keys)
    && KeptBounds(before, kept, tickets, deadline) && KeptAttains(before, kept, tickets, deadline)
  }

  lemma ExpiringStart(before: Entries, order: seq<Bytes>, tickets: Tickets, now: nat, deadline: Option<nat>)
    requires Queued(before, order)
    requires forall key :: key in tickets ==> Due(deadline, tickets[key].expiresAt)
    requires deadline.Some? ==> exists key :: key in tickets && tickets[key].expiresAt == deadline.value
    ensures Expiring(before, order, 0, tickets, now, before, [], deadline)
  {
    assert Unexpired(before, order[..0], tickets, now) == before;
  }

  lemma ExpiringTest(before: Entries, order: seq<Bytes>, i: nat, tickets: Tickets, now: nat, current: Entries,
                     kept: seq<Bytes>, deadline: Option<nat>, transferIds: set<nat>, blobTickets: Counters,
                     deviceTickets: Counters)
    requires Expiring(before, order, i, tickets, now, current, kept, deadline) && i < |order|
    requires TicketsCounted(tickets, transferIds, blobTickets, deviceTickets)
    ensures order[i] in before && order[i] in current && current[order[i]] == before[order[i]]
    ensures Count(blobTickets, order[i]) > 0 <==> Pinned(tickets, order[i])
    ensures Idle(before, tickets, now, order[i]) <==>
              Count(blobTickets, order[i]) == 0 && before[order[i]].lastAccess + BLOB_IDLE_TTL <= now
  {
    assert order[i] in order && order[i] !in order[..i];
    PinnedIsCounted(tickets, order[i]);
  }

  lemma ExpiringDrop(before: Entries, order: seq<Bytes>, i: nat, tickets: Tickets, now: nat, current: Entries,
                     kept: seq<Bytes>, deadline: Option<nat>)
    requires Expiring(before, order, i, tickets, now, current, kept, deadline) && i < |order|
    requires Idle(before, tickets, now, order[i])
    ensures Expiring(before, order, i + 1, tickets, now, current - {order[i]}, kept, deadline)
  {
    hide Idle, KeptBounds, KeptAttains, Filter;
    var id := order[i];
    assert order[..i + 1] == order[..i] + [id];
    assert Unexpired(before, order[..i + 1], tickets, now) == current - {id};
    FilterStep(order, i, (current - {id}).Keys);
    FilterSame(order[..i], current.Keys, (current - {id}).Keys);
  }

  lemma KeptBoundsMore(before: Entries, kept: seq<Bytes>, tickets: Tickets, deadline: Option<nat>, id: Bytes)
    requires KeptBounds(before, kept, tickets, deadline) && id in before
    ensures var next :=
              if Pinned(tickets, id) then deadline else Earlier(deadline, before[id].lastAccess + BLOB_IDLE_TTL);
            KeptBounds(before, kept + [id], tickets, next)
  {
    hide Pinned;
  }

  lemma KeptAttainsMore(before: Entries, kept: seq<Bytes>, tickets: Tickets, deadline: Option<nat>, id: Bytes)
    requires KeptAttains(before, kept, tickets, deadline) && id in before
    ensures var next :=
              if Pinned(tickets, id) then deadline else Earlier(deadline, before[id].lastAccess + BLOB_IDLE_TTL);
            KeptAttains(before, kept + [id], tickets, next)
  {
    hide Pinned;
    var next := if Pinned(tickets, id) then deadline else Earlier(deadline, before[id].lastAccess + BLOB_IDLE_TTL);
    if !Pinned(tickets, id) && next.value == before[id].lastAccess + BLOB_IDLE_TTL {
      assert id in kept + [id];
    } else if next.Some? {
      assert next == deadline;
      if other :|
        && other in kept && other in before && !Pinned(tickets, other)
        && before[other].lastAccess + BLOB_IDLE_TTL == deadline.value {
        assert other in kept + [id];
      }
    }
  }

  lemma ExpiringKeep(before: Entries, order: seq<Bytes>, i: nat, tickets: Tickets, now: nat, current: Entries,
                     kept: seq<Bytes>, deadline: Option<nat>)
    requires Expiring(before, order, i, tickets, now, current, kept, deadline) && i < |order|
    requires order[i] in before && !Idle(before, tickets, now, order[i])
    ensures var id := order[i];
            var next :=
              if Pinned(tickets, id) then deadline else Earlier(deadline, before[id].lastAccess + BLOB_IDLE_TTL);
            Expiring(before, order, i + 1, tickets, now, current, kept + [order[i]], next)
  {
    hide Idle, KeptBounds, KeptAttains, Filter, Pinned;
    var id := order[i];
    assert order[..i + 1] == order[..i] + [id];
    assert Unexpired(before, order[..i + 1], tickets, now) == current;
    assert id in current;
    KeptBoundsMore(before, kept, tickets, deadline, id);
    KeptAttainsMore(before, kept, tickets, deadline, id);
    FilterStep(order, i, current.Keys);
  }

  lemma ExpiredShape(digest: Bytes -> Bytes, before: Entries, all: Tickets, now: nat, clock: nat)
    requires SoundEntries(digest, before) && TicketsHonoured(before, all) && Clocked(before, all, clock)
    ensures var live := LiveTickets(all, now);
            var current := LiveEntries(before, all, now);
            SoundEntries(digest, current) && TicketsHonoured(current, live) && Clocked(current, live, clock)
  {
    var live := LiveTickets(all, now);
    assert forall key :: key in live ==> Pinned(live, live[key].blobId);
  }

  lemma KeptDeadline(before: Entries, kept: seq<Bytes>, live: Tickets, current: Entries, deadline: Option<nat>)
    requires KeptBounds(before, kept, live, deadline) && KeptAttains(before, kept, live, deadline)
    requires forall id :: id in current ==> id in kept && id in before && current[id] == before[id]
    requires forall id :: id in kept ==> id in current
    ensures DeadlineBounds(current, live, deadline) && DeadlineAttained(current, live, deadline)
  {
    hide Pinned;
    if deadline.Some? {
      if id :|
        && id in kept && id in before && !Pinned(live, id)
        && before[id].lastAccess + BLOB_IDLE_TTL == deadline.value {
        assert id in current;
      }
    }
  }

  /** The loop has reached the end of the queue. */
  lemma ExpiringEnd(digest: Bytes -> Bytes, before: Entries, order: seq<Bytes>, all: Tickets, live: Tickets, now: nat,
                    current: Entries, kept: seq<Bytes>, deadline: Option<nat>, clock: nat)
    requires Expiring(before, order, |order|, live, now, current, kept, deadline) && live == LiveTickets(all, now)
    requires SoundEntries(digest, before) && TicketsHonoured(before, all) && Clocked(before, all, clock)
    ensures current == LiveEntries(before, all, now) && kept == Filter(order, current.Keys)
    ensures SoundEntries(digest, current) && TicketsHonoured(current, live) && Clocked(current, live, clock)
    ensures DeadlineBounds(current, live, deadline) && DeadlineAttained(current, live, deadline)
            && Queued(current, kept)
  {
    hide KeptBounds, KeptAttains, Pinned, Idle, Filter, DeadlineBounds, DeadlineAttained, SoundEntries, TicketsHonoured,
         Clocked;
    assert order[..|order|] == order;
    assert current == LiveEntries(before, all, now);
    FilterIsExact(order, current.Keys);
    ExpiredShape(digest, before, all, now, clock);
    KeptDeadline(before, kept, live, current, deadline);
  }

  /** `entry` is the stored blob `id` seen again: same bytes and reference, at least the same owners. */
  ghost predicate SameBlob(was: BlobEntry, entry: BlobEntry)
  {
    && entry.reference == was.reference && entry.bytes == was.bytes
    && was.owners <= entry.owners && entry.deliveredOwners <= entry.owners
  }

  lemma TouchKeepsShape(digest: Bytes -> Bytes, entries: Entries, tickets: Tickets, clock: nat, clock': nat,
                        deadline: Option<nat>, id: Bytes, entry: BlobEntry)
    requires SoundEntries(digest, entries) && TicketsHonoured(entries, tickets) && Clocked(entries, tickets, clock)
    requires DeadlineBounds(entries, tickets, deadline)
    requires id in entries && SameBlob(entries[id], entry) && clock <= clock' && entry.lastAccess <= clock'
    requires !Pinned(tickets, id) ==> entries[id].lastAccess <= entry.lastAccess
    ensures var after := entries[id := entry];
            && SoundEntries(digest, after) && TicketsHonoured(after, tickets) && Clocked(after, tickets, clock')
            && DeadlineBounds(after, tickets, deadline)
  {
    var after := entries[id := entry];
    assert SoundEntry(digest, id, entries[id]);
  }

  lemma TouchKeepsQueue(entries: Entries, order: seq<Bytes>, id: Bytes, entry: BlobEntry)
    requires Queued(entries, order) && id in entries
    ensures Queued(entries[id := entry], order)
  {
  }

  lemma AddKeepsShape(digest: Bytes -> Bytes, entries: Entries, tickets: Tickets, clock: nat, deadline: Option<nat>,
                      id: Bytes, entry: BlobEntry)
    requires SoundEntries(digest, entries) && TicketsHonoured(entries, tickets) && Clocked(entries, tickets, clock)
    requires DeadlineBounds(entries, tickets, deadline)
    requires id !in entries && SoundEntry(digest, id, entry) && entry.lastAccess <= clock
    ensures var after := entries[id := entry];
            && SoundEntries(digest, after) && TicketsHonoured(after, tickets) && Clocked(after, tickets, clock)
            && DeadlineBounds(after, tickets, Earlier(deadline, entry.lastAccess + BLOB_IDLE_TTL))
  {
  }

  lemma AddKeepsQueue(entries: Entries, order: seq<Bytes>, id: Bytes, entry: BlobEntry)
    requires Queued(entries, order) && id !in entries
    ensures Queued(entries[id := entry], order + [id])
  {
  }

  lemma ClockMoves(digest: Bytes -> Bytes, entries: Entries, tickets: Tickets, clock: nat, clock': nat)
    requires Clocked(entries, tickets, clock) && clock <= clock'
    ensures Clocked(entries, tickets, clock')
  {
  }

  lemma IssueKeepsShape(digest: Bytes -> Bytes, entries: Entries, tickets: Tickets, clock: nat, deadline: Option<nat>,
                        key: Bytes, ticket: TicketEntry)
    requires SoundEntries(digest, entries) && TicketsHonoured(entries, tickets) && Clocked(entries, tickets, clock)
    requires DeadlineBounds(entries, tickets, deadline)
    requires key !in tickets && ticket.blobId in entries && ticket.owner in entries[ticket.blobId].owners
             && ticket.expiresAt <= clock + TICKET_TTL
    ensures var after := tickets[key := ticket];
            TicketsHonoured(entries, after) && Clocked(entries, after, clock)
            && DeadlineBounds(entries, after, Earlier(deadline, ticket.expiresAt))
  {
    var after := tickets[key := ticket];
    forall id | Pinned(tickets, id) ensures Pinned(after, id) {
      var other :| other in tickets && tickets[other].blobId == id;
      assert other in after && after[other].blobId == id;
    }
  }

  /**
   * Redeeming may leave the blob unpinned; the deadline still covers it, because it was no later than the ticket's
   * expiry and a ticket lives no longer than an idle blob.
   */
  lemma RedeemKeepsShape(digest: Bytes -> Bytes, entries: Entries, tickets: Tickets, clock: nat, clock': nat,
                         deadline: Option<nat>, key: Bytes, entry: BlobEntry)
    requires SoundEntries(digest, entries) && TicketsHonoured(entries, tickets) && Clocked(entries, tickets, clock)
    requires DeadlineBounds(entries, tickets, deadline) && key in tickets && clock <= clock'
    requires tickets[key].blobId in entries
    requires SameBlob(entries[tickets[key].blobId], entry) && entry.lastAccess == clock'
    ensures var after, rest := entries[tickets[key].blobId := entry], tickets - {key};
            && SoundEntries(digest, after) && TicketsHonoured(after, rest) && Clocked(after, rest, clock')
            && DeadlineBounds(after, rest, deadline)
  {
    var id := tickets[key].blobId;
    var after, rest := entries[id := entry], tickets - {key};
    assert SoundEntry(digest, id, entries[id]);
    forall other | other in after && !Pinned(rest, other)
      ensures Due(deadline, after[other].lastAccess + BLOB_IDLE_TTL)
    {
      if other != id {
        assert forall k :: k in tickets && tickets[k].blobId == other ==> k in rest && rest[k].blobId == other;
      }
    }
  }
}
