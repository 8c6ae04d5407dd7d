// Giving up a device's delivered blobs to make room for it.
module BlobReclaim {
  import opened Basics
  import opened BlobAccounts
  import opened BlobCharges

  /** The blobs that may be taken from `owner`: delivered to it and held by no ticket. */
  ghost function Reclaimable(entries: Entries, tickets: Tickets, owner: Bytes): set<Bytes>
  {
    set id | id in entries && owner in entries[id].deliveredOwners && !Pinned(tickets, id)
  }

  /** The entries once `owner` has given up `released`; blobs without another owner are gone. */
  ghost function AfterRelease(entries: Entries, released: set<Bytes>, owner: Bytes): Entries
  {
    map id | id in entries && !(id in released && entries[id].owners == {owner}) ::
      if id in released then Disowned(entries[id], owner) else entries[id]
  }

  /**
   * What reclaiming on behalf of `owner` must do: give up the oldest reclaimable blobs, in order, no more than needed,
   * until there is room or none is left; everything else stays, in the same order.
   */
  ghost predicate Reclaimed(entries: Entries, order: seq<Bytes>, tickets: Tickets, owner: Bytes, bytes: nat, count: nat,
                            released: seq<Bytes>, entries': Entries, order': seq<Bytes>)
  {
    var candidates := Filter(order, Reclaimable(entries, tickets, owner));
    && released <= candidates
    && entries' == AfterRelease(entries, ElementsOf(released), owner)
    && order' == Filter(order, entries'.Keys)
    && (RoomFor(entries', owner, bytes, count) || released == candidates)
    && (released != [] ==>
          !RoomFor(AfterRelease(entries, ElementsOf(released[..|released| - 1]), owner), owner, bytes, count))
  }

  /** Only delivered, unticketed blobs are given up, and nothing else changes. */
  lemma ReclaimMeans(entries: Entries, order: seq<Bytes>, tickets: Tickets, owner: Bytes, bytes: nat, count: nat,
                     released: seq<Bytes>, after: Entries, order': seq<Bytes>)
    requires Reclaimed(entries, order, tickets, owner, bytes, count, released, after, order')
    ensures forall id :: id in released ==>
              && id in entries && owner in entries[id].deliveredOwners && !Pinned(tickets, id)
              && (id in after ==> owner !in after[id].owners)
    ensures forall id :: id in entries && id !in released ==> id in after && after[id] == entries[id]
  {
    hide RoomFor, Filter, Pinned;
    var candidates := Filter(order, Reclaimable(entries, tickets, owner));
    FilterIsExact(order, Reclaimable(entries, tickets, owner));
    forall id | id in released ensures id in candidates {
      var i :| 0 <= i < |released| && released[i] == id;
      assert candidates[i] == id;
    }
  }

  /** Whoever gives up more has more room. */
  lemma MoreReleasedMoreRoom(entries: Entries, less: set<Bytes>, more: set<Bytes>, owner: Bytes, bytes: nat, count: nat)
    requires less <= more && RoomFor(AfterRelease(entries, less, owner), owner, bytes, count)
    ensures RoomFor(AfterRelease(entries, more, owner), owner, bytes, count)
  {
    hide AfterRelease, Sum;
    var a, b := AfterRelease(entries, less, owner), AfterRelease(entries, more, owner);
    MoreReleasedOwnedLess(entries, less, more, owner);
    SumPart(Owned(b, owner), Owned(a, owner));
  }

  lemma MoreReleasedOwnedLess(entries: Entries, less: set<Bytes>, more: set<Bytes>, owner: Bytes)
    requires less <= more
    ensures var a, b := AfterRelease(entries, less, owner), AfterRelease(entries, more, owner);
            forall id :: id in Owned(b, owner) ==> id in Owned(a, owner) && Owned(b, owner)[id] == Owned(a, owner)[id]
  {
  }

  /** Reclaiming has one outcome. */
  lemma ReclaimedOnce(entries: Entries, order: seq<Bytes>, tickets: Tickets, owner: Bytes, bytes: nat, count: nat,
                      released: seq<Bytes>, a: Entries, p: seq<Bytes>, released': seq<Bytes>, b: Entries, q: seq<Bytes>)
    requires Reclaimed(entries, order, tickets, owner, bytes, count, released, a, p)
    requires Reclaimed(entries, order, tickets, owner, bytes, count, released', b, q)
    ensures released == released' && a == b && p == q
  {
    hide AfterRelease, RoomFor, Filter, Reclaimable;
    if |released| < |released'| {
      ReclaimedNoLonger(entries, owner, bytes, count, released, released');
    } else if |released'| < |released| {
      ReclaimedNoLonger(entries, owner, bytes, count, released', released);
    }
  }

  lemma ReclaimedNoLonger(entries: Entries, owner: Bytes, bytes: nat, count: nat, short: seq<Bytes>, long: seq<Bytes>)
    requires short < long && RoomFor(AfterRelease(entries, ElementsOf(short), owner), owner, bytes, count)
    ensures RoomFor(AfterRelease(entries, ElementsOf(long[..|long| - 1]), owner), owner, bytes, count)
  {
    hide AfterRelease, RoomFor;
    forall id | id in ElementsOf(short) ensures id in ElementsOf(long[..|long| - 1]) {
      var i :| 0 <= i < |short| && short[i] == id;
      assert long[..|long| - 1][i] == id;
    }
    MoreReleasedMoreRoom(entries, ElementsOf(short), ElementsOf(long[..|long| - 1]), owner, bytes, count);
  }

  lemma ReleaseNothing(entries: Entries, owner: Bytes)
    ensures AfterRelease(entries, {}, owner) == entries
  {
  }

  lemma ReleaseOneMore(entries: Entries, released: set<Bytes>, owner: Bytes, id: Bytes)
    requires id in entries && id !in released && owner in entries[id].owners
    ensures var before, after := AfterRelease(entries, released, owner), AfterRelease(entries, released + {id}, owner);
            && id in before && before[id] == entries[id]
            && (entries[id].owners == {owner} ==> after == before - {id})
            && (entries[id].owners != {owner} ==> after == before[id := Disowned(entries[id], owner)])
  {
  }

  /** Releasing unpinned blobs leaves sound entries and honours every ticket. */
  lemma ReleaseKeepsShape(digest: Bytes -> Bytes, entries: Entries, tickets: Tickets, clock: nat, deadline: Option<nat>,
                          released: set<Bytes>, owner: Bytes)
    requires SoundEntries(digest, entries) && TicketsHonoured(entries, tickets) && Clocked(entries, tickets, clock)
    requires DeadlineBounds(entries, tickets, deadline)
    requires forall id :: id in released ==> !Pinned(tickets, id)
    ensures var after := AfterRelease(entries, released, owner);
            && SoundEntries(digest, after) && TicketsHonoured(after, tickets) && Clocked(after, tickets, clock)
            && DeadlineBounds(after, tickets, deadline)
  {
    var after := AfterRelease(entries, released, owner);
    forall id | id in after ensures SoundEntry(digest, id, after[id]) {
      if id in released {
        assert entries[id].owners - {owner} != {};
      }
    }
    forall key | key in tickets
      ensures tickets[key].blobId in after && tickets[key].owner in after[tickets[key].blobId].owners
    {
      assert Pinned(tickets, tickets[key].blobId);
    }
  }

  /** The first `i` blobs of the queue have been looked at: `kept` of them remain, `released` were given up. */
  ghost predicate Reclaiming(before: Entries, order: seq<Bytes>, i: nat, tickets: Tickets, owner: Bytes, bytes: nat,
                             count: nat, released: seq<Bytes>, now: Entries, kept: seq<Bytes>)
  {
    && i <= |order| && Queued(before, order)
    && released == Filter(order[..i], Reclaimable(before, tickets, owner))
    && now == AfterRelease(before, ElementsOf(released), owner)
    && kept == Filter(order[..i], now.Keys)
    && (released != [] ==>
          !RoomFor(AfterRelease(before, ElementsOf(released[..|released| - 1]), owner), owner, bytes, count))
  }

  lemma ReclaimStart(before: Entries, order: seq<Bytes>, tickets: Tickets, owner: Bytes, bytes: nat, count: nat)
    requires Queued(before, order)
    ensures Reclaiming(before, order, 0, tickets, owner, bytes, count, [], before, [])
  {
    ReleaseNothing(before, owner);
  }

  /** The blob at position `i` is untouched so far, and the tests the loop makes tell whether it is reclaimable. */
  lemma ReclaimTest(digest: Bytes -> Bytes, before: Entries, order: seq<Bytes>, i: nat, tickets: Tickets, owner: Bytes,
                    bytes: nat, count: nat, released: seq<Bytes>, now: Entries, kept: seq<Bytes>, transferIds: set<nat>,
                    blobTickets: Counters, deviceTickets: Counters)
    requires Reclaiming(before, order, i, tickets, owner, bytes, count, released, now, kept) && i < |order|
    requires SoundEntries(digest, before) && TicketsCounted(tickets, transferIds, blobTickets, deviceTickets)
    ensures order[i] in before && order[i] in now && now[order[i]] == before[order[i]]
    ensures order[i] in Reclaimable(before, tickets, owner) <==>
              && Count(blobTickets, order[i]) == 0
              && owner in now[order[i]].deliveredOwners && owner in now[order[i]].owners
  {
    hide RoomFor;
    FilterIsExact(order[..i], Reclaimable(before, tickets, owner));
    assert order[i] in order && order[i] !in order[..i];
    PinnedIsCounted(tickets, order[i]);
    assert SoundEntry(digest, order[i], before[order[i]]);
  }

  lemma ReclaimSkip(before: Entries, order: seq<Bytes>, i: nat, tickets: Tickets, owner: Bytes, bytes: nat, count: nat,
                    released: seq<Bytes>, now: Entries, kept: seq<Bytes>)
    requires Reclaiming(before, order, i, tickets, owner, bytes, count, released, now, kept) && i < |order|
    requires order[i] in now && order[i] !in Reclaimable(before, tickets, owner)
    ensures Reclaiming(before, order, i + 1, tickets, owner, bytes, count, released, now, kept + [order[i]])
  {
    hide RoomFor, AfterRelease, Reclaimable;
    FilterStep(order, i, Reclaimable(before, tickets, owner));
    FilterStep(order, i, now.Keys);
  }

  lemma ReclaimTake(before: Entries, order: seq<Bytes>, i: nat, tickets: Tickets, owner: Bytes, bytes: nat, count: nat,
                    released: seq<Bytes>, now: Entries, kept: seq<Bytes>)
    requires Reclaiming(before, order, i, tickets, owner, bytes, count, released, now, kept) && i < |order|
    requires order[i] in Reclaimable(before, tickets, owner) && owner in before[order[i]].owners
             && !RoomFor(now, owner, bytes, count)
    ensures var id := order[i];
            var after := if before[id].owners == {owner} then now - {id} else now[id := Disowned(before[id], owner)];
            Reclaiming(before, order, i + 1, tickets, owner, bytes, count, released + [id], after,
                       kept + (if id in after then [id] else []))
  {
    hide RoomFor;
    var id := order[i];
    var reclaimable := Reclaimable(before, tickets, owner);
    FilterIsExact(order[..i], reclaimable);
    assert id !in released;
    ReleaseOneMore(before, ElementsOf(released), owner, id);
    assert ElementsOf(released + [id]) == ElementsOf(released) + {id};
    var after := AfterRelease(before, ElementsOf(released + [id]), owner);
    assert (released + [id])[..|released + [id]| - 1] == released;
    hide AfterRelease;
    FilterStep(order, i, reclaimable);
    FilterStep(order, i, after.Keys);
    FilterSame(order[..i], now.Keys, after.Keys);
  }

  lemma ReclaimStop(before: Entries, order: seq<Bytes>, i: nat, tickets: Tickets, owner: Bytes, bytes: nat, count: nat,
                    released: seq<Bytes>, now: Entries, kept: seq<Bytes>)
    requires Reclaiming(before, order, i, tickets, owner, bytes, count, released, now, kept)
    requires i == |order| || RoomFor(now, owner, bytes, count)
    ensures Reclaimed(before, order, tickets, owner, bytes, count, released, now, kept + order[i..])
  {
    hide RoomFor;
    var reclaimable := Reclaimable(before, tickets, owner);
    assert order == order[..i] + order[i..];
    FilterConcat(order[..i], order[i..], reclaimable);
    FilterConcat(order[..i], order[i..], now.Keys);
    FilterIsExact(order[..i], reclaimable);
    forall id | id in order[i..] ensures id in now {
      assert id in order && id !in order[..i];
    }
    FilterAll(order[i..], now.Keys);
    if i == |order| {
      assert order[..i] == order;
    }
  }

  lemma ReclaimedKeepsShape(digest: Bytes -> Bytes, before: Entries, order: seq<Bytes>, tickets: Tickets, clock: nat,
                            deadline: Option<nat>, owner: Bytes, bytes: nat, count: nat, released: seq<Bytes>,
                            now: Entries, order': seq<Bytes>)
    requires Reclaimed(before, order, tickets, owner, bytes, count, released, now, order') && Queued(before, order)
    requires SoundEntries(digest, before) && TicketsHonoured(before, tickets) && Clocked(before, tickets, clock)
    requires DeadlineBounds(before, tickets, deadline)
    ensures SoundEntries(digest, now) && TicketsHonoured(now, tickets) && Clocked(now, tickets, clock)
    ensures DeadlineBounds(now, tickets, deadline) && Queued(now, order')
  {
    hide RoomFor, DeadlineBounds, Clocked, TicketsHonoured, SoundEntries;
    var reclaimable := Reclaimable(before, tickets, owner);
    FilterIsExact(order, reclaimable);
    forall id | id in released ensures !Pinned(tickets, id) {
      assert id in Filter(order, reclaimable);
    }
    ReleaseKeepsShape(digest, before, tickets, clock, deadline, ElementsOf(released), owner);
    FilterIsExact(order, now.Keys);
  }
}
