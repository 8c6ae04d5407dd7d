// Whole runs of the blob store, and the stream that carries a redeemed blob.
module BlobRuns {
  import opened Basics
  import opened BlobAccounts
  import opened BlobCharges
  import opened BlobReclaim
  import opened BlobStore

  datatype Op =
    | InsertOp(owner: Bytes, bytes: Bytes, mediaType: string)
    | IssueOp(owner: Bytes, blobId: Bytes, transferId: nat, key: Bytes)
    | RedeemOp(owner: Bytes, transferId: nat, key: Bytes)

  /** An operation with the clock readings it makes. */
  datatype TimedOp = TimedOp(op: Op, now: nat, later: nat, latest: nat)

  datatype Reply =
    | InsertReply(reference: Option<BlobRef>)
    | IssueReply(issue: Issue)
    | RedeemReply(redemption: Redemption)
    | Resample

  ghost predicate Clockwise(ops: seq<TimedOp>)
  {
    && (forall i :: 0 <= i < |ops| ==> ops[i].now <= ops[i].later <= ops[i].latest)
    && (forall i, j :: 0 <= i < j < |ops| ==> ops[i].latest <= ops[j].now)
  }

  /** The digest tells apart the blobs of this run. */
  ghost predicate CollisionFree(digest: Bytes -> Bytes, ops: seq<TimedOp>)
  {
    forall i, j ::
      (0 <= i < |ops| && 0 <= j < |ops| && ops[i].op.InsertOp? && ops[j].op.InsertOp?
       && digest(ops[i].op.bytes) == digest(ops[j].op.bytes)) ==>
        ops[i].op.bytes == ops[j].op.bytes
  }

  /** Operation `i` put these bytes into the store for `owner`. */
  ghost predicate InsertedAt(digest: Bytes -> Bytes, ops: seq<TimedOp>, replies: seq<Reply>, i: nat, owner: Bytes,
                             bytes: Bytes)
  {
    && i < |ops| && i < |replies|
    && ops[i].op.InsertOp? && ops[i].op.owner == owner && ops[i].op.bytes == bytes
    && replies[i].InsertReply? && replies[i].reference.Some? && replies[i].reference.value.blobId == digest(bytes)
  }

  ghost predicate DeliveredAt(ops: seq<TimedOp>, replies: seq<Reply>, i: nat, key: Bytes)
  {
    && i < |ops| && i < |replies|
    && ops[i].op.RedeemOp? && ops[i].op.key == key && replies[i].RedeemReply? && replies[i].redemption.Delivered?
  }

  ghost predicate GrantedAt(ops: seq<TimedOp>, replies: seq<Reply>, i: nat, key: Bytes, ticket: TicketEntry)
  {
    && i < |ops| && i < |replies|
    && ops[i].op == IssueOp(ticket.owner, ticket.blobId, ticket.transferId, key)
    && replies[i].IssueReply? && replies[i].issue.Granted? && replies[i].issue.reference.blobId == ticket.blobId
    && ticket.expiresAt == ops[i].latest + TICKET_TTL
  }

  /** The ticket was granted at `i` and has not been spent before `n`. */
  ghost predicate UnspentSince(ops: seq<TimedOp>, replies: seq<Reply>, i: nat, n: nat, key: Bytes, ticket: TicketEntry)
  {
    && i < n && GrantedAt(ops, replies, i, key, ticket)
    && forall k :: i < k < n ==> !DeliveredAt(ops, replies, k, key)
  }

  /**
   * A delivery answers exactly one earlier grant to the same device, with the bytes that device inserted before that
   * grant.
   */
  ghost predicate AnswersGrant(digest: Bytes -> Bytes, ops: seq<TimedOp>, replies: seq<Reply>, j: nat)
    requires j < |ops| && j < |replies| && ops[j].op.RedeemOp? && replies[j].RedeemReply?
             && replies[j].redemption.Delivered?
  {
    exists i: nat, ticket :: AnswersGrantAt(digest, ops, replies, j, i, ticket)
  }

  ghost predicate AnswersGrantAt(digest: Bytes -> Bytes, ops: seq<TimedOp>, replies: seq<Reply>, j: nat, i: nat,
                                 ticket: TicketEntry)
    requires j < |ops| && j < |replies| && ops[j].op.RedeemOp? && replies[j].RedeemReply?
             && replies[j].redemption.Delivered?
  {
    && UnspentSince(ops, replies, i, j, ops[j].op.key, ticket)
    && ticket.owner == ops[j].op.owner && ticket.transferId == ops[j].op.transferId && ops[j].later < ticket.expiresAt
    && digest(replies[j].redemption.bytes) == ticket.blobId && replies[j].redemption.reference.blobId == ticket.blobId
    && exists k: nat :: k < i && InsertedAt(digest, ops, replies, k, ticket.owner, replies[j].redemption.bytes)
  }

  /** An unspent ticket of that device, for that transfer, that has not expired when it is checked. */
  ghost predicate OpenGrant(ops: seq<TimedOp>, replies: seq<Reply>, j: nat, i: nat, ticket: TicketEntry)
  {
    && j < |ops| && ops[j].op.RedeemOp? && UnspentSince(ops, replies, i, j, ops[j].op.key, ticket)
    && ticket.owner == ops[j].op.owner && ticket.transferId == ops[j].op.transferId && ops[j].later < ticket.expiresAt
  }

  ghost predicate HasOpenGrant(ops: seq<TimedOp>, replies: seq<Reply>, j: nat)
  {
    exists i: nat, ticket :: OpenGrant(ops, replies, j, i, ticket)
  }

  // ---------- What every operation does ----------

  datatype Contents = Contents(entries: Entries, order: seq<Bytes>, tickets: Tickets)

  const EMPTY := Contents(map[], [], map[])

  /** The store once everything expired at `now` is gone. */
  ghost function LiveAt(c: Contents, now: nat): Contents
  {
    var live := LiveEntries(c.entries, c.tickets, now);
    Contents(live, Filter(c.order, live.Keys), LiveTickets(c.tickets, now))
  }

  /** The answer an operation gets from a store with contents `c`, and the contents it leaves. */
  ghost predicate Serves(digest: Bytes -> Bytes, op: TimedOp, c: Contents, reply: Reply, c': Contents)
  {
    var live := LiveAt(c, op.now);
    match op.op
    case InsertOp(owner, bytes, mediaType) =>
      reply.InsertReply? &&
      if !Acceptable(owner, bytes, mediaType) then reply.reference == None && c' == c
      else
        c'.tickets == live.tickets && InsertServed(digest, live, owner, bytes, mediaType, op.later, reply.reference, c')
    case IssueOp(owner, blobId, transferId, key) =>
      if !Fresh(live.tickets, transferId, key) then reply == Resample && c' == c
      else
        && reply.IssueReply? && c'.order == live.order
        && Issued(live.entries, live.tickets, owner, blobId, op.later, op.latest, transferId, key, reply.issue,
                  c'.entries, c'.tickets)
    case RedeemOp(owner, transferId, key) =>
      && reply.RedeemReply? && c'.order == live.order
      && Redeemed(digest, live.entries, live.tickets, owner, transferId, key, op.later, op.latest, reply.redemption,
                  c'.entries, c'.tickets)
  }

  ghost predicate InsertServed(digest: Bytes -> Bytes, live: Contents, owner: Bytes, bytes: Bytes, mediaType: string,
                               time: nat, reference: Option<BlobRef>, c': Contents)
  {
    exists released, settled, settledQueue ::
      Inserted(digest, live.entries, live.order, live.tickets, owner, bytes, mediaType, time, released, settled,
               settledQueue, reference, c'.entries, c'.order)
  }

  /** `states` are the contents of a new store before, between and after the operations that gave these replies. */
  ghost predicate Follows(digest: Bytes -> Bytes, ops: seq<TimedOp>, replies: seq<Reply>, states: seq<Contents>)
  {
    && |replies| <= |ops| && |states| == |replies| + 1 && states[0] == EMPTY
    && forall j: nat :: j < |replies| ==> ServedAt(digest, ops, replies, states, j)
  }

  ghost predicate ServedAt(digest: Bytes -> Bytes, ops: seq<TimedOp>, replies: seq<Reply>, states: seq<Contents>,
                           j: nat)
  {
    && j < |ops| && j < |replies| && j + 1 < |states|
    && Serves(digest, ops[j], states[j], replies[j], states[j + 1])
  }

  lemma FollowsOneMore(digest: Bytes -> Bytes, ops: seq<TimedOp>, replies: seq<Reply>, states: seq<Contents>,
                       reply: Reply, c: Contents)
    requires Follows(digest, ops, replies, states) && |replies| < |ops|
    requires Serves(digest, ops[|replies|], states[|replies|], reply, c)
    ensures Follows(digest, ops, replies + [reply], states + [c])
  {
    hide Serves;
    forall j: nat | j < |replies| + 1 ensures ServedAt(digest, ops, replies + [reply], states + [c], j) {
      if j < |replies| {
        assert ServedAt(digest, ops, replies, states, j);
      }
    }
  }

  lemma InsertedOnce(digest: Bytes -> Bytes, live: Contents, owner: Bytes, bytes: Bytes, mediaType: string, time: nat,
                     a: Option<BlobRef>, c: Contents, b: Option<BlobRef>, d: Contents)
    requires InsertServed(digest, live, owner, bytes, mediaType, time, a, c)
    requires InsertServed(digest, live, owner, bytes, mediaType, time, b, d)
    ensures a == b && c.entries == d.entries && c.order == d.order
  {
    var released, settled, queue :|
      Inserted(digest, live.entries, live.order, live.tickets, owner, bytes, mediaType, time, released, settled, queue,
               a, c.entries, c.order);
    var released', settled', queue' :|
      Inserted(digest, live.entries, live.order, live.tickets, owner, bytes, mediaType, time, released', settled',
               queue', b, d.entries, d.order);
    hide Inserted, Reclaimed;
    SettledBy(digest, live, owner, bytes, mediaType, time, released, settled, queue, a, c);
    SettledBy(digest, live, owner, bytes, mediaType, time, released', settled', queue', b, d);
    if !(digest(bytes) in live.entries && owner in live.entries[digest(bytes)].owners) {
      ReclaimedOnce(live.entries, live.order, live.tickets, owner, |bytes|, 1, released, settled, queue, released',
                    settled', queue');
    }
    SettledDecides(digest, live, owner, bytes, mediaType, time, released, settled, queue, a, c, b, d);
  }

  lemma SettledBy(digest: Bytes -> Bytes, live: Contents, owner: Bytes, bytes: Bytes, mediaType: string, time: nat,
                  released: seq<Bytes>, settled: Entries, queue: seq<Bytes>, a: Option<BlobRef>, c: Contents)
    requires Inserted(digest, live.entries, live.order, live.tickets, owner, bytes, mediaType, time, released, settled,
                      queue, a, c.entries, c.order)
    ensures if digest(bytes) in live.entries && owner in live.entries[digest(bytes)].owners
            then released == [] && settled == live.entries && queue == live.order
            else Reclaimed(live.entries, live.order, live.tickets, owner, |bytes|, 1, released, settled, queue)
  {
    hide Reclaimed, RoomFor, Sum, Sizes;
  }

  lemma SettledDecides(digest: Bytes -> Bytes, live: Contents, owner: Bytes, bytes: Bytes, mediaType: string, time: nat,
                       released: seq<Bytes>, settled: Entries, queue: seq<Bytes>, a: Option<BlobRef>, c: Contents,
                       b: Option<BlobRef>, d: Contents)
    requires Inserted(digest, live.entries, live.order, live.tickets, owner, bytes, mediaType, time, released, settled,
                      queue, a, c.entries, c.order)
    requires Inserted(digest, live.entries, live.order, live.tickets, owner, bytes, mediaType, time, released, settled,
                      queue, b, d.entries, d.order)
    ensures a == b && c.entries == d.entries && c.order == d.order
  {
    hide Reclaimed, RoomFor, Sum, Sizes;
  }

  lemma ServedOnce(digest: Bytes -> Bytes, op: TimedOp, c: Contents, a: Reply, d: Contents, b: Reply, e: Contents)
    requires Serves(digest, op, c, a, d) && Serves(digest, op, c, b, e)
    ensures a == b && d == e
  {
    hide Acceptable, Fresh, LiveAt, InsertServed;
    if op.op.InsertOp? && Acceptable(op.op.owner, op.op.bytes, op.op.mediaType) {
      InsertedOnce(digest, LiveAt(c, op.now), op.op.owner, op.op.bytes, op.op.mediaType, op.later, a.reference, d,
                   b.reference, e);
    }
  }

  /** The operations determine every reply: what follows them is what the store answers. */
  lemma {:induction false} RepliesOnce(digest: Bytes -> Bytes, ops: seq<TimedOp>, replies: seq<Reply>,
                                       states: seq<Contents>, replies': seq<Reply>, states': seq<Contents>, n: nat)
    requires Follows(digest, ops, replies, states) && Follows(digest, ops, replies', states')
    requires n <= |replies| && n <= |replies'|
    ensures replies[..n] == replies'[..n] && states[n] == states'[n]
  {
    hide Serves;
    if n > 0 {
      RepliesOnce(digest, ops, replies, states, replies', states', n - 1);
      assert ServedAt(digest, ops, replies, states, n - 1) && ServedAt(digest, ops, replies', states', n - 1);
      ServedOnce(digest, ops[n - 1], states[n - 1], replies[n - 1], states[n], replies'[n - 1], states'[n]);
      assert replies[..n] == replies[..n - 1] + [replies[n - 1]];
      assert replies'[..n] == replies'[..n - 1] + [replies'[n - 1]];
    }
  }

  // ---------- What the store's state says about the run so far ----------

  /** Every grant that is neither spent nor expired is outstanding. */
  ghost predicate Outstanding(ops: seq<TimedOp>, replies: seq<Reply>, tickets: Tickets, clock: nat)
  {
    forall i: nat, key, ticket :: UnspentSince(ops, replies, i, |replies|, key, ticket) && clock < ticket.expiresAt ==>
      key in tickets && tickets[key] == ticket
  }

  /** What one more reply leaves unspent was so before, or has just been granted. */
  lemma UnspentBefore(ops: seq<TimedOp>, replies: seq<Reply>, reply: Reply, i: nat, key: Bytes, ticket: TicketEntry)
    requires UnspentSince(ops, replies + [reply], i, |replies| + 1, key, ticket)
    ensures if i == |replies| then GrantedAt(ops, replies + [reply], i, key, ticket)
            else UnspentSince(ops, replies, i, |replies|, key, ticket)
                 && !DeliveredAt(ops, replies + [reply], |replies|, key)
  {
    var more := replies + [reply];
    if i < |replies| {
      assert GrantedAt(ops, replies, i, key, ticket);
      forall k | i < k < |replies| ensures !DeliveredAt(ops, replies, k, key) {
        assert !DeliveredAt(ops, more, k, key);
      }
    }
  }

  /** Tickets leave only by expiring, by being spent, and come only by being granted. */
  lemma OutstandingExtends(ops: seq<TimedOp>, replies: seq<Reply>, reply: Reply, before: Tickets, tickets: Tickets,
                           clock: nat, clock': nat)
    requires Outstanding(ops, replies, before, clock) && clock <= clock'
    requires forall key :: (key in before && clock' < before[key].expiresAt
                            && !DeliveredAt(ops, replies + [reply], |replies|, key)) ==>
               key in tickets && tickets[key] == before[key]
    requires forall key, ticket :: GrantedAt(ops, replies + [reply], |replies|, key, ticket) ==>
               key in tickets && tickets[key] == ticket
    ensures Outstanding(ops, replies + [reply], tickets, clock')
  {
    hide GrantedAt, DeliveredAt;
    var more := replies + [reply];
    forall i: nat, key, ticket | UnspentSince(ops, more, i, |more|, key, ticket) && clock' < ticket.expiresAt
      ensures key in tickets && tickets[key] == ticket
    {
      UnspentBefore(ops, replies, reply, i, key, ticket);
    }
  }

  lemma OpenGrantExtends(ops: seq<TimedOp>, replies: seq<Reply>, reply: Reply, j: nat)
    requires j <= |replies|
    ensures HasOpenGrant(ops, replies + [reply], j) <==> HasOpenGrant(ops, replies, j)
  {
    var more := replies + [reply];
    forall i: nat, ticket ensures OpenGrant(ops, more, j, i, ticket) <==> OpenGrant(ops, replies, j, i, ticket) {
      if j < |ops| && ops[j].op.RedeemOp? && i < j {
        SameUnspent(ops, replies, reply, i, j, ops[j].op.key, ticket);
      }
    }
  }

  lemma SameUnspent(ops: seq<TimedOp>, replies: seq<Reply>, reply: Reply, i: nat, j: nat, key: Bytes,
                    ticket: TicketEntry)
    requires i < j <= |replies|
    ensures UnspentSince(ops, replies + [reply], i, j, key, ticket) <==> UnspentSince(ops, replies, i, j, key, ticket)
  {
    var more := replies + [reply];
    forall k: nat | k < j ensures DeliveredAt(ops, more, k, key) <==> DeliveredAt(ops, replies, k, key) {
    }
  }

  ghost predicate WasInserted(digest: Bytes -> Bytes, ops: seq<TimedOp>, replies: seq<Reply>, n: nat, owner: Bytes,
                              bytes: Bytes)
  {
    exists k: nat :: k < n && InsertedAt(digest, ops, replies, k, owner, bytes)
  }

  /** Whoever owns a stored blob has inserted it. */
  ghost predicate OwnersInserted(digest: Bytes -> Bytes, ops: seq<TimedOp>, replies: seq<Reply>, entries: Entries)
  {
    forall id, owner :: id in entries && owner in entries[id].owners ==>
      WasInserted(digest, ops, replies, |replies|, owner, entries[id].bytes)
  }

  /** An outstanding ticket was granted, is unspent, and its owner had inserted the blob by then. */
  ghost predicate BackedAt(digest: Bytes -> Bytes, ops: seq<TimedOp>, replies: seq<Reply>, i: nat, key: Bytes,
                           ticket: TicketEntry)
  {
    && UnspentSince(ops, replies, i, |replies|, key, ticket)
    && exists bytes :: digest(bytes) == ticket.blobId && WasInserted(digest, ops, replies, i, ticket.owner, bytes)
  }

  ghost predicate Backed(digest: Bytes -> Bytes, ops: seq<TimedOp>, replies: seq<Reply>, key: Bytes,
                         ticket: TicketEntry)
  {
    exists i: nat :: BackedAt(digest, ops, replies, i, key, ticket)
  }

  ghost predicate TicketsBacked(digest: Bytes -> Bytes, ops: seq<TimedOp>, replies: seq<Reply>, tickets: Tickets)
  {
    forall key :: key in tickets ==> Backed(digest, ops, replies, key, tickets[key])
  }

  /** No blob and no owner that was not there before. */
  ghost predicate NothingNew(entries: Entries, before: Entries)
  {
    forall id :: id in entries ==>
      id in before && entries[id].bytes == before[id].bytes && entries[id].owners <= before[id].owners
  }

  lemma InsertedExtends(digest: Bytes -> Bytes, ops: seq<TimedOp>, replies: seq<Reply>, reply: Reply, n: nat,
                        owner: Bytes, bytes: Bytes)
    requires WasInserted(digest, ops, replies, n, owner, bytes) && n <= |replies|
    ensures WasInserted(digest, ops, replies + [reply], n, owner, bytes)
  {
    var k: nat :| k < n && InsertedAt(digest, ops, replies, k, owner, bytes);
    assert InsertedAt(digest, ops, replies + [reply], k, owner, bytes);
  }

  lemma InsertedLater(digest: Bytes -> Bytes, ops: seq<TimedOp>, replies: seq<Reply>, n: nat, m: nat, owner: Bytes,
                      bytes: Bytes)
    requires WasInserted(digest, ops, replies, n, owner, bytes) && n <= m
    ensures WasInserted(digest, ops, replies, m, owner, bytes)
  {
    var k: nat :| k < n && InsertedAt(digest, ops, replies, k, owner, bytes);
    assert k < m;
  }

  lemma OwnersExtend(digest: Bytes -> Bytes, ops: seq<TimedOp>, replies: seq<Reply>, reply: Reply, entries: Entries,
                     before: Entries)
    requires OwnersInserted(digest, ops, replies, before) && NothingNew(entries, before)
    ensures OwnersInserted(digest, ops, replies + [reply], entries)
  {
    forall id, owner | id in entries && owner in entries[id].owners
      ensures WasInserted(digest, ops, replies + [reply], |replies| + 1, owner, entries[id].bytes)
    {
      assert id in before && owner in before[id].owners;
      InsertedExtends(digest, ops, replies, reply, |replies|, owner, before[id].bytes);
      InsertedLater(digest, ops, replies + [reply], |replies|, |replies| + 1, owner, before[id].bytes);
    }
  }

  lemma BackedExtends(digest: Bytes -> Bytes, ops: seq<TimedOp>, replies: seq<Reply>, reply: Reply, key: Bytes,
                      ticket: TicketEntry)
    requires Backed(digest, ops, replies, key, ticket)
    requires !DeliveredAt(ops, replies + [reply], |replies|, key)
    ensures Backed(digest, ops, replies + [reply], key, ticket)
  {
    var i: nat :| BackedAt(digest, ops, replies, i, key, ticket);
    var more := replies + [reply];
    assert GrantedAt(ops, more, i, key, ticket);
    forall k | i < k < |more| ensures !DeliveredAt(ops, more, k, key) {
      if k < |replies| {
        assert !DeliveredAt(ops, replies, k, key);
      }
    }
    var bytes :| digest(bytes) == ticket.blobId && WasInserted(digest, ops, replies, i, ticket.owner, bytes);
    InsertedExtends(digest, ops, replies, reply, i, ticket.owner, bytes);
    assert BackedAt(digest, ops, more, i, key, ticket);
  }

  lemma TicketsExtend(digest: Bytes -> Bytes, ops: seq<TimedOp>, replies: seq<Reply>, reply: Reply, tickets: Tickets,
                      before: Tickets)
    requires TicketsBacked(digest, ops, replies, before)
    requires forall key :: key in tickets ==> key in before && tickets[key] == before[key]
    requires forall key :: key in tickets ==> !DeliveredAt(ops, replies + [reply], |replies|, key)
    ensures TicketsBacked(digest, ops, replies + [reply], tickets)
  {
    forall key | key in tickets ensures Backed(digest, ops, replies + [reply], key, tickets[key]) {
      BackedExtends(digest, ops, replies, reply, key, before[key]);
    }
  }

  lemma ExpiryAddsNothing(entries: Entries, order: seq<Bytes>, tickets: Tickets, now: nat, live: Entries,
                          queue: seq<Bytes>, liveTickets: Tickets)
    requires Expired(entries, order, tickets, now, live, queue, liveTickets)
    ensures NothingNew(live, entries)
    ensures forall key :: key in liveTickets ==> key in tickets && liveTickets[key] == tickets[key]
  {
  }

  // ---------- Operations ----------

  /** An insert adds at most the inserting device to the blob it inserted. */
  lemma InsertAddsOwner(digest: Bytes -> Bytes, before: Entries, live: Entries, queue: seq<Bytes>, tickets: Tickets,
                        owner: Bytes, bytes: Bytes, mediaType: string, time: nat, released: seq<Bytes>,
                        settled: Entries, settledQueue: seq<Bytes>, result: Option<BlobRef>, entries: Entries,
                        order: seq<Bytes>)
    requires NothingNew(live, before) && SoundEntries(digest, entries)
    requires digest(bytes) in before ==> before[digest(bytes)].bytes == bytes
    requires Inserted(digest, live, queue, tickets, owner, bytes, mediaType, time, released, settled, settledQueue,
                      result, entries, order)
    ensures NothingNew(settled, before)
    ensures result.None? ==> entries == settled
    ensures result.Some? ==>
              && digest(bytes) in entries && entries[digest(bytes)].bytes == bytes
                 && result.value.blobId == digest(bytes)
              && forall id, o :: id in entries && o in entries[id].owners ==>
                   (id == digest(bytes) && o == owner)
                   || (id in settled && o in settled[id].owners && settled[id].bytes == entries[id].bytes)
  {
    hide RoomFor, Filter;
    if result.Some? {
      assert SoundEntry(digest, digest(bytes), entries[digest(bytes)]);
    }
  }

  lemma InsertAccounted(digest: Bytes -> Bytes, ops: seq<TimedOp>, replies: seq<Reply>, before: Entries,
                        settled: Entries, entries: Entries, result: Option<BlobRef>)
    requires |replies| < |ops| && ops[|replies|].op.InsertOp?
    requires OwnersInserted(digest, ops, replies, before) && NothingNew(settled, before)
    requires result.None? ==> entries == settled
    requires var op := ops[|replies|].op;
             result.Some? ==>
               && digest(op.bytes) in entries && entries[digest(op.bytes)].bytes == op.bytes
                  && result.value.blobId == digest(op.bytes)
               && forall id, o :: id in entries && o in entries[id].owners ==>
                    (id == digest(op.bytes) && o == op.owner)
                    || (id in settled && o in settled[id].owners && settled[id].bytes == entries[id].bytes)
    ensures OwnersInserted(digest, ops, replies + [InsertReply(result)], entries)
  {
    hide WasInserted, NothingNew;
    var op := ops[|replies|].op;
    var more := replies + [InsertReply(result)];
    OwnersExtend(digest, ops, replies, InsertReply(result), settled, before);
    if result.Some? {
      InsertedNow(digest, ops, more, op.owner, op.bytes);
      forall id, o | id in entries && o in entries[id].owners
        ensures WasInserted(digest, ops, more, |more|, o, entries[id].bytes)
      {
      }
    }
  }

  lemma InsertedNow(digest: Bytes -> Bytes, ops: seq<TimedOp>, replies: seq<Reply>, owner: Bytes, bytes: Bytes)
    requires replies != [] && InsertedAt(digest, ops, replies, |replies| - 1, owner, bytes)
    ensures WasInserted(digest, ops, replies, |replies|, owner, bytes)
  {
  }

  lemma IssueAccounted(digest: Bytes -> Bytes, ops: seq<TimedOp>, replies: seq<Reply>, before: Entries, live: Entries,
                       beforeTickets: Tickets, liveTickets: Tickets, result: Issue, entries: Entries, tickets: Tickets)
    requires |replies| < |ops| && ops[|replies|].op.IssueOp?
    requires OwnersInserted(digest, ops, replies, before) && TicketsBacked(digest, ops, replies, beforeTickets)
    requires NothingNew(live, before) && SoundEntries(digest, live)
    requires forall key :: key in liveTickets ==> key in beforeTickets && liveTickets[key] == beforeTickets[key]
    requires var op := ops[|replies|];
             Issued(live, liveTickets, op.op.owner, op.op.blobId, op.later, op.latest, op.op.transferId, op.op.key,
                    result, entries, tickets)
    ensures OwnersInserted(digest, ops, replies + [IssueReply(result)], entries)
    ensures TicketsBacked(digest, ops, replies + [IssueReply(result)], tickets)
  {
    hide Backed, WasInserted;
    var op := ops[|replies|];
    var reply := IssueReply(result);
    var more := replies + [reply];
    OwnersExtend(digest, ops, replies, reply, entries, before);
    TicketsExtend(digest, ops, replies, reply, liveTickets, beforeTickets);
    if result.Granted? {
      var ticket := tickets[op.op.key];
      assert SoundEntry(digest, op.op.blobId, live[op.op.blobId]);
      assert op.op.owner in before[op.op.blobId].owners;
      InsertedExtends(digest, ops, replies, reply, |replies|, op.op.owner, before[op.op.blobId].bytes);
      GrantedNow(digest, ops, more, op.op.key, ticket, before[op.op.blobId].bytes);
    }
  }

  lemma GrantedNow(digest: Bytes -> Bytes, ops: seq<TimedOp>, replies: seq<Reply>, key: Bytes, ticket: TicketEntry,
                   bytes: Bytes)
    requires replies != [] && GrantedAt(ops, replies, |replies| - 1, key, ticket)
    requires digest(bytes) == ticket.blobId && WasInserted(digest, ops, replies, |replies| - 1, ticket.owner, bytes)
    ensures Backed(digest, ops, replies, key, ticket)
  {
    assert BackedAt(digest, ops, replies, |replies| - 1, key, ticket);
  }

  lemma RedeemAccounted(digest: Bytes -> Bytes, ops: seq<TimedOp>, replies: seq<Reply>, before: Entries, live: Entries,
                        beforeTickets: Tickets, liveTickets: Tickets, result: Redemption, entries: Entries,
                        tickets: Tickets)
    requires |replies| < |ops| && ops[|replies|].op.RedeemOp? && CollisionFree(digest, ops)
    requires OwnersInserted(digest, ops, replies, before) && TicketsBacked(digest, ops, replies, beforeTickets)
    requires NothingNew(live, before) && TicketsHonoured(live, liveTickets)
    requires forall key :: key in liveTickets ==> key in beforeTickets && liveTickets[key] == beforeTickets[key]
    requires var op := ops[|replies|];
             Redeemed(digest, live, liveTickets, op.op.owner, op.op.transferId, op.op.key, op.later, op.latest, result,
                      entries, tickets)
    ensures OwnersInserted(digest, ops, replies + [RedeemReply(result)], entries)
    ensures TicketsBacked(digest, ops, replies + [RedeemReply(result)], tickets)
    ensures result.Delivered? ==> AnswersGrant(digest, ops, replies + [RedeemReply(result)], |replies|)
  {
    hide Backed, WasInserted, AnswersGrant;
    var op := ops[|replies|];
    var reply := RedeemReply(result);
    OwnersExtend(digest, ops, replies, reply, entries, before);
    TicketsExtend(digest, ops, replies, reply, tickets, beforeTickets);
    if result.Delivered? {
      var ticket := liveTickets[op.op.key];
      assert ticket.owner in before[ticket.blobId].owners && before[ticket.blobId].bytes == result.bytes;
      DeliveryAnswers(digest, ops, replies, result, ticket);
    }
  }

  lemma DeliveryAnswers(digest: Bytes -> Bytes, ops: seq<TimedOp>, replies: seq<Reply>, result: Redemption,
                        ticket: TicketEntry)
    requires |replies| < |ops| && ops[|replies|].op.RedeemOp? && CollisionFree(digest, ops) && result.Delivered?
    requires var op := ops[|replies|];
             && Backed(digest, ops, replies, op.op.key, ticket) && op.later < ticket.expiresAt
             && ticket.owner == op.op.owner && ticket.transferId == op.op.transferId
    requires digest(result.bytes) == ticket.blobId && result.reference.blobId == ticket.blobId
    requires WasInserted(digest, ops, replies, |replies|, ticket.owner, result.bytes)
    ensures AnswersGrant(digest, ops, replies + [RedeemReply(result)], |replies|)
  {
    var key := ops[|replies|].op.key;
    var more := replies + [RedeemReply(result)];
    var i: nat :| BackedAt(digest, ops, replies, i, key, ticket);
    assert GrantedAt(ops, more, i, key, ticket);
    forall k | i < k < |replies| ensures !DeliveredAt(ops, more, k, key) {
      assert !DeliveredAt(ops, replies, k, key);
    }
    var bytes :| digest(bytes) == ticket.blobId && WasInserted(digest, ops, replies, i, ticket.owner, bytes);
    var k: nat :| k < i && InsertedAt(digest, ops, replies, k, ticket.owner, bytes);
    var other: nat :| other < |replies| && InsertedAt(digest, ops, replies, other, ticket.owner, result.bytes);
    assert bytes == result.bytes;
    assert InsertedAt(digest, ops, more, k, ticket.owner, result.bytes);
    assert AnswersGrantAt(digest, ops, more, |replies|, i, ticket);
  }

  lemma AnswersExtend(digest: Bytes -> Bytes, ops: seq<TimedOp>, replies: seq<Reply>, reply: Reply, j: nat)
    requires j < |replies| < |ops| && ops[j].op.RedeemOp? && replies[j].RedeemReply? && replies[j].redemption.Delivered?
    requires AnswersGrant(digest, ops, replies, j)
    ensures AnswersGrant(digest, ops, replies + [reply], j)
  {
    var more := replies + [reply];
    var i: nat, ticket :| AnswersGrantAt(digest, ops, replies, j, i, ticket);
    assert GrantedAt(ops, more, i, ops[j].op.key, ticket);
    forall k | i < k < j ensures !DeliveredAt(ops, more, k, ops[j].op.key) {
      assert !DeliveredAt(ops, replies, k, ops[j].op.key);
    }
    var k: nat :| k < i && InsertedAt(digest, ops, replies, k, ticket.owner, replies[j].redemption.bytes);
    assert InsertedAt(digest, ops, more, k, ticket.owner, replies[j].redemption.bytes);
    assert AnswersGrantAt(digest, ops, more, j, i, ticket);
  }

  ghost predicate AllAnswered(digest: Bytes -> Bytes, ops: seq<TimedOp>, replies: seq<Reply>)
    requires |replies| <= |ops|
  {
    forall j :: 0 <= j < |replies| && ops[j].op.RedeemOp? ==>
      && replies[j].RedeemReply? && (replies[j].redemption.Delivered? <==> HasOpenGrant(ops, replies, j))
      && (replies[j].redemption.Delivered? ==> AnswersGrant(digest, ops, replies, j))
  }

  lemma AllAnsweredExtends(digest: Bytes -> Bytes, ops: seq<TimedOp>, replies: seq<Reply>, reply: Reply)
    requires |replies| < |ops| && AllAnswered(digest, ops, replies)
    requires ops[|replies|].op.RedeemOp? ==>
               && reply.RedeemReply? && (reply.redemption.Delivered? <==> HasOpenGrant(ops, replies, |replies|))
               && (reply.redemption.Delivered? ==> AnswersGrant(digest, ops, replies + [reply], |replies|))
    ensures AllAnswered(digest, ops, replies + [reply])
  {
    hide AnswersGrant, HasOpenGrant;
    var more := replies + [reply];
    forall j: nat | j < |more| && ops[j].op.RedeemOp?
      ensures more[j].RedeemReply? && (more[j].redemption.Delivered? <==> HasOpenGrant(ops, more, j))
              && (more[j].redemption.Delivered? ==> AnswersGrant(digest, ops, more, j))
    {
      OpenGrantExtends(ops, replies, reply, j);
      if j < |replies| && replies[j].redemption.Delivered? {
        AnswersExtend(digest, ops, replies, reply, j);
      }
    }
  }

  /** A redemption delivers exactly when the run so far has an open grant for it. */
  lemma DeliveredIffOpen(digest: Bytes -> Bytes, ops: seq<TimedOp>, replies: seq<Reply>, before: Tickets, clock: nat,
                         live: Entries, result: Redemption, entries: Entries, tickets: Tickets)
    requires |replies| < |ops| && ops[|replies|].op.RedeemOp? && Outstanding(ops, replies, before, clock)
    requires var op := ops[|replies|];
             && clock <= op.now <= op.later
             && Redeemed(digest, live, LiveTickets(before, op.now), op.op.owner, op.op.transferId, op.op.key, op.later,
                         op.latest, result, entries, tickets)
    requires result.Delivered? ==> AnswersGrant(digest, ops, replies + [RedeemReply(result)], |replies|)
    ensures result.Delivered? <==> HasOpenGrant(ops, replies, |replies|)
  {
    var op, n := ops[|replies|], |replies|;
    var more := replies + [RedeemReply(result)];
    if result.Delivered? {
      var i: nat, ticket :| AnswersGrantAt(digest, ops, more, n, i, ticket);
      SameUnspent(ops, replies, RedeemReply(result), i, n, op.op.key, ticket);
      assert OpenGrant(ops, replies, n, i, ticket);
    }
    if HasOpenGrant(ops, replies, n) {
      var i: nat, ticket :| OpenGrant(ops, replies, n, i, ticket);
      assert op.op.key in before && before[op.op.key] == ticket;
    }
  }

  /** The store's state is explained by the replies so far, and every delivery among them answers a grant. */
  ghost predicate Explained(digest: Bytes -> Bytes, ops: seq<TimedOp>, replies: seq<Reply>, entries: Entries,
                            tickets: Tickets, clock: nat)
  {
    && |replies| <= |ops| && OwnersInserted(digest, ops, replies, entries)
       && TicketsBacked(digest, ops, replies, tickets)
    && AllAnswered(digest, ops, replies) && Outstanding(ops, replies, tickets, clock)
  }

  ghost function Held(store: BlobStore): Contents
    reads store
  {
    Contents(store.entries, store.insertionOrder, store.tickets)
  }

  method StepInsert(store: BlobStore, ghost digest: Bytes -> Bytes, ghost ops: seq<TimedOp>, ghost replies: seq<Reply>,
                    owner: Bytes, bytes: Bytes, mediaType: string, now: nat, later: nat, ghost latest: nat)
    returns (reply: Reply)
    requires store.Valid() && store.digest == digest && store.clock <= now <= later
    requires |replies| < |ops| && ops[|replies|] == TimedOp(InsertOp(owner, bytes, mediaType), now, later, latest)
    requires Explained(digest, ops, replies, store.entries, store.tickets, store.clock) && CollisionFree(digest, ops)
    modifies store
    ensures store.Valid() && store.clock <= later
    ensures Explained(digest, ops, replies + [reply], store.entries, store.tickets, store.clock)
    ensures Serves(digest, ops[|replies|], old(Held(store)), reply, Held(store))
  {
    hide OwnersInserted, TicketsBacked, AllAnswered, Outstanding, Inserted, SoundEntries, TicketsHonoured, Expired,
         NothingNew, CollisionFree, Serves, EntriesCounted, EntryLimits, TicketsCounted, TicketLimits, Clocked,
         DeadlineBounds, Queued, Acceptable;
    ghost var before, beforeTickets := store.entries, store.tickets;
    InsertCollidesWithNothing(digest, ops, replies, before, bytes);
    var result, live, queue, released, settled, settledQueue := store.Insert(owner, bytes, mediaType, now, later);
    reply := InsertReply(result);
    InsertAnswered(digest, ops[|replies|], old(Held(store)), live, queue, released, settled, settledQueue, result,
                   Held(store));
    if Acceptable(owner, bytes, mediaType) {
      ExpiryAddsNothing(before, old(store.insertionOrder), beforeTickets, now, live, queue, store.tickets);
      ExpiredIs(before, old(store.insertionOrder), beforeTickets, now, live, queue, store.tickets);
      InsertAddsOwner(digest, before, live, queue, store.tickets, owner, bytes, mediaType, later, released, settled,
                      settledQueue, result, store.entries, store.insertionOrder);
    } else {
      settled := before;
      NothingNewAtAll(before);
    }
    InsertAccounted(digest, ops, replies, before, settled, store.entries, result);
    TicketsExtend(digest, ops, replies, reply, store.tickets, beforeTickets);
    AllAnsweredExtends(digest, ops, replies, reply);
    LiveTicketsStay(beforeTickets, now);
    OutstandingExtends(ops, replies, reply, beforeTickets, store.tickets, old(store.clock), store.clock);
  }

  method StepIssue(store: BlobStore, ghost digest: Bytes -> Bytes, ghost ops: seq<TimedOp>, ghost replies: seq<Reply>,
                   owner: Bytes, blobId: Bytes, transferId: nat, key: Bytes, now: nat, later: nat, latest: nat)
    returns (reply: Reply)
    requires store.Valid() && store.digest == digest && store.clock <= now <= later <= latest
    requires |replies| < |ops| && ops[|replies|] == TimedOp(IssueOp(owner, blobId, transferId, key), now, later, latest)
    requires Explained(digest, ops, replies, store.entries, store.tickets, store.clock)
    modifies store
    ensures store.Valid() && store.clock <= latest
    ensures Explained(digest, ops, replies + [reply], store.entries, store.tickets, store.clock)
    ensures Serves(digest, ops[|replies|], old(Held(store)), reply, Held(store))
  {
    hide OwnersInserted, TicketsBacked, AllAnswered, Outstanding, Issued, SoundEntries, TicketsHonoured, Expired,
         NothingNew, Serves, EntriesCounted, EntryLimits, TicketsCounted, TicketLimits, Clocked, DeadlineBounds, Queued,
         Fresh, LiveTickets;
    ghost var before, beforeTickets := store.entries, store.tickets;
    if !Fresh(LiveTickets(store.tickets, now), transferId, key) {
      // The random choice is taken; the sampling loop draws again.
      reply := Resample;
      NotFreshAnswered(digest, ops[|replies|], Held(store));
      NothingNewAtAll(before);
      OwnersExtend(digest, ops, replies, reply, before, before);
      TicketsExtend(digest, ops, replies, reply, beforeTickets, beforeTickets);
      AllAnsweredExtends(digest, ops, replies, reply);
      OutstandingExtends(ops, replies, reply, beforeTickets, beforeTickets, store.clock, store.clock);
      return;
    }
    ExpiryIsSound(store.digest, store.entries, store.tickets, now);
    var result, live, liveTickets := store.IssueTicket(owner, blobId, now, later, latest, transferId, key);
    reply := IssueReply(result);
    IssueAnswered(digest, ops[|replies|], old(Held(store)), live, liveTickets, result, Held(store));
    ExpiryAddsNothing(before, old(store.insertionOrder), beforeTickets, now, live, store.insertionOrder, liveTickets);
    ExpiredIs(before, old(store.insertionOrder), beforeTickets, now, live, store.insertionOrder, liveTickets);
    IssueAccounted(digest, ops, replies, before, live, beforeTickets, liveTickets, result, store.entries,
                   store.tickets);
    AllAnsweredExtends(digest, ops, replies, reply);
    LiveTicketsStay(beforeTickets, now);
    IssuedTickets(ops, replies, live, liveTickets, result, store.entries, store.tickets);
    OutstandingExtends(ops, replies, reply, beforeTickets, store.tickets, old(store.clock), store.clock);
  }

  method StepRedeem(store: BlobStore, ghost digest: Bytes -> Bytes, ghost ops: seq<TimedOp>, ghost replies: seq<Reply>,
                    owner: Bytes, transferId: nat, key: Bytes, now: nat, later: nat, latest: nat)
    returns (reply: Reply)
    requires store.Valid() && store.digest == digest && store.clock <= now <= later <= latest
    requires |replies| < |ops| && ops[|replies|] == TimedOp(RedeemOp(owner, transferId, key), now, later, latest)
    requires Explained(digest, ops, replies, store.entries, store.tickets, store.clock) && CollisionFree(digest, ops)
    modifies store
    ensures store.Valid() && store.clock <= latest
    ensures Explained(digest, ops, replies + [reply], store.entries, store.tickets, store.clock)
    ensures Serves(digest, ops[|replies|], old(Held(store)), reply, Held(store))
  {
    hide OwnersInserted, TicketsBacked, AllAnswered, Outstanding, Redeemed, SoundEntries, TicketsHonoured, Expired,
         NothingNew, CollisionFree, Serves, EntriesCounted, EntryLimits, TicketsCounted, TicketLimits, Clocked,
         DeadlineBounds, Queued;
    ghost var before, beforeTickets := store.entries, store.tickets;
    ExpiryIsSound(store.digest, store.entries, store.tickets, now);
    var result, live, liveTickets := store.Redeem(owner, transferId, key, now, later, latest);
    reply := RedeemReply(result);
    RedeemAnswered(digest, ops[|replies|], old(Held(store)), live, liveTickets, result, Held(store));
    ExpiryAddsNothing(before, old(store.insertionOrder), beforeTickets, now, live, store.insertionOrder, liveTickets);
    ExpiredIs(before, old(store.insertionOrder), beforeTickets, now, live, store.insertionOrder, liveTickets);
    RedeemAccounted(digest, ops, replies, before, live, beforeTickets, liveTickets, result, store.entries,
                    store.tickets);
    DeliveredIffOpen(digest, ops, replies, beforeTickets, old(store.clock), live, result, store.entries, store.tickets);
    AllAnsweredExtends(digest, ops, replies, reply);
    LiveTicketsStay(beforeTickets, now);
    RedeemedTickets(digest, ops, replies, live, liveTickets, result, store.entries, store.tickets);
    OutstandingExtends(ops, replies, reply, beforeTickets, store.tickets, old(store.clock), store.clock);
  }

  lemma InsertAnswered(digest: Bytes -> Bytes, op: TimedOp, c: Contents, live: Entries, queue: seq<Bytes>,
                       released: seq<Bytes>, settled: Entries, settledQueue: seq<Bytes>, result: Option<BlobRef>,
                       c': Contents)
    requires op.op.InsertOp?
    requires if !Acceptable(op.op.owner, op.op.bytes, op.op.mediaType) then result == None && c' == c
             else
               && Expired(c.entries, c.order, c.tickets, op.now, live, queue, c'.tickets)
               && Inserted(digest, live, queue, c'.tickets, op.op.owner, op.op.bytes, op.op.mediaType, op.later,
                           released,
                           settled, settledQueue, result, c'.entries, c'.order)
    ensures Serves(digest, op, c, InsertReply(result), c')
  {
    hide Inserted, Acceptable, LiveEntries, LiveTickets, Filter;
  }

  lemma NotFreshAnswered(digest: Bytes -> Bytes, op: TimedOp, c: Contents)
    requires op.op.IssueOp? && !Fresh(LiveTickets(c.tickets, op.now), op.op.transferId, op.op.key)
    ensures Serves(digest, op, c, Resample, c)
  {
  }

  lemma IssueAnswered(digest: Bytes -> Bytes, op: TimedOp, c: Contents, live: Entries, liveTickets: Tickets,
                      result: Issue, c': Contents)
    requires op.op.IssueOp? && Fresh(LiveTickets(c.tickets, op.now), op.op.transferId, op.op.key)
    requires Expired(c.entries, c.order, c.tickets, op.now, live, c'.order, liveTickets)
    requires Issued(live, liveTickets, op.op.owner, op.op.blobId, op.later, op.latest, op.op.transferId, op.op.key,
                    result, c'.entries, c'.tickets)
    ensures Serves(digest, op, c, IssueReply(result), c')
  {
    hide Issued, Fresh, LiveEntries, LiveTickets, Filter;
  }

  lemma RedeemAnswered(digest: Bytes -> Bytes, op: TimedOp, c: Contents, live: Entries, liveTickets: Tickets,
                       result: Redemption, c': Contents)
    requires op.op.RedeemOp?
    requires Expired(c.entries, c.order, c.tickets, op.now, live, c'.order, liveTickets)
    requires Redeemed(digest, live, liveTickets, op.op.owner, op.op.transferId, op.op.key, op.later, op.latest, result,
                      c'.entries, c'.tickets)
    ensures Serves(digest, op, c, RedeemReply(result), c')
  {
    hide Redeemed, LiveEntries, LiveTickets, Filter;
  }

  lemma LiveTicketsStay(tickets: Tickets, now: nat)
    ensures forall key :: key in tickets && now < tickets[key].expiresAt ==>
              key in LiveTickets(tickets, now) && LiveTickets(tickets, now)[key] == tickets[key]
  {
  }

  lemma IssuedTickets(ops: seq<TimedOp>, replies: seq<Reply>, live: Entries, liveTickets: Tickets, result: Issue,
                      entries: Entries, tickets: Tickets)
    requires |replies| < |ops| && ops[|replies|].op.IssueOp?
    requires var op := ops[|replies|];
             && Fresh(liveTickets, op.op.transferId, op.op.key)
             && Issued(live, liveTickets, op.op.owner, op.op.blobId, op.later, op.latest, op.op.transferId, op.op.key,
                       result, entries, tickets)
    ensures forall key :: key in liveTickets ==> key in tickets && tickets[key] == liveTickets[key]
    ensures forall key, ticket :: GrantedAt(ops, replies + [IssueReply(result)], |replies|, key, ticket) ==>
              key in tickets && tickets[key] == ticket
    ensures forall key :: !DeliveredAt(ops, replies + [IssueReply(result)], |replies|, key)
  {
  }

  lemma RedeemedTickets(digest: Bytes -> Bytes, ops: seq<TimedOp>, replies: seq<Reply>, live: Entries,
                        liveTickets: Tickets, result: Redemption, entries: Entries, tickets: Tickets)
    requires |replies| < |ops| && ops[|replies|].op.RedeemOp?
    requires var op := ops[|replies|];
             Redeemed(digest, live, liveTickets, op.op.owner, op.op.transferId, op.op.key, op.later, op.latest, result,
                      entries, tickets)
    ensures forall key :: key in liveTickets && !DeliveredAt(ops, replies + [RedeemReply(result)], |replies|, key) ==>
              key in tickets && tickets[key] == liveTickets[key]
    ensures forall key, ticket :: !GrantedAt(ops, replies + [RedeemReply(result)], |replies|, key, ticket)
  {
    assert DeliveredAt(ops, replies + [RedeemReply(result)], |replies|, ops[|replies|].op.key) <==> result.Delivered?;
  }

  lemma NothingNewAtAll(entries: Entries)
    ensures NothingNew(entries, entries)
  {
  }

  lemma ExpiredIs(entries: Entries, order: seq<Bytes>, tickets: Tickets, now: nat, live: Entries, queue: seq<Bytes>,
                  liveTickets: Tickets)
    requires Expired(entries, order, tickets, now, live, queue, liveTickets)
    ensures live == LiveEntries(entries, tickets, now) && liveTickets == LiveTickets(tickets, now)
  {
  }

  lemma ExpiryIsSound(digest: Bytes -> Bytes, entries: Entries, tickets: Tickets, now: nat)
    requires SoundEntries(digest, entries) && TicketsHonoured(entries, tickets)
    ensures SoundEntries(digest, LiveEntries(entries, tickets, now))
    ensures TicketsHonoured(LiveEntries(entries, tickets, now), LiveTickets(tickets, now))
  {
    var live := LiveTickets(tickets, now);
    assert forall key :: key in live ==> Pinned(live, live[key].blobId);
  }

  /** Without collisions, a stored blob with these bytes' digest is these bytes: its owners inserted it in this run. */
  lemma InsertCollidesWithNothing(digest: Bytes -> Bytes, ops: seq<TimedOp>, replies: seq<Reply>, entries: Entries,
                                  bytes: Bytes)
    requires |replies| < |ops| && ops[|replies|].op.InsertOp? && ops[|replies|].op.bytes == bytes
    requires OwnersInserted(digest, ops, replies, entries) && CollisionFree(digest, ops)
             && SoundEntries(digest, entries)
    ensures digest(bytes) in entries ==> entries[digest(bytes)].bytes == bytes
  {
    if digest(bytes) in entries {
      var entry := entries[digest(bytes)];
      assert SoundEntry(digest, digest(bytes), entry);
      var owner :| owner in entry.owners;
      assert WasInserted(digest, ops, replies, |replies|, owner, entry.bytes);
      var k: nat :| k < |replies| && InsertedAt(digest, ops, replies, k, owner, entry.bytes);
    }
  }

  /**
   * Runs any sequence of operations on a new store: every reply is the one its operation gets from the contents at that
   * time, and a redemption delivers exactly if a grant for it is open.
   */
  method Run(digest: Bytes -> Bytes, ops: seq<TimedOp>) returns (replies: seq<Reply>, ghost states: seq<Contents>)
    requires Clockwise(ops) && CollisionFree(digest, ops)
    ensures |replies| == |ops| && Follows(digest, ops, replies, states) && AllAnswered(digest, ops, replies)
  {
    hide OwnersInserted, TicketsBacked, AllAnswered, Outstanding, CollisionFree, Serves, Follows;
    var store := new BlobStore(digest);
    replies, states := [], [EMPTY];
    NothingYet(digest, ops);
    while |replies| < |ops|
      invariant fresh(store) && store.Valid() && store.digest == digest
      invariant Explained(digest, ops, replies, store.entries, store.tickets, store.clock)
      invariant Follows(digest, ops, replies, states) && |states| == |replies| + 1 && states[|replies|] == Held(store)
      invariant |replies| < |ops| ==> store.clock <= ops[|replies|].now
      modifies store
      decreases |ops| - |replies|
    {
      var reply := StepOne(store, digest, ops, replies, ops[|replies|]);
      FollowsOneMore(digest, ops, replies, states, reply, Held(store));
      replies, states := replies + [reply], states + [Held(store)];
    }
  }

  method StepOne(store: BlobStore, ghost digest: Bytes -> Bytes, ghost ops: seq<TimedOp>, ghost replies: seq<Reply>,
                 timed: TimedOp)
    returns (reply: Reply)
    requires store.Valid() && store.digest == digest && store.clock <= timed.now <= timed.later <= timed.latest
    requires |replies| < |ops| && ops[|replies|] == timed
    requires Explained(digest, ops, replies, store.entries, store.tickets, store.clock) && CollisionFree(digest, ops)
    modifies store
    ensures store.Valid() && store.clock <= timed.latest
    ensures Explained(digest, ops, replies + [reply], store.entries, store.tickets, store.clock)
    ensures Serves(digest, timed, old(Held(store)), reply, Held(store))
  {
    hide Explained, CollisionFree, Serves;
    match timed.op {
      case InsertOp(owner, bytes, mediaType) =>
        reply := StepInsert(store, digest, ops, replies, owner, bytes, mediaType, timed.now, timed.later, timed.latest);
      case IssueOp(owner, blobId, transferId, key) =>
        reply := StepIssue(store, digest, ops, replies, owner, blobId, transferId, key, timed.now, timed.later,
                           timed.latest);
      case RedeemOp(owner, transferId, key) =>
        reply := StepRedeem(store, digest, ops, replies, owner, transferId, key, timed.now, timed.later, timed.latest);
    }
  }

  lemma NothingYet(digest: Bytes -> Bytes, ops: seq<TimedOp>)
    ensures Explained(digest, ops, [], map[], map[], 0) && Follows(digest, ops, [], [EMPTY])
  {
  }

  /** Each issuance redeems at most once: between two deliveries for the same ticket it was granted again. */
  lemma RedeemedAtMostOnce(digest: Bytes -> Bytes, ops: seq<TimedOp>, replies: seq<Reply>, first: nat, second: nat,
                           key: Bytes)
    requires |replies| == |ops| && AllAnswered(digest, ops, replies)
    requires first < second && DeliveredAt(ops, replies, first, key) && DeliveredAt(ops, replies, second, key)
    ensures exists i: nat, ticket :: first < i < second && GrantedAt(ops, replies, i, key, ticket)
  {
    assert AnswersGrant(digest, ops, replies, second);
    var i: nat, ticket :| AnswersGrantAt(digest, ops, replies, second, i, ticket);
    assert first < i;
  }

  // ---------- Streaming ----------

  datatype Chunk = Chunk(offset: nat, data: Bytes, endOfBlob: bool)

  datatype Stream = OffsetOutside | Chunks(offset: nat, chunks: seq<Chunk>)

  ghost function Concatenated(chunks: seq<Chunk>): Bytes
  {
    if chunks == [] then [] else Concatenated(chunks[..|chunks| - 1]) + chunks[|chunks| - 1].data
  }

  /** The chunks cover `bytes[offset..end]` without gap or overlap, each non-empty and within the chunk size. */
  ghost predicate Tiles(bytes: Bytes, offset: nat, end: nat, chunks: seq<Chunk>, chunkSize: nat)
  {
    && offset <= end <= |bytes| && Concatenated(chunks) == bytes[offset..end]
    && forall i :: 0 <= i < |chunks| ==>
         && chunks[i].offset == offset + |Concatenated(chunks[..i])|
         && 0 < |chunks[i].data| <= chunkSize
         && (chunks[i].endOfBlob <==> chunks[i].offset + |chunks[i].data| == |bytes|)
  }

  lemma ConcatenatedMore(chunks: seq<Chunk>, chunk: Chunk)
    ensures Concatenated(chunks + [chunk]) == Concatenated(chunks) + chunk.data
  {
    assert (chunks + [chunk])[..|chunks|] == chunks;
  }

  lemma TilesMore(bytes: Bytes, offset: nat, end: nat, chunks: seq<Chunk>, chunkSize: nat, next: nat)
    requires Tiles(bytes, offset, end, chunks, chunkSize) && end < next <= |bytes| && next - end <= chunkSize
    ensures Tiles(bytes, offset, next, chunks + [Chunk(end, bytes[end..next], next == |bytes|)], chunkSize)
  {
    hide Concatenated;
    var chunk := Chunk(end, bytes[end..next], next == |bytes|);
    var more := chunks + [chunk];
    ConcatenatedMore(chunks, chunk);
    assert bytes[offset..next] == bytes[offset..end] + bytes[end..next];
    forall i | 0 <= i < |more|
      ensures more[i].offset == offset + |Concatenated(more[..i])| && 0 < |more[i].data| <= chunkSize
      ensures more[i].endOfBlob <==> more[i].offset + |more[i].data| == |bytes|
    {
      if i < |chunks| {
        assert more[..i] == chunks[..i] && more[i] == chunks[i];
      } else {
        assert more[..i] == chunks;
      }
    }
  }

  /** The chunk loop of `handle_blob_stream`: exactly the suffix from the requested offset. */
  method StreamBlob(bytes: Bytes, offset: nat, chunkSize: nat) returns (stream: Stream)
    requires 0 < chunkSize
    ensures stream.OffsetOutside? <==> offset > |bytes|
    ensures stream.Chunks? ==>
              && stream.offset == offset && Concatenated(stream.chunks) == bytes[offset..]
              && (offset == |bytes| ==> stream.chunks == [Chunk(offset, [], true)])
              && (offset < |bytes| ==> Tiles(bytes, offset, |bytes|, stream.chunks, chunkSize))
  {
    if offset > |bytes| {
      return OffsetOutside;
    }
    if offset == |bytes| {
      stream := Chunks(offset, [Chunk(offset, [], true)]);
      assert stream.chunks[..0] == [];
      return;
    }
    var chunks := [];
    var position := offset;
    while position < |bytes|
      invariant Tiles(bytes, offset, position, chunks, chunkSize)
    {
      var end := Min(position + chunkSize, |bytes|);
      TilesMore(bytes, offset, position, chunks, chunkSize, end);
      chunks := chunks + [Chunk(position, bytes[position..end], end == |bytes|)];
      position := end;
    }
    stream := Chunks(offset, chunks);
  }
}
