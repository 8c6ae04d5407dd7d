// What a device is told when it asks for a ticket, in terms of the grants of the run so far.
module BlobGrants {
  import opened Basics
  import opened BlobAccounts
  import opened BlobStore
  import opened BlobRuns

  // ---------- Open grants ----------

  /** Operation `i` was granted a ticket. */
  ghost predicate Grants(ops: seq<TimedOp>, replies: seq<Reply>, i: nat)
  {
    i < |ops| && i < |replies| && ops[i].op.IssueOp? && replies[i].IssueReply? && replies[i].issue.Granted?
  }

  function Expiry(ops: seq<TimedOp>, i: nat): nat
    requires i < |ops|
  {
    ops[i].latest + TICKET_TTL
  }

  /** The ticket granted at `i` has not been spent before operation `n`. */
  ghost predicate Unspent(ops: seq<TimedOp>, replies: seq<Reply>, i: nat, n: nat)
  {
    i < n && Grants(ops, replies, i) && forall k :: i < k < n ==> !DeliveredAt(ops, replies, k, ops[i].op.key)
  }

  /** The grants before operation `n` that are neither spent nor expired at `now`. */
  ghost function Open(ops: seq<TimedOp>, replies: seq<Reply>, n: nat, now: nat): set<nat>
  {
    set i: nat | i < n && Unspent(ops, replies, i, n) && now < Expiry(ops, i)
  }

  ghost function OpenFor(ops: seq<TimedOp>, replies: seq<Reply>, n: nat, now: nat, owner: Bytes): set<nat>
  {
    set i | i in Open(ops, replies, n, now) && ops[i].op.owner == owner
  }

  function TicketOf(ops: seq<TimedOp>, i: nat): TicketEntry
    requires i < |ops| && ops[i].op.IssueOp?
  {
    TicketEntry(ops[i].op.transferId, ops[i].op.blobId, ops[i].op.owner, Expiry(ops, i))
  }

  // ---------- Tickets are grants ----------

  /** Every ticket comes from an unspent grant. */
  ghost predicate FromGrants(ops: seq<TimedOp>, replies: seq<Reply>, n: nat, tickets: Tickets)
  {
    forall key :: key in tickets ==> HasGrant(ops, replies, n, key, tickets[key])
  }

  ghost predicate HasGrant(ops: seq<TimedOp>, replies: seq<Reply>, n: nat, key: Bytes, ticket: TicketEntry)
  {
    exists i: nat :: GrantOf(ops, replies, n, key, ticket, i)
  }

  ghost predicate GrantOf(ops: seq<TimedOp>, replies: seq<Reply>, n: nat, key: Bytes, ticket: TicketEntry, i: nat)
  {
    Unspent(ops, replies, i, n) && ops[i].op.key == key && ticket == TicketOf(ops, i)
  }

  /** Every unspent and unexpired grant has its ticket. */
  ghost predicate HasTickets(ops: seq<TimedOp>, replies: seq<Reply>, n: nat, tickets: Tickets, clock: nat)
  {
    forall i: nat :: Unspent(ops, replies, i, n) && clock < Expiry(ops, i) ==>
      ops[i].op.key in tickets && tickets[ops[i].op.key] == TicketOf(ops, i)
  }

  ghost predicate SameTicket(ops: seq<TimedOp>, replies: seq<Reply>, i: nat, j: nat, n: nat)
  {
    Unspent(ops, replies, i, n) && Unspent(ops, replies, j, n) && ops[i].op.key == ops[j].op.key
  }

  /** A ticket is granted again only after it expired or was spent. */
  ghost predicate Distinct(ops: seq<TimedOp>, replies: seq<Reply>, n: nat)
  {
    forall i: nat, j: nat :: i < j && SameTicket(ops, replies, i, j, n) ==> Expiry(ops, i) <= ops[j].now
  }

  function ClockBefore(ops: seq<TimedOp>, n: nat): nat
    requires n <= |ops|
  {
    if n == 0 then 0 else ops[n - 1].latest
  }

  /** The tickets of a store agree with the grants of the run before operation `n`. */
  ghost predicate Tracked(ops: seq<TimedOp>, replies: seq<Reply>, n: nat, tickets: Tickets)
    requires n <= |ops|
  {
    && FromGrants(ops, replies, n, tickets) && HasTickets(ops, replies, n, tickets, ClockBefore(ops, n))
    && Distinct(ops, replies, n)
  }

  /** What operation `j` does to the tickets: it spends, drops expired ones, or grants one whose key is free. */
  ghost predicate TicketStep(ops: seq<TimedOp>, replies: seq<Reply>, j: nat, before: Tickets, after: Tickets)
    requires j < |ops|
  {
    && (forall key :: key in after ==>
          || (key in before && after[key] == before[key] && !DeliveredAt(ops, replies, j, key))
          || (Grants(ops, replies, j) && key == ops[j].op.key && after[key] == TicketOf(ops, j)))
    && (forall key :: key in before && ops[j].latest < before[key].expiresAt ==>
          || (key in after && after[key] == before[key])
          || DeliveredAt(ops, replies, j, key) || (Grants(ops, replies, j) && key == ops[j].op.key))
    && (Grants(ops, replies, j) ==>
          var key := ops[j].op.key;
          && key in after && after[key] == TicketOf(ops, j)
          && (key in before ==> before[key].expiresAt <= ops[j].now))
  }

  lemma ServedTickets(digest: Bytes -> Bytes, ops: seq<TimedOp>, replies: seq<Reply>, states: seq<Contents>, j: nat)
    requires Clockwise(ops) && ServedAt(digest, ops, replies, states, j)
    ensures TicketStep(ops, replies, j, states[j].tickets, states[j + 1].tickets)
  {
    hide InsertServed, LiveEntries, Acceptable;
    assert ops[j].now <= ops[j].later <= ops[j].latest;
  }

  lemma UnspentOneMore(ops: seq<TimedOp>, replies: seq<Reply>, i: nat, n: nat)
    ensures Unspent(ops, replies, i, n + 1) <==>
              || (i == n && Grants(ops, replies, i))
              || (Unspent(ops, replies, i, n) && !DeliveredAt(ops, replies, n, ops[i].op.key))
  {
    hide Grants, DeliveredAt;
  }

  lemma FromGrantsOneMore(ops: seq<TimedOp>, replies: seq<Reply>, j: nat, before: Tickets, after: Tickets)
    requires j < |ops| && FromGrants(ops, replies, j, before) && TicketStep(ops, replies, j, before, after)
    ensures FromGrants(ops, replies, j + 1, after)
  {
    hide DeliveredAt;
    forall key | key in after ensures HasGrant(ops, replies, j + 1, key, after[key]) {
      if key in before && after[key] == before[key] && !DeliveredAt(ops, replies, j, key) {
        var i: nat :| GrantOf(ops, replies, j, key, before[key], i);
        UnspentOneMore(ops, replies, i, j);
        assert GrantOf(ops, replies, j + 1, key, after[key], i);
      } else {
        UnspentOneMore(ops, replies, j, j);
        assert GrantOf(ops, replies, j + 1, key, after[key], j);
      }
    }
  }

  lemma HasTicketsOneMore(ops: seq<TimedOp>, replies: seq<Reply>, j: nat, before: Tickets, after: Tickets)
    requires Clockwise(ops) && j < |ops| && HasTickets(ops, replies, j, before, ClockBefore(ops, j))
    requires TicketStep(ops, replies, j, before, after)
    ensures HasTickets(ops, replies, j + 1, after, ops[j].latest)
  {
    hide DeliveredAt;
    forall i: nat | Unspent(ops, replies, i, j + 1) && ops[j].latest < Expiry(ops, i)
      ensures ops[i].op.key in after && after[ops[i].op.key] == TicketOf(ops, i)
    {
      UnspentOneMore(ops, replies, i, j);
      if i != j {
        assert ClockBefore(ops, j) <= ops[j].now <= ops[j].latest;
      }
    }
  }

  lemma DistinctOneMore(ops: seq<TimedOp>, replies: seq<Reply>, j: nat, before: Tickets, after: Tickets)
    requires Clockwise(ops) && j < |ops| && HasTickets(ops, replies, j, before, ClockBefore(ops, j))
    requires Distinct(ops, replies, j) && TicketStep(ops, replies, j, before, after)
    ensures Distinct(ops, replies, j + 1)
  {
    hide DeliveredAt;
    forall i: nat, k: nat | i < k && SameTicket(ops, replies, i, k, j + 1) ensures Expiry(ops, i) <= ops[k].now {
      UnspentOneMore(ops, replies, i, j);
      UnspentOneMore(ops, replies, k, j);
      if k < j {
        assert SameTicket(ops, replies, i, k, j);
      } else {
        assert ClockBefore(ops, j) <= ops[j].now;
      }
    }
  }

  lemma {:induction false} TicketsAreGrants(digest: Bytes -> Bytes, ops: seq<TimedOp>, replies: seq<Reply>,
                                            states: seq<Contents>, n: nat)
    requires Clockwise(ops) && Follows(digest, ops, replies, states) && n <= |replies|
    ensures Tracked(ops, replies, n, states[n].tickets)
  {
    hide ServedAt, TicketStep, FromGrants, HasTickets, Distinct;
    if n == 0 {
      NoGrants(ops, replies);
    } else {
      TicketsAreGrants(digest, ops, replies, states, n - 1);
      assert ServedAt(digest, ops, replies, states, n - 1);
      ServedTickets(digest, ops, replies, states, n - 1);
      FromGrantsOneMore(ops, replies, n - 1, states[n - 1].tickets, states[n].tickets);
      HasTicketsOneMore(ops, replies, n - 1, states[n - 1].tickets, states[n].tickets);
      DistinctOneMore(ops, replies, n - 1, states[n - 1].tickets, states[n].tickets);
    }
  }

  lemma NoGrants(ops: seq<TimedOp>, replies: seq<Reply>)
    ensures Tracked(ops, replies, 0, map[])
  {
  }

  // ---------- As many tickets as open grants ----------

  /** The open grants and the live tickets correspond one to one, by their keys. */
  ghost predicate Matches(ops: seq<TimedOp>, replies: seq<Reply>, open: set<nat>, live: Tickets)
  {
    && (forall i :: i in open ==> Named(ops, live, i))
    && (forall i, k :: i in open && k in open && i != k ==> KeyAt(ops, i) != KeyAt(ops, k))
    && (forall key :: key in live ==> exists i :: i in open && KeyAt(ops, i) == key)
  }

  ghost predicate Named(ops: seq<TimedOp>, live: Tickets, i: nat)
  {
    i < |ops| && ops[i].op.IssueOp? && ops[i].op.key in live && live[ops[i].op.key] == TicketOf(ops, i)
  }

  function KeyAt(ops: seq<TimedOp>, i: nat): Bytes
  {
    if i < |ops| && ops[i].op.IssueOp? then ops[i].op.key else []
  }

  lemma OpenMatchesLive(ops: seq<TimedOp>, replies: seq<Reply>, n: nat, tickets: Tickets, now: nat)
    requires Clockwise(ops) && n < |ops| && Tracked(ops, replies, n, tickets) && ops[n].now == now
    ensures Matches(ops, replies, Open(ops, replies, n, now), LiveTickets(tickets, now))
  {
    var open, live := Open(ops, replies, n, now), LiveTickets(tickets, now);
    assert ClockBefore(ops, n) <= now;
    assert forall i :: i in open ==> Named(ops, live, i);
    forall i, k | i in open && k in open && i < k ensures KeyAt(ops, i) != KeyAt(ops, k) {
      assert ops[k].now <= now < Expiry(ops, i);
      assert !SameTicket(ops, replies, i, k, n);
    }
    forall key | key in live ensures exists i :: i in open && KeyAt(ops, i) == key {
      assert HasGrant(ops, replies, n, key, tickets[key]);
      var i: nat :| GrantOf(ops, replies, n, key, tickets[key], i);
      assert i in open && KeyAt(ops, i) == key;
    }
  }

  /** Sets that correspond one to one have the same size. */
  lemma {:induction false} SameSize(ops: seq<TimedOp>, a: set<nat>, b: set<Bytes>)
    requires forall i :: i in a ==> KeyAt(ops, i) in b
    requires forall i, k :: i in a && k in a && i != k ==> KeyAt(ops, i) != KeyAt(ops, k)
    requires forall key :: key in b ==> exists i :: i in a && KeyAt(ops, i) == key
    ensures |a| == |b|
    decreases a
  {
    hide KeyAt;
    if a == {} {
      assert b == {};
    } else {
      var i :| i in a;
      var a', b' := a - {i}, b - {KeyAt(ops, i)};
      forall key | key in b' ensures exists k :: k in a' && KeyAt(ops, k) == key {
        var k :| k in a && KeyAt(ops, k) == key;
        assert k in a';
      }
      SameSize(ops, a', b');
    }
  }

  lemma OpenCounts(ops: seq<TimedOp>, replies: seq<Reply>, n: nat, now: nat, live: Tickets, owner: Bytes)
    requires Matches(ops, replies, Open(ops, replies, n, now), live)
    ensures |Open(ops, replies, n, now)| == |live|
    ensures |OpenFor(ops, replies, n, now, owner)| == |ForDevice(live, owner)|
  {
    hide Open;
    var open, mine := Open(ops, replies, n, now), OpenFor(ops, replies, n, now, owner);
    assert forall i :: i in open ==> Named(ops, live, i);
    SameSize(ops, open, live.Keys);
    assert |live| == |live.Keys|;
    forall key | key in ForDevice(live, owner) ensures exists i :: i in mine && KeyAt(ops, i) == key {
      var i :| i in open && KeyAt(ops, i) == key;
      assert Named(ops, live, i);
    }
    SameSize(ops, mine, ForDevice(live, owner));
  }

  // ---------- What an issue is answered ----------

  /** The drawn identifiers are unusable: out of range, or those of an open grant. */
  ghost predicate Taken(ops: seq<TimedOp>, replies: seq<Reply>, n: nat, transferId: nat, key: Bytes)
    requires n < |ops|
  {
    || transferId == 0 || transferId > 0x7FFF_FFFF_FFFF_FFFF
    || exists i ::
         i in Open(ops, replies, n, ops[n].now) && (ops[i].op.transferId == transferId || ops[i].op.key == key)
  }

  /** The device owns the blob, which was used within five minutes or is held by an open grant. */
  ghost predicate Keeps(ops: seq<TimedOp>, replies: seq<Reply>, n: nat, entries: Entries, owner: Bytes, id: Bytes)
    requires n < |ops|
  {
    && id in entries && owner in entries[id].owners
    && (|| ops[n].now < entries[id].lastAccess + 300_000
        || exists i :: i in Open(ops, replies, n, ops[n].now) && ops[i].op.blobId == id)
  }

  /** As many grants are open as there may be, for the device or in all. */
  ghost predicate Exhausted(ops: seq<TimedOp>, replies: seq<Reply>, n: nat, owner: Bytes)
    requires n < |ops|
  {
    || |Open(ops, replies, n, ops[n].now)| >= 4096
    || |OpenFor(ops, replies, n, ops[n].now, owner)| >= 128
  }

  lemma MatchedChoice(ops: seq<TimedOp>, replies: seq<Reply>, n: nat, live: Tickets, transferId: nat, key: Bytes)
    requires n < |ops| && Matches(ops, replies, Open(ops, replies, n, ops[n].now), live)
    ensures Fresh(live, transferId, key) <==> !Taken(ops, replies, n, transferId, key)
  {
    hide Open;
    var open := Open(ops, replies, n, ops[n].now);
    assert forall i :: i in open ==> Named(ops, live, i);
    forall other | other in live
      ensures exists i :: i in open && KeyAt(ops, i) == other && ops[i].op.transferId == live[other].transferId
    {
      var i :| i in open && KeyAt(ops, i) == other;
      assert Named(ops, live, i);
    }
  }

  lemma MatchedNames(ops: seq<TimedOp>, replies: seq<Reply>, open: set<nat>, live: Tickets)
    requires Matches(ops, replies, open, live)
    ensures forall i :: i in open ==> Named(ops, live, i)
  {
    hide Named, KeyAt;
  }

  lemma MatchedGrant(ops: seq<TimedOp>, replies: seq<Reply>, open: set<nat>, live: Tickets, key: Bytes) returns (i: nat)
    requires Matches(ops, replies, open, live) && key in live
    ensures i in open && Named(ops, live, i) && KeyAt(ops, i) == key
  {
    hide Named, KeyAt;
    i :| i in open && KeyAt(ops, i) == key;
  }

  lemma MatchedPin(ops: seq<TimedOp>, replies: seq<Reply>, n: nat, live: Tickets, id: Bytes)
    requires n < |ops| && Matches(ops, replies, Open(ops, replies, n, ops[n].now), live)
    ensures Pinned(live, id) <==> exists i :: i in Open(ops, replies, n, ops[n].now) && ops[i].op.blobId == id
  {
    hide Open, Matches;
    var open := Open(ops, replies, n, ops[n].now);
    MatchedNames(ops, replies, open, live);
    if Pinned(live, id) {
      var key :| key in live && live[key].blobId == id;
      var i := MatchedGrant(ops, replies, open, live, key);
      assert ops[i].op.blobId == id;
    }
  }

  lemma MatchedBlob(ops: seq<TimedOp>, replies: seq<Reply>, n: nat, c: Contents, owner: Bytes, id: Bytes)
    requires n < |ops|
    requires Matches(ops, replies, Open(ops, replies, n, ops[n].now), LiveTickets(c.tickets, ops[n].now))
    ensures var live := LiveAt(c, ops[n].now).entries;
            && (id in live && owner in live[id].owners <==> Keeps(ops, replies, n, c.entries, owner, id))
            && (id in live ==> id in c.entries && live[id] == c.entries[id])
  {
    hide Open, LiveTickets, Pinned, Matches, Filter;
    MatchedPin(ops, replies, n, LiveTickets(c.tickets, ops[n].now), id);
  }

  /**
   * In every run a device that asks for a ticket is told to draw again exactly if the identifiers are taken, that there
   * is no such blob exactly if it does not own it any more, that there are too many exactly if so many grants are
   * neither spent nor expired, and is granted a ticket otherwise.
   */
  lemma IssuesAreDue(digest: Bytes -> Bytes, ops: seq<TimedOp>, replies: seq<Reply>, states: seq<Contents>, n: nat)
    requires Clockwise(ops) && Follows(digest, ops, replies, states) && n < |replies| && ops[n].op.IssueOp?
    ensures var op := ops[n].op;
            var taken := Taken(ops, replies, n, op.transferId, op.key);
            var keeps := Keeps(ops, replies, n, states[n].entries, op.owner, op.blobId);
            var exhausted := Exhausted(ops, replies, n, op.owner);
            && (replies[n] == Resample <==> taken)
            && (replies[n] == IssueReply(NotFound) <==> !taken && !keeps)
            && (replies[n] == IssueReply(ResourceExhausted) <==> !taken && keeps && exhausted)
            && (Grants(ops, replies, n) <==> !taken && keeps && !exhausted)
            && (Grants(ops, replies, n) ==>
                  replies[n].issue == Granted(op.transferId, op.key, states[n].entries[op.blobId].reference))
  {
    hide Follows, Open, OpenFor, Fresh, LiveAt, ForDevice, Matches, Taken, Keeps, Tracked, LiveTickets;
    FollowedAt(digest, ops, replies, states, n);
    var op, now := ops[n].op, ops[n].now;
    TicketsAreGrants(digest, ops, replies, states, n);
    OpenMatchesLive(ops, replies, n, states[n].tickets, now);
    MatchedChoice(ops, replies, n, LiveTickets(states[n].tickets, now), op.transferId, op.key);
    MatchedBlob(ops, replies, n, states[n], op.owner, op.blobId);
    OpenCounts(ops, replies, n, now, LiveTickets(states[n].tickets, now), op.owner);
    LiveAtTickets(states[n], now);
  }

  lemma FollowedAt(digest: Bytes -> Bytes, ops: seq<TimedOp>, replies: seq<Reply>, states: seq<Contents>, n: nat)
    requires Follows(digest, ops, replies, states) && n < |replies|
    ensures n < |ops| && |states| == |replies| + 1 && Serves(digest, ops[n], states[n], replies[n], states[n + 1])
  {
    assert ServedAt(digest, ops, replies, states, n);
  }

  lemma LiveAtTickets(c: Contents, now: nat)
    ensures LiveAt(c, now).tickets == LiveTickets(c.tickets, now)
  {
  }
}
