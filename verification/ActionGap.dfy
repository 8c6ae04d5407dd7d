// Numbered action output over a bounded queue: what is dropped is announced by a gap, whatever else is dropped.
module ActionGap {
  import opened Basics

  const MAX_ACTION_GAP_RESOURCE_IDS := 1024
  const MAX_ACTION_GAP_RESOURCE_BYTES := 256 * 1024

  type Id = Bytes

  /** A frame of the subscription; a gap without ids asks for a full resynchronisation. */
  datatype Frame =
    | Output(sequence: nat, id: Id)
    | Gap(first: nat, next: nat, ids: set<Id>)

  /** What the outgoing queue does with a frame. */
  datatype Queue = Sent | Full | Closed

  function Start(f: Frame): nat
  {
    if f.Output? then f.sequence else f.first
  }

  function Stop(f: Frame): nat
  {
    if f.Output? then f.sequence + 1 else f.next
  }

  /** In production order the frames cover the numbers from 1 to before `upto`, each once. */
  predicate Tiles(frames: seq<Frame>, upto: nat)
  {
    if frames == [] then upto == 1
    else
      var last := frames[|frames| - 1];
      Stop(last) == upto && Start(last) < upto && Tiles(frames[..|frames| - 1], Start(last))
  }

  /** A gap in `frames` covers number `s` and names `id` or asks for everything. */
  ghost predicate Announced(frames: seq<Frame>, s: nat, id: Id)
  {
    exists i ::
      && 0 <= i < |frames| && frames[i].Gap? && frames[i].first <= s < frames[i].next
      && (frames[i].ids == {} || id in frames[i].ids)
  }

  ghost predicate Delivered(frames: seq<Frame>, s: nat, id: Id)
  {
    Output(s, id) in frames
  }

  /** A gap in `frames` covers number `s` and asks for everything. */
  ghost predicate FullyAnnounced(frames: seq<Frame>, s: nat)
  {
    exists i :: 0 <= i < |frames| && frames[i].Gap? && frames[i].first <= s < frames[i].next && frames[i].ids == {}
  }

  // ---------- The pending gap ----------

  datatype Pending = Pending(first: Option<nat>, ids: set<Id>, bytes: nat, resyncAll: bool)

  const NO_GAP := Pending(None, {}, 0, false)

  ghost function Lengths(ids: set<Id>): map<Id, nat>
  {
    map id | id in ids :: |id|
  }

  /** Nothing is kept without a gap, and the kept ids stay within their limits. */
  ghost predicate PendingOk(p: Pending)
  {
    && (p.first == None ==> p == NO_GAP)
    && [] !in p.ids && |p.ids| <= MAX_ACTION_GAP_RESOURCE_IDS
    && p.bytes == Sum(Lengths(p.ids)) <= MAX_ACTION_GAP_RESOURCE_BYTES
  }

  predicate Knows(p: Pending, id: Id)
  {
    p.resyncAll || id in p.ids
  }

  function WithSequence(p: Pending, s: nat): Pending
  {
    if p.first == None then p.(first := Some(s)) else p
  }

  function ResyncAll(p: Pending): Pending
  {
    p.(ids := {}, bytes := 0, resyncAll := true)
  }

  function WithResource(p: Pending, s: nat, id: Id): Pending
  {
    var q := WithSequence(p, s);
    if q.resyncAll || id in q.ids then q
    else if id == [] || |q.ids| >= MAX_ACTION_GAP_RESOURCE_IDS
            || SatAdd(q.bytes, |id|) > MAX_ACTION_GAP_RESOURCE_BYTES then ResyncAll(q)
    else q.(bytes := SatAdd(q.bytes, |id|), ids := q.ids + {id})
  }

  lemma LengthsGrow(ids: set<Id>, id: Id)
    ensures Lengths(ids + {id}) == Lengths(ids)[id := |id|]
  {
  }

  lemma AddId(p: Pending, id: Id)
    requires PendingOk(p) && p.first.Some? && id !in p.ids && id != []
    requires |p.ids| < MAX_ACTION_GAP_RESOURCE_IDS && p.bytes + |id| <= MAX_ACTION_GAP_RESOURCE_BYTES
    ensures PendingOk(p.(bytes := p.bytes + |id|, ids := p.ids + {id}))
  {
    hide Sum;
    LengthsGrow(p.ids, id);
    SumInsert(Lengths(p.ids), id, |id|);
  }

  lemma SequenceKeeps(p: Pending, s: nat)
    requires PendingOk(p)
    ensures PendingOk(WithSequence(p, s)) && PendingOk(ResyncAll(WithSequence(p, s)))
    ensures PendingOk(WithSequence(p, s).(resyncAll := true))
  {
    assert Lengths({}) == map[];
  }

  /** Remembering a lost output keeps everything remembered before. */
  lemma RememberKeeps(p: Pending, s: nat, id: Id)
    requires PendingOk(p)
    ensures var q := WithResource(p, s, id);
            && PendingOk(q) && Knows(q, id) && q.first == WithSequence(p, s).first
            && (p.resyncAll ==> q.resyncAll) && forall other :: Knows(p, other) ==> Knows(q, other)
  {
    hide PendingOk;
    SequenceKeeps(p, s);
    var q := WithSequence(p, s);
    if !q.resyncAll && id !in q.ids && id != [] && |q.ids| < MAX_ACTION_GAP_RESOURCE_IDS
       && SatAdd(q.bytes, |id|) <= MAX_ACTION_GAP_RESOURCE_BYTES {
      AddId(q, id);
    }
  }

  /** The ids a gap frame carries: none stands for all. */
  function TakenIds(p: Pending): set<Id>
  {
    if p.resyncAll then {} else p.ids
  }

  /** Ids that cannot be named in one gap. */
  ghost predicate TooMany(ids: set<Id>)
  {
    || [] in ids
    || |ids| > MAX_ACTION_GAP_RESOURCE_IDS
    || Sum(Lengths(ids)) > MAX_ACTION_GAP_RESOURCE_BYTES
  }

  /**
   * The ids a gap names when `lost` were lost: all of them, or none if others were lost unseen or they are too many.
   */
  ghost function Named(lost: set<Id>, lag: bool): set<Id>
  {
    if lag || TooMany(lost) then {} else lost
  }

  /**
   * Exactly the ids in `lost` are remembered, or that everything is to be resynchronised, and that only for a cause.
   */
  ghost predicate Remembers(p: Pending, lost: set<Id>, lag: bool)
  {
    (p.resyncAll <==> lag || TooMany(lost)) && (!p.resyncAll ==> p.ids == lost)
  }

  lemma NothingRemembered()
    ensures PendingOk(NO_GAP) && Remembers(NO_GAP, {}, false)
  {
    assert Lengths({}) == map[];
  }

  /** One id more is too many if those before were, or if it passes a limit itself. */
  lemma OneMoreId(lost: set<Id>, id: Id)
    requires id !in lost
    ensures TooMany(lost + {id}) <==>
              || TooMany(lost) || id == [] || |lost| >= MAX_ACTION_GAP_RESOURCE_IDS
              || Sum(Lengths(lost)) + |id| > MAX_ACTION_GAP_RESOURCE_BYTES
  {
    hide Sum;
    LengthsGrow(lost, id);
    SumInsert(Lengths(lost), id, |id|);
  }

  lemma RememberIsExact(p: Pending, lost: set<Id>, lag: bool, s: nat, id: Id)
    requires PendingOk(p) && Remembers(p, lost, lag)
    ensures Remembers(WithResource(p, s, id), lost + {id}, lag)
  {
    hide TooMany;
    if id in lost {
      assert lost + {id} == lost;
      NamesNotEmpty(lost);
    } else {
      OneMoreId(lost, id);
      NotTooMany(p, lost);
    }
  }

  lemma NamesNotEmpty(lost: set<Id>)
    ensures [] in lost ==> TooMany(lost)
  {
  }

  lemma NotTooMany(p: Pending, lost: set<Id>)
    requires PendingOk(p)
    ensures p.ids == lost ==> p.bytes == Sum(Lengths(lost)) && !TooMany(lost)
  {
  }

  /** Taking the ids and, if the frame is dropped, taking them back loses nothing and adds nothing. */
  lemma TakenIdsAreNamed(p: Pending, lost: set<Id>, lag: bool)
    requires Remembers(p, lost, lag)
    ensures TakenIds(p) == Named(lost, lag)
    ensures forall q :: lost != {} && Remembers(q, TakenIds(p), TakenIds(p) == {}) ==> Remembers(q, lost, lag)
  {
    NothingRemembered();
  }

  lemma RememberedFirst(first: nat)
    ensures Remembers(WithSequence(NO_GAP, first), {}, false)
    ensures Remembers(ResyncAll(WithSequence(NO_GAP, first)), {}, true)
  {
    NothingRemembered();
  }

  // ---------- The gap object ----------

  class ActionGap {
    var firstMissing: Option<nat>
    var resourceIds: set<Id>
    var resourceBytes: nat
    var resyncAll: bool

    function Value(): Pending
      reads this
    {
      Pending(firstMissing, resourceIds, resourceBytes, resyncAll)
    }

    constructor ()
      ensures Value() == NO_GAP
    {
      firstMissing, resourceIds, resourceBytes, resyncAll := None, {}, 0, false;
    }

    method RememberSequence(sequence: nat)
      modifies `firstMissing
      ensures Value() == WithSequence(old(Value()), sequence)
    {
      if firstMissing == None {
        firstMissing := Some(sequence);
      }
    }

    method ForgetResources()
      modifies `resourceIds, `resourceBytes, `resyncAll
      ensures Value() == ResyncAll(old(Value()))
    {
      resourceIds, resourceBytes, resyncAll := {}, 0, true;
    }

    method RememberResource(sequence: nat, id: Id)
      modifies this
      ensures Value() == WithResource(old(Value()), sequence, id)
    {
      RememberSequence(sequence);
      if resyncAll || id in resourceIds {
        return;
      }
      if id == [] || |resourceIds| >= MAX_ACTION_GAP_RESOURCE_IDS
         || SatAdd(resourceBytes, |id|) > MAX_ACTION_GAP_RESOURCE_BYTES {
        ForgetResources();
        return;
      }
      resourceBytes := SatAdd(resourceBytes, |id|);
      resourceIds := resourceIds + {id};
    }

    /** Takes back a gap frame that could not be queued: everything it announced is known again. */
    method RememberGap(first: nat, ids: set<Id>)
      requires PendingOk(Value())
      modifies this
      ensures PendingOk(Value()) && firstMissing == WithSequence(old(Value()), first).first
      ensures forall id :: Knows(old(Value()), id) || ids == {} || id in ids ==> Knows(Value(), id)
      ensures old(resyncAll) || ids == {} ==> resyncAll
      ensures old(Value()) == NO_GAP ==> Remembers(Value(), ids, ids == {})
    {
      hide PendingOk, WithResource, Remembers;
      ghost var p := Value();
      SequenceKeeps(p, first);
      RememberedFirst(first);
      RememberSequence(first);
      if ids == {} {
        ForgetResources();
        return;
      }
      var rest := ids;
      assert ids - rest == {};
      while rest != {}
        invariant PendingOk(Value()) && firstMissing == WithSequence(p, first).first && rest <= ids
        invariant (p.resyncAll ==> resyncAll) && forall id :: Knows(p, id) || id in ids - rest ==> Knows(Value(), id)
        invariant p == NO_GAP ==> Remembers(Value(), ids - rest, false)
        decreases |rest|
      {
        var id :| id in rest;
        RememberKeeps(Value(), first, id);
        if p == NO_GAP {
          RememberIsExact(Value(), ids - rest, false, first, id);
          assert ids - (rest - {id}) == (ids - rest) + {id};
        }
        RememberResource(first, id);
        rest := rest - {id};
      }
      assert ids - rest == ids;
    }

    method TakeResourceIds() returns (ids: set<Id>)
      modifies `resourceIds, `resourceBytes, `resyncAll
      ensures ids == TakenIds(old(Value())) && Value() == NO_GAP.(first := old(firstMissing))
    {
      ids := if resyncAll then {} else resourceIds;
      resourceIds, resourceBytes, resyncAll := {}, 0, false;
    }
  }

  // ---------- Accounting ----------

  /** The first number not covered by frames already queued. */
  function Upto(sequence: nat, p: Pending): nat
  {
    if p.first.Some? then p.first.value else sequence + 1
  }

  /** Output `s` was delivered, announced as lost, or is remembered in the pending gap. */
  ghost predicate Accounted(frames: seq<Frame>, upto: nat, p: Pending, s: nat, id: Id)
  {
    if s < upto then Delivered(frames, s, id) || Announced(frames, s, id) else p.first.Some? && Knows(p, id)
  }

  /** An unknown loss before number `s` asks, or will ask, for a full resynchronisation. */
  ghost predicate LagAccounted(frames: seq<Frame>, upto: nat, p: Pending, s: nat)
  {
    if s < upto then FullyAnnounced(frames, s) else p.first.Some? && p.resyncAll
  }

  /** `outputs` are the numbered outputs and `lags` the numbers before which outputs were lost unseen. */
  ghost predicate Ledger(frames: seq<Frame>, outputs: set<(nat, Id)>, lags: set<nat>, sequence: nat, p: Pending)
  {
    var upto := Upto(sequence, p);
    && PendingOk(p) && (p.first.Some? ==> p.ids != {} || p.resyncAll) && 1 <= upto <= sequence + 1
       && Tiles(frames, upto)
    && (forall o :: o in outputs ==> 1 <= o.0 <= sequence && Accounted(frames, upto, p, o.0, o.1))
    && (forall s :: s in lags ==> 1 <= s <= sequence + 1 && LagAccounted(frames, upto, p, s))
    && (forall f :: f in frames && f.Output? ==> (f.sequence, f.id) in outputs)
  }

  lemma AppendTiles(frames: seq<Frame>, upto: nat, f: Frame)
    requires Tiles(frames, upto) && Start(f) == upto < Stop(f)
    ensures Tiles(frames + [f], Stop(f))
  {
    assert (frames + [f])[..|frames + [f]| - 1] == frames;
  }

  lemma MoreFrames(frames: seq<Frame>, f: Frame, s: nat, id: Id)
    ensures Delivered(frames, s, id) ==> Delivered(frames + [f], s, id)
    ensures Announced(frames, s, id) ==> Announced(frames + [f], s, id)
    ensures FullyAnnounced(frames, s) ==> FullyAnnounced(frames + [f], s)
  {
    if Announced(frames, s, id) {
      var i :|
        && 0 <= i < |frames| && frames[i].Gap? && frames[i].first <= s < frames[i].next
        && (frames[i].ids == {} || id in frames[i].ids);
      assert (frames + [f])[i] == frames[i];
    }
    if FullyAnnounced(frames, s) {
      var i :| 0 <= i < |frames| && frames[i].Gap? && frames[i].first <= s < frames[i].next && frames[i].ids == {};
      assert (frames + [f])[i] == frames[i];
    }
  }

  lemma NewGapAnnounces(frames: seq<Frame>, f: Frame, s: nat, id: Id)
    requires f.Gap? && f.first <= s < f.next
    ensures f.ids == {} || id in f.ids ==> Announced(frames + [f], s, id)
    ensures f.ids == {} ==> FullyAnnounced(frames + [f], s)
  {
    assert (frames + [f])[|frames|] == f;
  }

  /** An output is queued as it is. */
  lemma OutputSent(frames: seq<Frame>, outputs: set<(nat, Id)>, lags: set<nat>, sequence: nat, p: Pending, id: Id)
    requires Ledger(frames, outputs, lags, sequence, p) && p.first == None
    ensures Ledger(frames + [Output(sequence + 1, id)], outputs + {(sequence + 1, id)}, lags, sequence + 1, p)
  {
    hide Announced, FullyAnnounced, Tiles, PendingOk;
    var f := Output(sequence + 1, id);
    AppendTiles(frames, sequence + 1, f);
    forall o | o in outputs ensures o.0 <= sequence && Accounted(frames + [f], sequence + 2, p, o.0, o.1) {
      MoreFrames(frames, f, o.0, o.1);
    }
    forall s | s in lags ensures LagAccounted(frames + [f], sequence + 2, p, s) {
      MoreFrames(frames, f, s, id);
    }
  }

  /** An output finds the queue full and opens a gap. */
  lemma OutputDropped(frames: seq<Frame>, outputs: set<(nat, Id)>, lags: set<nat>, sequence: nat, p: Pending, id: Id)
    requires Ledger(frames, outputs, lags, sequence, p) && p.first == None
    ensures Ledger(frames, outputs + {(sequence + 1, id)}, lags, sequence + 1, WithResource(p, sequence + 1, id))
  {
    hide Announced, FullyAnnounced, Tiles, PendingOk, WithResource;
    RememberKeeps(p, sequence + 1, id);
  }

  /** A number is used up while a gap is pending: nothing pending is forgotten. */
  lemma NumberTaken(frames: seq<Frame>, outputs: set<(nat, Id)>, lags: set<nat>, sequence: nat, p: Pending)
    requires Ledger(frames, outputs, lags, sequence, p) && p.first.Some?
    ensures Ledger(frames, outputs, lags, sequence + 1, p)
  {
    hide Announced, FullyAnnounced, Tiles, PendingOk;
  }

  /** An output joins the pending gap under the next number, or the last one again. */
  lemma OutputJoins(frames: seq<Frame>, outputs: set<(nat, Id)>, lags: set<nat>, sequence: nat, p: Pending, id: Id,
                    n: nat)
    requires Ledger(frames, outputs, lags, sequence, p) && p.first.Some? && p.first.value <= n
    requires sequence <= n <= sequence + 1 && 1 <= n
    ensures Ledger(frames, outputs + {(n, id)}, lags, n, WithResource(p, n, id))
  {
    hide Announced, FullyAnnounced, Tiles, PendingOk, WithResource;
    RememberKeeps(p, n, id);
    assert Knows(WithResource(p, n, id), id);
  }

  /** A gap frame is queued: it announces everything pending. */
  lemma GapSent(frames: seq<Frame>, outputs: set<(nat, Id)>, lags: set<nat>, sequence: nat, p: Pending)
    requires Ledger(frames, outputs, lags, sequence, p) && p.first.Some? && p.first.value <= sequence
             && forall s :: s in lags ==> s <= sequence
    ensures Ledger(frames + [Gap(p.first.value, sequence + 1, TakenIds(p))], outputs, lags, sequence, NO_GAP)
  {
    hide Announced, FullyAnnounced, Tiles;
    var f := Gap(p.first.value, sequence + 1, TakenIds(p));
    AppendTiles(frames, p.first.value, f);
    assert Lengths({}) == map[];
    forall o | o in outputs ensures Accounted(frames + [f], sequence + 1, NO_GAP, o.0, o.1) {
      MoreFrames(frames, f, o.0, o.1);
      if o.0 >= p.first.value {
        NewGapAnnounces(frames, f, o.0, o.1);
      }
    }
    forall s | s in lags ensures LagAccounted(frames + [f], sequence + 1, NO_GAP, s) {
      MoreFrames(frames, f, s, []);
      if s >= p.first.value {
        NewGapAnnounces(frames, f, s, []);
      }
    }
  }

  /** A gap taken back remembers everything it announced. */
  lemma GapTakenBack(frames: seq<Frame>, outputs: set<(nat, Id)>, lags: set<nat>, sequence: nat, p: Pending, q: Pending)
    requires Ledger(frames, outputs, lags, sequence, p) && PendingOk(q) && q.first == p.first && p.first.Some?
    requires (p.resyncAll ==> q.resyncAll) && forall id :: Knows(p, id) ==> Knows(q, id)
    ensures Ledger(frames, outputs, lags, sequence, q)
  {
    hide Announced, FullyAnnounced, Tiles, PendingOk;
    if p.ids != {} {
      var id :| id in p.ids;
      assert Knows(q, id);
    }
  }

  /** Outputs lost unseen before the next number. */
  lemma LagRemembered(frames: seq<Frame>, outputs: set<(nat, Id)>, lags: set<nat>, sequence: nat, p: Pending)
    requires Ledger(frames, outputs, lags, sequence, p)
    ensures Ledger(frames, outputs, lags + {sequence + 1}, sequence, WithSequence(p, sequence + 1).(resyncAll := true))
  {
    hide Announced, FullyAnnounced, Tiles, PendingOk;
    SequenceKeeps(p, sequence + 1);
  }

  // ---------- The subscription ----------

  function NextNumber(sequence: nat): nat
  {
    if sequence == U64_MAX then U64_MAX else sequence + 1
  }

  class ActionSubscription {
    var sequence: nat
    const gap: ActionGap
    ghost var frames: seq<Frame>
    ghost var outputs: set<(nat, Id)>
    ghost var lags: set<nat>

    ghost predicate Valid()
      reads this, gap
    {
      && sequence <= U64_MAX && (gap.firstMissing.Some? ==> gap.firstMissing.value <= U64_MAX)
      && Ledger(frames, outputs, lags, sequence, gap.Value())
    }

    constructor ()
      ensures Valid() && fresh(gap) && frames == [] && outputs == {} && lags == {} && sequence == 0
              && gap.Value() == NO_GAP
    {
      sequence, frames, outputs, lags := 0, [], {}, {};
      gap := new ActionGap();
      new;
      assert Lengths({}) == map[];
    }

    method NextSequence() returns (number: nat)
      modifies `sequence
      ensures number == sequence == NextNumber(old(sequence))
    {
      sequence := if sequence == U64_MAX then U64_MAX else sequence + 1;
      number := sequence;
    }

    /** Hands a frame to the queue; one that does not fit, or finds no room, is remembered as lost. */
    method QueueEvent(f: Frame, oversize: bool, queue: Queue) returns (sent: bool)
      requires PendingOk(gap.Value())
      modifies gap
      ensures sent <==> !oversize && queue == Sent
      ensures sent || (!oversize && queue == Closed) ==> gap.Value() == old(gap.Value())
      ensures !sent && (oversize || queue == Full) ==>
                && PendingOk(gap.Value()) && gap.firstMissing == WithSequence(old(gap.Value()), Start(f)).first
                && (f.Output? ==> gap.Value() == WithResource(old(gap.Value()), f.sequence, f.id))
                && (f.Gap? ==> forall id :: f.ids == {} || id in f.ids ==> Knows(gap.Value(), id))
                && (f.Gap? && f.ids == {} ==> gap.resyncAll)
                && (f.Gap? && old(gap.Value()) == NO_GAP ==> Remembers(gap.Value(), f.ids, f.ids == {}))
    {
      hide PendingOk, WithResource, Remembers;
      sent := false;
      if oversize || queue == Full {
        match f
        case Output(s, id) =>
          RememberKeeps(gap.Value(), s, id);
          gap.RememberResource(s, id);
        case Gap(first, _, ids) =>
          gap.RememberGap(first, ids);
      } else {
        sent := queue == Sent;
      }
    }

    /**
     * Numbers an output and queues it, or a gap in its place; `open` tells that the queue still exists. The ledger is
     * kept if and only if the numbers suffice.
     */
    method PushActionOutput(id: Id, valid: bool, oversize: bool, queue: Queue) returns (sent: Option<Frame>, open: bool)
      requires Valid()
      modifies this, gap
      ensures open <==> !valid || oversize || queue != Closed
      ensures open ==> (Valid() <==> !valid || CanNumber(old(sequence), old(gap.Value()), sent.Some?))
      ensures frames == old(frames) + (if sent.Some? then [sent.value] else []) && lags == old(lags)
      ensures sent.Some? <==> valid && !oversize && queue == Sent
      ensures sent.Some? ==> (sent.value.Output? <==> old(gap.firstMissing) == None)
      ensures sent.Some? && sent.value.Output? ==> sent.value == Output(sequence, id)
      ensures sequence == if valid then NextNumber(old(sequence)) else old(sequence)
      ensures outputs == if valid && open then old(outputs) + {(sequence, id)} else old(outputs)
      ensures open ==> gap.firstMissing.Some? == if valid then sent == None else old(gap.firstMissing).Some?
      ensures !valid ==> gap.Value() == old(gap.Value())
      ensures valid && open ==>
                PushedGap(old(gap.Value()), sequence, id, sent, gap.Value())
    {
      hide PendingOk, WithResource, Ledger, Remembers;
      sent, open := None, true;
      if !valid {
        return;
      }
      ghost var s, p, known := sequence, gap.Value(), frames;
      LedgerPending(frames, outputs, lags, sequence, p);
      var number := NextSequence();
      var f: Frame;
      if gap.firstMissing.Some? {
        RememberKeeps(p, number, id);
        gap.RememberResource(number, id);
        var first := gap.firstMissing.value;
        gap.firstMissing := None;
        var ids := gap.TakeResourceIds();
        f := Gap(first, NextNumber(number), ids);
      } else {
        f := Output(number, id);
        RememberKeeps(NO_GAP, number, id);
      }
      EmptyPending();
      var done := QueueEvent(f, oversize, queue);
      open := oversize || queue != Closed;
      if open {
        outputs := outputs + {(sequence, id)};
      }
      if done {
        sent := Some(f);
        frames := frames + [f];
      }
      if open {
        assert known + [] == known;
        if p.first.Some? {
          GapPushed(known, old(outputs), lags, s, p, id, done, gap.Value());
        } else {
          OutputPushed(known, old(outputs), lags, s, p, id, done, gap.Value());
        }
      }
    }

    /**
     * On the heartbeat a pending gap is announced on the critical queue; the ledger is kept if and only if a number
     * follows.
     */
    method FlushGap() returns (sent: Option<Frame>)
      requires Valid()
      modifies `sequence, `frames, gap
      ensures Valid() <==> (sent.Some? ==> CanNumber(old(sequence), old(gap.Value()), true))
      ensures frames == old(frames) + (if sent.Some? then [sent.value] else [])
      ensures sent.Some? <==> old(gap.firstMissing).Some?
      ensures sent.Some? ==>
                sent.value == Gap(old(gap.firstMissing).value, NextNumber(sequence), TakenIds(old(gap.Value())))
      ensures gap.Value() == NO_GAP && sequence == if sent.Some? then NextNumber(old(sequence)) else old(sequence)
    {
      hide PendingOk, Ledger;
      sent := None;
      ghost var s, p := sequence, gap.Value();
      LedgerPending(frames, outputs, lags, s, p);
      if gap.firstMissing.Some? {
        var first := gap.firstMissing.value;
        gap.firstMissing := None;
        var number := NextSequence();
        var ids := gap.TakeResourceIds();
        var f := Gap(first, NextNumber(number), ids);
        sent := Some(f);
        if s + 1 < U64_MAX {
          NumberTaken(frames, outputs, lags, s, p);
          LagsBefore(frames, outputs, lags, s, p);
          GapSent(frames, outputs, lags, s + 1, p);
        } else {
          GapTooShort(frames, first, ids, outputs, lags);
        }
        frames := frames + [f];
      }
    }

    /** The subscription fell behind its source and lost outputs it never saw. */
    method Lag()
      requires Valid()
      modifies `lags, gap
      ensures Valid() <==> old(sequence) < U64_MAX || old(gap.firstMissing).Some?
      ensures lags == old(lags) + {NextNumber(sequence)}
      ensures gap.Value() == WithSequence(old(gap.Value()), NextNumber(sequence)).(resyncAll := true)
    {
      hide PendingOk, Ledger;
      ghost var p := gap.Value();
      lags := lags + {NextNumber(sequence)};
      if sequence < U64_MAX {
        LagRemembered(frames, outputs, old(lags), sequence, p);
      } else if p.first.Some? {
        LagAtTheEnd(frames, outputs, old(lags), p);
      } else {
        CannotReopen(frames, outputs, old(lags), p, WithSequence(p, U64_MAX).(resyncAll := true), outputs, lags);
      }
      gap.RememberSequence(NextNumber(sequence));
      gap.resyncAll := true;
    }
  }

  /**
   * The numbers a call needs are left. A gap that is queued names the number after its own, so it needs two; a gap that
   * is only remembered needs none.
   */
  predicate CanNumber(sequence: nat, p: Pending, sent: bool)
  {
    if p.first == None then sequence < U64_MAX else sent ==> sequence + 1 < U64_MAX
  }

  /** What pushing output `id` under number `n` queues and leaves pending, from the pending gap `p`. */
  ghost predicate PushedGap(p: Pending, n: nat, id: Id, sent: Option<Frame>, q: Pending)
  {
    var joined := WithResource(p, n, id);
    && joined.first.Some?
    && (sent.Some? ==>
          q == NO_GAP && sent.value == if p.first == None then Output(n, id)
                                       else Gap(joined.first.value, NextNumber(n), TakenIds(joined)))
    && (sent == None && p.first == None ==> q == joined)
    && (sent == None && p.first.Some? ==>
          q.first == p.first && Remembers(q, TakenIds(joined), TakenIds(joined) == {}))
  }

  lemma LedgerPending(frames: seq<Frame>, outputs: set<(nat, Id)>, lags: set<nat>, sequence: nat, p: Pending)
    requires Ledger(frames, outputs, lags, sequence, p)
    ensures PendingOk(p) && (p.first == None ==> p == NO_GAP)
  {
  }

  lemma EmptyPending()
    ensures PendingOk(NO_GAP)
  {
    assert Lengths({}) == map[];
  }

  lemma LagsBefore(frames: seq<Frame>, outputs: set<(nat, Id)>, lags: set<nat>, sequence: nat, p: Pending)
    requires Ledger(frames, outputs, lags, sequence, p)
    ensures (forall s :: s in lags ==> s <= sequence + 1) && (p.first.Some? ==> p.first.value <= sequence + 1)
  {
  }

  /** An output without a gap before it, queued or dropped. */
  lemma OutputPushed(frames: seq<Frame>, outputs: set<(nat, Id)>, lags: set<nat>, sequence: nat, p: Pending, id: Id,
                     done: bool, q: Pending)
    requires Ledger(frames, outputs, lags, sequence, p) && p.first == None && sequence <= U64_MAX
    requires var n := NextNumber(sequence); q == if done then p else WithResource(p, n, id)
    ensures var n := NextNumber(sequence);
            var more := if done then [Output(n, id)] else [];
            Ledger(frames + more, outputs + {(n, id)}, lags, n, q) <==> sequence < U64_MAX
  {
    hide Ledger, WithResource, PendingOk;
    LedgerPending(frames, outputs, lags, sequence, p);
    assert frames + [] == frames;
    if sequence < U64_MAX {
      if done {
        OutputSent(frames, outputs, lags, sequence, p, id);
      } else {
        OutputDropped(frames, outputs, lags, sequence, p, id);
      }
    } else if done {
      SaturatedOutputRepeats(frames, outputs, lags, p, id, outputs + {(U64_MAX, id)}, q);
    } else {
      RememberKeeps(p, U64_MAX, id);
      CannotReopen(frames, outputs, lags, p, q, outputs + {(U64_MAX, id)}, lags);
    }
  }

  /** A gap in place of an output, queued or taken back. */
  lemma GapPushed(frames: seq<Frame>, outputs: set<(nat, Id)>, lags: set<nat>, sequence: nat, p: Pending, id: Id,
                  done: bool, q: Pending)
    requires Ledger(frames, outputs, lags, sequence, p) && p.first.Some? && p.first.value <= U64_MAX
    requires sequence <= U64_MAX
    requires var joined := WithResource(p, NextNumber(sequence), id);
             if done then q == NO_GAP
             else
               && PendingOk(q) && joined.first.Some? && q.first == WithSequence(NO_GAP, joined.first.value).first
               && (forall other :: TakenIds(joined) == {} || other in TakenIds(joined) ==> Knows(q, other))
               && (TakenIds(joined) == {} ==> q.resyncAll)
    ensures var n := NextNumber(sequence);
            var joined := WithResource(p, n, id);
            var more :=
              if done && joined.first.Some? then [Gap(joined.first.value, NextNumber(n), TakenIds(joined))] else [];
            Ledger(frames + more, outputs + {(n, id)}, lags, n, q) <==> CanNumber(sequence, p, done)
  {
    hide PendingOk, Ledger, WithResource;
    LedgerPending(frames, outputs, lags, sequence, p);
    var n := NextNumber(sequence);
    RememberKeeps(p, n, id);
    LagsBefore(frames, outputs, lags, sequence, p);
    OutputJoins(frames, outputs, lags, sequence, p, id, n);
    var joined := WithResource(p, n, id);
    if !done {
      assert frames + [] == frames;
      GapTakenBack(frames, outputs + {(n, id)}, lags, n, joined, q);
    } else if sequence + 1 < U64_MAX {
      GapSent(frames, outputs + {(n, id)}, lags, n, joined);
    } else {
      GapTooShort(frames, joined.first.value, TakenIds(joined), outputs + {(n, id)}, lags);
    }
  }

  // ---------- Saturation ----------

  lemma {:induction false} TilesUpTo(frames: seq<Frame>, upto: nat, other: nat)
    requires Tiles(frames, upto)
    ensures Tiles(frames, other) ==> upto == other
  {
  }

  /** Once the last number is used, another output under it no longer tiles. */
  lemma SaturatedOutputRepeats(frames: seq<Frame>, outputs: set<(nat, Id)>, lags: set<nat>, p: Pending, id: Id,
                               outputs': set<(nat, Id)>, q: Pending)
    requires Ledger(frames, outputs, lags, U64_MAX, p) && p.first == None
    ensures forall upto :: !Tiles(frames + [Output(U64_MAX, id)], upto)
    ensures !Ledger(frames + [Output(U64_MAX, id)], outputs', lags, U64_MAX, q)
  {
    var f := Output(U64_MAX, id);
    assert (frames + [f])[..|frames + [f]| - 1] == frames;
    TilesUpTo(frames, U64_MAX + 1, U64_MAX);
  }

  /** A gap numbered last cannot name the number after it, so it leaves its own number uncovered. */
  lemma GapTooShort(frames: seq<Frame>, first: nat, ids: set<Id>, outputs: set<(nat, Id)>, lags: set<nat>)
    ensures !Ledger(frames + [Gap(first, U64_MAX, ids)], outputs, lags, U64_MAX, NO_GAP)
  {
    var f := Gap(first, U64_MAX, ids);
    assert (frames + [f])[|frames + [f]| - 1] == f;
  }

  /** Where everything up to the last number is covered, a gap cannot open at it any more. */
  lemma CannotReopen(frames: seq<Frame>, outputs: set<(nat, Id)>, lags: set<nat>, p: Pending, q: Pending,
                     outputs': set<(nat, Id)>, lags': set<nat>)
    requires Ledger(frames, outputs, lags, U64_MAX, p) && p.first == None && q.first == Some(U64_MAX)
    ensures !Ledger(frames, outputs', lags', U64_MAX, q)
  {
    TilesUpTo(frames, U64_MAX + 1, U64_MAX);
  }

  lemma LagAtTheEnd(frames: seq<Frame>, outputs: set<(nat, Id)>, lags: set<nat>, p: Pending)
    requires Ledger(frames, outputs, lags, U64_MAX, p) && p.first.Some? && p.first.value <= U64_MAX
    ensures Ledger(frames, outputs, lags + {U64_MAX}, U64_MAX, p.(resyncAll := true))
  {
    hide Announced, FullyAnnounced, Tiles, PendingOk;
    SequenceKeeps(p, U64_MAX);
  }

  /**
   * The numbers do run out: after as many outputs as there are numbers the next one repeats the last number, and the
   * frames no longer tile.
   */
  method NumbersRunOut(id: Id) returns (frames: seq<Frame>)
    ensures |frames| == U64_MAX + 1 && forall upto :: !Tiles(frames, upto)
  {
    hide Ledger, Tiles;
    var sub := new ActionSubscription();
    frames := [];
    for i := 0 to U64_MAX
      invariant fresh(sub) && fresh(sub.gap) && sub.Valid() && sub.sequence == i && sub.gap.firstMissing == None
      invariant frames == sub.frames && |frames| == i
    {
      var sent, _ := sub.PushActionOutput(id, true, false, Sent);
      frames := frames + [sent.value];
    }
    SaturatedOutputRepeats(frames, sub.outputs, sub.lags, sub.gap.Value(), id, {}, NO_GAP);
    var sent, _ := sub.PushActionOutput(id, true, false, Sent);
    frames := frames + [sent.value];
  }

  // ---------- Whole subscriptions ----------

  datatype Event =
    | OutputLine(id: Id, valid: bool, oversize: bool, queue: Queue)
    | Lagged
    | Heartbeat

  predicate IsOutput(e: Event)
  {
    e.OutputLine? && e.valid
  }

  predicate IsSent(e: Event)
  {
    IsOutput(e) && !e.oversize && e.queue == Sent
  }

  predicate IsClosed(e: Event)
  {
    IsOutput(e) && !e.oversize && e.queue == Closed
  }

  /** Something was lost since the last frame was queued. */
  predicate GapOpen(events: seq<Event>)
  {
    events != [] &&
    var init, last := events[..|events| - 1], events[|events| - 1];
    match last
    case OutputLine(_, valid, _, _) => if valid then !IsSent(last) else GapOpen(init)
    case Lagged => true
    case Heartbeat => false
  }

  predicate Flushes(before: seq<Event>, e: Event)
  {
    e.Heartbeat? && GapOpen(before)
  }

  /** Every output takes a number, and so does a heartbeat that announces a gap. */
  function NumbersUsed(events: seq<Event>): nat
  {
    if events == [] then 0
    else
      var init, last := events[..|events| - 1], events[|events| - 1];
      NumbersUsed(init) + if IsOutput(last) || Flushes(init, last) then 1 else 0
  }

  /** The number of an output, or the one before which a lag lost outputs. */
  function NumberAt(events: seq<Event>, e: nat): nat
    requires e < |events|
  {
    var used := NumbersUsed(events[..e]);
    if events[e].Lagged? then NextNumber(used) else used + 1
  }

  /** The numbers last for event `e`. */
  predicate NumbersLast(events: seq<Event>, e: nat)
    requires e < |events|
  {
    var used, open := NumbersUsed(events[..e]), GapOpen(events[..e]);
    && (IsOutput(events[e]) ==> used < U64_MAX)
    && ((IsSent(events[e]) && open) || Flushes(events[..e], events[e]) ==> used + 1 < U64_MAX)
    && (events[e].Lagged? ==> used < U64_MAX || open)
  }

  /** The first number of the open gap. */
  function FirstLost(events: seq<Event>): nat
  {
    if events == [] then 0
    else
      var init, last := events[..|events| - 1], events[|events| - 1];
      if GapOpen(init) || !GapOpen(events) then FirstLost(init)
      else if last.Lagged? then NextNumber(NumbersUsed(init))
      else NumbersUsed(init) + 1
  }

  /** The ids of the outputs lost in the open gap. */
  function LostIds(events: seq<Event>): set<Id>
  {
    if events == [] then {}
    else
      var init, last := events[..|events| - 1], events[|events| - 1];
      if IsSent(last) || last.Heartbeat? then {}
      else if IsOutput(last) then LostIds(init) + {last.id}
      else LostIds(init)
  }

  /** Outputs were lost unseen in the open gap. */
  predicate LostUnseen(events: seq<Event>)
  {
    events != [] &&
    var init, last := events[..|events| - 1], events[|events| - 1];
    last.Lagged? || (!IsSent(last) && !last.Heartbeat? && LostUnseen(init))
  }

  /** The frame that event `e` queues: the output itself if nothing was lost since the frame before, else a gap. */
  ghost function FrameOf(before: seq<Event>, e: Event): seq<Frame>
  {
    var n := NumbersUsed(before) + 1;
    if IsSent(e) && !GapOpen(before) then [Output(n, e.id)]
    else if IsSent(e) then [Gap(FirstLost(before), n + 1, Named(LostIds(before) + {e.id}, LostUnseen(before)))]
    else if Flushes(before, e) then [Gap(FirstLost(before), n + 1, Named(LostIds(before), LostUnseen(before)))]
    else []
  }

  ghost function FramesOf(events: seq<Event>): seq<Frame>
  {
    if events == [] then []
    else
      var init := events[..|events| - 1];
      FramesOf(init) + FrameOf(init, events[|events| - 1])
  }

  /** The pending gap is the open one: its first number, and exactly the ids lost in it, or everything for a cause. */
  ghost predicate IsPending(p: Pending, events: seq<Event>)
  {
    && p.first == (if GapOpen(events) then Some(FirstLost(events)) else None)
    && Remembers(p, LostIds(events), LostUnseen(events))
  }

  ghost function OutputsOf(events: seq<Event>): set<(nat, Id)>
  {
    if events == [] then {}
    else
      var init, last := events[..|events| - 1], events[|events| - 1];
      OutputsOf(init) + if IsOutput(last) then {(NumbersUsed(init) + 1, last.id)} else {}
  }

  ghost function LagsOf(events: seq<Event>): set<nat>
  {
    if events == [] then {}
    else
      var init, last := events[..|events| - 1], events[|events| - 1];
      LagsOf(init) + if last.Lagged? then {NextNumber(NumbersUsed(init))} else {}
  }

  /** Each output has its own number, in order. */
  lemma {:induction false} OutputHasNumber(events: seq<Event>, n: nat, e: nat)
    requires e < n <= |events|
    ensures IsOutput(events[e]) ==> (NumberAt(events, e), events[e].id) in OutputsOf(events[..n])
    ensures events[e].Lagged? ==> NumberAt(events, e) in LagsOf(events[..n])
    decreases n
  {
    assert events[..n][..n - 1] == events[..n - 1];
    if e < n - 1 {
      OutputHasNumber(events, n - 1, e);
    }
  }

  /** What one more event adds. */
  lemma OneMoreEvent(events: seq<Event>, k: nat)
    requires k < |events|
    ensures var before, after, e := events[..k], events[..k + 1], events[k];
            && GapOpen(after) ==
                 (if IsOutput(e) then !IsSent(e) else if e.OutputLine? then GapOpen(before) else e.Lagged?)
            && NumbersUsed(after) == NumbersUsed(before) + (if IsOutput(e) || Flushes(before, e) then 1 else 0)
            && FramesOf(after) == FramesOf(before) + FrameOf(before, e)
            && OutputsOf(after) == OutputsOf(before) + (if IsOutput(e) then {(NumbersUsed(before) + 1, e.id)} else {})
            && LagsOf(after) == LagsOf(before) + (if e.Lagged? then {NextNumber(NumbersUsed(before))} else {})
  {
    assert events[..k + 1][..k] == events[..k];
  }

  lemma OneMoreLoss(events: seq<Event>, k: nat)
    requires k < |events|
    ensures var before, after, e := events[..k], events[..k + 1], events[k];
            && (GapOpen(before) ==> FirstLost(after) == FirstLost(before))
            && (!GapOpen(before) && GapOpen(after) ==>
                  FirstLost(after) == if e.Lagged? then NextNumber(NumbersUsed(before)) else NumbersUsed(before) + 1)
            && LostIds(after) == (if IsSent(e) || e.Heartbeat? then {}
                                  else if IsOutput(e) then LostIds(before) + {e.id}
                                  else LostIds(before))
            && LostUnseen(after) == (e.Lagged? || (!IsSent(e) && !e.Heartbeat? && LostUnseen(before)))
  {
    assert events[..k + 1][..k] == events[..k];
  }

  lemma NoEvent(events: seq<Event>)
    ensures !GapOpen(events[..0]) && NumbersUsed(events[..0]) == 0 && FramesOf(events[..0]) == []
    ensures OutputsOf(events[..0]) == {} && LagsOf(events[..0]) == {} && IsPending(NO_GAP, events[..0])
  {
    NothingRemembered();
  }

  lemma PushRemembers(p: Pending, lost: set<Id>, lag: bool, n: nat, id: Id, sent: Option<Frame>, q: Pending)
    requires PendingOk(p) && Remembers(p, lost, lag) && PushedGap(p, n, id, sent, q)
    ensures sent == None ==> Remembers(q, lost + {id}, lag) && q.first == WithSequence(p, n).first
    ensures sent.Some? ==> Remembers(q, {}, false) && q.first == None
    ensures sent.Some? ==>
              sent.value == if p.first == None then Output(n, id)
                            else Gap(p.first.value, NextNumber(n), Named(lost + {id}, lag))
  {
    hide PendingOk, Named, Remembers, WithResource;
    RememberIsExact(p, lost, lag, n, id);
    RememberKeeps(p, n, id);
    assert id in lost + {id};
    TakenIdsAreNamed(WithResource(p, n, id), lost + {id}, lag);
    NothingRemembered();
  }

  /** An output queues the frame it owes and leaves the gap that is open. */
  lemma PushIsExact(events: seq<Event>, k: nat, p: Pending, sent: Option<Frame>, q: Pending)
    requires k < |events| && IsOutput(events[k]) && PendingOk(p) && IsPending(p, events[..k])
    requires NumbersUsed(events[..k]) < U64_MAX
    requires GapOpen(events[..k]) && IsSent(events[k]) ==> NumbersUsed(events[..k]) + 1 < U64_MAX
    requires PushedGap(p, NumbersUsed(events[..k]) + 1, events[k].id, sent, q) && (sent.Some? <==> IsSent(events[k]))
    ensures IsPending(q, events[..k + 1])
    ensures FrameOf(events[..k], events[k]) == if sent.Some? then [sent.value] else []
  {
    hide PendingOk, NumbersUsed, Named, Remembers, PushedGap, GapOpen, FirstLost, LostIds, LostUnseen, FramesOf,
         OutputsOf, LagsOf;
    var before := events[..k];
    OneMoreEvent(events, k);
    OneMoreLoss(events, k);
    PushRemembers(p, LostIds(before), LostUnseen(before), NumbersUsed(before) + 1, events[k].id, sent, q);
  }

  lemma FlushIsExact(events: seq<Event>, k: nat, p: Pending)
    requires k < |events| && events[k].Heartbeat? && IsPending(p, events[..k])
    requires GapOpen(events[..k]) ==> NumbersUsed(events[..k]) + 1 < U64_MAX
    ensures IsPending(NO_GAP, events[..k + 1])
    ensures FrameOf(events[..k], events[k]) ==
              if p.first == None then [] else [Gap(p.first.value, NumbersUsed(events[..k]) + 2, TakenIds(p))]
  {
    hide NumbersUsed, Named, Remembers, GapOpen, FirstLost, LostIds, LostUnseen, FramesOf, OutputsOf, LagsOf;
    OneMoreEvent(events, k);
    OneMoreLoss(events, k);
    TakenIdsAreNamed(p, LostIds(events[..k]), LostUnseen(events[..k]));
    NothingRemembered();
  }

  lemma LagIsExact(events: seq<Event>, k: nat, p: Pending)
    requires k < |events| && events[k].Lagged? && IsPending(p, events[..k])
    ensures IsPending(WithSequence(p, NextNumber(NumbersUsed(events[..k]))).(resyncAll := true), events[..k + 1])
    ensures FrameOf(events[..k], events[k]) == []
  {
    hide NumbersUsed, TooMany, GapOpen, FirstLost, LostIds, LostUnseen, FramesOf, OutputsOf, LagsOf;
    OneMoreEvent(events, k);
    OneMoreLoss(events, k);
  }

  lemma InvalidIsExact(events: seq<Event>, k: nat, p: Pending)
    requires k < |events| && events[k].OutputLine? && !events[k].valid && IsPending(p, events[..k])
    ensures IsPending(p, events[..k + 1]) && FrameOf(events[..k], events[k]) == []
  {
    hide NumbersUsed, Named, Remembers, GapOpen, FirstLost, LostIds, LostUnseen, FramesOf, OutputsOf, LagsOf;
    OneMoreEvent(events, k);
    OneMoreLoss(events, k);
  }

  /** Serves one event: it queues the frame the event calls for and leaves the gap that is open. */
  method ServeEvent(sub: ActionSubscription, events: seq<Event>, k: nat) returns (sent: seq<Frame>)
    requires k < |events| && NumbersLast(events, k) && !IsClosed(events[k])
    requires sub.Valid() && sub.sequence == NumbersUsed(events[..k]) && IsPending(sub.gap.Value(), events[..k])
    requires sub.outputs == OutputsOf(events[..k]) && sub.lags == LagsOf(events[..k])
    requires sub.frames == FramesOf(events[..k])
    modifies sub, sub.gap
    ensures sub.Valid() && sub.sequence == NumbersUsed(events[..k + 1])
    ensures IsPending(sub.gap.Value(), events[..k + 1])
    ensures sub.outputs == OutputsOf(events[..k + 1]) && sub.lags == LagsOf(events[..k + 1])
    ensures sub.frames == FramesOf(events[..k + 1]) == old(sub.frames) + sent
  {
    hide Ledger, GapOpen, NumbersUsed, FramesOf, OutputsOf, LagsOf, IsPending, FrameOf, PushedGap, PendingOk;
    ghost var p := sub.gap.Value();
    OneMoreEvent(events, k);
    PendingIsOpen(p, events[..k]);
    LedgerPending(sub.frames, sub.outputs, sub.lags, sub.sequence, p);
    match events[k] {
      case OutputLine(id, valid, oversize, queue) =>
        var frame, _ := sub.PushActionOutput(id, valid, oversize, queue);
        if valid {
          PushIsExact(events, k, p, frame, sub.gap.Value());
        } else {
          InvalidIsExact(events, k, p);
        }
        sent := if frame.Some? then [frame.value] else [];
      case Lagged =>
        LagIsExact(events, k, p);
        sub.Lag();
        sent := [];
      case Heartbeat =>
        FlushIsExact(events, k, p);
        var frame := sub.FlushGap();
        sent := if frame.Some? then [frame.value] else [];
    }
  }

  /**
   * Over a whole subscription, in production order: the queued frames are exactly those the events call for, a gap
   * naming exactly the outputs lost in it unless some were lost unseen or they are too many to name; they tile the
   * numbers up to the pending gap; every output was queued, is named by the gap that covers its number, or is
   * remembered as pending; outputs the subscription never saw are covered by gaps that ask for everything. This holds
   * through any pattern of full queues, also for dropped gap frames, until the queue closes, for as long as the numbers
   * last.
   */
  method ServeOutput(events: seq<Event>) returns (frames: seq<Frame>, pending: Pending, served: nat)
    requires forall e :: 0 <= e < |events| ==> NumbersLast(events, e)
    // Only a valid output that fits but finds its queue closed ends the subscription.
    ensures served <= |events|
    ensures served < |events| ==>
              && events[served].OutputLine? && events[served].valid && !events[served].oversize
              && events[served].queue == Closed
    ensures forall e :: 0 <= e < served && events[e].OutputLine? && events[e].queue == Closed ==>
              !events[e].valid || events[e].oversize
    ensures frames == FramesOf(events[..served])
    ensures PendingOk(pending) && IsPending(pending, events[..served])
    ensures Tiles(frames, Upto(NumbersUsed(events[..served]), pending))
    ensures forall e :: 0 <= e < served && IsOutput(events[e]) ==>
              Accounted(frames, Upto(NumbersUsed(events[..served]), pending), pending, NumberAt(events, e),
                        events[e].id)
    ensures forall e :: 0 <= e < served && events[e].Lagged? ==>
              LagAccounted(frames, Upto(NumbersUsed(events[..served]), pending), pending, NumberAt(events, e))
  {
    hide Ledger, Accounted, LagAccounted, NumbersUsed, FramesOf, OutputsOf, LagsOf, IsPending, PendingOk;
    var sub := new ActionSubscription();
    frames, served := [], 0;
    NoEvent(events);
    while served < |events| && !IsClosed(events[served])
      invariant served <= |events| && fresh(sub) && fresh(sub.gap) && sub.Valid()
      invariant forall e :: 0 <= e < served ==> !IsClosed(events[e])
      invariant sub.sequence == NumbersUsed(events[..served]) && IsPending(sub.gap.Value(), events[..served])
      invariant frames == sub.frames == FramesOf(events[..served])
      invariant sub.outputs == OutputsOf(events[..served]) && sub.lags == LagsOf(events[..served])
      decreases |events| - served
    {
      assert NumbersLast(events, served);
      var sent := ServeEvent(sub, events, served);
      frames := frames + sent;
      served := served + 1;
    }
    pending := sub.gap.Value();
    SettleAll(frames, events, served, pending);
  }

  /** The ids of all outputs. */
  function AllIds(events: seq<Event>): set<Id>
  {
    set e | e in events && e.OutputLine? && e.valid :: e.id
  }

  lemma {:induction false} LostWere(events: seq<Event>)
    ensures LostIds(events) <= AllIds(events)
    ensures Lagged !in events ==> !LostUnseen(events) && (GapOpen(events) ==> LostIds(events) != {})
  {
    if events != [] {
      var init, last := events[..|events| - 1], events[|events| - 1];
      LostWere(init);
      assert events == init + [last];
    }
  }

  lemma FewIds(some: set<Id>, all: set<Id>)
    requires some <= all && [] !in all && |all| <= 1024 && Sum(Lengths(all)) <= 256 * 1024
    ensures !TooMany(some)
  {
    SubsetSize(some, all);
    SumPart(Lengths(some), Lengths(all));
  }

  /**
   * No gap asks for everything while nothing is lost unseen and the outputs have few enough ids, none of them empty;
   * and a gap names only ids of outputs.
   */
  lemma {:induction false} GapsAreNamed(events: seq<Event>)
    ensures forall f :: f in FramesOf(events) && f.Gap? ==> f.ids <= AllIds(events)
    ensures Lagged !in events && [] !in AllIds(events) && |AllIds(events)| <= 1024
            && Sum(Lengths(AllIds(events))) <= 256 * 1024 ==>
              forall f :: f in FramesOf(events) && f.Gap? ==> f.ids != {}
  {
    hide Sum, TooMany, GapOpen, FirstLost, LostIds, LostUnseen, NumbersUsed;
    if events != [] {
      var init, last := events[..|events| - 1], events[|events| - 1];
      assert events == init + [last];
      LostWere(init);
      MoreIds(init, last);
      var all := AllIds(events);
      if Lagged !in events && [] !in all && |all| <= 1024 && Sum(Lengths(all)) <= 256 * 1024 {
        FewIds(AllIds(init), all);
        SubsetSize(AllIds(init), all);
        SumPart(Lengths(AllIds(init)), Lengths(all));
        FewIds(LostIds(init), all);
        if IsOutput(last) {
          FewIds(LostIds(init) + {last.id}, all);
        }
      }
      GapsAreNamed(init);
    }
  }

  lemma MoreIds(events: seq<Event>, e: Event)
    ensures AllIds(events) <= AllIds(events + [e])
    ensures IsOutput(e) ==> e.id in AllIds(events + [e])
  {
    var more := events + [e];
    forall id | id in AllIds(events) ensures id in AllIds(more) {
      var o :| o in events && o.OutputLine? && o.valid && o.id == id;
      assert o in more;
    }
    assert e in more;
  }

  lemma PendingIsOpen(p: Pending, events: seq<Event>)
    requires IsPending(p, events)
    ensures p.first.Some? <==> GapOpen(events)
  {
  }

  lemma SettleAll(frames: seq<Frame>, events: seq<Event>, n: nat, p: Pending)
    requires n <= |events| && Ledger(frames, OutputsOf(events[..n]), LagsOf(events[..n]), NumbersUsed(events[..n]), p)
    ensures PendingOk(p) && Tiles(frames, Upto(NumbersUsed(events[..n]), p))
    ensures forall e :: 0 <= e < n && IsOutput(events[e]) ==>
              Accounted(frames, Upto(NumbersUsed(events[..n]), p), p, NumberAt(events, e), events[e].id)
    ensures forall e :: 0 <= e < n && events[e].Lagged? ==>
              LagAccounted(frames, Upto(NumbersUsed(events[..n]), p), p, NumberAt(events, e))
  {
    hide Accounted, LagAccounted, Tiles, PendingOk;
    forall e: nat | e < n
      ensures IsOutput(events[e]) ==>
                Accounted(frames, Upto(NumbersUsed(events[..n]), p), p, NumberAt(events, e), events[e].id)
      ensures events[e].Lagged? ==>
                LagAccounted(frames, Upto(NumbersUsed(events[..n]), p), p, NumberAt(events, e))
    {
      OutputHasNumber(events, n, e);
    }
  }
}
