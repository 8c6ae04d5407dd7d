// The input session manager: the object every connection shares.
module InputSessions {
  import opened Basics
  import opened InputControls
  import opened InputSession

  function KeysOf(active: Sessions): Pressed
  {
    map l | l in active :: active[l].held.keys
  }

  function ButtonsOf(active: Sessions): Pressed
  {
    map l | l in active :: active[l].held.buttons
  }

  /** What is down natively when `active` are the sessions. */
  function HeldBy(active: Sessions): Held
  {
    Held(Union(KeysOf(active)), Union(ButtonsOf(active)))
  }

  /** The same while the session of `lease` is taken out and holds `held`. */
  function HeldWith(active: Sessions, lease: Lease, held: Held): Held
  {
    Held(Union(KeysOf(active)[lease := held.keys]), Union(ButtonsOf(active)[lease := held.buttons]))
  }

  ghost predicate Tracks(active: Sessions, lease: Lease, held: Held, keyCounts: map<nat, nat>,
                         buttonCounts: map<nat, nat>)
  {
    Exact(KeysOf(active)[lease := held.keys], keyCounts)
    && Exact(ButtonsOf(active)[lease := held.buttons], buttonCounts)
  }

  ghost predicate Counted(active: Sessions, keyCounts: map<nat, nat>, buttonCounts: map<nat, nat>)
  {
    Exact(KeysOf(active), keyCounts) && Exact(ButtonsOf(active), buttonCounts)
  }

  /** Taking a session out of the table and putting it back changes no count. */
  lemma PutBack(active: Sessions, lease: Lease, s: Session, keyCounts: map<nat, nat>, buttonCounts: map<nat, nat>)
    requires lease !in active
    ensures Tracks(active, lease, s.held, keyCounts, buttonCounts) <==>
              Counted(active[lease := s], keyCounts, buttonCounts)
    ensures HeldWith(active, lease, s.held) == HeldBy(active[lease := s])
  {
    assert KeysOf(active[lease := s]) == KeysOf(active)[lease := s.held.keys];
    assert ButtonsOf(active[lease := s]) == ButtonsOf(active)[lease := s.held.buttons];
  }

  /** A session that holds nothing may leave. */
  lemma LeaveEmpty(active: Sessions, lease: Lease, keyCounts: map<nat, nat>, buttonCounts: map<nat, nat>)
    requires lease !in active && Tracks(active, lease, NOTHING, keyCounts, buttonCounts)
    ensures Counted(active, keyCounts, buttonCounts) && HeldWith(active, lease, NOTHING) == HeldBy(active)
  {
    SameHolders(KeysOf(active)[lease := {}], KeysOf(active), keyCounts);
    SameHolders(ButtonsOf(active)[lease := {}], ButtonsOf(active), buttonCounts);
  }

  lemma EnterEmpty(active: Sessions, lease: Lease, keyCounts: map<nat, nat>, buttonCounts: map<nat, nat>)
    requires lease !in active && Counted(active, keyCounts, buttonCounts)
    ensures Tracks(active, lease, NOTHING, keyCounts, buttonCounts)
            && HeldWith(active, lease, NOTHING) == HeldBy(active)
  {
    SameHolders(KeysOf(active), KeysOf(active)[lease := {}], keyCounts);
    SameHolders(ButtonsOf(active), ButtonsOf(active)[lease := {}], buttonCounts);
  }

  /** Identifiers are not zero. */
  function LeaseFor(sessionId: nat, epoch: nat): Lease
  {
    Lease(if sessionId == 0 then 1 else sessionId, if epoch == 0 then 1 else epoch)
  }

  // ---------- One event ----------

  lemma KeyDown(active: Sessions, lease: Lease, held: Held, e: Event, keyCounts: map<nat, nat>,
                buttonCounts: map<nat, nat>)
    requires lease !in active && Tracks(active, lease, held, keyCounts, buttonCounts) && e.Key? && e.down
             && e.usage !in held.keys
    ensures var held', counts := Play1(held, e), keyCounts[e.usage := Count(keyCounts, e.usage) + 1];
            && Tracks(active, lease, held', counts, buttonCounts)
            && HeldWith(active, lease, held') == Play1(HeldWith(active, lease, held), e)
            && (counts[e.usage] == 1 <==> e.usage !in HeldWith(active, lease, held).keys)
  {
    var p := KeysOf(active)[lease := held.keys];
    PressCounts(p, keyCounts, lease, e.usage);
    assert p[lease := p[lease] + {e.usage}] == KeysOf(active)[lease := Play1(held, e).keys];
  }

  lemma ButtonDown(active: Sessions, lease: Lease, held: Held, e: Event, keyCounts: map<nat, nat>,
                   buttonCounts: map<nat, nat>)
    requires lease !in active && Tracks(active, lease, held, keyCounts, buttonCounts) && e.Button? && e.down
             && e.button !in held.buttons
    ensures var held', counts := Play1(held, e), buttonCounts[e.button := Count(buttonCounts, e.button) + 1];
            && Tracks(active, lease, held', keyCounts, counts)
            && HeldWith(active, lease, held') == Play1(HeldWith(active, lease, held), e)
            && (counts[e.button] == 1 <==> e.button !in HeldWith(active, lease, held).buttons)
  {
    var p := ButtonsOf(active)[lease := held.buttons];
    PressCounts(p, buttonCounts, lease, e.button);
    assert p[lease := p[lease] + {e.button}] == ButtonsOf(active)[lease := Play1(held, e).buttons];
  }

  /** Releasing one key: the native key goes up exactly when its counter disappears. */
  lemma KeyUp(active: Sessions, lease: Lease, held: Held, e: Event, keyCounts: map<nat, nat>,
              buttonCounts: map<nat, nat>)
    requires lease !in active && Tracks(active, lease, held, keyCounts, buttonCounts) && e.Key? && !e.down
             && e.usage in held.keys
    ensures e.usage in keyCounts && e.usage in HeldWith(active, lease, held).keys
    ensures var held', counts := Play1(held, e), Decrement(keyCounts, e.usage, 1);
            && Tracks(active, lease, held', counts, buttonCounts)
            && HeldWith(active, lease, held') ==
               (if e.usage in counts then HeldWith(active, lease, held) else Play1(HeldWith(active, lease, held), e))
  {
    var p := KeysOf(active)[lease := held.keys];
    ReleaseCounts(p, keyCounts, lease, e.usage);
    assert p[lease := p[lease] - {e.usage}] == KeysOf(active)[lease := Play1(held, e).keys];
  }

  lemma ButtonUp(active: Sessions, lease: Lease, held: Held, e: Event, keyCounts: map<nat, nat>,
                 buttonCounts: map<nat, nat>)
    requires lease !in active && Tracks(active, lease, held, keyCounts, buttonCounts) && e.Button? && !e.down
             && e.button in held.buttons
    ensures e.button in buttonCounts && e.button in HeldWith(active, lease, held).buttons
    ensures var held', counts := Play1(held, e), Decrement(buttonCounts, e.button, 1);
            && Tracks(active, lease, held', keyCounts, counts)
            && HeldWith(active, lease, held') ==
               (if e.button in counts then HeldWith(active, lease, held) else Play1(HeldWith(active, lease, held), e))
  {
    var p := ButtonsOf(active)[lease := held.buttons];
    ReleaseCounts(p, buttonCounts, lease, e.button);
    assert p[lease := p[lease] - {e.button}] == ButtonsOf(active)[lease := Play1(held, e).buttons];
  }

  /** What is not held natively is held by no session. */
  lemma HeldIncludes(active: Sessions, lease: Lease, held: Held)
    ensures held.keys <= HeldWith(active, lease, held).keys && held.buttons <= HeldWith(active, lease, held).buttons
  {
    var p, q := KeysOf(active)[lease := held.keys], ButtonsOf(active)[lease := held.buttons];
    forall k | k in held.keys ensures k in Union(p) {
      assert k in p[lease];
    }
    forall b | b in held.buttons ensures b in Union(q) {
      assert b in q[lease];
    }
  }

  /** Every repeat among a session's events is of a key that some session holds by then. */
  predicate RepeatsHeld(active: Sessions, lease: Lease, held: Held, events: seq<Event>)
  {
    events == [] ||
    var init := events[..|events| - 1];
    RepeatsHeld(active, lease, held, init)
    && RepeatFits(HeldWith(active, lease, Play(held, init)), events[|events| - 1])
  }

  lemma RepeatsOne(active: Sessions, lease: Lease, held: Held, events: seq<Event>, e: Event)
    ensures RepeatsHeld(active, lease, held, [])
    ensures RepeatsHeld(active, lease, held, events + [e]) <==>
              RepeatsHeld(active, lease, held, events) && RepeatFits(HeldWith(active, lease, Play(held, events)), e)
  {
    assert (events + [e])[..|events + [e]| - 1] == events;
  }

  /** With one session, what is down natively is what it holds. */
  lemma HeldAlone(lease: Lease, held: Held)
    ensures HeldWith(map[], lease, held) == held
  {
    var p, q := KeysOf(map[])[lease := held.keys], ButtonsOf(map[])[lease := held.buttons];
    assert p == map[lease := held.keys] && q == map[lease := held.buttons];
    forall k ensures k in Union(p) <==> k in held.keys {
      assert k in held.keys ==> k in p[lease];
    }
    forall b ensures b in Union(q) <==> b in held.buttons {
      assert b in held.buttons ==> b in q[lease];
    }
  }

  lemma {:induction false} RepeatsAlone(lease: Lease, held: Held, events: seq<Event>)
    ensures RepeatsHeld(map[], lease, held, events) <==> ProperRepeats(held, events)
  {
    if events != [] {
      RepeatsAlone(lease, held, events[..|events| - 1]);
      HeldAlone(lease, Play(held, events[..|events| - 1]));
    }
  }

  /** What a session's events come out as beside the other sessions, in their order. */
  ghost predicate Emitted(active: Sessions, lease: Lease, held: Held, events: seq<Event>, out: seq<Event>)
  {
    if events == [] then out == []
    else
      var init, e := events[..|events| - 1], events[|events| - 1];
      var h := Play(held, init);
      exists k: nat ::
        && k <= |out| && Emitted(active, lease, held, init, out[..k])
        && Piece(HeldWith(active, lease, h), h, e, HeldWith(active, lease, Play1(h, e)), out[k..])
  }

  lemma NothingEmitted(active: Sessions, lease: Lease, held: Held)
    ensures Emitted(active, lease, held, [], [])
  {
  }

  lemma EmittedOne(active: Sessions, lease: Lease, held: Held, events: seq<Event>, e: Event, out: seq<Event>,
                   more: seq<Event>)
    requires Emitted(active, lease, held, events, out)
    requires var h := Play(held, events);
             Piece(HeldWith(active, lease, h), h, e, HeldWith(active, lease, Play1(h, e)), more)
    ensures Emitted(active, lease, held, events + [e], out + more)
  {
    hide Piece, HeldWith, Play;
    var all, k := out + more, |out|;
    assert (events + [e])[..|events + [e]| - 1] == events;
    assert all[..k] == out && all[k..] == more;
  }

  lemma {:induction false} EmittedAlone(lease: Lease, held: Held, events: seq<Event>, out: seq<Event>)
    requires Emitted(map[], lease, held, events, out)
    ensures ComesOut(held, events, out)
  {
    hide Piece, HeldWith, Play, Play1;
    if events != [] {
      var init, e := events[..|events| - 1], events[|events| - 1];
      var h := Play(held, init);
      var k: nat :| k <= |out| && Emitted(map[], lease, held, init, out[..k])
                    && Piece(HeldWith(map[], lease, h), h, e, HeldWith(map[], lease, Play1(h, e)), out[k..]);
      EmittedAlone(lease, held, init, out[..k]);
      HeldAlone(lease, h);
      HeldAlone(lease, Play1(h, e));
    }
  }

  lemma PlayNothing(h: Held, e: Event)
    ensures Play(h, []) == h && Clean(h, []) && ProperRepeats(h, []) && Others([]) == []
    ensures ProperRepeats(h, [e]) <==> RepeatFits(h, e)
    ensures Play(h, [e]) == Play1(h, e) && (Clean(h, [e]) <==> Fits(h, e))
    ensures Others([e]) == if e.Other? then [e] else []
  {
    PlayOne(h, [], e);
    assert [] + [e] == [e];
  }

  // ---------- One frame ----------

  /** Judges a frame and updates the session's own bookkeeping. */
  method CheckFrame(s: Session, device: string, sequence: nat, elapsedUs: nat, checkedAt: nat, now: nat)
    returns (s': Session, refusal: Option<Refusal>)
    ensures (s', refusal) == AcceptFrame(s, device, sequence, elapsedUs, checkedAt, now) && s'.held == s.held
            && s'.totals == s.totals
    ensures refusal == None ==> s'.sequence == sequence
  {
    if s.device != device {
      return s, Some(Mismatch);
    }
    if s.lastActivity + INPUT_LEASE_TIMEOUT <= checkedAt {
      return s, Some(LeaseExpired);
    }
    if sequence != SatAdd(s.sequence, 1) {
      return s, Some(OutOfOrder);
    }
    if elapsedUs < s.elapsedUs {
      return s, Some(ClockBackwards);
    }
    var frames := s.frames;
    while frames != [] && frames[0] + RATE_WINDOW <= now
      invariant Recent(frames, now) == Recent(s.frames, now)
      decreases |frames|
    {
      frames := frames[1..];
    }
    if |frames| >= MAX_RELIABLE_FRAMES_PER_SECOND {
      return s.(frames := frames), Some(RateLimited);
    }
    return s.(frames := frames + [now], sequence := sequence, elapsedUs := elapsedUs, lastActivity := now), None;
  }

  // ---------- What a session was granted ----------

  /** Times and client clock readings of all accepted frames, and the sum of all motion handed out. */
  datatype History = History(accepted: seq<nat>, stamps: seq<nat>, moved: Motion)

  const EMPTY_HISTORY := History([], [], Motion(0, 0, 0, 0))

  function WithFrame(h: History, now: nat, elapsedUs: nat): History
  {
    h.(accepted := h.accepted + [now], stamps := h.stamps + [elapsedUs])
  }

  function WithMotion(h: History, delta: Motion): History
  {
    h.(moved := Plus(h.moved, delta))
  }

  /**
   * The n-th frame had number n, frames are spaced, client clocks never run backwards, and motion adds up to the
   * totals.
   */
  ghost predicate SessionOk(s: Session, h: History, clock: nat)
  {
    Recorded(s, h.accepted, clock) && Stamped(s, h.stamps) && s.totals == h.moved && InRange(s.totals)
  }

  ghost predicate Remembered(active: Sessions, history: map<Lease, History>, clock: nat)
  {
    history.Keys == active.Keys && forall l :: l in active ==> SessionOk(active[l], history[l], clock)
  }

  // ---------- The manager ----------

  class InputSessionManager {
    var active: Sessions
    var keyCounts: map<nat, nat>
    var buttonCounts: map<nat, nat>

    /** The native state after every event handed out so far. */
    ghost var native: Held
    /** What each session was granted so far. */
    ghost var history: map<Lease, History>
    ghost var clock: nat

    ghost predicate Valid()
      reads this
    {
      Counted(active, keyCounts, buttonCounts) && native == HeldBy(active) && Remembered(active, history, clock)
    }

    constructor ()
      ensures Valid() && active == map[] && history == map[] && native == NOTHING && clock == 0
      ensures keyCounts == map[] && buttonCounts == map[]
    {
      active, keyCounts, buttonCounts := map[], map[], map[];
      native, history, clock := NOTHING, map[], 0;
    }

    /** Grants a lease only while there is none; `sessionId` and `epoch` are random draws. */
    method Acquire(device: string, routed: bool, sessionId: nat, epoch: nat, now: nat) returns (r: Outcome<Lease>)
      requires Valid() && clock <= now
      modifies this
      ensures Valid() && clock == now && native == old(native)
      ensures r.Ok? <==> old(active) == map[]
      ensures r.Ok? ==>
                && r.value == LeaseFor(sessionId, epoch) && r.value.sessionId > 0 && r.value.epoch > 0
                && active == map[r.value := Session(device, now, 0, 0, [], Motion(0, 0, 0, 0), NOTHING, routed)]
                && history == map[r.value := EMPTY_HISTORY]
      ensures r.Refused? ==> active == old(active) && history == old(history)
      ensures r.Refused? ==> exists l :: l in active && r.refusal == AlreadyControlled(active[l].device, l.epoch)
    {
      hide Counted, Remembered, SessionOk, HeldBy;
      RememberedLater(active, history, clock, now);
      clock := now;
      RememberedKeys(active, history, clock);
      if active != map[] {
        var l :| l in active;
        return Refused(AlreadyControlled(active[l].device, l.epoch));
      }
      var lease := LeaseFor(sessionId, epoch);
      var s := Session(device, now, 0, 0, [], Motion(0, 0, 0, 0), NOTHING, routed);
      EnterEmpty(active, lease, keyCounts, buttonCounts);
      PutBack(active, lease, s, keyCounts, buttonCounts);
      NewIsOk(s, now);
      RememberedUpdate(active, history, lease, s, EMPTY_HISTORY, now);
      active := active[lease := s];
      history := history[lease := EMPTY_HISTORY];
      r := Ok(lease);
    }

    method AcceptReliable(lease: Lease, device: string, sequence: nat, elapsedUs: nat, checkedAt: nat, now: nat)
      returns (r: Outcome<nat>)
      requires Valid() && clock <= checkedAt <= now
      modifies `active, `history, `clock
      ensures Valid() && clock == now
      ensures lease !in old(active) ==> r == Refused(NotActive) && active == old(active) && history == old(history)
      ensures lease in old(active) ==>
                && lease in old(history)
                && var (s, refusal) := AcceptFrame(old(active)[lease], device, sequence, elapsedUs, checkedAt, now);
                && active == old(active)[lease := s]
                   && r == (if refusal == None then Ok(sequence) else Refused(refusal.value))
                && var before := old(history)[lease];
                && history == old(history)[lease := if r.Ok? then WithFrame(before, now, elapsedUs) else before]
                && (r.Ok? ==> sequence == Min(|history[lease].accepted|, U64_MAX))
      ensures lease in old(active) ==>
                && var s, times := old(active)[lease], old(history)[lease].accepted;
                && r == (if s.device != device then Refused(Mismatch)
                         else if s.lastActivity + 5_000 <= checkedAt then Refused(LeaseExpired)
                         else if sequence != Min(|times| + 1, U64_MAX) then Refused(OutOfOrder)
                         else if elapsedUs < s.elapsedUs then Refused(ClockBackwards)
                         else if |WithinSecond(times, now)| >= 240 then Refused(RateLimited)
                         else Ok(sequence))
                && var s' := active[lease];
                && s'.device == s.device && s'.totals == s.totals && s'.held == s.held && s'.routed == s.routed
                && s'.lastActivity == (if r.Ok? then now else s.lastActivity)
                && s'.elapsedUs == (if r.Ok? then elapsedUs else s.elapsedUs)
    {
      hide Counted, Remembered, SessionOk, HeldBy, AcceptFrame, WithinSecond;
      RememberedLater(active, history, clock, now);
      RememberedAt(active, history, clock, lease);
      if lease !in active {
        clock := now;
        return Refused(NotActive);
      }
      ghost var h := history[lease];
      FrameIsOk(active[lease], h, clock, device, sequence, elapsedUs, checkedAt, now);
      clock := now;
      var s, refusal := CheckFrame(active[lease], device, sequence, elapsedUs, checkedAt, now);
      ghost var h' := if refusal == None then WithFrame(h, now, elapsedUs) else h;
      SameHeld(active, lease, s, keyCounts, buttonCounts);
      RememberedUpdate(active, history, lease, s, h', now);
      active := active[lease := s];
      history := history[lease := h'];
      r := if refusal.Some? then Refused(refusal.value) else Ok(sequence);
    }

    /** Turns new cumulative totals into a change, within the protocol's limits. */
    method AcceptOrderedMotion(lease: Lease, device: string, totals: Motion, checkedAt: nat, now: nat)
      returns (r: Outcome<Motion>)
      requires Valid() && clock <= checkedAt <= now && InRange(totals)
      modifies `active, `history, `clock
      ensures Valid() && clock == now
      ensures lease !in old(active) ==> r == Refused(NotActive)
      ensures lease in old(active) ==>
                && var s := old(active)[lease];
                && var delta := Minus(totals, s.totals);
                && r == (if s.device != device then Refused(Mismatch)
                         else if s.lastActivity + 5_000 <= checkedAt then Refused(LeaseExpired)
                         else if !InRange(delta) then Refused(TotalOverflow)
                         else if Abs(delta.pointerX) > 8192 * 256 || Abs(delta.pointerY) > 8192 * 256
                                 || Abs(delta.scrollX) > 2048 * 256 || Abs(delta.scrollY) > 2048 * 256
                         then Refused(DeltaTooLarge)
                         else Ok(delta))
      ensures r.Ok? ==>
                && Plus(old(active)[lease].totals, r.value) == totals && Deliverable(r.value)
                && active == old(active)[lease := old(active)[lease].(totals := totals, lastActivity := now)]
                && lease in old(history) && history == old(history)[lease := WithMotion(old(history)[lease], r.value)]
      ensures r.Refused? ==> active == old(active) && history == old(history)
    {
      hide Counted, Remembered, SessionOk, HeldBy;
      RememberedLater(active, history, clock, now);
      clock := now;
      RememberedAt(active, history, clock, lease);
      if lease !in active {
        return Refused(NotActive);
      }
      var s := active[lease];
      if s.device != device {
        return Refused(Mismatch);
      }
      if s.lastActivity + INPUT_LEASE_TIMEOUT <= checkedAt {
        return Refused(LeaseExpired);
      }
      var delta := Minus(totals, s.totals);
      if !InRange(delta) {
        return Refused(TotalOverflow);
      }
      if Abs(delta.pointerX) > MAX_POINTER_DELTA || Abs(delta.pointerY) > MAX_POINTER_DELTA
         || Abs(delta.scrollX) > MAX_SCROLL_DELTA || Abs(delta.scrollY) > MAX_SCROLL_DELTA {
        return Refused(DeltaTooLarge);
      }
      var s' := s.(totals := totals, lastActivity := now);
      ghost var h' := WithMotion(history[lease], delta);
      MotionIsOk(s, history[lease], now, delta, s');
      SameHeld(active, lease, s', keyCounts, buttonCounts);
      RememberedUpdate(active, history, lease, s', h', now);
      active := active[lease := s'];
      history := history[lease := h'];
      r := Ok(delta);
    }

    /** One event of a session whose state `held` is taken out of the table. */
    method NormalizeOne(ghost lease: Lease, held: Held, e: Event) returns (held': Held, out: seq<Event>)
      requires lease !in active && Tracks(active, lease, held, keyCounts, buttonCounts)
      modifies `keyCounts, `buttonCounts
      ensures Tracks(active, lease, held', keyCounts, buttonCounts) && held' == Play1(held, e)
      ensures var before, after := HeldWith(active, lease, held), HeldWith(active, lease, held');
              && after == Play(before, out) && Clean(before, out) && Others(out) == (if e.Other? then [e] else [])
              && Piece(before, held, e, after, out) && (ProperRepeats(before, out) <==> RepeatFits(before, e))
      ensures e.Key? && e.down && e.repeat && out == [e] ==>
                (e.usage in HeldWith(active, lease, held).keys <==> e.usage in held.keys)
    {
      hide Tracks, HeldWith;
      ghost var before := HeldWith(active, lease, held);
      PlayNothing(before, e);
      HeldIncludes(active, lease, held);
      held', out := held, [];
      match e
      case Key(k, down, repeat) =>
        if down {
          if k !in held.keys {
            KeyDown(active, lease, held, e, keyCounts, buttonCounts);
            held' := held.(keys := held.keys + {k});
            keyCounts := keyCounts[k := Count(keyCounts, k) + 1];
            if keyCounts[k] == 1 {
              out := [e];
            }
          } else {
            assert Play1(held, e) == held;
            if repeat {
              out := [e];
            }
          }
        } else if k in held.keys {
          KeyUp(active, lease, held, e, keyCounts, buttonCounts);
          held' := held.(keys := held.keys - {k});
          keyCounts := Decrement(keyCounts, k, 1);
          if k !in keyCounts {
            out := [e];
          }
        }
      case Button(b, down, clicks) =>
        if down {
          if b !in held.buttons {
            ButtonDown(active, lease, held, e, keyCounts, buttonCounts);
            held' := held.(buttons := held.buttons + {b});
            buttonCounts := buttonCounts[b := Count(buttonCounts, b) + 1];
            if buttonCounts[b] == 1 {
              out := [e];
            }
          }
        } else if b in held.buttons {
          ButtonUp(active, lease, held, e, keyCounts, buttonCounts);
          held' := held.(buttons := held.buttons - {b});
          buttonCounts := Decrement(buttonCounts, b, 1);
          if b !in buttonCounts {
            out := [e];
          }
        }
      case ReleaseAll =>
        out := ReleaseSessionState(lease, held);
        UpsAreProper(before, out);
        held' := NOTHING;
      case Other(_) =>
        out := [e];
    }

    /** Releases everything a session holds; only what no other session holds goes up natively. */
    method ReleaseSessionState(ghost lease: Lease, held: Held) returns (out: seq<Event>)
      requires lease !in active && Tracks(active, lease, held, keyCounts, buttonCounts)
      modifies `keyCounts, `buttonCounts
      ensures Tracks(active, lease, NOTHING, keyCounts, buttonCounts)
      ensures HeldWith(active, lease, NOTHING) == Play(HeldWith(active, lease, held), out)
      ensures Clean(HeldWith(active, lease, held), out) && Others(out) == []
      ensures forall e :: e in out ==> (e.Key? || e.Button?) && !e.down
    {
      hide Tracks, HeldWith, Clean, Others;
      ghost var before := HeldWith(active, lease, held);
      PlayNothing(before, ReleaseAll);
      out := [];
      var left := held;
      while left.keys != {}
        invariant Tracks(active, lease, left, keyCounts, buttonCounts) && left.buttons == held.buttons
        invariant HeldWith(active, lease, left) == Play(before, out) && Clean(before, out) && Others(out) == []
        invariant forall e :: e in out ==> (e.Key? || e.Button?) && !e.down
        decreases |left.keys|
      {
        var k :| k in left.keys;
        var e := Key(k, false, false);
        KeyUp(active, lease, left, e, keyCounts, buttonCounts);
        keyCounts := Decrement(keyCounts, k, 1);
        if k !in keyCounts {
          PlayOne(before, out, e);
          out := out + [e];
        }
        left := left.(keys := left.keys - {k});
      }
      while left.buttons != {}
        invariant Tracks(active, lease, left, keyCounts, buttonCounts) && left.keys == {}
        invariant HeldWith(active, lease, left) == Play(before, out) && Clean(before, out) && Others(out) == []
        invariant forall e :: e in out ==> (e.Key? || e.Button?) && !e.down
        decreases |left.buttons|
      {
        var b :| b in left.buttons;
        var e := Button(b, false, 1);
        ButtonUp(active, lease, left, e, keyCounts, buttonCounts);
        buttonCounts := Decrement(buttonCounts, b, 1);
        if b !in buttonCounts {
          PlayOne(before, out, e);
          out := out + [e];
        }
        left := left.(buttons := left.buttons - {b});
      }
      assert left == NOTHING;
    }

    /** Turns one session's events into native ones. */
    method NormalizeReliableEvents(lease: Lease, device: string, events: seq<Event>) returns (r: Outcome<seq<Event>>)
      requires Valid()
      modifies `active, `keyCounts, `buttonCounts, `native
      ensures Valid()
      ensures r.Ok? <==> lease in old(active) && old(active)[lease].device == device
      ensures r.Refused? ==> r.refusal == if lease in old(active) then Mismatch else NotActive
      ensures r.Ok? ==>
                && active == old(active)[lease := old(active)[lease].(held := Play(old(active)[lease].held, events))]
                && native == Play(old(native), r.value) && Clean(old(native), r.value)
                && Others(r.value) == Others(events)
                && Emitted(old(active) - {lease}, lease, old(active)[lease].held, events, r.value)
                && (ProperRepeats(old(native), r.value) <==>
                      RepeatsHeld(old(active) - {lease}, lease, old(active)[lease].held, events))
      ensures r.Refused? ==> active == old(active) && native == old(native)
    {
      hide Counted, Remembered, SessionOk, HeldBy, Tracks, HeldWith, Clean, Others, Play, ProperRepeats, RepeatFits,
           RepeatsHeld, Emitted, Piece;
      RememberedAt(active, history, clock, lease);
      if lease !in active {
        return Refused(NotActive);
      }
      var current := active[lease];
      if current.device != device {
        return Refused(Mismatch);
      }
      ghost var whole := active;
      active := active - {lease};
      assert active[lease := current] == whole;
      PutBack(active, lease, current, keyCounts, buttonCounts);
      var held, out := current.held, [];
      PlayNothing(native, ReleaseAll);
      PlayNothing(current.held, ReleaseAll);
      assert events[..0] == [];
      RepeatsOne(active, lease, current.held, [], ReleaseAll);
      NothingEmitted(active, lease, current.held);
      for i := 0 to |events|
        invariant active == whole - {lease}
        modifies `keyCounts, `buttonCounts
        invariant Tracks(active, lease, held, keyCounts, buttonCounts) && held == Play(current.held, events[..i])
        invariant HeldWith(active, lease, held) == Play(native, out) && Clean(native, out)
        invariant Others(out) == Others(events[..i])
        invariant Emitted(active, lease, current.held, events[..i], out)
        invariant ProperRepeats(native, out) <==> RepeatsHeld(active, lease, current.held, events[..i])
      {
        PlayOne(current.held, events[..i], events[i]);
        assert events[..i] + [events[i]] == events[..i + 1];
        RepeatsOne(active, lease, current.held, events[..i], events[i]);
        var next, more := NormalizeOne(lease, held, events[i]);
        EmittedOne(active, lease, current.held, events[..i], events[i], out, more);
        PlayAll(native, out, more);
        held, out := next, out + more;
      }
      assert events[..|events|] == events;
      ghost var s' := current.(held := held);
      PutBack(active, lease, s', keyCounts, buttonCounts);
      EventsAreOk(current, history[lease], clock, s');
      RememberedUpdate(whole, history, lease, s', history[lease], clock);
      assert history[lease := history[lease]] == history;
      active := active[lease := current.(held := held)];
      assert active == whole[lease := s'];
      native := Play(native, out);
      r := Ok(out);
    }

    /** Removes a session; what only it held goes up. */
    method Release(lease: Lease) returns (out: seq<Event>)
      requires Valid()
      modifies `active, `keyCounts, `buttonCounts, `native, `history
      ensures Valid() && active == old(active) - {lease} && history == old(history) - {lease}
      ensures native == Play(old(native), out) && Clean(old(native), out) && Others(out) == []
      ensures forall e :: e in out ==> (e.Key? || e.Button?) && !e.down
      ensures active == map[] ==> native == NOTHING
      ensures lease !in old(active) ==> out == []
    {
      hide Counted, Remembered, HeldBy, Tracks, HeldWith, Clean, Others, Play;
      PlayNothing(native, ReleaseAll);
      if lease !in active {
        assert active - {lease} == active;
        RememberedKeys(active, history, clock);
        assert history - {lease} == history;
        out := [];
      } else {
        var current := active[lease];
        ghost var whole := active;
        active := active - {lease};
        assert active[lease := current] == whole;
        PutBack(active, lease, current, keyCounts, buttonCounts);
        out := ReleaseSessionState(lease, current.held);
        LeaveEmpty(active, lease, keyCounts, buttonCounts);
        native := Play(native, out);
        RememberedRemove(whole, history, lease, clock);
        history := history - {lease};
      }
      NobodyHolds(active);
    }
  }

  // ---------- Histories ----------

  lemma RememberedLater(active: Sessions, history: map<Lease, History>, clock: nat, now: nat)
    requires clock <= now && Remembered(active, history, clock)
    ensures Remembered(active, history, now)
  {
    forall l | l in active ensures SessionOk(active[l], history[l], now) {
      RecordedLater(active[l], history[l].accepted, clock, now);
    }
  }

  lemma RememberedAt(active: Sessions, history: map<Lease, History>, clock: nat, lease: Lease)
    requires Remembered(active, history, clock)
    ensures lease in active ==> lease in history && SessionOk(active[lease], history[lease], clock)
  {
  }

  lemma RememberedKeys(active: Sessions, history: map<Lease, History>, clock: nat)
    requires Remembered(active, history, clock)
    ensures history.Keys == active.Keys
  {
  }

  lemma RememberedUpdate(active: Sessions, history: map<Lease, History>, lease: Lease, s: Session, h: History,
                         clock: nat)
    requires Remembered(active, history, clock) && SessionOk(s, h, clock)
    ensures Remembered(active[lease := s], history[lease := h], clock)
  {
    hide SessionOk;
  }

  lemma RememberedRemove(active: Sessions, history: map<Lease, History>, lease: Lease, clock: nat)
    requires Remembered(active, history, clock)
    ensures Remembered(active - {lease}, history - {lease}, clock)
  {
    hide SessionOk;
  }

  lemma NewIsOk(s: Session, now: nat)
    requires s.sequence == 0 && s.frames == [] && s.totals == Motion(0, 0, 0, 0)
    ensures SessionOk(s, EMPTY_HISTORY, now)
  {
  }

  lemma FrameIsOk(s: Session, h: History, clock: nat, device: string, sequence: nat, elapsedUs: nat, checkedAt: nat,
                  now: nat)
    requires SessionOk(s, h, clock) && clock <= checkedAt <= now
    ensures var (s', refusal) := AcceptFrame(s, device, sequence, elapsedUs, checkedAt, now);
            && SessionOk(s', if refusal == None then WithFrame(h, now, elapsedUs) else h, now)
            && (refusal == None ==> sequence == Min(|h.accepted| + 1, U64_MAX))
            && refusal == (if s.device != device then Some(Mismatch)
                           else if s.lastActivity + 5_000 <= checkedAt then Some(LeaseExpired)
                           else if sequence != Min(|h.accepted| + 1, U64_MAX) then Some(OutOfOrder)
                           else if elapsedUs < s.elapsedUs then Some(ClockBackwards)
                           else if |WithinSecond(h.accepted, now)| >= 240 then Some(RateLimited)
                           else None)
            && s' == s.(frames := s'.frames, sequence := s'.sequence, elapsedUs := s'.elapsedUs,
                        lastActivity := s'.lastActivity)
            && s'.lastActivity == (if refusal == None then now else s.lastActivity)
            && s'.elapsedUs == (if refusal == None then elapsedUs else s.elapsedUs)
  {
    hide Recorded, Stamped, WithinSecond, AcceptFrame;
    FramesAreJudged(s, h.accepted, clock, device, sequence, elapsedUs, checkedAt, now);
    FramesAreOrderedAndSpaced(s, h.accepted, clock, device, sequence, elapsedUs, checkedAt, now);
    FramesAreStamped(s, h.stamps, device, sequence, elapsedUs, checkedAt, now);
  }

  lemma MotionIsOk(s: Session, h: History, clock: nat, delta: Motion, s': Session)
    requires SessionOk(s, h, clock) && InRange(s'.totals) && s'.totals == Plus(s.totals, delta)
             && s' == s.(totals := s'.totals, lastActivity := s'.lastActivity)
    ensures SessionOk(s', WithMotion(h, delta), clock)
  {
    SameRecord(s, s', h.accepted, clock);
  }

  lemma EventsAreOk(s: Session, h: History, clock: nat, s': Session)
    requires SessionOk(s, h, clock) && s' == s.(held := s'.held)
    ensures SessionOk(s', h, clock)
  {
    SameRecord(s, s', h.accepted, clock);
  }

  /** The table with one session replaced by another that holds the same. */
  lemma SameHeld(active: Sessions, lease: Lease, s: Session, keyCounts: map<nat, nat>, buttonCounts: map<nat, nat>)
    requires lease in active && s.held == active[lease].held
    ensures HeldBy(active[lease := s]) == HeldBy(active)
    ensures Counted(active, keyCounts, buttonCounts) ==> Counted(active[lease := s], keyCounts, buttonCounts)
    ensures s == active[lease] ==> active[lease := s] == active
  {
    assert KeysOf(active[lease := s]) == KeysOf(active);
    assert ButtonsOf(active[lease := s]) == ButtonsOf(active);
  }

  lemma SameRecord(s: Session, s': Session, times: seq<nat>, clock: nat)
    requires Recorded(s, times, clock) && s'.frames == s.frames && s'.sequence == s.sequence
    ensures Recorded(s', times, clock)
  {
  }

  lemma NobodyHolds(active: Sessions)
    ensures active == map[] ==> HeldBy(active) == NOTHING
  {
  }
}
