// Whole runs of the input session manager, over any calls of any clients.
module InputRuns {
  import opened Basics
  import opened InputControls
  import opened InputSession
  import opened InputSessions

  /** A call to the manager; `wait` and `delay` advance the clock before and during it. */
  datatype Call =
    | AcquireCall(device: string, routed: bool, sessionId: nat, epoch: nat, wait: nat)
    | FrameCall(lease: Lease, device: string, sequence: nat, elapsedUs: nat, wait: nat, delay: nat)
    | MotionCall(lease: Lease, device: string, totals: Motion, wait: nat, delay: nat)
    | EventsCall(lease: Lease, device: string, events: seq<Event>)
    | ReleaseCall(lease: Lease)

  datatype Answer =
    | Granted(lease: Lease)
    | Accepted
    | Moved(delta: Motion)
    | Handed(events: seq<Event>)
    | Gone(events: seq<Event>)
    | Denied(refusal: Refusal)

  /** Who is in control, as the calls and answers so far tell: `accepted` are the times its frames were accepted at. */
  datatype Control =
    | Idle
    | Control(
        lease: Lease, device: string, lastActivity: nat, elapsedUs: nat, accepted: seq<nat>, totals: Motion, held: Held)

  // ---------- What calls and answers mean ----------

  function HeldIn(c: Control): Held
  {
    if c.Idle? then NOTHING else c.held
  }

  /** The time a call takes before it is judged, and in all. */
  function Wait(call: Call): nat
  {
    if call.AcquireCall? || call.FrameCall? || call.MotionCall? then call.wait else 0
  }

  function Delay(call: Call): nat
  {
    if call.FrameCall? || call.MotionCall? then call.delay else 0
  }

  function ClockAfter(calls: seq<Call>): nat
  {
    if calls == [] then 0
    else
      var n := |calls| - 1;
      ClockAfter(calls[..n]) + Wait(calls[n]) + Delay(calls[n])
  }

  function Next(c: Control, now: nat, call: Call, answer: Answer): Control
  {
    match call
    case AcquireCall(device, _, _, _, wait) =>
      if !answer.Granted? then c else Control(answer.lease, device, now + wait, 0, [], Motion(0, 0, 0, 0), NOTHING)
    case FrameCall(_, _, _, elapsedUs, wait, delay) =>
      var at := now + wait + delay;
      if answer.Accepted? && c.Control?
      then c.(lastActivity := at, elapsedUs := elapsedUs, accepted := c.accepted + [at]) else c
    case MotionCall(_, _, totals, wait, delay) =>
      if answer.Moved? && c.Control? then c.(totals := totals, lastActivity := now + wait + delay) else c
    case EventsCall(_, _, events) =>
      if answer.Handed? && c.Control? then c.(held := Play(c.held, events)) else c
    case ReleaseCall(lease) => if c.Control? && c.lease == lease then Idle else c
  }

  function After(calls: seq<Call>, answers: seq<Answer>): Control
    requires |calls| == |answers|
  {
    if calls == [] then Idle
    else
      var n := |calls| - 1;
      Next(After(calls[..n], answers[..n]), ClockAfter(calls[..n]), calls[n], answers[n])
  }

  /**
   * What a call is owed: a lease exactly while nobody has control; a frame of the session in control is taken exactly
   * within five seconds of its last activity, under the next number, with a client clock that does not go back and
   * after fewer than 240 frames within a second; motion exactly in time and within limits, adding up to the totals;
   * events normalised exactly for the session in control; and nothing but releases when it goes.
   */
  ghost predicate Owed(c: Control, now: nat, call: Call, answer: Answer)
  {
    match call
    case AcquireCall(_, _, sessionId, epoch, _) =>
      if c.Idle? then
        answer == Granted(Lease(if sessionId == 0 then 1 else sessionId, if epoch == 0 then 1 else epoch))
      else answer == Denied(AlreadyControlled(c.device, c.lease.epoch))
    case FrameCall(lease, device, sequence, elapsedUs, wait, delay) =>
      answer == if c.Idle? || c.lease != lease then Denied(NotActive)
                else if c.device != device then Denied(Mismatch)
                else if c.lastActivity + 5_000 <= now + wait then Denied(LeaseExpired)
                else if sequence != Min(|c.accepted| + 1, U64_MAX) then Denied(OutOfOrder)
                else if elapsedUs < c.elapsedUs then Denied(ClockBackwards)
                else if |WithinSecond(c.accepted, now + wait + delay)| >= 240 then Denied(RateLimited)
                else Accepted
    case MotionCall(lease, device, totals, wait, _) =>
      answer == if c.Idle? || c.lease != lease then Denied(NotActive)
                else if c.device != device then Denied(Mismatch)
                else if c.lastActivity + 5_000 <= now + wait then Denied(LeaseExpired)
                else
                  var delta := Minus(totals, c.totals);
                  if !InRange(delta) then Denied(TotalOverflow)
                  else if Abs(delta.pointerX) > 8192 * 256 || Abs(delta.pointerY) > 8192 * 256
                          || Abs(delta.scrollX) > 2048 * 256 || Abs(delta.scrollY) > 2048 * 256
                  then Denied(DeltaTooLarge)
                  else Moved(delta)
    case EventsCall(lease, device, events) =>
      if c.Idle? || c.lease != lease then answer == Denied(NotActive)
      else if c.device != device then answer == Denied(Mismatch)
      else
        answer.Handed? && ComesOut(c.held, events, answer.events)
    case ReleaseCall(lease) =>
      && answer.Gone? && ((c.Control? && c.lease == lease) || answer.events == [])
      && forall e :: e in answer.events ==> (e.Key? || e.Button?) && !e.down
  }

  function Events(answer: Answer): seq<Event>
  {
    if answer.Handed? || answer.Gone? then answer.events else []
  }

  /** Everything the manager handed out. */
  function HandedOut(answers: seq<Answer>): seq<Event>
  {
    if answers == [] then []
    else HandedOut(answers[..|answers| - 1]) + Events(answers[|answers| - 1])
  }

  /** What the service applies: the events of accepted frames, and a release of everything when control ends. */
  function Applied(c: Control, call: Call, answer: Answer): seq<Event>
  {
    if answer.Handed? then answer.events
    else if call.ReleaseCall? && c.Control? && c.lease == call.lease then [ReleaseAll]
    else []
  }

  function AllApplied(calls: seq<Call>, answers: seq<Answer>): seq<Event>
    requires |calls| == |answers|
  {
    if calls == [] then []
    else
      var n := |calls| - 1;
      AllApplied(calls[..n], answers[..n]) + Applied(After(calls[..n], answers[..n]), calls[n], answers[n])
  }

  /** The manager's state is what the calls and answers so far tell. */
  ghost predicate Tells(active: Sessions, history: map<Lease, History>, c: Control)
  {
    if c.Idle? then active == map[]
    else
      && c.lease in active && active == map[c.lease := active[c.lease]]
      && var s := active[c.lease];
      && s.device == c.device && s.lastActivity == c.lastActivity && s.elapsedUs == c.elapsedUs
      && s.totals == c.totals && s.held == c.held
      && c.lease in history && history[c.lease].accepted == c.accepted
  }

  // ---------- One call ----------

  /** The call got what it was owed, the manager tells what follows, and the events it handed out are well formed. */
  ghost predicate Served(c: Control, now: nat, call: Call, answer: Answer, active: Sessions,
                         history: map<Lease, History>, before: Held, native: Held)
  {
    && Tells(active, history, Next(c, now, call, answer)) && Owed(c, now, call, answer)
    && native == Play(before, Events(answer)) && Clean(before, Events(answer))
    && (ProperRepeats(before, Events(answer)) <==>
        (answer.Handed? && call.EventsCall? ==> ProperRepeats(HeldIn(c), call.events)))
  }

  method ServeAcquire(m: InputSessionManager, call: Call, ghost c: Control, now: nat) returns (answer: Answer)
    requires m.Valid() && m.clock == now && Tells(m.active, m.history, c) && call.AcquireCall?
    modifies m
    ensures m.Valid() && m.clock == now + Wait(call) + Delay(call)
    ensures Served(c, now, call, answer, m.active, m.history, old(m.native), m.native)
  {
    hide Counted, Remembered, SessionOk, HeldBy, Clean, Play, ProperRepeats, RepeatsHeld;
    PlayNothing(m.native, ReleaseAll);
    assert c.Control? ==> c.lease in m.active;
    var r := m.Acquire(call.device, call.routed, call.sessionId, call.epoch, now + call.wait);
    answer := if r.Ok? then Granted(r.value) else Denied(r.refusal);
  }

  method ServeFrame(m: InputSessionManager, call: Call, ghost c: Control, now: nat) returns (answer: Answer)
    requires m.Valid() && m.clock == now && Tells(m.active, m.history, c) && call.FrameCall?
    modifies m
    ensures m.Valid() && m.clock == now + Wait(call) + Delay(call)
    ensures Served(c, now, call, answer, m.active, m.history, old(m.native), m.native)
  {
    hide Counted, Remembered, SessionOk, HeldBy, Clean, Play, AcceptFrame, ProperRepeats, RepeatsHeld, WithinSecond;
    PlayNothing(m.native, ReleaseAll);
    var FrameCall(lease, device, sequence, elapsedUs, wait, delay) := call;
    var r := m.AcceptReliable(lease, device, sequence, elapsedUs, now + wait, now + wait + delay);
    answer := if r.Ok? then Accepted else Denied(r.refusal);
  }

  method ServeMotion(m: InputSessionManager, call: Call, ghost c: Control, now: nat) returns (answer: Answer)
    requires m.Valid() && m.clock == now && Tells(m.active, m.history, c) && call.MotionCall? && InRange(call.totals)
    modifies m
    ensures m.Valid() && m.clock == now + Wait(call) + Delay(call)
    ensures Served(c, now, call, answer, m.active, m.history, old(m.native), m.native)
  {
    hide Counted, Remembered, SessionOk, HeldBy, Clean, Play, ProperRepeats, RepeatsHeld;
    PlayNothing(m.native, ReleaseAll);
    var at := now + call.wait;
    var r := m.AcceptOrderedMotion(call.lease, call.device, call.totals, at, at + call.delay);
    answer := if r.Ok? then Moved(r.value) else Denied(r.refusal);
  }

  method ServeEvents(m: InputSessionManager, call: Call, ghost c: Control, now: nat) returns (answer: Answer)
    requires m.Valid() && m.clock == now && Tells(m.active, m.history, c) && call.EventsCall?
    modifies m
    ensures m.Valid() && m.clock == now + Wait(call) + Delay(call)
    ensures Served(c, now, call, answer, m.active, m.history, old(m.native), m.native)
  {
    hide Counted, Remembered, SessionOk, HeldBy, Clean, Play, ProperRepeats, RepeatsHeld, Others, Emitted,
         ComesOut;
    PlayNothing(m.native, ReleaseAll);
    var r := m.NormalizeReliableEvents(call.lease, call.device, call.events);
    answer := if r.Ok? then Handed(r.value) else Denied(r.refusal);
    if r.Ok? {
      assert old(m.active) - {call.lease} == map[];
      RepeatsAlone(call.lease, c.held, call.events);
      EmittedAlone(call.lease, c.held, call.events, r.value);
    }
  }

  method ServeRelease(m: InputSessionManager, call: Call, ghost c: Control, now: nat) returns (answer: Answer)
    requires m.Valid() && m.clock == now && Tells(m.active, m.history, c) && call.ReleaseCall?
    modifies m
    ensures m.Valid() && m.clock == now + Wait(call) + Delay(call)
    ensures Served(c, now, call, answer, m.active, m.history, old(m.native), m.native)
  {
    hide Counted, Remembered, SessionOk, HeldBy, Clean, Play, ProperRepeats, RepeatsHeld;
    var out := m.Release(call.lease);
    answer := Gone(out);
    UpsAreProper(old(m.native), out);
  }

  /** Serves one call; `c` is the control before it. */
  method ServeOne(m: InputSessionManager, call: Call, ghost c: Control, now: nat) returns (answer: Answer)
    requires m.Valid() && m.clock == now && Tells(m.active, m.history, c) && (call.MotionCall? ==> InRange(call.totals))
    modifies m
    ensures m.Valid() && m.clock == now + Wait(call) + Delay(call)
    ensures Served(c, now, call, answer, m.active, m.history, old(m.native), m.native)
  {
    hide Served, Tells, Wait, Delay;
    match call {
      case AcquireCall(_, _, _, _, _) => answer := ServeAcquire(m, call, c, now);
      case FrameCall(_, _, _, _, _, _) => answer := ServeFrame(m, call, c, now);
      case MotionCall(_, _, _, _, _) => answer := ServeMotion(m, call, c, now);
      case EventsCall(_, _, _) => answer := ServeEvents(m, call, c, now);
      case ReleaseCall(_) => answer := ServeRelease(m, call, c, now);
    }
  }

  // ---------- Whole runs ----------

  /**
   * Whatever clients do: every call is answered as it is owed, what is down natively is what replaying the controlling
   * session's events gives, the events handed out drive a keyboard and mouse without a second press or a stray release,
   * and they repeat only keys that are down exactly if the clients do. Releasing everything natively when control ends,
   * as the service does, comes to the same.
   */
  method Serve(calls: seq<Call>) returns (answers: seq<Answer>)
    requires forall i :: 0 <= i < |calls| && calls[i].MotionCall? ==> InRange(calls[i].totals)
    ensures |answers| == |calls|
    ensures forall i :: 0 <= i < |calls| ==>
              Owed(After(calls[..i], answers[..i]), ClockAfter(calls[..i]), calls[i], answers[i])
    ensures Clean(NOTHING, HandedOut(answers)) && Play(NOTHING, HandedOut(answers)) == HeldIn(After(calls, answers))
    ensures Play(NOTHING, AllApplied(calls, answers)) == HeldIn(After(calls, answers))
    ensures ProperRepeats(NOTHING, HandedOut(answers)) <==>
              forall i :: 0 <= i < |calls| && answers[i].Handed? && calls[i].EventsCall? ==>
                ProperRepeats(HeldIn(After(calls[..i], answers[..i])), calls[i].events)
  {
    hide Counted, Remembered, HeldBy, Clean, Play, Tells, Owed, After, HandedOut, AllApplied, ProperRepeats, AllProper,
         ClockAfter, Next;
    var m := new InputSessionManager();
    var now := 0;
    answers := [];
    NothingServed(calls);
    for i := 0 to |calls|
      invariant fresh(m) && m.Valid() && m.clock == now == ClockAfter(calls[..i]) && |answers| == i
      invariant Tells(m.active, m.history, After(calls[..i], answers))
      invariant m.native == Play(NOTHING, HandedOut(answers)) && Clean(NOTHING, HandedOut(answers))
      invariant Play(NOTHING, AllApplied(calls[..i], answers)) == m.native
      invariant forall j :: 0 <= j < i ==>
                  Owed(After(calls[..j], answers[..j]), ClockAfter(calls[..j]), calls[j], answers[j])
      invariant ProperRepeats(NOTHING, HandedOut(answers)) <==> AllProper(calls, answers)
    {
      ghost var c, before, native := After(calls[..i], answers), answers, m.native;
      var answer := ServeOne(m, calls[i], c, now);
      answers := answers + [answer];
      ServedOneMore(calls, before, answer);
      PrefixesStay(before, answer);
      ProperOneMore(calls, before, answer);
      PlayAll(NOTHING, HandedOut(before), Events(answer));
      ghost var applied := Applied(c, calls[i], answer);
      PlayAll(NOTHING, AllApplied(calls[..i], before), applied);
      NativeIsHeld(m.active, m.history, After(calls[..i + 1], answers));
      AppliedComesToTheSame(c, now, calls[i], answer, native, m.native);
      now := now + Wait(calls[i]) + Delay(calls[i]);
    }
    assert calls[..|calls|] == calls;
    AllProperMeans(calls, answers);
    NativeIsHeld(m.active, m.history, After(calls, answers));
  }

  /** The clients of all accepted events repeat only keys they hold. */
  predicate AllProper(calls: seq<Call>, answers: seq<Answer>)
    requires |answers| <= |calls|
  {
    forall i :: 0 <= i < |answers| && answers[i].Handed? && calls[i].EventsCall? ==>
      ProperRepeats(HeldIn(After(calls[..i], answers[..i])), calls[i].events)
  }

  lemma NothingServed(calls: seq<Call>)
    ensures ClockAfter(calls[..0]) == 0 && After(calls[..0], []) == Idle
    ensures HandedOut([]) == [] && AllApplied(calls[..0], []) == []
    ensures AllProper(calls, [])
    ensures Tells(map[], map[], Idle) && Play(NOTHING, []) == NOTHING
    ensures Clean(NOTHING, []) && ProperRepeats(NOTHING, [])
  {
  }

  lemma ServedOneMore(calls: seq<Call>, answers: seq<Answer>, answer: Answer)
    requires |answers| < |calls|
    ensures var i, more := |answers|, answers + [answer];
            var c := After(calls[..i], answers);
            && After(calls[..i + 1], more) == Next(c, ClockAfter(calls[..i]), calls[i], answer)
            && ClockAfter(calls[..i + 1]) == ClockAfter(calls[..i]) + Wait(calls[i]) + Delay(calls[i])
            && HandedOut(more) == HandedOut(answers) + Events(answer)
            && AllApplied(calls[..i + 1], more) == AllApplied(calls[..i], answers) + Applied(c, calls[i], answer)
  {
    hide Next, Applied, Events;
    assert (answers + [answer])[..|answers|] == answers;
    assert calls[..|answers| + 1][..|answers|] == calls[..|answers|];
  }

  lemma PrefixesStay(answers: seq<Answer>, answer: Answer)
    ensures (answers + [answer])[..|answers|] == answers
    ensures forall j :: 0 <= j < |answers| ==> (answers + [answer])[..j] == answers[..j]
  {
  }

  lemma ProperOneMore(calls: seq<Call>, answers: seq<Answer>, answer: Answer)
    requires |answers| < |calls|
    ensures var i := |answers|;
            AllProper(calls, answers + [answer]) <==>
              && AllProper(calls, answers)
              && (answer.Handed? && calls[i].EventsCall? ==>
                    ProperRepeats(HeldIn(After(calls[..i], answers)), calls[i].events))
  {
    hide ProperRepeats, After;
    PrefixesStay(answers, answer);
    var more := answers + [answer];
    assert more[|answers|] == answer && forall j :: 0 <= j < |answers| ==> more[j] == answers[j];
  }

  lemma NativeIsHeld(active: Sessions, history: map<Lease, History>, c: Control)
    requires Tells(active, history, c)
    ensures HeldBy(active) == HeldIn(c)
  {
    if c.Control? {
      assert active == map[][c.lease := active[c.lease]];
      PutBack(map[], c.lease, active[c.lease], map[], map[]);
      HeldAlone(c.lease, c.held);
    } else {
      NobodyHolds(active);
    }
  }

  lemma AppliedComesToTheSame(c: Control, now: nat, call: Call, answer: Answer, native: Held, after: Held)
    requires Owed(c, now, call, answer) && after == Play(native, Events(answer)) == HeldIn(Next(c, now, call, answer))
    ensures Play(native, Applied(c, call, answer)) == after
  {
    PlayNothing(native, ReleaseAll);
  }

  lemma AllProperMeans(calls: seq<Call>, answers: seq<Answer>)
    requires |answers| == |calls|
    ensures AllProper(calls, answers) <==>
              forall i :: 0 <= i < |calls| && answers[i].Handed? && calls[i].EventsCall? ==>
                ProperRepeats(HeldIn(After(calls[..i], answers[..i])), calls[i].events)
  {
  }

  /** A client acquires control and sends one press. */
  function PressRun(e: Event): seq<Call>
  {
    [AcquireCall("a", false, 1, 1, 0), EventsCall(Lease(1, 1), "a", [e])]
  }

  /** The client gets control, and its press is judged from nothing held. */
  lemma PressRunServed(e: Event, answers: seq<Answer>)
    requires |answers| == 2
    requires var calls := PressRun(e);
             forall i :: 0 <= i < 2 ==>
               Owed(After(calls[..i], answers[..i]), ClockAfter(calls[..i]), calls[i], answers[i])
    ensures answers[1].Handed? && HandedOut(answers) == answers[1].events
    ensures ComesOut(NOTHING, [e], answers[1].events)
    ensures HeldIn(After(PressRun(e)[..1], answers[..1])) == NOTHING
  {
    hide ComesOut;
    var calls := PressRun(e);
    assert calls[..0] == [] && calls[..1] == [calls[0]] && answers[..0] == [] && answers[..1] == [answers[0]];
    assert Owed(After(calls[..0], answers[..0]), ClockAfter(calls[..0]), calls[0], answers[0]);
    assert [calls[0]][..0] == [] && [answers[0]][..0] == [];
    assert HandedOut([answers[0]]) == HandedOut([]) + Events(answers[0]);
    assert HandedOut(answers) == HandedOut(answers[..1]) + Events(answers[1]);
  }

  /** A first press that the client marks as a repeat is handed out as it is, and the key it repeats is not down. */
  method FirstPressRepeats(usage: nat) returns (answers: seq<Answer>)
    ensures HandedOut(answers) == [Key(usage, true, true)] && !ProperRepeats(NOTHING, HandedOut(answers))
  {
    hide ComesOut, Clean, Owed, After, HandedOut, AllApplied, ClockAfter, ProperRepeats;
    var e := Key(usage, true, true);
    var calls := PressRun(e);
    answers := Serve(calls);
    PressRunServed(e, answers);
    PlayNothing(NOTHING, e);
    OnePress(usage, answers[1].events);
    assert !ProperRepeats(HeldIn(After(calls[..1], answers[..1])), calls[1].events);
  }

  lemma OnePress(usage: nat, out: seq<Event>)
    requires ComesOut(NOTHING, [Key(usage, true, true)], out)
    ensures out == [Key(usage, true, true)]
  {
    var e := Key(usage, true, true);
    assert [e][..0] == [];
    var k: nat :| k <= |out| && ComesOut(NOTHING, [], out[..k])
                  && Piece(NOTHING, NOTHING, e, Play1(NOTHING, e), out[k..]);
    assert usage in Play1(NOTHING, e).keys;
    assert out == out[..k] + out[k..];
  }
}
