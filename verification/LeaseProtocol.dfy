// The input lease across connections: the shared session manager, one slot per connection, the apply gate, and tasks
// that may be cancelled at any await point. Only what happens under the gate changes slots, leases or native input;
// releasing a lease and emptying its slot, and granting one and filling the slot, are each one uninterrupted poll.
module LeaseProtocol {
  import opened Basics
  import opened InputControls

  datatype Actor = Main | Stream | Cleanup

  /** An active lease in the manager. */
  datatype Grant = Grant(device: nat, routed: bool)

  /** What follows once a lease is ended. */
  datatype After = ThenLeave | ThenAcquire(routed: bool)

  /** Where the task that holds the gate stands. */
  datatype Pc =
    | Begin(routed: bool)
    | Ending(lease: Lease, after: After)
    | Released(lease: Lease, after: After)
    | Acquiring(routed: bool)
    | Routing(lease: Lease)
    | Applying(lease: Lease, events: seq<Event>)
    | LosingFocus(lease: Lease)
    | Leaving

  datatype Holder = Holder(conn: nat, actor: Actor, pc: Pc)

  /** A connection: its slot, whether its session loop and its input stream still run, whether its cleanup is over. */
  datatype Conn = Conn(device: nat, slot: Option<Lease>, main: bool, stream: bool, captured: Option<Lease>,
        cleaned: bool)

  /** `native` is what is down natively, `left` what the last native release left down. */
  datatype State = State(conns: seq<Conn>, active: map<Lease, Grant>, gate: Option<Holder>, native: Held, left: Held)

  /**
   * How a call into the platform turns out: if it fails or is cut off, some events were applied and some controls stay
   * down.
   */
  datatype Luck = Luck(ok: bool, applied: nat, kept: Held)

  datatype Step =
    | Connect(device: nat)
    | OpenStream(conn: nat)
    | Capture(conn: nat)
    | EnterMain(conn: nat, pc: Pc)
    | EnterStream(conn: nat, pc: Pc)
    | EnterCleanup(conn: nat)
    | Kill(conn: nat, actor: Actor, luck: Luck)
    | Work(lease: Lease, luck: Luck)

  // ---------- Steps ----------

  function WithConn(s: State, c: nat, conn: Conn): State
    requires c < |s.conns|
  {
    s.(conns := s.conns[c := conn])
  }

  function At(s: State, h: Holder, pc: Pc): State
  {
    s.(gate := Some(h.(pc := pc)))
  }

  function Resume(s: State, h: Holder, after: After): State
  {
    At(s, h, if after.ThenAcquire? then Acquiring(after.routed) else Leaving)
  }

  predicate RoutedTo(s: State, lease: Lease, device: nat)
  {
    lease in s.active && s.active[lease] == Grant(device, true)
  }

  /** Releasing a lease in the manager and emptying the holder's slot. */
  function Drop(s: State, h: Holder, lease: Lease): State
    requires h.conn < |s.conns|
  {
    WithConn(s, h.conn, s.conns[h.conn].(slot := None)).(active := s.active - {lease})
  }

  /** A native release that does not get through leaves some of what was down. */
  function Remaining(h: Held, kept: Held): Held
  {
    Held(h.keys * kept.keys, h.buttons * kept.buttons)
  }

  /** The holder is about to release natively: it ends the lease in its slot, and that lease is local. */
  predicate Releasing(s: State, h: Holder)
    requires h.conn < |s.conns|
  {
    var conn := s.conns[h.conn];
    h.pc.Ending? && conn.slot == Some(h.pc.lease) && !RoutedTo(s, h.pc.lease, conn.device)
  }

  /** The holder is about to apply events natively: the lease is its device's, and local. */
  predicate ApplyingLocally(s: State, h: Holder)
    requires h.conn < |s.conns|
  {
    h.pc.Applying? && h.pc.lease in s.active && s.active[h.pc.lease] == Grant(s.conns[h.conn].device, false)
  }

  /** What the platform is left with when the holder's call into it ends, or is cut off. */
  function NativeAfter(s: State, h: Holder, luck: Luck, cut: bool): Held
    requires h.conn < |s.conns|
  {
    var ok := luck.ok && !cut;
    if Releasing(s, h) then if ok then NOTHING else Remaining(s.native, luck.kept)
    else if ApplyingLocally(s, h) then
      Play(s.native, h.pc.events[..if ok then |h.pc.events| else Min(luck.applied, |h.pc.events|)])
    else s.native
  }

  /** The next step of the gate's holder; `lease` is a fresh draw and `luck` the outcome of what it calls. */
  function Advance(s: State, h: Holder, lease: Lease, luck: Luck): State
    requires h.conn < |s.conns|
  {
    var conn := s.conns[h.conn];
    match h.pc
    case Begin(routed) =>
      At(s, h, if conn.slot.Some? then Ending(conn.slot.value, ThenAcquire(routed)) else Acquiring(routed))
    case Ending(l, after) =>
      if conn.slot != Some(l) then Resume(s, h, after)
      else if RoutedTo(s, l, conn.device) then At(s, h, Released(l, after))
      else
        var native := NativeAfter(s, h, luck, false);
        At(s, h, Released(l, after)).(native := native, left := native)
    case Released(l, after) => Resume(Drop(s, h, l), h, after)
    case Acquiring(routed) =>
      if s.active != map[] then At(s, h, Leaving)
      else At(WithConn(s, h.conn, conn.(slot := Some(lease))), h, if routed then Routing(lease) else Leaving)
             .(active := map[lease := Grant(conn.device, routed)])
    case Routing(l) => At(s, h, if luck.ok then Leaving else Ending(l, ThenLeave))
    case Applying(l, events) =>
      if l !in s.active || s.active[l].device != conn.device then At(s, h, Ending(l, ThenLeave))
      else At(s, h, if luck.ok then Leaving else Ending(l, ThenLeave)).(native := NativeAfter(s, h, luck, false))
    case LosingFocus(l) => At(if conn.slot == Some(l) then Drop(s, h, l) else s, h, Leaving)
    case Leaving =>
      (if h.actor == Cleanup then WithConn(s, h.conn, conn.(cleaned := true)) else s).(gate := None)
  }

  predicate MayEnter(s: State, c: nat)
  {
    c < |s.conns| && s.gate == None
  }

  predicate Next(s: State, step: Step, s': State)
  {
    match step
    case Connect(device) => s' == s.(conns := s.conns + [Conn(device, None, true, false, None, false)])
    case OpenStream(c) => c < |s.conns| && s.conns[c].main && s' == WithConn(s, c, s.conns[c].(stream := true))
    case Capture(c) =>
      // The session loop notices, outside the gate, that it holds a routed lease.
      && c < |s.conns| && s.conns[c].main && s.conns[c].slot.Some?
         && RoutedTo(s, s.conns[c].slot.value, s.conns[c].device)
      && (s.gate.Some? ==> s.gate.value.conn != c || s.gate.value.actor != Main)
      && s' == WithConn(s, c, s.conns[c].(captured := s.conns[c].slot))
    case EnterMain(c, pc) =>
      && MayEnter(s, c) && s.conns[c].main
      && (pc.Begin? || (pc.Ending? && pc.after == ThenLeave) || (pc.LosingFocus?
         && s.conns[c].captured == Some(pc.lease)))
      && s' == WithConn(s, c, s.conns[c].(captured := None)).(gate := Some(Holder(c, Main, pc)))
    case EnterStream(c, pc) =>
      && MayEnter(s, c) && s.conns[c].stream && ((pc.Ending? && pc.after == ThenLeave) || pc.Applying?)
      && s' == s.(gate := Some(Holder(c, Stream, pc)))
    case EnterCleanup(c) =>
      && MayEnter(s, c) && !s.conns[c].main && !s.conns[c].cleaned
      && var slot := s.conns[c].slot;
      && s' == s.(gate := Some(Holder(c, Cleanup, if slot.Some? then Ending(slot.value, ThenLeave) else Leaving)))
    case Kill(c, actor, luck) =>
      // The session loop or a stream ends or is cancelled wherever it stands; a cleanup never is.
      && c < |s.conns| && actor != Cleanup
      && (actor == Main ==> s.conns[c].main) && (actor == Stream ==> s.conns[c].stream)
      && var conn := if actor == Main then s.conns[c].(main := false) else s.conns[c].(stream := false);
      && var cut := s.gate.Some? && s.gate.value.conn == c && s.gate.value.actor == actor;
      && s' == WithConn(s, c, conn).(
                 gate := if cut then None else s.gate,
                 native := if cut then NativeAfter(s, s.gate.value, luck, true) else s.native)
    case Work(lease, luck) =>
      s.gate.Some? && s.gate.value.conn < |s.conns| && s' == Advance(s, s.gate.value, lease, luck)
  }

  function Initial(): State
  {
    State([], map[], None, NOTHING, NOTHING)
  }

  // ---------- Invariant ----------

  predicate Owns(s: State, c: nat, lease: Lease)
  {
    c < |s.conns| && s.conns[c].slot == Some(lease)
  }

  /** The active leases are exactly those in slots, and there is at most one. */
  ghost predicate SlotsOk(s: State)
  {
    && (forall c: nat, lease :: Owns(s, c, lease) ==> lease in s.active && s.active[lease].device == s.conns[c].device)
    && (forall lease :: lease in s.active ==> exists c: nat :: Owns(s, c, lease))
    && (forall c: nat, d: nat, l, m :: Owns(s, c, l) && Owns(s, d, m) ==> c == d)
    && (forall l, m :: l in s.active && m in s.active ==> l == m)
  }

  ghost predicate LocalLease(s: State)
  {
    exists lease :: lease in s.active && !s.active[lease].routed
  }

  /** What is down natively is what the last native release left, except under a local lease. */
  ghost predicate NativeOk(s: State)
  {
    s.native != s.left ==> LocalLease(s)
  }

  ghost predicate ConnOk(s: State, c: nat)
    requires c < |s.conns|
  {
    var conn := s.conns[c];
    && (conn.cleaned ==> conn.slot == None && !conn.main)
    && (conn.captured.Some? && conn.captured == conn.slot ==> RoutedTo(s, conn.captured.value, conn.device))
    && (conn.captured.Some? ==> !(s.gate.Some? && s.gate.value.conn == c && s.gate.value.actor == Main))
  }

  ghost predicate ConnsOk(s: State)
  {
    forall c: nat :: c < |s.conns| ==> ConnOk(s, c)
  }

  ghost predicate HolderOk(s: State)
  {
    s.gate.Some? ==>
      var h := s.gate.value;
      && h.conn < |s.conns|
      && var conn := s.conns[h.conn];
      && (h.actor == Main ==> conn.main) && (h.actor == Cleanup ==> !conn.main && !conn.cleaned)
      && (h.pc.Begin? || h.pc.Acquiring? || h.pc.Routing? ==> h.actor == Main)
      && (h.pc.Acquiring? ==> conn.slot == None)
      && ((h.pc.Ending? || h.pc.Released?) && h.pc.after.ThenAcquire? ==>
            h.actor == Main && conn.slot == Some(h.pc.lease))
      && (h.pc.Released? ==> conn.slot == Some(h.pc.lease) && s.native == s.left)
      && (h.pc.LosingFocus? && conn.slot == Some(h.pc.lease) ==> RoutedTo(s, h.pc.lease, conn.device))
      && (h.actor == Cleanup ==>
            if h.pc.Ending? || h.pc.Released? then conn.slot == Some(h.pc.lease)
            else h.pc.Leaving? && conn.slot == None)
  }

  ghost predicate Inv(s: State)
  {
    SlotsOk(s) && NativeOk(s) && ConnsOk(s) && HolderOk(s)
  }

  // ---------- Every step keeps the invariant ----------

  lemma SameSlots(s: State, s': State)
    requires SlotsOk(s) && s'.active == s.active && |s.conns| <= |s'.conns|
    requires forall c :: 0 <= c < |s.conns| ==>
               s'.conns[c].slot == s.conns[c].slot && s'.conns[c].device == s.conns[c].device
    requires forall c :: |s.conns| <= c < |s'.conns| ==> s'.conns[c].slot == None
    ensures SlotsOk(s')
  {
    forall c: nat, lease ensures Owns(s', c, lease) <==> Owns(s, c, lease) {
    }
    forall lease | lease in s'.active ensures exists c: nat :: Owns(s', c, lease) {
      var c: nat :| Owns(s, c, lease);
      assert Owns(s', c, lease);
    }
  }

  /** Dropping the lease in the holder's slot leaves no lease at all. */
  lemma DropKeepsSlots(s: State, h: Holder, lease: Lease)
    requires SlotsOk(s) && Owns(s, h.conn, lease)
    ensures SlotsOk(Drop(s, h, lease)) && Drop(s, h, lease).active == map[]
    ensures forall c: nat :: c < |s.conns| ==> Drop(s, h, lease).conns[c].slot == None
  {
    var s' := Drop(s, h, lease);
    assert s'.active == map[];
    forall c: nat | c < |s.conns| ensures s'.conns[c].slot == None {
      if s.conns[c].slot.Some? {
        assert Owns(s, c, s.conns[c].slot.value);
      }
    }
    assert forall c: nat, l :: !Owns(s', c, l);
  }

  lemma GrantKeepsSlots(s: State, c: nat, lease: Lease, s': State)
    requires SlotsOk(s) && s.active == map[] && c < |s.conns|
    requires s'.conns == s.conns[c := s.conns[c].(slot := Some(lease))] && s'.active.Keys == {lease}
    requires s'.active[lease].device == s.conns[c].device
    ensures SlotsOk(s')
  {
    forall d: nat, l | Owns(s', d, l) ensures d == c && l == lease {
      if d != c {
        assert Owns(s, d, l);
      }
    }
    assert Owns(s', c, lease);
  }

  lemma AdvanceKeepsSlots(s: State, lease: Lease, luck: Luck)
    requires Inv(s) && s.gate.Some?
    ensures SlotsOk(Advance(s, s.gate.value, lease, luck))
  {
    hide NativeOk, ConnsOk, SlotsOk;
    var h := s.gate.value;
    var s' := Advance(s, h, lease, luck);
    if h.pc.Released? || (h.pc.LosingFocus? && s.conns[h.conn].slot == Some(h.pc.lease)) {
      assert Owns(s, h.conn, h.pc.lease);
      DropKeepsSlots(s, h, h.pc.lease);
      SameSlots(Drop(s, h, h.pc.lease), s');
    } else if h.pc.Acquiring? && s.active == map[] {
      GrantKeepsSlots(s, h.conn, lease, s');
    } else {
      SameSlots(s, s');
    }
  }

  /** In the holder's slot there is the only lease. */
  lemma OnlyLease(s: State, c: nat, lease: Lease)
    requires SlotsOk(s) && Owns(s, c, lease)
    ensures s.active.Keys == {lease}
  {
  }

  lemma AdvanceKeepsNative(s: State, lease: Lease, luck: Luck)
    requires Inv(s) && s.gate.Some?
    ensures NativeOk(Advance(s, s.gate.value, lease, luck))
  {
    hide ConnsOk, SlotsOk;
    var h := s.gate.value;
    if (h.pc.Released? || h.pc.LosingFocus?) && s.conns[h.conn].slot == Some(h.pc.lease) {
      OnlyLease(s, h.conn, h.pc.lease);
    }
  }

  lemma AdvanceKeepsConns(s: State, lease: Lease, luck: Luck)
    requires Inv(s) && s.gate.Some?
    ensures ConnsOk(Advance(s, s.gate.value, lease, luck))
  {
    hide NativeOk;
    var h := s.gate.value;
    var s' := Advance(s, h, lease, luck);
    forall c: nat | c < |s'.conns| ensures ConnOk(s', c) {
      assert ConnOk(s, c);
      if s.conns[c].slot.Some? {
        assert Owns(s, c, s.conns[c].slot.value);
      }
      if s.conns[h.conn].slot.Some? {
        assert Owns(s, h.conn, s.conns[h.conn].slot.value);
      }
    }
  }

  lemma AdvanceKeepsHolder(s: State, lease: Lease, luck: Luck)
    requires Inv(s) && s.gate.Some?
    ensures HolderOk(Advance(s, s.gate.value, lease, luck))
  {
    var h := s.gate.value;
    assert ConnOk(s, h.conn);
    if s.conns[h.conn].slot.Some? {
      assert Owns(s, h.conn, s.conns[h.conn].slot.value);
      OnlyLease(s, h.conn, s.conns[h.conn].slot.value);
    }
    hide SlotsOk, ConnsOk;
  }

  /** A call into the platform, even one cut off, changes what is down only under a local lease. */
  lemma NativeNeedsLocalLease(s: State, luck: Luck, cut: bool)
    requires SlotsOk(s) && s.gate.Some? && s.gate.value.conn < |s.conns|
    ensures NativeAfter(s, s.gate.value, luck, cut) != s.native ==> LocalLease(s)
  {
    var h := s.gate.value;
    if Releasing(s, h) {
      assert Owns(s, h.conn, h.pc.lease);
    }
  }

  lemma EnteringKeepsNative(s: State, step: Step, s': State)
    requires Inv(s) && Next(s, step, s') && !step.Work?
    ensures NativeOk(s')
  {
    hide SlotsOk, ConnsOk, NativeAfter;
    if step.Kill? && s.gate.Some? {
      NativeNeedsLocalLease(s, step.luck, true);
    }
  }

  lemma EnteringKeepsConns(s: State, step: Step, s': State)
    requires Inv(s) && Next(s, step, s') && !step.Work?
    ensures ConnsOk(s')
  {
    hide SlotsOk, NativeOk, NativeAfter;
    forall c: nat | c < |s'.conns| ensures ConnOk(s', c) {
      if c < |s.conns| {
        assert ConnOk(s, c);
      }
    }
  }

  lemma EnteringKeepsHolder(s: State, step: Step, s': State)
    requires Inv(s) && Next(s, step, s') && !step.Work?
    ensures HolderOk(s')
  {
    hide SlotsOk, NativeOk, NativeAfter;
    if step.EnterMain? {
      assert ConnOk(s, step.conn);
    }
  }

  lemma EnteringKeepsInv(s: State, step: Step, s': State)
    requires Inv(s) && Next(s, step, s') && !step.Work?
    ensures Inv(s')
  {
    hide SlotsOk, NativeOk, ConnsOk, HolderOk, NativeAfter;
    SameSlots(s, s');
    EnteringKeepsNative(s, step, s');
    EnteringKeepsConns(s, step, s');
    EnteringKeepsHolder(s, step, s');
  }

  lemma StepKeepsInv(s: State, step: Step, s': State)
    requires Inv(s) && Next(s, step, s')
    ensures Inv(s')
  {
    hide SlotsOk, NativeOk, ConnsOk, HolderOk, Advance;
    if step.Work? {
      AdvanceKeepsSlots(s, step.lease, step.luck);
      AdvanceKeepsNative(s, step.lease, step.luck);
      AdvanceKeepsConns(s, step.lease, step.luck);
      AdvanceKeepsHolder(s, step.lease, step.luck);
    } else {
      EnteringKeepsInv(s, step, s');
    }
  }
}
