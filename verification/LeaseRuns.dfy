// Whole runs of the input lease protocol: any number of connections, any interleaving, cancellation anywhere.
module LeaseRuns {
  import opened Basics
  import opened InputControls
  import opened LeaseProtocol

  predicate StepAt(states: seq<State>, steps: seq<Step>, k: nat)
  {
    k < |steps| && k + 1 < |states| && Next(states[k], steps[k], states[k + 1])
  }

  predicate Run(states: seq<State>, steps: seq<Step>)
  {
    |states| == |steps| + 1 && states[0] == Initial() && forall k: nat :: k < |steps| ==> StepAt(states, steps, k)
  }

  lemma {:induction false} RunKeepsInv(states: seq<State>, steps: seq<Step>, k: nat)
    requires Run(states, steps) && k < |states|
    ensures Inv(states[k])
  {
    if k > 0 {
      hide Inv, Next;
      RunKeepsInv(states, steps, k - 1);
      assert StepAt(states, steps, k - 1);
      StepKeepsInv(states[k - 1], steps[k - 1], states[k]);
    }
  }

  // ---------- What every run guarantees ----------

  /**
   * At every moment, however tasks interleave and wherever they are cancelled, the manager's leases are exactly those
   * in connection slots, there is at most one, and its connection can still clean it up.
   */
  lemma LeasesHaveOwners(states: seq<State>, steps: seq<Step>, k: nat)
    requires Run(states, steps) && k < |states|
    ensures forall lease :: lease in states[k].active <==> exists c: nat :: Owns(states[k], c, lease)
    ensures |states[k].active| <= 1
    ensures forall c: nat, lease :: Owns(states[k], c, lease) ==> !states[k].conns[c].cleaned
  {
    RunKeepsInv(states, steps, k);
    var s := states[k];
    if s.active != map[] {
      var l :| l in s.active;
      assert s.active.Keys == {l};
    }
    assert |s.active| == |s.active.Keys|;
    forall c: nat, lease | Owns(s, c, lease) ensures !s.conns[c].cleaned {
      assert ConnOk(s, c);
    }
  }

  predicate Cleaned(s: State, c: nat)
  {
    c < |s.conns| && s.conns[c].cleaned
  }

  /** A cleanup that gets through leaves its slot empty. */
  lemma CleanupEmptiesSlot(states: seq<State>, steps: seq<Step>, k: nat, c: nat)
    requires Run(states, steps) && k < |states| && Cleaned(states[k], c)
    ensures states[k].conns[c].slot == None && !states[k].conns[c].main
  {
    RunKeepsInv(states, steps, k);
    assert ConnOk(states[k], c);
  }

  lemma StaysCleaned(s: State, step: Step, s': State, c: nat)
    requires Next(s, step, s') && Cleaned(s, c)
    ensures Cleaned(s', c)
  {
  }

  /** Once a connection's cleanup is over its slot stays empty. */
  lemma {:induction false} CleanedStaysEmpty(states: seq<State>, steps: seq<Step>, k: nat, n: nat, c: nat)
    requires Run(states, steps) && k <= n < |states| && Cleaned(states[k], c)
    ensures Cleaned(states[n], c) && states[n].conns[c].slot == None
    decreases n - k
  {
    hide Next;
    if k < n {
      CleanedStaysEmpty(states, steps, k, n - 1, c);
      assert StepAt(states, steps, n - 1);
      StaysCleaned(states[n - 1], steps[n - 1], states[n], c);
    }
    CleanupEmptiesSlot(states, steps, n, c);
  }

  predicate Grants(s: State, s': State)
  {
    s.active == map[] && s'.active != map[]
  }

  /** Step `d` runs the native release of a local lease to its end. */
  predicate NativeRelease(states: seq<State>, steps: seq<Step>, d: nat)
  {
    && d < |steps| && d < |states| && steps[d].Work?
    && states[d].gate.Some? && states[d].gate.value.conn < |states[d].conns|
    && Releasing(states[d], states[d].gate.value)
  }

  /**
   * Step `d` is a native release that failed and left something down, and no native release ran between it and step
   * `k`.
   */
  ghost predicate LeftDownSince(states: seq<State>, steps: seq<Step>, d: nat, k: nat)
  {
    && NativeRelease(states, steps, d) && !steps[d].luck.ok && d + 1 < |states| && states[d + 1].native != NOTHING
    && forall e: nat :: d < e < k ==> !NativeRelease(states, steps, e)
  }

  /** The last native release before step `k` failed and left something down. */
  ghost predicate LeftDown(states: seq<State>, steps: seq<Step>, k: nat)
  {
    exists d: nat :: d < k && LeftDownSince(states, steps, d, k)
  }

  lemma LeftChanges(states: seq<State>, steps: seq<Step>, k: nat)
    requires k < |steps| && k + 1 < |states| && Next(states[k], steps[k], states[k + 1])
    ensures states[k + 1].left == if NativeRelease(states, steps, k) then states[k + 1].native else states[k].left
    ensures NativeRelease(states, steps, k) && steps[k].luck.ok ==> states[k + 1].native == NOTHING
  {
  }

  /** What the last native release left is nothing unless it failed and left something down. */
  lemma {:induction false} LeftIffLeftDown(states: seq<State>, steps: seq<Step>, k: nat)
    requires Run(states, steps) && k < |states|
    ensures states[k].left != NOTHING <==> LeftDown(states, steps, k)
  {
    hide Next, NativeRelease;
    if k > 0 {
      LeftIffLeftDown(states, steps, k - 1);
      assert StepAt(states, steps, k - 1);
      LeftChanges(states, steps, k - 1);
      if NativeRelease(states, steps, k - 1) {
        if states[k].left != NOTHING {
          assert LeftDownSince(states, steps, k - 1, k);
        }
      } else if LeftDown(states, steps, k - 1) {
        var d: nat :| d < k - 1 && LeftDownSince(states, steps, d, k - 1);
        assert LeftDownSince(states, steps, d, k);
      }
      if LeftDown(states, steps, k) {
        var d: nat :| d < k && LeftDownSince(states, steps, d, k);
        if d < k - 1 {
          assert LeftDownSince(states, steps, d, k - 1);
        }
      }
    }
  }

  /**
   * A lease is granted while a key or button is down natively if and only if the last native release failed and left
   * one down: neither cancellation, however far a call into the platform got, nor another connection opens that gap.
   */
  lemma GrantIsClean(states: seq<State>, steps: seq<Step>, k: nat)
    requires Run(states, steps) && k < |steps| && Grants(states[k], states[k + 1])
    ensures states[k].native != NOTHING <==> LeftDown(states, steps, k)
  {
    hide Next, LeftDown;
    RunKeepsInv(states, steps, k);
    LeftIffLeftDown(states, steps, k);
  }

  /** The successor of a state under a step it allows. */
  function Successor(s: State, step: Step): State
  {
    match step
    case Connect(device) => s.(conns := s.conns + [Conn(device, None, true, false, None, false)])
    case OpenStream(c) => if c < |s.conns| then WithConn(s, c, s.conns[c].(stream := true)) else s
    case EnterMain(c, pc) =>
      if c < |s.conns| then WithConn(s, c, s.conns[c].(captured := None)).(gate := Some(Holder(c, Main, pc))) else s
    case EnterStream(c, pc) => s.(gate := Some(Holder(c, Stream, pc)))
    case Work(lease, luck) =>
      if s.gate.Some? && s.gate.value.conn < |s.conns| then Advance(s, s.gate.value, lease, luck) else s
    case _ => s
  }

  lemma Extend(states: seq<State>, steps: seq<Step>, step: Step) returns (states': seq<State>, steps': seq<Step>)
    requires Run(states, steps) && Next(states[|steps|], step, Successor(states[|steps|], step))
    ensures Run(states', steps') && |steps'| == |steps| + 1
    ensures states'[|steps|] == states[|steps|] && states'[|steps| + 1] == Successor(states[|steps|], step)
  {
    hide Next, Successor;
    states', steps' := states + [Successor(states[|steps|], step)], steps + [step];
    forall k: nat | k < |steps'| ensures StepAt(states', steps', k) {
      if k < |steps| {
        assert StepAt(states, steps, k);
      }
    }
  }

  /** The last step of a run grants a lease while something is down. */
  predicate EndsUnclean(states: seq<State>, steps: seq<Step>)
  {
    && |states| == |steps| + 1 > 1
    && Grants(states[|steps| - 1], states[|steps|]) && states[|steps| - 1].native != NOTHING
  }

  /** And such a failure happens: the error of a native release is ignored, and the next lease is granted. */
  lemma GrantAfterFailedRelease(usage: nat)
    ensures exists states, steps :: Run(states, steps) && EndsUnclean(states, steps)
  {
    var first, second := Lease(1, 1), Lease(2, 1);
    var good, bad := Luck(true, 0, NOTHING), Luck(false, 0, Held({usage}, {}));
    var press := [Key(usage, true, false)];
    PlayPress(usage);
    var states, steps := [Initial()], [];
    states, steps := Extend(states, steps, Connect(7));
    states, steps := Extend(states, steps, OpenStream(0));
    states, steps := Extend(states, steps, EnterMain(0, Begin(false)));
    states, steps := Extend(states, steps, Work(first, good));
    states, steps := Extend(states, steps, Work(first, good));
    states, steps := Extend(states, steps, Work(first, good));
    states, steps := Extend(states, steps, EnterStream(0, Applying(first, press)));
    states, steps := Extend(states, steps, Work(first, good));
    assert states[|steps|].native == Held({usage}, {});
    states, steps := Extend(states, steps, Work(first, good));
    states, steps := Extend(states, steps, EnterMain(0, Begin(false)));
    states, steps := Extend(states, steps, Work(second, good));
    states, steps := Extend(states, steps, Work(second, bad));
    assert usage in states[|steps|].native.keys;
    states, steps := Extend(states, steps, Work(second, good));
    states, steps := Extend(states, steps, Work(second, good));
    assert second in states[|steps|].active;
    assert EndsUnclean(states, steps);
  }

  lemma PlayPress(usage: nat)
    ensures var press := [Key(usage, true, false)];
            press[..1] == press && Play(NOTHING, press) == Held({usage}, {})
  {
    var press := [Key(usage, true, false)];
    assert press[..0] == [];
    assert Play(NOTHING, press) == Play1(Play(NOTHING, []), press[0]);
  }
}
