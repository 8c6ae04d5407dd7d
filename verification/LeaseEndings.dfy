// What ends an input lease, what does not, and what a granted one may do.
module LeaseEndings {
  import opened Basics
  import opened InputControls
  import opened LeaseProtocol
  import opened LeaseRuns

  // ---------- Single steps ----------

  /** Connection `c` holds the gate. */
  ghost predicate Holds(s: State, c: nat)
  {
    s.gate.Some? && s.gate.value.conn == c && c < |s.conns|
  }

  /** A lease goes only when its own connection ends it or has lost the focus, under the gate. */
  lemma GoesOnlyWhenEnded(s: State, step: Step, s': State, lease: Lease)
    requires Inv(s) && Next(s, step, s') && lease in s.active && lease !in s'.active
    ensures step.Work? && s.gate.Some? && Owns(s, s.gate.value.conn, lease)
    ensures (s.gate.value.pc.Released? || s.gate.value.pc.LosingFocus?) && s.gate.value.pc.lease == lease
  {
    hide NativeAfter, ConnsOk;
  }

  /** A lease comes only when there is none, to the connection that holds the gate and asked for one. */
  lemma ComesOnlyWhenFree(s: State, step: Step, s': State, lease: Lease)
    requires Inv(s) && Next(s, step, s') && lease !in s.active && lease in s'.active
    ensures step.Work? && s.gate.Some? && s.gate.value.pc.Acquiring? && s.active == map[]
    ensures s'.active == map[lease := Grant(s.conns[s.gate.value.conn].device, s.gate.value.pc.routed)]
    ensures Owns(s', s.gate.value.conn, lease)
  {
    hide NativeAfter, ConnsOk, SlotsOk;
  }

  /** Events under a local lease that are applied are applied whole, and the lease stays. */
  lemma AppliedWhole(s: State, lease: Lease, luck: Luck, s': State)
    requires Inv(s) && Next(s, Work(lease, luck), s') && s.gate.value.pc.Applying? && luck.ok
    requires var h := s.gate.value;
             h.pc.lease in s.active && s.active[h.pc.lease] == Grant(s.conns[h.conn].device, false)
    ensures s'.native == Play(s.native, s.gate.value.pc.events) && s'.active == s.active && s'.conns == s.conns
    ensures s'.gate == Some(s.gate.value.(pc := Leaving))
  {
    hide ConnsOk, SlotsOk;
    var events := s.gate.value.pc.events;
    assert events[..|events|] == events;
  }

  // ---------- Endings ----------

  /**
   * Step `k` decides that connection `c` gives up `lease`: it ends it, has lost the focus, could not route it, or could
   * not apply its events.
   */
  ghost predicate Decides(states: seq<State>, steps: seq<Step>, k: nat, c: nat, lease: Lease)
  {
    && k < |steps| && k + 1 < |states| && steps[k].Work? && Holds(states[k], c)
    && var s, pc := states[k], states[k].gate.value.pc;
    || pc == Ending(lease, ThenLeave)
    || pc == LosingFocus(lease)
    || (pc == Routing(lease) && !steps[k].luck.ok)
    || (&& pc.Applying? && pc.lease == lease
        && (!steps[k].luck.ok || lease !in s.active || s.active[lease].device != s.conns[c].device))
  }

  /** From after step `k` to before step `n` connection `c` keeps the gate, and then it leaves it of its own accord. */
  ghost predicate KeepsGate(states: seq<State>, steps: seq<Step>, k: nat, n: nat, c: nat)
  {
    && k < n < |steps| && n + 1 < |states|
    && (forall j :: k < j <= n ==> Holds(states[j], c))
    && steps[n].Work? && states[n + 1].gate == None
  }

  /** Where the holder stands on its way out. */
  ghost predicate GivingUp(s: State, c: nat, lease: Lease)
  {
    && Holds(s, c)
    && var pc := s.gate.value.pc;
    || pc == Ending(lease, ThenLeave)
    || pc == Released(lease, ThenLeave)
    || (pc == Leaving && !Owns(s, c, lease))
  }

  ghost predicate NobodyElseGets(s: State, s': State, c: nat, lease: Lease)
  {
    forall d: nat :: d != c && Owns(s', d, lease) ==> Owns(s, d, lease)
  }

  ghost predicate NobodyElseHas(s: State, c: nat, lease: Lease)
  {
    forall d: nat :: d != c ==> !Owns(s, d, lease)
  }

  lemma DecidedGivesUp(s: State, step: Step, s': State, c: nat, lease: Lease)
    requires Next(s, step, s') && step.Work? && Holds(s, c)
    requires var pc := s.gate.value.pc;
             || pc == Ending(lease, ThenLeave)
             || pc == LosingFocus(lease)
             || (pc == Routing(lease) && !step.luck.ok)
             || (&& pc.Applying? && pc.lease == lease
                 && (!step.luck.ok || lease !in s.active || s.active[lease].device != s.conns[c].device))
    ensures GivingUp(s', c, lease) && NobodyElseGets(s, s', c, lease)
  {
    hide NativeAfter;
  }

  lemma StillGivesUp(s: State, step: Step, s': State, c: nat, lease: Lease)
    requires Next(s, step, s') && GivingUp(s, c, lease)
    ensures Holds(s', c) ==> GivingUp(s', c, lease)
    ensures step.Work? && s'.gate == None ==> !Owns(s', c, lease)
    ensures NobodyElseGets(s, s', c, lease)
  {
    hide NativeAfter;
  }

  /**
   * A lease that its connection ends, whose focus is lost, whose routing fails or whose events cannot be applied is not
   * in the connection's slot any more when it leaves the gate, and not active anywhere if it was its own.
   */
  lemma DecidedEnds(states: seq<State>, steps: seq<Step>, k: nat, n: nat, c: nat, lease: Lease)
    requires Run(states, steps) && Decides(states, steps, k, c, lease) && KeepsGate(states, steps, k, n, c)
    ensures !Owns(states[n + 1], c, lease)
    ensures Owns(states[k], c, lease) ==> lease !in states[n + 1].active
  {
    hide Next, GivingUp;
    assert StepAt(states, steps, k);
    RunKeepsInv(states, steps, k);
    ghost var own := Owns(states[k], c, lease);
    DecidedGivesUp(states[k], steps[k], states[k + 1], c, lease);
    var j := k + 1;
    while j < n
      invariant k < j <= n && GivingUp(states[j], c, lease) && (own ==> NobodyElseHas(states[j], c, lease))
    {
      assert StepAt(states, steps, j);
      assert Holds(states[j + 1], c);
      StillGivesUp(states[j], steps[j], states[j + 1], c, lease);
      j := j + 1;
    }
    assert StepAt(states, steps, n);
    StillGivesUp(states[n], steps[n], states[n + 1], c, lease);
    LeasesHaveOwners(states, steps, n + 1);
  }
}
