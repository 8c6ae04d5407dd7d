// No lease is ever stuck: whatever has happened, a connection that is gone can still be cleaned up.
module LeaseProgress {
  import opened Basics
  import opened InputControls
  import opened LeaseProtocol
  import opened LeaseRuns

  const FINE := Luck(true, 0, NOTHING)

  /** How far the holder of the gate is from leaving, if nothing fails. */
  function Distance(pc: Pc): nat
  {
    match pc
    case Applying(_, _) => 7
    case Begin(_) => 6
    case Ending(_, _) => 5
    case Released(_, _) => 4
    case Acquiring(_) => 3
    case Routing(_) => 2
    case LosingFocus(_) => 2
    case Leaving => 1
  }

  /** One step of the holder brings it nearer to leaving; a cleanup that leaves is over. */
  lemma HolderMoves(s: State, lease: Lease, c: nat)
    requires Inv(s) && s.gate.Some? && c < |s.conns|
    ensures s.gate.value.conn < |s.conns|
    ensures var s' := Advance(s, s.gate.value, lease, FINE);
            && Next(s, Work(lease, FINE), s') && |s'.conns| == |s.conns| && s'.conns[c].main == s.conns[c].main
            && (s.conns[c].cleaned ==> s'.conns[c].cleaned)
            && (s'.gate.Some? ==>
                  && s'.gate.value.conn == s.gate.value.conn && s'.gate.value.actor == s.gate.value.actor
                  && Distance(s'.gate.value.pc) < Distance(s.gate.value.pc))
            && (s'.gate == None && s.gate.value.actor == Cleanup && s.gate.value.conn == c ==> s'.conns[c].cleaned)
  {
  }

  /** States reached one step at a time. */
  ghost predicate Path(states: seq<State>, steps: seq<Step>)
  {
    |states| == |steps| + 1 && forall k: nat :: k < |steps| ==> StepAt(states, steps, k)
  }

  lemma StepFirst(s: State, step: Step, states: seq<State>, steps: seq<Step>)
    requires Path(states, steps) && Next(s, step, states[0])
    ensures Path([s] + states, [step] + steps)
  {
    hide Next;
    var all, taken := [s] + states, [step] + steps;
    forall k: nat | k < |taken| ensures StepAt(all, taken, k) {
      if k > 0 {
        assert StepAt(states, steps, k - 1);
        assert all[k] == states[k - 1] && all[k + 1] == states[k] && taken[k] == steps[k - 1];
      }
    }
  }

  /** The gate can always be left; a cleanup that leaves it is over. */
  lemma {:induction false} GateIsLeft(s: State, c: nat) returns (states: seq<State>, steps: seq<Step>)
    requires Inv(s) && c < |s.conns|
    ensures Path(states, steps) && states[0] == s
    ensures var end := states[|steps|];
            && Inv(end) && end.gate == None && c < |end.conns| && end.conns[c].main == s.conns[c].main
            && (s.conns[c].cleaned ==> end.conns[c].cleaned)
            && (s.gate.Some? && s.gate.value.actor == Cleanup && s.gate.value.conn == c ==> end.conns[c].cleaned)
    decreases if s.gate.Some? then Distance(s.gate.value.pc) else 0
  {
    hide Inv, Next, Advance;
    if s.gate == None {
      states, steps := [s], [];
    } else {
      var lease := Lease(1, 1);
      HolderMoves(s, lease, c);
      var s' := Advance(s, s.gate.value, lease, FINE);
      StepKeepsInv(s, Work(lease, FINE), s');
      states, steps := GateIsLeft(s', c);
      StepFirst(s, Work(lease, FINE), states, steps);
      states, steps := [s] + states, [Work(lease, FINE)] + steps;
    }
  }

  /** A connection whose session loop is gone can be cleaned up once the gate is free. */
  lemma CleanupGetsThrough(s: State, c: nat) returns (states: seq<State>, steps: seq<Step>)
    requires Inv(s) && s.gate == None && c < |s.conns| && !s.conns[c].main
    ensures Path(states, steps) && states[0] == s && Cleaned(states[|steps|], c)
  {
    hide Inv;
    if s.conns[c].cleaned {
      states, steps := [s], [];
    } else {
      var slot := s.conns[c].slot;
      var pc := if slot.Some? then Ending(slot.value, ThenLeave) else Leaving;
      var s' := s.(gate := Some(Holder(c, Cleanup, pc)));
      assert Next(s, EnterCleanup(c), s');
      StepKeepsInv(s, EnterCleanup(c), s');
      states, steps := GateIsLeft(s', c);
      StepFirst(s, EnterCleanup(c), states, steps);
      states, steps := [s] + states, [EnterCleanup(c)] + steps;
    }
  }

  /**
   * Whatever has happened and wherever tasks were cancelled, a connection that is gone can still be cleaned up: the run
   * can go on to a state in which its cleanup is over and its slot is empty.
   */
  lemma NeverStuck(states: seq<State>, steps: seq<Step>, c: nat) returns (more: seq<State>, taken: seq<Step>)
    requires Run(states, steps) && c < |states[|steps|].conns| && !states[|steps|].conns[c].main
    ensures Run(states + more, steps + taken)
    ensures var end := (states + more)[|steps| + |taken|];
            Cleaned(end, c) && end.conns[c].slot == None
  {
    hide Inv, Next;
    var s := states[|steps|];
    RunKeepsInv(states, steps, |steps|);
    var first, some := GateIsLeft(s, c);
    GoesOn(states, steps, first, some);
    var middle, done := states + first[1..], steps + some;
    var second, rest := CleanupGetsThrough(first[|some|], c);
    GoesOn(middle, done, second, rest);
    more, taken := first[1..] + second[1..], some + rest;
    assert states + more == middle + second[1..] && steps + taken == done + rest;
    CleanupEmptiesSlot(states + more, steps + taken, |steps| + |taken|, c);
  }

  lemma GoesOn(states: seq<State>, steps: seq<Step>, path: seq<State>, taken: seq<Step>)
    requires Run(states, steps) && Path(path, taken) && path[0] == states[|steps|]
    ensures Run(states + path[1..], steps + taken)
    ensures (states + path[1..])[|steps| + |taken|] == path[|taken|]
  {
    hide Next;
    var all, every := states + path[1..], steps + taken;
    forall k: nat | k < |every| ensures StepAt(all, every, k) {
      if k < |steps| {
        assert StepAt(states, steps, k);
      } else {
        assert StepAt(path, taken, k - |steps|);
        assert all[k] == path[k - |steps|] && all[k + 1] == path[k + 1 - |steps|];
      }
    }
  }
}
