// No request is ever stuck: whatever has happened, everything still pending can be answered.
module CommandProgress {
  import opened Basics
  import opened CommandCacheSpec
  import opened CommandProtocol

  // ---------- The cache can always be pruned and inserted into ----------

  lemma NothingIsOver(device: Bytes)
    ensures !GlobalOver(map[]) && !DeviceOver(map[], device)
  {
    var none: Entries := map[];
    assert Sizes(none) == map[] && DeviceSizes(none, device) == map[];
  }

  lemma FirstLive(c: Cache, now: nat) returns (live: nat)
    ensures LiveFrom(c, now, live)
  {
    live := 0;
    while live < |c.order| && IsExpired(c, c.order[live], now)
      invariant live <= |c.order| && forall i :: 0 <= i < live ==> IsExpired(c, c.order[i], now)
    {
      live := live + 1;
    }
  }

  lemma NoneLeft(c: Cache)
    ensures !GlobalOver(Only(c, c.order[|c.order|..]).entries)
  {
    NothingIsOver([]);
    assert Only(c, []).entries == map[];
  }

  lemma FirstFit(c: Cache, from: nat) returns (k: nat)
    requires from <= |c.order|
    ensures FitsFrom(c, from, k)
  {
    hide GlobalOver, Only;
    k := from;
    NoneLeft(c);
    while GlobalOver(Only(c, c.order[k..]).entries)
      invariant from <= k <= |c.order|
      invariant forall i :: from <= i < k ==> GlobalOver(Only(c, c.order[i..]).entries)
      decreases |c.order| - k
    {
      k := k + 1;
    }
  }

  lemma CanPrune(c: Cache, now: nat) returns (c': Cache)
    ensures Pruned(c, now, c')
  {
    hide IsExpired, GlobalOver, Only;
    var live := FirstLive(c, now);
    var k := FirstFit(c, live);
    c' := Only(c, c.order[k..]);
    assert PrunedAt(c, now, live, k, c');
  }

  lemma AllOfDeviceGone(c: Cache, device: Bytes)
    requires forall key :: key in c.entries ==> key in c.order
    ensures !DeviceOver(WithoutDevice(c, device, |c.order|).entries, device)
  {
    var entries := WithoutDevice(c, device, |c.order|).entries;
    assert c.order[..|c.order|] == c.order;
    FilterIsExact(c.order, ElementsOf(c.order) - DeviceKeys(c.order, device, |c.order|));
    assert DeviceSizes(entries, device) == DeviceSizes(map[], device);
    NothingIsOver(device);
  }

  lemma CanTrim(c: Cache, device: Bytes) returns (c': Cache)
    requires forall key :: key in c.entries ==> key in c.order
    ensures Trimmed(c, device, c')
  {
    hide DeviceOver, WithoutDevice;
    AllOfDeviceGone(c, device);
    var k := 0;
    while DeviceOver(WithoutDevice(c, device, k).entries, device)
      invariant k <= |c.order|
      invariant forall i :: 0 <= i < k ==> DeviceOver(WithoutDevice(c, device, i).entries, device)
      decreases |c.order| - k
    {
      k := k + 1;
    }
    c' := WithoutDevice(c, device, k);
    assert TrimmedAt(c, device, k, c');
  }

  lemma CanInsert(c: Cache, key: Key, cached: Cached, later: nat) returns (c': Cache)
    requires Listed(c)
    ensures Inserted(c, key, cached, later, c')
  {
    hide Pruned, Trimmed, Filter;
    if cached.size > MAX_CACHED_COMMAND_BYTES_PER_DEVICE {
      c' := Without(c, key);
      assert InsertedVia(c, key, cached, later, c, c');
    } else {
      var added := With(Without(c, key), key, cached);
      StillListed(c, key, cached);
      var trimmed := CanTrim(added, key.device);
      c' := CanPrune(trimmed, later);
      assert InsertedVia(c, key, cached, later, trimmed, c');
    }
  }

  lemma StillListed(c: Cache, key: Key, cached: Cached)
    requires Listed(c)
    ensures var added := With(Without(c, key), key, cached);
            forall other :: other in added.entries ==> other in added.order
  {
  }

  // ---------- Every pending request can be answered ----------

  /** States reached one step at a time. */
  ghost predicate Path(states: seq<State>, steps: seq<Step>)
  {
    |states| == |steps| + 1 && forall k: nat :: k < |steps| ==> StepAt(states, steps, k)
  }

  ghost predicate Answers(s: State, q: nat, states: seq<State>, steps: seq<Step>)
  {
    && Path(states, steps) && states[0] == s
    && var end := states[|steps|];
    && q < |end.requests| && end.requests[q].phase.Answered?
  }

  lemma StepFirst(s: State, step: Step, q: nat, states: seq<State>, steps: seq<Step>)
    requires |states| > 0 && Next(s, step, states[0]) && Answers(states[0], q, states, steps)
    ensures Answers(s, q, [s] + states, [step] + steps)
  {
    hide Next;
    var all, taken := [s] + states, [step] + steps;
    forall k: nat | k < |taken| ensures StepAt(all, taken, k) {
      if k > 0 {
        assert StepAt(states, steps, k - 1);
        assert all[k] == states[k - 1] && all[k + 1] == states[k] && taken[k] == steps[k - 1];
      }
    }
  }

  lemma AtOnce(s: State, q: nat)
    requires q < |s.requests| && s.requests[q].phase.Answered?
    ensures Answers(s, q, [s], [])
  {
  }

  lemma WokenIsAnswered(s: State, q: nat) returns (states: seq<State>, steps: seq<Step>)
    requires q < |s.requests| && s.requests[q].phase.Waiting? && s.requests[q].phase.exec < |s.executions|
    requires var task := s.executions[s.requests[q].phase.exec].task; task.Sent? || task.Ended?
    ensures Answers(s, q, states, steps)
  {
    var task := s.executions[s.requests[q].phase.exec].task;
    var s' := InPhase(s, q, Answered(ReplyTo(task.response, s.requests[q].id)));
    AtOnce(s', q);
    states, steps := [s'], [];
    StepFirst(s, Wake(q), q, states, steps);
    states, steps := [s] + states, [Wake(q)] + steps;
  }

  lemma SentIsAnswered(s: State, q: nat) returns (states: seq<State>, steps: seq<Step>)
    requires q < |s.requests| && s.requests[q].phase.Waiting? && s.requests[q].phase.exec < |s.executions|
    requires !s.executions[s.requests[q].phase.exec].task.Running?
    ensures Answers(s, q, states, steps)
  {
    var e := s.requests[q].phase.exec;
    if s.executions[e].task.Stored? {
      var s' := WithTask(s, e, Sent(s.executions[e].task.response));
      states, steps := WokenIsAnswered(s', q);
      StepFirst(s, Send(e), q, states, steps);
      states, steps := [s] + states, [Send(e)] + steps;
    } else {
      states, steps := WokenIsAnswered(s, q);
    }
  }

  /** A running execution can finish. */
  lemma CanFinish(s: State, e: nat) returns (step: Step, s': State)
    requires Listed(s.cache) && e < |s.executions| && s.executions[e].task.Running?
    ensures Next(s, step, s') && s'.requests == s.requests
    ensures |s'.executions| == |s.executions| && !s'.executions[e].task.Running?
  {
    hide Inserted, Listed;
    var response := Response(0, Some(false), []);
    var c := CanInsert(s.cache, s.executions[e].key, EntryOf(s, e, response, 0, s.clock), s.clock);
    s' := WithTask(s, e, Stored(response)).(cache := c, inFlight := s.inFlight - {s.executions[e].key});
    step := Finish(e, response, 0, s.clock, s.clock);
  }

  lemma WaiterIsAnswered(s: State, q: nat) returns (states: seq<State>, steps: seq<Step>)
    requires Inv(s) && q < |s.requests| && s.requests[q].phase.Waiting?
    ensures Answers(s, q, states, steps)
  {
    hide Next, FlightOk, PermitsOk, KeysOk, Listed, Aged, Bounded;
    assert RequestOk(s, s.requests[q]);
    var e := s.requests[q].phase.exec;
    if s.executions[e].task.Running? {
      var step, s' := CanFinish(s, e);
      states, steps := SentIsAnswered(s', q);
      StepFirst(s, step, q, states, steps);
      states, steps := [s] + states, [step] + steps;
    } else {
      states, steps := SentIsAnswered(s, q);
    }
  }

  /** Both checks can be made, whatever they find. */
  lemma CanCheck(s: State, q: nat) returns (step: Step, s': State)
    requires q < |s.requests| && (s.requests[q].phase.Arrived? || s.requests[q].phase.Checked?)
    ensures Next(s, step, s') && q < |s'.requests|
    ensures s.requests[q].phase.Arrived? ==> s'.requests[q].phase.Answered? || s'.requests[q].phase.Checked?
    ensures s.requests[q].phase.Checked? ==> s'.requests[q].phase.Answered? || s'.requests[q].phase.Waiting?
  {
    hide Pruned;
    var c := CanPrune(s.cache, s.clock);
    var r := s.requests[q];
    var answer := Lookup(c, r);
    var pruned := s.(cache := c);
    if r.phase.Arrived? {
      step := FirstCheck(q, s.clock);
      s' := InPhase(pruned, q, if answer.Some? then Answered(answer.value) else Checked);
    } else {
      step := SecondCheck(q, s.clock);
      if answer.Some? {
        s' := InPhase(pruned, q, Answered(answer.value));
      } else if r.key in s.inFlight {
        s' := InPhase(pruned, q, if s.inFlight[r.key].command != r.command then Answered(KeyReused)
                                 else Waiting(s.inFlight[r.key].exec));
      } else if s.permits == 0 {
        s' := InPhase(pruned, q, Answered(ResourceExhausted));
      } else {
        s' := InPhase(pruned, q, Waiting(|s.executions|)).(
          inFlight := s.inFlight[r.key := InFlight(r.command, |s.executions|)],
          executions := s.executions + [Execution(r.key, r.command, Running)], permits := s.permits - 1);
      }
    }
  }

  lemma CheckedIsAnswered(s: State, q: nat) returns (states: seq<State>, steps: seq<Step>)
    requires Inv(s) && q < |s.requests| && s.requests[q].phase.Checked?
    ensures Answers(s, q, states, steps)
  {
    hide Inv, Next;
    var step, s' := CanCheck(s, q);
    StepKeepsInv(s, step, s');
    if s'.requests[q].phase.Answered? {
      AtOnce(s', q);
      states, steps := [s'], [];
    } else {
      states, steps := WaiterIsAnswered(s', q);
    }
    StepFirst(s, step, q, states, steps);
    states, steps := [s] + states, [step] + steps;
  }

  lemma ArrivedIsAnswered(s: State, q: nat) returns (states: seq<State>, steps: seq<Step>)
    requires Inv(s) && q < |s.requests| && s.requests[q].phase.Arrived?
    ensures Answers(s, q, states, steps)
  {
    hide Inv, Next;
    var step, s' := CanCheck(s, q);
    StepKeepsInv(s, step, s');
    if s'.requests[q].phase.Answered? {
      AtOnce(s', q);
      states, steps := [s'], [];
    } else {
      states, steps := CheckedIsAnswered(s', q);
    }
    StepFirst(s, step, q, states, steps);
    states, steps := [s] + states, [step] + steps;
  }

  /** Whatever has happened, a request that is neither answered nor abandoned can still be answered. */
  lemma NeverStuck(states: seq<State>, steps: seq<Step>, q: nat) returns (more: seq<State>, taken: seq<Step>)
    requires Run(states, steps)
    requires var s := states[|steps|];
             q < |s.requests| && !s.requests[q].phase.Cancelled? && !s.requests[q].phase.Answered?
    ensures Run(states + more, steps + taken)
    ensures var end := (states + more)[|steps| + |taken|];
            q < |end.requests| && end.requests[q].phase.Answered?
  {
    hide Inv, Next;
    var s := states[|steps|];
    RunKeepsInv(states, steps, |steps|);
    var path;
    match s.requests[q].phase {
      case Arrived => path, taken := ArrivedIsAnswered(s, q);
      case Checked => path, taken := CheckedIsAnswered(s, q);
      case Waiting(_) => path, taken := WaiterIsAnswered(s, q);
    }
    more := path[1..];
    GoesOn(states, steps, path, taken);
  }

  lemma GoesOn(states: seq<State>, steps: seq<Step>, path: seq<State>, taken: seq<Step>)
    requires Run(states, steps) && Path(path, taken) && path[0] == states[|steps|]
    ensures Run(states + path[1..], steps + taken)
    ensures (states + path[1..])[|steps| + |taken|] == path[|taken|]
  {
    hide Next;
    var all, every := states + path[1..], steps + taken;
    forall k: nat | k < |every| ensures StepAt(all, every, k) {
      if k < |steps| {
        assert StepAt(states, steps, k);
      } else {
        assert StepAt(path, taken, k - |steps|);
        assert all[k] == path[k - |steps|] && all[k + 1] == path[k + 1 - |steps|];
      }
    }
  }
}
