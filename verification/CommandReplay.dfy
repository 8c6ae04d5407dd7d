// What every request is told, step by step, and how a kept result answers its duplicates.
module CommandReplay {
  import opened Basics
  import opened CommandCacheSpec
  import opened CommandProtocol

  // ---------- One step ----------

  /** The result kept for `key`, unless it is five minutes old. */
  ghost predicate Kept(s: State, key: Key, now: nat)
  {
    key in s.cache.entries && now < s.cache.entries[key].createdAt + 300_000
  }

  /** Execution `e` is working on `key`. */
  ghost predicate Working(s: State, e: nat, key: Key)
  {
    e < |s.executions| && s.executions[e].key == key && s.executions[e].task.Running?
  }

  lemma PruneKeeps(s: State, now: nat, c': Cache, key: Key)
    requires CacheOk(s) && Pruned(s.cache, now, c')
    ensures key in c'.entries <==> Kept(s, key, now)
    ensures key in c'.entries ==> c'.entries[key] == s.cache.entries[key]
  {
    hide Pruned, GlobalOver, DeviceOver;
    PruneWithinLimits(s.cache, now, c');
    PrunedIsSuffix(s.cache, now, c');
  }

  lemma WorkingIsInFlight(s: State, key: Key)
    requires FlightOk(s)
    ensures key in s.inFlight ==>
              Working(s, s.inFlight[key].exec, key)
              && s.executions[s.inFlight[key].exec].command == s.inFlight[key].command
    ensures forall e: nat :: Working(s, e, key) ==> key in s.inFlight && s.inFlight[key].exec == e
  {
  }

  /** A new request is turned away for the length of its key, then for want of a right, and else goes on. */
  lemma ArrivalsAreDue(s: State, id: nat, key: Key, command: Bytes, authorized: bool, s': State)
    requires Next(s, Arrive(id, key, command, authorized), s')
    ensures |s'.requests| == |s.requests| + 1
    ensures s'.requests[|s.requests|] ==
              Request(id, key, command,
                      if |key.idempotency| < 16 || |key.idempotency| > 64 then Answered(BadKeyLength)
                      else if !authorized then Answered(Denied)
                      else Arrived)
    ensures s' == s.(requests := s'.requests) && s'.requests[..|s.requests|] == s.requests
  {
  }

  /** The first check answers from a kept result of the same command, refuses another command, and else passes. */
  lemma FirstChecksAreDue(s: State, q: nat, now: nat, s': State)
    requires Inv(s) && Next(s, FirstCheck(q, now), s')
    ensures var r := s.requests[q];
            s'.requests == s.requests[q := r.(phase :=
              if !Kept(s, r.key, now) then Checked
              else if s.cache.entries[r.key].command != r.command then Answered(KeyReused)
              else Answered(Replied(s.cache.entries[r.key].response.(requestId := r.id))))]
    ensures s'.executions == s.executions && s'.inFlight == s.inFlight && s'.permits == s.permits
  {
    hide Pruned, CacheOk;
    PruneKeeps(s, now, s'.cache, s.requests[q].key);
  }

  /**
   * The second check does the same, then joins the execution working on the key, or refuses another command; with
   * nothing to answer it the request starts an execution of its own, unless 32 are active.
   */
  ghost predicate SecondCheckDue(s: State, q: nat, now: nat, s': State)
  {
    && q < |s.requests| && q < |s'.requests|
    && var r, phase := s.requests[q], s'.requests[q].phase;
    && (Kept(s, r.key, now) ==>
          && s'.executions == s.executions
          && phase == (if s.cache.entries[r.key].command != r.command then Answered(KeyReused)
                       else Answered(Replied(s.cache.entries[r.key].response.(requestId := r.id)))))
    && (forall e: nat :: Working(s, e, r.key) && !Kept(s, r.key, now) ==>
          && s'.executions == s.executions
          && phase == (if s.executions[e].command != r.command then Answered(KeyReused) else Waiting(e)))
    && (!Kept(s, r.key, now) && (forall e: nat :: !Working(s, e, r.key)) ==>
          if |Active(s)| >= 32 then phase == Answered(ResourceExhausted) && s'.executions == s.executions
          else
            && phase == Waiting(|s.executions|)
            && s'.executions == s.executions + [Execution(r.key, r.command, Running)])
  }

  lemma SecondChecksAreDue(s: State, q: nat, now: nat, s': State)
    requires Inv(s) && Next(s, SecondCheck(q, now), s')
    ensures SecondCheckDue(s, q, now, s')
  {
    hide Pruned, CacheOk, Active, FlightOk, RequestsOk, KeysOk, Kept;
    var key := s.requests[q].key;
    PruneKeeps(s, now, s'.cache, key);
    KeptEntry(s, key, now);
    WorkingIsInFlight(s, key);
    if key in s.inFlight {
      assert Working(s, s.inFlight[key].exec, key);
    }
  }

  lemma KeptEntry(s: State, key: Key, now: nat)
    ensures Kept(s, key, now) ==> key in s.cache.entries
  {
  }

  /** A waiter is told the result of the execution it joined, under its own request id. */
  lemma WakesAreDue(s: State, q: nat, s': State)
    requires Inv(s) && Next(s, Wake(q), s')
    ensures var r := s.requests[q];
            && r.phase.Waiting?
            && var x := s.executions[r.phase.exec];
            && x.key == r.key && x.command == r.command && !x.task.Running?
            && s' == InPhase(s, q, Answered(Replied(x.task.response.(requestId := r.id))))
  {
    hide CacheOk, PermitsOk, KeysOk, Active;
    assert RequestOk(s, s.requests[q]);
  }

  // ---------- Replay ----------

  /** Request `q` is checked at step `d`, which asks for this command under this key. */
  ghost predicate Asks(states: seq<State>, steps: seq<Step>, d: nat, q: nat, key: Key, command: Bytes)
  {
    && d < |steps| && d < |states| && q < |states[d].requests|
    && (steps[d].FirstCheck? || steps[d].SecondCheck?) && steps[d].request == q
    && states[d].requests[q].key == key && states[d].requests[q].command == command
  }

  /**
   * A result that is not retryable and was kept answers every later request for the same command under the same key,
   * with nothing but the request id rewritten, and starts nothing, until it is lost or five minutes old.
   */
  lemma ResultIsReplayed(states: seq<State>, steps: seq<Step>, f: nat, i: nat, d: nat, q: nat)
    requires Run(states, steps) && Finishes(states, steps, f, i) && f < d
    requires var x := states[f].executions[i];
             && steps[f].response.retryable == Some(false)
             && |x.key.idempotency| + |x.command| + steps[f].responseLen <= 8 * 1024 * 1024
             && steps[f].later < steps[f].now + 300_000
             && Asks(states, steps, d, q, x.key, x.command)
             && !LostBetween(states, steps, f + 1, d, x.key) && steps[d].now < steps[f].now + 300_000
    ensures d + 1 < |states| && q < |states[d + 1].requests|
    ensures states[d + 1].requests[q].phase ==
              Answered(Replied(steps[f].response.(requestId := states[d].requests[q].id)))
    ensures states[d + 1].executions == states[d].executions
  {
    hide Next, Inv, NotStored, LostFor;
    var x := states[f].executions[i];
    assert StepAt(states, steps, f) && StepAt(states, steps, d);
    RunKeepsInv(states, steps, f);
    RunKeepsInv(states, steps, d);
    NothingAgainst(states[f], steps[f]);
    FinishStores(states[f], steps[f], states[f + 1]);
    CachedUntilLost(states, steps, f + 1, d, x.key);
    if steps[d].FirstCheck? {
      FirstChecksAreDue(states[d], q, steps[d].now, states[d + 1]);
      CheckedRequest(states[d], steps[d], states[d + 1], q);
    } else {
      SecondChecksAreDue(states[d], q, steps[d].now, states[d + 1]);
    }
  }

  lemma NothingAgainst(s: State, step: Step)
    requires step.Finish? && step.exec < |s.executions|
    ensures var x := s.executions[step.exec];
            NotStored(s, step) <==>
              || step.response.retryable != Some(false)
              || |x.key.idempotency| + |x.command| + step.responseLen > 8 * 1024 * 1024
              || step.now + 300_000 <= step.later
  {
  }

  lemma CheckedRequest(s: State, step: Step, s': State, q: nat)
    requires Next(s, step, s') && (step.FirstCheck? || step.SecondCheck?) && step.request == q
    ensures q < |s.requests| == |s'.requests|
  {
    hide Pruned, Lookup;
  }
}
