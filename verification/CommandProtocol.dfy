// Idempotent commands: requests, the command cache, in-flight executions and their permits as a state machine.
// Each step is what runs while the cache's lock is held, or an action of one task between two such sections.
module CommandProtocol {
  import opened Basics
  import opened CommandCacheSpec

  const MAX_BACKGROUND_COMMANDS := 32

  datatype InFlight = InFlight(command: Bytes, exec: nat)

  /** A background task: running, its result stored, sent to the waiters, gone. */
  datatype Task = Running | Stored(response: Response) | Sent(response: Response) | Ended(response: Response)

  datatype Execution = Execution(key: Key, command: Bytes, task: Task)

  datatype Reply =
    | Replied(response: Response)
    | BadKeyLength
    | Denied
    | KeyReused
    | ResourceExhausted
    | Unavailable

  datatype Phase = Arrived | Checked | Waiting(exec: nat) | Answered(reply: Reply) | Cancelled

  datatype Request = Request(id: nat, key: Key, command: Bytes, phase: Phase)

  datatype State = State(
    clock: nat, cache: Cache, inFlight: map<Key, InFlight>, executions: seq<Execution>, requests: seq<Request>,
    permits: nat)

  datatype Step =
    | Arrive(id: nat, key: Key, command: Bytes, authorized: bool)
    | FirstCheck(request: nat, now: nat)
    | SecondCheck(request: nat, now: nat)
    | Finish(exec: nat, response: Response, responseLen: nat, now: nat, later: nat)
    | Send(exec: nat)
    | End(exec: nat)
    | Wake(request: nat)
    | Cancel(request: nat)

  // ---------- Steps ----------

  predicate ValidKey(key: Key)
  {
    16 <= |key.idempotency| <= 64
  }

  /** The reply for a request: the response under the request's own id. */
  function ReplyTo(response: Response, id: nat): Reply
  {
    Replied(response.(requestId := id))
  }

  /** What the cache answers at once. */
  function Lookup(c: Cache, request: Request): Option<Reply>
  {
    if request.key !in c.entries then None
    else if c.entries[request.key].command != request.command then Some(KeyReused)
    else Some(ReplyTo(c.entries[request.key].response, request.id))
  }

  function InPhase(s: State, q: nat, phase: Phase): State
    requires q < |s.requests|
  {
    s.(requests := s.requests[q := s.requests[q].(phase := phase)])
  }

  function WithTask(s: State, e: nat, task: Task): State
    requires e < |s.executions|
  {
    s.(executions := s.executions[e := s.executions[e].(task := task)])
  }

  predicate Cacheable(response: Response)
  {
    response.retryable == Some(false)
  }

  function EntryOf(s: State, e: nat, response: Response, responseLen: nat, now: nat): Cached
    requires e < |s.executions|
  {
    var x := s.executions[e];
    Cached(x.command, response, now, EntrySize(x.key, x.command, responseLen))
  }

  ghost predicate ArriveStep(s: State, id: nat, key: Key, command: Bytes, authorized: bool, s': State)
  {
    var phase := if !ValidKey(key) then Answered(BadKeyLength) else if !authorized then Answered(Denied) else Arrived;
    s' == s.(requests := s.requests + [Request(id, key, command, phase)])
  }

  ghost predicate FirstCheckStep(s: State, q: nat, now: nat, s': State)
  {
    && q < |s.requests| && s.requests[q].phase == Arrived && s.clock <= now && Pruned(s.cache, now, s'.cache)
    && var answer := Lookup(s'.cache, s.requests[q]);
    && s' == InPhase(s, q, if answer.Some? then Answered(answer.value) else Checked).(clock := now, cache := s'.cache)
  }

  /** The second look under the lock: answer, join, refuse or become the leader. */
  ghost predicate SecondCheckStep(s: State, q: nat, now: nat, s': State)
  {
    && q < |s.requests| && s.requests[q].phase == Checked && s.clock <= now && Pruned(s.cache, now, s'.cache)
    && var r := s.requests[q];
    && var answer := Lookup(s'.cache, r);
    && var pruned := s.(clock := now, cache := s'.cache);
    if answer.Some? then s' == InPhase(pruned, q, Answered(answer.value))
    else if r.key in s.inFlight && s.inFlight[r.key].command != r.command then
      s' == InPhase(pruned, q, Answered(KeyReused))
    else if r.key in s.inFlight then s' == InPhase(pruned, q, Waiting(s.inFlight[r.key].exec))
    else if s.permits == 0 then s' == InPhase(pruned, q, Answered(ResourceExhausted))
    else s' == InPhase(pruned, q, Waiting(|s.executions|)).(
                 inFlight := s.inFlight[r.key := InFlight(r.command, |s.executions|)],
                 executions := s.executions + [Execution(r.key, r.command, Running)], permits := s.permits - 1)
  }

  /** A task's result arrives: it leaves the in-flight table and, unless it may be retried, enters the cache. */
  ghost predicate FinishStep(s: State, e: nat, response: Response, responseLen: nat, now: nat, later: nat, s': State)
  {
    && e < |s.executions| && s.executions[e].task == Running && s.clock <= now <= later
    && s' == WithTask(s, e, Stored(response)).(
               clock := later, cache := s'.cache, inFlight := s.inFlight - {s.executions[e].key})
    && if Cacheable(response)
       then Inserted(s.cache, s.executions[e].key, EntryOf(s, e, response, responseLen, now), later, s'.cache)
       else s'.cache == s.cache
  }

  ghost predicate SendStep(s: State, e: nat, s': State)
  {
    && e < |s.executions| && s.executions[e].task.Stored?
    && s' == WithTask(s, e, Sent(s.executions[e].task.response))
  }

  ghost predicate EndStep(s: State, e: nat, s': State)
  {
    && e < |s.executions| && s.executions[e].task.Sent?
    && s' == WithTask(s, e, Ended(s.executions[e].task.response)).(permits := s.permits + 1)
  }

  /** The result channel is open while the in-flight table or the task holds a sender. */
  predicate ChannelOpen(s: State, e: nat)
    requires e < |s.executions|
  {
    (exists key :: key in s.inFlight && s.inFlight[key].exec == e) || !s.executions[e].task.Ended?
  }

  /** A waiter wakes when a result was sent or the channel closed. */
  ghost predicate WakeStep(s: State, q: nat, s': State)
  {
    && q < |s.requests| && s.requests[q].phase.Waiting? && s.requests[q].phase.exec < |s.executions|
    && var e := s.requests[q].phase.exec;
    && var task := s.executions[e].task;
    && (task.Sent? || task.Ended? || !ChannelOpen(s, e))
    && var reply := if task.Sent? || task.Ended? then ReplyTo(task.response, s.requests[q].id) else Unavailable;
    && s' == InPhase(s, q, Answered(reply))
  }

  ghost predicate CancelStep(s: State, q: nat, s': State)
  {
    q < |s.requests| && !s.requests[q].phase.Answered? && s' == InPhase(s, q, Cancelled)
  }

  ghost predicate Next(s: State, step: Step, s': State)
  {
    match step
    case Arrive(id, key, command, authorized) => ArriveStep(s, id, key, command, authorized, s')
    case FirstCheck(q, now) => FirstCheckStep(s, q, now, s')
    case SecondCheck(q, now) => SecondCheckStep(s, q, now, s')
    case Finish(e, response, responseLen, now, later) => FinishStep(s, e, response, responseLen, now, later, s')
    case Send(e) => SendStep(s, e, s')
    case End(e) => EndStep(s, e, s')
    case Wake(q) => WakeStep(s, q, s')
    case Cancel(q) => CancelStep(s, q, s')
  }

  function Initial(): State
  {
    State(0, Cache(map[], []), map[], [], [], MAX_BACKGROUND_COMMANDS)
  }

  ghost predicate StepAt(states: seq<State>, steps: seq<Step>, k: nat)
  {
    k < |steps| && k + 1 < |states| && Next(states[k], steps[k], states[k + 1])
  }

  /** A run from the initial state. */
  ghost predicate Run(states: seq<State>, steps: seq<Step>)
  {
    && |states| == |steps| + 1 && states[0] == Initial()
    && forall k: nat :: k < |steps| ==> StepAt(states, steps, k)
  }

  // ---------- Invariants ----------

  /** Execution `e` produced `response` for this key and command. */
  predicate Produced(s: State, e: nat, key: Key, command: Bytes, response: Response)
  {
    && e < |s.executions| && s.executions[e].key == key && s.executions[e].command == command
    && !s.executions[e].task.Running? && s.executions[e].task.response == response
  }

  predicate HasProducer(s: State, key: Key, cached: Cached)
  {
    exists e: nat :: e < |s.executions| && Produced(s, e, key, cached.command, cached.response)
  }

  ghost predicate CacheOk(s: State)
  {
    && Sound(s.cache)
    && forall key :: key in s.cache.entries ==>
         s.cache.entries[key].createdAt <= s.clock && HasProducer(s, key, s.cache.entries[key])
  }

  /** The in-flight table lists exactly the running executions, one per key, and nothing that is cached. */
  predicate FlightOk(s: State)
  {
    && (forall key :: key in s.inFlight ==>
          && var f := s.inFlight[key];
          && f.exec < |s.executions| && s.executions[f.exec] == Execution(key, f.command, Running)
          && key !in s.cache.entries)
    && (forall e: nat :: e < |s.executions| && s.executions[e].task.Running? ==>
          s.executions[e].key in s.inFlight && s.inFlight[s.executions[e].key].exec == e)
  }

  function Active(s: State): set<nat>
  {
    set e: nat | e < |s.executions| && !s.executions[e].task.Ended?
  }

  predicate PermitsOk(s: State)
  {
    s.permits + |Active(s)| == MAX_BACKGROUND_COMMANDS
  }

  predicate ReplyOk(s: State, r: Request, reply: Reply)
  {
    match reply
    case Replied(response) =>
      exists e: nat :: e < |s.executions| && !s.executions[e].task.Running?
        && Produced(s, e, r.key, r.command, s.executions[e].task.response)
           && reply == ReplyTo(s.executions[e].task.response, r.id)
    case KeyReused =>
      exists e: nat :: e < |s.executions| && s.executions[e].key == r.key && s.executions[e].command != r.command
    case BadKeyLength => !ValidKey(r.key)
    case Denied => true
    case ResourceExhausted => true
    case Unavailable => false
  }

  predicate RequestOk(s: State, r: Request)
  {
    && (r.phase.Waiting? ==>
          && r.phase.exec < |s.executions|
          && s.executions[r.phase.exec].key == r.key && s.executions[r.phase.exec].command == r.command)
    && (r.phase.Answered? ==> ReplyOk(s, r, r.phase.reply))
    && (r.phase.Arrived? || r.phase.Checked? ==> ValidKey(r.key))
  }

  predicate RequestsOk(s: State)
  {
    forall q :: 0 <= q < |s.requests| ==> RequestOk(s, s.requests[q])
  }

  predicate KeysOk(s: State)
  {
    forall e :: 0 <= e < |s.executions| ==> ValidKey(s.executions[e].key)
  }

  ghost predicate Inv(s: State)
  {
    CacheOk(s) && FlightOk(s) && PermitsOk(s) && RequestsOk(s) && KeysOk(s)
  }

  // ---------- Every step keeps the invariant ----------

  /** Executions are only added, and results never change. */
  predicate Grows(s: State, s': State)
  {
    && |s.executions| <= |s'.executions|
    && forall e :: 0 <= e < |s.executions| ==>
         && s'.executions[e].key == s.executions[e].key && s'.executions[e].command == s.executions[e].command
         && (!s.executions[e].task.Running? ==>
               !s'.executions[e].task.Running? && s'.executions[e].task.response == s.executions[e].task.response)
  }

  lemma StepGrows(s: State, step: Step, s': State)
    requires Next(s, step, s')
    ensures Grows(s, s') && s.clock <= s'.clock
  {
    hide Pruned, Inserted, Lookup, ReplyTo;
  }

  lemma ProducedStays(s: State, s': State, e: nat, key: Key, command: Bytes, response: Response)
    requires Grows(s, s') && Produced(s, e, key, command, response)
    ensures Produced(s', e, key, command, response)
  {
  }

  lemma HasProducerStays(s: State, s': State, key: Key, cached: Cached)
    requires Grows(s, s') && HasProducer(s, key, cached)
    ensures HasProducer(s', key, cached)
  {
    var e: nat :| e < |s.executions| && Produced(s, e, key, cached.command, cached.response);
    ProducedStays(s, s', e, key, cached.command, cached.response);
  }

  lemma RequestStays(s: State, s': State, r: Request)
    requires Grows(s, s') && RequestOk(s, r)
    ensures RequestOk(s', r)
  {
    if r.phase.Answered? {
      match r.phase.reply
      case Replied(response) =>
        var e: nat :| e < |s.executions| && !s.executions[e].task.Running?
          && Produced(s, e, r.key, r.command, s.executions[e].task.response)
          && r.phase.reply == ReplyTo(s.executions[e].task.response, r.id);
        ProducedStays(s, s', e, r.key, r.command, s.executions[e].task.response);
      case KeyReused =>
        var e: nat :| e < |s.executions| && s.executions[e].key == r.key && s.executions[e].command != r.command;
        assert s'.executions[e].key == r.key && s'.executions[e].command != r.command;
      case _ =>
    }
  }

  /** A step changes at most one request; the others stay justified. */
  lemma RequestsStay(s: State, s': State, q: nat)
    requires Grows(s, s') && RequestsOk(s) && |s.requests| <= |s'.requests| && q < |s'.requests|
    requires forall p :: 0 <= p < |s'.requests| && p != q ==> p < |s.requests| && s'.requests[p] == s.requests[p]
    requires RequestOk(s', s'.requests[q])
    ensures RequestsOk(s')
  {
    hide RequestOk;
    forall p | 0 <= p < |s'.requests| && p != q ensures RequestOk(s', s'.requests[p]) {
      RequestStays(s, s', s'.requests[p]);
    }
  }

  lemma RequestsUntouched(s: State, s': State)
    requires Grows(s, s') && RequestsOk(s) && s'.requests == s.requests
    ensures RequestsOk(s')
  {
    hide RequestOk;
    forall p | 0 <= p < |s'.requests| ensures RequestOk(s', s'.requests[p]) {
      RequestStays(s, s', s.requests[p]);
    }
  }

  // ---------- The cache component ----------

  lemma PruneKeepsCacheOk(s: State, now: nat, s': State)
    requires CacheOk(s) && Grows(s, s') && s.clock <= now == s'.clock && Pruned(s.cache, now, s'.cache)
    ensures CacheOk(s') && Part(s'.cache.entries, s.cache.entries)
  {
    hide Sound, Pruned, HasProducer, Grows;
    PruneIsSound(s.cache, now, s'.cache);
    forall key | key in s'.cache.entries ensures HasProducer(s', key, s'.cache.entries[key]) {
      HasProducerStays(s, s', key, s.cache.entries[key]);
    }
  }

  lemma PruneIsSound(c: Cache, now: nat, c': Cache)
    requires Sound(c) && Pruned(c, now, c')
    ensures Sound(c') && Part(c'.entries, c.entries)
  {
    hide Pruned, DeviceOver, GlobalOver;
    PruneKeepsSound(c, now, c');
    PrunedIsSuffix(c, now, c');
  }

  lemma FinishKeepsCacheOk(s: State, e: nat, response: Response, responseLen: nat, now: nat, later: nat, s': State)
    requires CacheOk(s) && FlightOk(s) && FinishStep(s, e, response, responseLen, now, later, s')
    ensures CacheOk(s')
    ensures Part(s'.cache.entries, s.cache.entries[s.executions[e].key := EntryOf(s, e, response, responseLen, now)])
  {
    hide Sound, Inserted;
    var key, cached := s.executions[e].key, EntryOf(s, e, response, responseLen, now);
    if Cacheable(response) {
      InsertKeepsSound(s.cache, key, cached, later, s'.cache);
      InsertAddsOne(s.cache, key, cached, later, s'.cache);
    }
    forall other | other in s'.cache.entries ensures HasProducer(s', other, s'.cache.entries[other]) {
      if other in s.cache.entries && s'.cache.entries[other] == s.cache.entries[other] {
        HasProducerStays(s, s', other, s.cache.entries[other]);
      } else {
        assert Produced(s', e, key, cached.command, cached.response);
      }
    }
  }

  // ---------- Executions and permits ----------

  lemma StartKeepsPermits(s: State, x: Execution, s': State)
    requires s'.executions == s.executions + [x] && x.task == Running
    ensures |Active(s')| == |Active(s)| + 1
  {
    assert Active(s') == Active(s) + {|s.executions|};
  }

  lemma EndReleasesOne(s: State, e: nat, s': State)
    requires EndStep(s, e, s')
    ensures |Active(s)| == |Active(s')| + 1
  {
    var after := s'.executions;
    assert |after| == |s.executions| && after[e].task.Ended? && !s.executions[e].task.Ended?;
    assert forall i: nat :: i < |after| && i != e ==> after[i] == s.executions[i];
    assert e !in Active(s') && Active(s) == Active(s') + {e};
  }

  lemma SameActive(s: State, s': State)
    requires |s'.executions| == |s.executions|
    requires forall e :: 0 <= e < |s.executions| ==> (s'.executions[e].task.Ended? <==> s.executions[e].task.Ended?)
    ensures Active(s') == Active(s)
  {
  }

  /** A step of a request: an answer from the cache, or an execution to wait for. */
  lemma LookupIsOk(s: State, r: Request)
    requires CacheOk(s) && Lookup(s.cache, r).Some?
    ensures ReplyOk(s, r, Lookup(s.cache, r).value)
  {
    hide Sound;
    var cached := s.cache.entries[r.key];
    var e: nat :| e < |s.executions| && Produced(s, e, r.key, cached.command, cached.response);
  }

  lemma FirstCheckKeepsInv(s: State, q: nat, now: nat, s': State)
    requires Inv(s) && FirstCheckStep(s, q, now, s')
    ensures Inv(s')
  {
    hide Pruned, Sound, HasProducer, ReplyOk;
    PruneKeepsCacheOk(s, now, s');
    SameActive(s, s');
    if Lookup(s'.cache, s.requests[q]).Some? {
      LookupIsOk(s', s.requests[q]);
      SameRequest(s', s.requests[q], s'.requests[q]);
    }
    RequestsStay(s, s', q);
  }

  /** What a reply owes does not depend on the request's phase. */
  lemma SameRequest(s: State, r: Request, r': Request)
    requires r' == r.(phase := r'.phase)
    ensures forall reply :: ReplyOk(s, r, reply) <==> ReplyOk(s, r', reply)
  {
  }

  lemma SecondCheckKeepsRequests(s: State, q: nat, now: nat, s': State)
    requires CacheOk(s) && CacheOk(s') && FlightOk(s) && RequestsOk(s) && Grows(s, s') && SecondCheckStep(s, q, now, s')
    ensures RequestsOk(s')
  {
    hide Pruned, Sound, HasProducer, CacheOk;
    var r, r' := s.requests[q], s'.requests[q];
    if Lookup(s'.cache, r).Some? {
      LookupIsOk(s', r);
      SameRequest(s', r, r');
    } else if r.key in s.inFlight && s.inFlight[r.key].command != r.command {
      assert s'.executions[s.inFlight[r.key].exec].key == r.key;
    }
    RequestsStay(s, s', q);
  }

  lemma SecondCheckKeepsInv(s: State, q: nat, now: nat, s': State)
    requires Inv(s) && SecondCheckStep(s, q, now, s')
    ensures Inv(s')
  {
    hide Pruned, CacheOk, FlightOk, PermitsOk, RequestsOk, KeysOk;
    SecondCheckGrows(s, q, now, s');
    PruneKeepsCacheOk(s, now, s');
    SecondCheckKeepsRequests(s, q, now, s');
    SecondCheckKeepsFlight(s, q, now, s');
    SecondCheckKeepsPermits(s, q, now, s');
  }

  lemma SecondCheckGrows(s: State, q: nat, now: nat, s': State)
    requires SecondCheckStep(s, q, now, s')
    ensures Grows(s, s')
  {
    hide Pruned, Lookup;
  }

  lemma SecondCheckKeepsFlight(s: State, q: nat, now: nat, s': State)
    requires FlightOk(s) && RequestsOk(s) && KeysOk(s) && SecondCheckStep(s, q, now, s')
    requires Part(s'.cache.entries, s.cache.entries)
    ensures FlightOk(s') && KeysOk(s')
  {
    hide Pruned, RequestsOk, FlightOk, Lookup;
    ValidRequest(s, q);
    if |s'.executions| > |s.executions| {
      assert s.requests[q].key !in s'.cache.entries by {
        NotFound(s'.cache, s.requests[q]);
      }
      StartKeepsFlight(s, s.requests[q], s');
    } else {
      SameFlight(s, s');
    }
  }

  lemma NotFound(c: Cache, r: Request)
    ensures Lookup(c, r) == None ==> r.key !in c.entries
  {
  }

  lemma SameFlight(s: State, s': State)
    requires FlightOk(s) && s'.executions == s.executions && s'.inFlight == s.inFlight
    requires Part(s'.cache.entries, s.cache.entries)
    ensures FlightOk(s')
  {
  }

  lemma StartKeepsFlight(s: State, r: Request, s': State)
    requires FlightOk(s) && r.key !in s.inFlight && r.key !in s'.cache.entries
    requires Part(s'.cache.entries, s.cache.entries)
    requires s'.executions == s.executions + [Execution(r.key, r.command, Running)]
    requires s'.inFlight == s.inFlight[r.key := InFlight(r.command, |s.executions|)]
    ensures FlightOk(s')
  {
  }

  lemma SecondCheckKeepsPermits(s: State, q: nat, now: nat, s': State)
    requires PermitsOk(s) && SecondCheckStep(s, q, now, s')
    ensures PermitsOk(s')
  {
    hide Pruned, Active, Lookup;
    if |s'.executions| > |s.executions| {
      StartKeepsPermits(s, s'.executions[|s.executions|], s');
    } else {
      SameActive(s, s');
    }
  }

  lemma ValidRequest(s: State, q: nat)
    requires RequestsOk(s) && q < |s.requests| && (s.requests[q].phase.Arrived? || s.requests[q].phase.Checked?)
    ensures ValidKey(s.requests[q].key)
  {
  }

  lemma FinishKeepsInv(s: State, e: nat, response: Response, responseLen: nat, now: nat, later: nat, s': State)
    requires Inv(s) && FinishStep(s, e, response, responseLen, now, later, s')
    ensures Inv(s')
  {
    hide Inserted, Sound, HasProducer, RequestsOk, Active, CacheOk;
    FinishKeepsCacheOk(s, e, response, responseLen, now, later, s');
    SameActive(s, s');
    RequestsUntouched(s, s');
  }

  /** A waiter always wakes to a result: the channel cannot close before one is sent. */
  lemma WakeKeepsInv(s: State, q: nat, s': State)
    requires Inv(s) && WakeStep(s, q, s')
    ensures Inv(s')
    ensures s'.requests[q].phase.reply.Replied?
  {
    hide Sound;
    var e := s.requests[q].phase.exec;
    var r, r' := s.requests[q], s'.requests[q];
    assert RequestOk(s, r);
    assert Produced(s', e, r.key, r.command, s'.executions[e].task.response);
    CacheUntouched(s, s');
    SameActive(s, s');
    RequestsStay(s, s', q);
  }

  lemma CacheUntouched(s: State, s': State)
    requires CacheOk(s) && Grows(s, s') && s'.cache == s.cache && s'.clock == s.clock
    ensures CacheOk(s')
  {
    hide Sound, HasProducer, Grows;
    forall key | key in s'.cache.entries ensures HasProducer(s', key, s'.cache.entries[key]) {
      HasProducerStays(s, s', key, s.cache.entries[key]);
    }
  }

  lemma OtherStepsKeepInv(s: State, step: Step, s': State)
    requires Inv(s) && Next(s, step, s') && (step.Arrive? || step.Send? || step.End? || step.Cancel?)
    ensures Inv(s')
  {
    hide Sound, HasProducer, Active, ReplyOk;
    StepGrows(s, step, s');
    CacheUntouched(s, s');
    match step
    case Arrive(id, key, command, authorized) =>
      SameActive(s, s');
      NewReplyOk(s', s'.requests[|s.requests|]);
      RequestsStay(s, s', |s.requests|);
    case Send(e) =>
      SameActive(s, s');
      RequestsUntouched(s, s');
    case End(e) =>
      EndReleasesOne(s, e, s');
      RequestsUntouched(s, s');
    case Cancel(q) =>
      SameActive(s, s');
      RequestsStay(s, s', q);
  }

  lemma NewReplyOk(s: State, r: Request)
    ensures !ValidKey(r.key) ==> ReplyOk(s, r, BadKeyLength)
    ensures ReplyOk(s, r, Denied)
  {
  }

  lemma StepKeepsInv(s: State, step: Step, s': State)
    requires Inv(s) && Next(s, step, s')
    ensures Inv(s')
  {
    match step
    case FirstCheck(q, now) => FirstCheckKeepsInv(s, q, now, s');
    case SecondCheck(q, now) => SecondCheckKeepsInv(s, q, now, s');
    case Finish(e, response, responseLen, now, later) => FinishKeepsInv(s, e, response, responseLen, now, later, s');
    case Wake(q) => WakeKeepsInv(s, q, s');
    case _ => OtherStepsKeepInv(s, step, s');
  }

  lemma {:induction false} RunKeepsInv(states: seq<State>, steps: seq<Step>, k: nat)
    requires Run(states, steps) && k < |states|
    ensures Inv(states[k])
  {
    hide Inv, Next;
    if k == 0 {
      InitialInv();
    } else {
      RunKeepsInv(states, steps, k - 1);
      assert StepAt(states, steps, k - 1);
      StepKeepsInv(states[k - 1], steps[k - 1], states[k]);
    }
  }

  lemma InitialInv()
    ensures Inv(Initial())
  {
    var none: Entries := map[];
    assert Sizes(none) == map[];
    forall device ensures DeviceSizes(none, device) == map[] {
    }
    assert Active(Initial()) == {};
  }

  // ---------- What every run guarantees ----------

  /** One key never has two executions running, and never more than the permitted number are active in all. */
  lemma OneRunnerPerKey(states: seq<State>, steps: seq<Step>, k: nat)
    requires Run(states, steps) && k < |states|
    ensures forall i: nat, j: nat ::
              i < j < |states[k].executions| && states[k].executions[i].task.Running?
              && states[k].executions[j].task.Running? ==>
                states[k].executions[i].key != states[k].executions[j].key
    ensures |Active(states[k])| <= 32
  {
    hide Next;
    RunKeepsInv(states, steps, k);
  }

  /** A request is refused for lack of capacity exactly when nothing can answer it and every permit is held. */
  lemma RefusedIffFull(s: State, q: nat, now: nat, s': State)
    requires PermitsOk(s) && SecondCheckStep(s, q, now, s')
    ensures s'.requests[q].phase == Answered(ResourceExhausted) <==>
              && s.requests[q].key !in s'.cache.entries && s.requests[q].key !in s.inFlight
              && |Active(s)| == 32
  {
    hide Pruned, Active;
  }

  /**
   * Every answer that carries a response is the response of an execution of that very command under that very key,
   * with nothing but the request id rewritten; a key refused as reused was indeed used for another command.
   */
  lemma AnswersAreFaithful(states: seq<State>, steps: seq<Step>, k: nat, q: nat)
    requires Run(states, steps) && k < |states| && q < |states[k].requests| && states[k].requests[q].phase.Answered?
    ensures var r := states[k].requests[q];
            && r.phase.reply != Unavailable
            && (r.phase.reply.Replied? ==>
                  exists e: nat :: e < |states[k].executions| && !states[k].executions[e].task.Running?
                    && states[k].executions[e].key == r.key && states[k].executions[e].command == r.command
                    && r.phase.reply.response == states[k].executions[e].task.response.(requestId := r.id))
            && (r.phase.reply.KeyReused? ==>
                  exists e: nat :: e < |states[k].executions|
                    && states[k].executions[e].key == r.key && states[k].executions[e].command != r.command)
  {
    hide Next, CacheOk, FlightOk, PermitsOk;
    RunKeepsInv(states, steps, k);
    assert RequestOk(states[k], states[k].requests[q]);
  }

  // ---------- At most once ----------

  /** Step `step` removes the cached result of `key`, and why it may. */
  ghost predicate LostFor(s: State, step: Step, s': State, key: Key)
  {
    && key in s.cache.entries && key !in s'.cache.entries
    && match step
       case FirstCheck(q, now) => s.cache.entries[key].createdAt + 300_000 <= now
       case SecondCheck(q, now) => s.cache.entries[key].createdAt + 300_000 <= now
       case Finish(e, response, responseLen, now, later) =>
         && e < |s.executions|
         && var cached := EntryOf(s, e, response, responseLen, now);
         && var crowded := s.cache.entries[s.executions[e].key := cached];
         && var device := DeviceSizes(crowded, key.device);
         || s.cache.entries[key].createdAt + 300_000 <= later
         || |crowded| > 1024 || Sum(Sizes(crowded)) > 64 * 1024 * 1024
         || (key.device == s.executions[e].key.device && (|device| > 256 || Sum(device) > 8 * 1024 * 1024))
       case _ => false
  }

  lemma PruneDropsOld(c: Cache, now: nat, c': Cache, key: Key)
    requires Sound(c) && Pruned(c, now, c') && key in c.entries
    ensures key in c'.entries <==> now < c.entries[key].createdAt + 300_000
    ensures key in c'.entries ==> c'.entries[key] == c.entries[key]
  {
    hide Pruned, GlobalOver, DeviceOver, Listed, Aged;
    PruneWithinLimits(c, now, c');
    PrunedIsSuffix(c, now, c');
  }

  lemma FinishDropsForCause(s: State, step: Step, s': State, key: Key)
    requires CacheOk(s) && FlightOk(s) && step.Finish? && Next(s, step, s') && key in s.cache.entries
    ensures key in s'.cache.entries || LostFor(s, step, s', key)
    ensures key in s'.cache.entries ==> s'.cache.entries[key] == s.cache.entries[key]
  {
    hide Inserted, Sound, Sum, Sizes, DeviceSizes, EntrySize, HasProducer;
    if Cacheable(step.response) {
      InsertDropsForCause(s.cache, s.executions[step.exec].key,
                          EntryOf(s, step.exec, step.response, step.responseLen, step.now), step.later, s'.cache, key);
    }
  }

  /** A cached result stays cached unless it is lost for one of the admitted causes. */
  lemma CachedStaysOrIsLost(s: State, step: Step, s': State, key: Key)
    requires Inv(s) && Next(s, step, s') && key in s.cache.entries
    ensures key in s'.cache.entries || LostFor(s, step, s', key)
    ensures key in s'.cache.entries ==> s'.cache.entries[key] == s.cache.entries[key]
  {
    hide Pruned, Inserted, FlightOk, PermitsOk, RequestsOk, KeysOk, Sound, HasProducer, Sum, Sizes, DeviceSizes, Lookup,
         EntrySize, ReplyTo;
    match step
    case FirstCheck(q, now) => PruneDropsOld(s.cache, now, s'.cache, key);
    case SecondCheck(q, now) => PruneDropsOld(s.cache, now, s'.cache, key);
    case Finish(_, _, _, _, _) => FinishDropsForCause(s, step, s', key);
    case _ =>
  }

  /** Why an execution that finished leaves nothing in the cache: its result may be retried, is too large or too old. */
  ghost predicate NotStored(s: State, step: Step)
  {
    && step.Finish? && step.exec < |s.executions|
    && var x := s.executions[step.exec];
    || step.response.retryable != Some(false)
    || |x.key.idempotency| + |x.command| + step.responseLen > 8 * 1024 * 1024
    || step.now + 300_000 <= step.later
  }

  lemma SizeIsSum(key: Key, command: Bytes, responseLen: nat)
    ensures EntrySize(key, command, responseLen) > MAX_CACHED_COMMAND_BYTES_PER_DEVICE <==>
              |key.idempotency| + |command| + responseLen > 8 * 1024 * 1024
  {
  }

  /** A result is cached when its execution finishes if and only if nothing speaks against it. */
  lemma FinishStores(s: State, step: Step, s': State)
    requires Inv(s) && step.Finish? && Next(s, step, s')
    ensures var x := s.executions[step.exec];
            && (x.key in s'.cache.entries <==> !NotStored(s, step))
            && (!NotStored(s, step) ==>
                  var cached := s'.cache.entries[x.key];
                  cached.command == x.command && cached.response == step.response && cached.createdAt == step.now)
  {
    hide Inserted, PermitsOk, RequestsOk, KeysOk, Sound, EntrySize;
    var x := s.executions[step.exec];
    var cached := EntryOf(s, step.exec, step.response, step.responseLen, step.now);
    SizeIsSum(x.key, x.command, step.responseLen);
    if step.response.retryable == Some(false) {
      if cached.size > MAX_CACHED_COMMAND_BYTES_PER_DEVICE {
        InsertTooLarge(s.cache, x.key, cached, step.later, s'.cache);
      } else if step.later < step.now + COMMAND_CACHE_TTL {
        InsertSurvives(s.cache, x.key, cached, step.later, s'.cache);
      } else {
        InsertTooOld(s.cache, x.key, cached, step.later, s'.cache);
      }
    }
  }

  ghost predicate LostAt(states: seq<State>, steps: seq<Step>, d: nat, key: Key)
  {
    d < |steps| && d + 1 < |states| && LostFor(states[d], steps[d], states[d + 1], key)
  }

  /** Between steps `a` and `b` the cached result of `key` is lost. */
  ghost predicate LostBetween(states: seq<State>, steps: seq<Step>, a: nat, b: nat, key: Key)
  {
    exists d: nat :: a <= d < b && LostAt(states, steps, d, key)
  }

  lemma {:induction false} CachedUntilLost(states: seq<State>, steps: seq<Step>, a: nat, b: nat, key: Key)
    requires Run(states, steps) && a <= b < |states| && key in states[a].cache.entries
    ensures LostBetween(states, steps, a, b, key)
            || (key in states[b].cache.entries && states[b].cache.entries[key] == states[a].cache.entries[key])
    decreases b - a
  {
    hide Next, LostFor, Inv;
    if a < b {
      CachedUntilLost(states, steps, a, b - 1, key);
      if !LostBetween(states, steps, a, b - 1, key) {
        RunKeepsInv(states, steps, b - 1);
        assert StepAt(states, steps, b - 1);
        CachedStaysOrIsLost(states[b - 1], steps[b - 1], states[b], key);
        assert key !in states[b].cache.entries ==> LostAt(states, steps, b - 1, key);
      } else {
        var d: nat :| a <= d < b - 1 && LostAt(states, steps, d, key);
      }
    }
  }

  /** Step `b` starts execution `j`. */
  ghost predicate Starts(states: seq<State>, b: nat, j: nat)
  {
    b + 1 < |states| && |states[b].executions| == j && j < |states[b + 1].executions|
  }

  /** Step `f` ends execution `i`'s work. */
  ghost predicate Finishes(states: seq<State>, steps: seq<Step>, f: nat, i: nat)
  {
    f < |steps| && f + 1 < |states| && steps[f].Finish? && steps[f].exec == i && i < |states[f].executions|
  }

  predicate EndsWork(s: State, i: nat, s': State)
    requires i < |s.executions| && i < |s'.executions|
  {
    s.executions[i].task.Running? && !s'.executions[i].task.Running?
  }

  /** A step starts at most one execution, and only `Finish` ends the work of one. */
  lemma StepStartsOne(s: State, step: Step, s': State)
    requires Next(s, step, s')
    ensures |s'.executions| <= |s.executions| + 1
    ensures |s'.executions| > |s.executions| ==> s'.executions[|s.executions|].task.Running?
    ensures forall i: nat :: i < |s.executions| && i < |s'.executions| && EndsWork(s, i, s') ==>
              step.Finish? && step.exec == i
  {
    hide Pruned, Inserted, Lookup, ReplyTo;
  }

  lemma {:induction false} StartedAt(states: seq<State>, steps: seq<Step>, k: nat, j: nat) returns (b: nat)
    requires Run(states, steps) && k < |states| && j < |states[k].executions|
    ensures b < k && Starts(states, b, j)
  {
    hide Next;
    assert StepAt(states, steps, k - 1);
    StepStartsOne(states[k - 1], steps[k - 1], states[k]);
    if j < |states[k - 1].executions| {
      b := StartedAt(states, steps, k - 1, j);
    } else {
      b := k - 1;
    }
  }

  lemma {:induction false} FinishedAt(states: seq<State>, steps: seq<Step>, k: nat, i: nat) returns (f: nat)
    requires Run(states, steps) && k < |states| && i < |states[k].executions| && !states[k].executions[i].task.Running?
    ensures f < k && Finishes(states, steps, f, i)
  {
    hide Next;
    assert StepAt(states, steps, k - 1);
    StepStartsOne(states[k - 1], steps[k - 1], states[k]);
    if i < |states[k - 1].executions| && !EndsWork(states[k - 1], i, states[k]) {
      f := FinishedAt(states, steps, k - 1, i);
    } else {
      f := k - 1;
    }
  }

  /** A leader starts only if its key is neither in flight nor, after pruning, cached. */
  lemma StartNeedsFreeKey(s: State, step: Step, s': State)
    requires Inv(s) && Next(s, step, s') && |s.executions| < |s'.executions|
    ensures s'.executions[|s.executions|].key !in s'.cache.entries
    ensures s'.executions[|s.executions|].key !in s.inFlight
    ensures forall e: nat :: e < |s.executions| && s.executions[e].task.Running? ==>
              s.executions[e].key != s'.executions[|s.executions|].key
  {
    hide Pruned, Inserted, CacheOk, PermitsOk, RequestsOk, KeysOk;
  }

  /**
   * A command executes a second time under the same key only after the first execution finished, and only if its result
   * could not be kept (retryable, without a status, too large) or was lost from the cache before the second one
   * started: it expired, or other results exceeded the limits.
   */
  lemma AtMostOnce(states: seq<State>, steps: seq<Step>, k: nat, i: nat, j: nat) returns (f: nat, b: nat)
    requires Run(states, steps) && k < |states| && i < j < |states[k].executions|
    requires states[k].executions[i].key == states[k].executions[j].key
    ensures Finishes(states, steps, f, i) && Starts(states, b, j) && f < b < |steps|
    ensures || NotStored(states[f], steps[f])
            || LostBetween(states, steps, f, b + 1, states[k].executions[j].key)
  {
    hide Next, Inv, NotStored, LostFor;
    b := StartedAt(states, steps, k, j);
    assert StepAt(states, steps, b);
    var key := states[k].executions[j].key;
    RunGrows(states, steps, b, k);
    RunGrows(states, steps, b + 1, k);
    RunKeepsInv(states, steps, b);
    StartNeedsFreeKey(states[b], steps[b], states[b + 1]);
    f := FinishedAt(states, steps, b, i);
    assert StepAt(states, steps, f);
    RunKeepsInv(states, steps, f);
    RunGrows(states, steps, f, k);
    FinishStores(states[f], steps[f], states[f + 1]);
    if !NotStored(states[f], steps[f]) {
      CachedUntilLost(states, steps, f + 1, b + 1, key);
    }
  }

  lemma {:induction false} RunGrows(states: seq<State>, steps: seq<Step>, a: nat, b: nat)
    requires Run(states, steps) && a <= b < |states|
    ensures Grows(states[a], states[b])
    decreases b - a
  {
    hide Next;
    if a < b {
      RunGrows(states, steps, a, b - 1);
      assert StepAt(states, steps, b - 1);
      StepGrows(states[b - 1], steps[b - 1], states[b]);
    }
  }
}
