/**
 The webhook handler over the event rows it updates in place. The operations of
 other deliveries (`env`) run in every gap between its own.
 */
module WebhookService {
  import opened Runs
  import opened Webhooks
  import Billing

  predicate StepOf(e: Step, c: CallId) { !e.Elsewhere? && e.call == c }

  lemma ForeignStepKeepsCall(s: State, e: Step, c: CallId)
    requires !StepOf(e, c) && c in s.calls
    ensures c in Apply(s, e).calls && Apply(s, e).calls[c] == s.calls[c]
  {
  }

  lemma ForeignRunKeepsCall(s: State, es: seq<Step>, c: CallId, call: Call)
    requires c in s.calls && s.calls[c] == call && forall e <- es :: !StepOf(e, c)
    ensures c in Run(Apply, s, es).calls && Run(Apply, s, es).calls[c] == call
  {
    var kept := (x: State) => c in x.calls && x.calls[c] == call;
    forall x: State, e: Step | kept(x) && e in es ensures kept(Apply(x, e)) { ForeignStepKeepsCall(x, e, c); }
    KeptByRun(Apply, kept, s, es);
  }

  lemma RunOnlyAddsRetries(s: State, es: seq<Step>)
    ensures s.retries <= Run(Apply, s, es).retries
  {
    var kept := (x: State) => s.retries <= x.retries;
    forall x: State, e: Step | kept(x) && e in es ensures kept(Apply(x, e)) { }
    KeptByRun(Apply, kept, s, es);
  }

  /** The trace holds steps of delivery `c` and steps that others make in its gaps, and nothing else. */
  ghost predicate TraceOf(c: CallId, env: seq<seq<Step>>, trace: seq<Step>)
  {
    forall e <- trace :: StepOf(e, c) || InEnv(env, e)
  }

  lemma TraceGrows(c: CallId, env: seq<seq<Step>>, before: seq<Step>, e: Step, others: seq<Step>)
    requires TraceOf(c, env, before) && StepOf(e, c) && (others == [] || others in env)
    ensures TraceOf(c, env, before + [e] + others)
  {
    GapIsInEnv(env, others);
  }

  ghost predicate AllQuiet(env: seq<seq<Step>>) { forall k | 0 <= k < |env| :: env[k] == [] }

  // ----- what each step of a delivery does -----

  lemma FailMoves(s: State, c: CallId)
    requires c in s.calls && s.calls[c].stage in {Dispatching, Dispatched} && s.calls[c].event in s.events
    ensures var s', id := Apply(s, Fail(c)), s.calls[c].event;
            var n := s.events[id].attempts + 1;
            && s'.events == s.events[id := EventRow(FAILED, n)] && s'.retries == s.retries && s'.billing == s.billing
            && c in s'.calls && s'.calls[c] == s.calls[c].(stage := Enqueueing(n))
  {
  }

  lemma EnqueueMoves(s: State, c: CallId, redisUp: bool)
    requires c in s.calls && s.calls[c].stage.Enqueueing?
    ensures var s' := Apply(s, Enqueue(c, redisUp));
            && s'.events == s.events && s'.billing == s.billing
            && s'.retries == s.retries + (if redisUp then {(s.calls[c].event, s.calls[c].stage.attempt)} else {})
            && c in s'.calls && s'.calls[c] == s.calls[c].(stage := Answered(Retry))
  {
  }

  lemma EffectMoves(s: State, c: CallId)
    requires c in s.calls && s.calls[c].stage == Dispatching
    ensures var s' := Apply(s, Effect(c));
            && s'.events == s.events && s'.retries == s.retries
               && s'.billing == Billing.Apply(s.billing, s.calls[c].effect)
            && c in s'.calls && s'.calls[c] == s.calls[c].(stage := Dispatched)
  {
  }

  lemma FinishMoves(s: State, c: CallId)
    requires c in s.calls && s.calls[c].stage == Dispatched && s.calls[c].event in s.events
    ensures var s', id := Apply(s, Finish(c)), s.calls[c].event;
            && s'.events == s.events[id := EventRow(DONE, s.events[id].attempts)]
            && s'.retries == s.retries && s'.billing == s.billing
            && c in s'.calls && s'.calls[c] == s.calls[c].(stage := Answered(OkMessage))
  {
  }

  lemma DeliverMoves(s: State, c: CallId, id: EventId, effect: Billing.Step)
    requires c !in s.calls && !OutsideWebhooks(effect)
    ensures var s' := Apply(s, Deliver(c, id, effect));
            && s'.events == (if id in s.events then s.events else s.events[id := EventRow(PROCESSING, 0)])
            && s'.retries == s.retries && s'.billing == s.billing
            && c in s'.calls
            && s'.calls[c] == Call(id, effect,
                 if id !in s.events then Dispatching
                 else if s.events[id].status == DONE then Answered(Duplicate)
                 else if s.events[id].status == PROCESSING then Answered(Concurrent)
                 else Reclaiming)
  {
  }

  lemma ReclaimMoves(s: State, c: CallId)
    requires c in s.calls && s.calls[c].stage == Reclaiming
    ensures var s', id := Apply(s, Reclaim(c)), s.calls[c].event;
            && s'.retries == s.retries && s'.billing == s.billing && c in s'.calls
            && if Reclaimable(s, id)
               then && s'.events == s.events[id := EventRow(PROCESSING, s.events[id].attempts + 1)]
                    && s'.calls[c] == s.calls[c].(stage := Dispatching)
               else s'.events == s.events && s'.calls[c] == s.calls[c].(stage := Answered(Concurrent))
  {
  }

  /** The event of a delivery in flight has a row. */
  lemma OwnedEventExists(s0: State, es: seq<Step>, c: CallId)
    requires Inv(s0) && c in Run(Apply, s0, es).calls
    ensures Run(Apply, s0, es).calls[c].event in Run(Apply, s0, es).events
  {
    RunKeepsInv(s0, es);
  }

  lemma PlannedRetryIsNew(s0: State, es: seq<Step>, c: CallId)
    requires Inv(s0) && c in Run(Apply, s0, es).calls && Run(Apply, s0, es).calls[c].stage.Enqueueing?
    ensures var s := Run(Apply, s0, es); (s.calls[c].event, s.calls[c].stage.attempt) !in s.retries
  {
    RunKeepsInv(s0, es);
    var s := Run(Apply, s0, es);
    assert WillEnqueue(s, c, s.calls[c].event, s.calls[c].stage.attempt);
  }

  /** What becomes of the dispatched handler. */
  datatype Fate = Succeeds | ThrowsBeforeCommit | ThrowsAfterCommit

  datatype Reply = MissingHeaders | InvalidSignature | InvalidPayload | Handled(message: Message)

  function HttpCode(r: Reply): nat
  {
    match r
    case Handled(Retry) => 500
    case Handled(_) => 200
    case _ => 400
  }

  class WebhookService {
    var events: map<EventId, EventRow>
    var calls: map<CallId, Call>
    var retries: set<(EventId, nat)>
    var billing: Billing.State

    ghost function View(): State
      reads this
    {
      State(events, calls, retries, billing)
    }

    constructor ()
      ensures View() == INIT
    {
      events, calls, retries, billing := map[], map[], {}, Billing.INIT;
    }

    method SetStage(c: CallId, stage: Stage)
      requires c in calls
      modifies this`calls
      ensures View() == Move(old(View()), c, stage)
    {
      calls := calls[c := calls[c].(stage := stage)];
    }

    /** The `$setOnInsert` upsert and the branch on the row it found. */
    method InsertOrInspect(c: CallId, id: EventId, effect: Billing.Step)
      requires c !in calls
      modifies this`events, this`calls
      ensures View() == Inspect(old(View()), c, id, effect)
    {
      if id !in events {
        events := events[id := EventRow(PROCESSING, 0)];
        calls := calls[c := Call(id, effect, Dispatching)];
      } else if events[id].status == DONE {
        calls := calls[c := Call(id, effect, Answered(Duplicate))];
      } else if events[id].status == PROCESSING {
        calls := calls[c := Call(id, effect, Answered(Concurrent))];
      } else {
        calls := calls[c := Call(id, effect, Reclaiming)];
      }
    }

    method Perform(e: Step)
      modifies this
      ensures View() == Apply(old(View()), e)
    {
      match e
      case Deliver(c, id, effect) =>
        if c !in calls && !OutsideWebhooks(effect) { InsertOrInspect(c, id, effect); }
      case Reclaim(c) =>
        if c in calls && calls[c].stage == Reclaiming {
          var id := calls[c].event;
          if id in events && (events[id].status == FAILED || events[id].status == RECEIVED) {
            events := events[id := EventRow(PROCESSING, events[id].attempts + 1)];
            SetStage(c, Dispatching);
          } else {
            SetStage(c, Answered(Concurrent));
          }
        }
      case Effect(c) =>
        if c in calls && calls[c].stage == Dispatching {
          billing := Billing.Apply(billing, calls[c].effect);
          SetStage(c, Dispatched);
        }
      case Finish(c) =>
        if c in calls && calls[c].stage == Dispatched && calls[c].event in events {
          events := events[calls[c].event := events[calls[c].event].(status := DONE)];
          SetStage(c, Answered(OkMessage));
        }
      case Fail(c) =>
        if c in calls && (calls[c].stage == Dispatching || calls[c].stage == Dispatched) && calls[c].event in events {
          var id := calls[c].event;
          events := events[id := EventRow(FAILED, events[id].attempts + 1)];
          SetStage(c, Enqueueing(events[id].attempts));
        }
      case Enqueue(c, redisUp) =>
        if c in calls && calls[c].stage.Enqueueing? {
          if redisUp { retries := retries + {(calls[c].event, calls[c].stage.attempt)}; }
          SetStage(c, Answered(Retry));
        }
      case Crash(c) =>
        if c in calls && !calls[c].stage.Answered? { SetStage(c, Crashed); }
      case Elsewhere(b) =>
        if OutsideWebhooks(b) { billing := Billing.Apply(billing, b); }
    }

    /** Lets the other requests run. */
    method LetOthersRun(others: seq<Step>)
      modifies this
      ensures View() == Run(Apply, old(View()), others)
    {
      for i := 0 to |others|
        invariant View() == Run(Apply, old(View()), others[..i])
      {
        RunStep(Apply, old(View()), others[..i], others[i]);
        assert others[..i + 1] == others[..i] + [others[i]];
        Perform(others[i]);
      }
      assert others[..|others|] == others;
    }

    /** Performs step `e` of delivery `c`, then lets the others run. */
    method Advance(c: CallId, e: Step, others: seq<Step>, ghost s0: State, ghost before: seq<Step>)
      returns (ghost trace: seq<Step>)
      requires View() == Run(Apply, s0, before) && c in Apply(View(), e).calls
      requires forall o <- others :: !StepOf(o, c)
      modifies this
      ensures View() == Run(Apply, s0, trace) && trace == before + [e] + others
      ensures c in calls && calls[c] == Apply(old(View()), e).calls[c]
      ensures others == [] ==> View() == Apply(old(View()), e)
      ensures Apply(old(View()), e).retries <= retries
    {
      Perform(e);
      RunStep(Apply, s0, before, e);
      ghost var mid, call := View(), calls[c];
      RunOnlyAddsRetries(mid, others);
      LetOthersRun(others);
      trace := before + [e] + others;
      RunConcat(Apply, s0, before + [e], others);
      ForeignRunKeepsCall(mid, others, c, call);
    }

    /** The catch block: FAILED with one more attempt, then a retry job under that attempt number. */
    method RecordFailure(c: CallId, redisUp: bool, others: seq<Step>, ghost env: seq<seq<Step>>, ghost s0: State,
        ghost before: seq<Step>)
      returns (ghost trace: seq<Step>)
      requires Inv(s0) && View() == Run(Apply, s0, before) && TraceOf(c, env, before)
      requires c in calls && calls[c].stage in {Dispatching, Dispatched}
      requires others in env && forall o <- others :: !StepOf(o, c)
      modifies this
      ensures View() == Run(Apply, s0, trace) && TraceOf(c, env, trace)
      ensures c in calls && calls[c] == old(calls[c]).(stage := Answered(Retry))
      ensures old(retries) <= retries
      ensures redisUp ==> exists n: nat :: (calls[c].event, n) in retries && (calls[c].event, n) !in old(retries)
      ensures calls[c].event in old(events)
      ensures others == [] ==>
                var id, n := calls[c].event, old(events)[calls[c].event].attempts + 1;
                && events == old(events)[id := EventRow(FAILED, n)] && billing == old(billing)
                && retries == old(retries) + if redisUp then {(id, n)} else {}
    {
      OwnedEventExists(s0, before, c);
      FailMoves(View(), c);
      TraceGrows(c, env, before, Fail(c), others);
      trace := Advance(c, Fail(c), others, s0, before);
      PlannedRetryIsNew(s0, trace, c);
      EnqueueMoves(View(), c, redisUp);
      TraceGrows(c, env, trace, Enqueue(c, redisUp), []);
      trace := Advance(c, Enqueue(c, redisUp), [], s0, trace);
    }

    /** The handler succeeded: DONE. */
    method RecordSuccess(c: CallId, ghost env: seq<seq<Step>>, ghost s0: State, ghost before: seq<Step>)
      returns (ghost trace: seq<Step>)
      requires Inv(s0) && View() == Run(Apply, s0, before) && TraceOf(c, env, before)
      requires c in calls && calls[c].stage == Dispatched
      modifies this
      ensures View() == Run(Apply, s0, trace) && TraceOf(c, env, trace)
      ensures c in calls && calls[c] == old(calls[c]).(stage := Answered(OkMessage))
      ensures calls[c].event in old(events) && retries == old(retries) && billing == old(billing)
      ensures events == old(events)[calls[c].event := EventRow(DONE, old(events)[calls[c].event].attempts)]
    {
      OwnedEventExists(s0, before, c);
      FinishMoves(View(), c);
      TraceGrows(c, env, before, Finish(c), []);
      trace := Advance(c, Finish(c), [], s0, before);
    }

    /** The handler's transaction commits. */
    method RunEffect(c: CallId, others: seq<Step>, ghost env: seq<seq<Step>>, ghost s0: State, ghost before: seq<Step>)
      returns (ghost trace: seq<Step>)
      requires Inv(s0) && View() == Run(Apply, s0, before) && TraceOf(c, env, before)
      requires c in calls && calls[c].stage == Dispatching
      requires others in env && forall o <- others :: !StepOf(o, c)
      modifies this
      ensures View() == Run(Apply, s0, trace) && TraceOf(c, env, trace) && old(retries) <= retries
      ensures c in calls && calls[c] == old(calls[c]).(stage := Dispatched)
      ensures others == [] ==>
                events == old(events) && retries == old(retries)
                    && billing == Billing.Apply(old(billing), calls[c].effect)
    {
      EffectMoves(View(), c);
      TraceGrows(c, env, before, Effect(c), others);
      trace := Advance(c, Effect(c), others, s0, before);
    }

    /** Runs the handler the delivery owns, and records DONE, or FAILED and a retry. */
    method DispatchAndFinalise(c: CallId, fate: Fate, redisUp: bool, env: seq<seq<Step>>, ghost s0: State,
        ghost before: seq<Step>)
      returns (message: Message, ghost trace: seq<Step>)
      requires Inv(s0) && View() == Run(Apply, s0, before) && TraceOf(c, env, before)
      requires c in calls && calls[c].stage == Dispatching
      requires |env| == 4 && forall k | 0 <= k < 4 :: forall o <- env[k] :: !StepOf(o, c)
      modifies this
      ensures View() == Run(Apply, s0, trace) && TraceOf(c, env, trace)
      ensures c in calls && calls[c] == old(calls[c]).(stage := Answered(message))
      ensures message == (if fate == Succeeds then OkMessage else Retry)
      ensures message == OkMessage ==> IsDone(View(), calls[c].event)
      ensures old(retries) <= retries
      ensures message == Retry && redisUp ==>
                exists n: nat :: (calls[c].event, n) in retries && (calls[c].event, n) !in old(retries)
      ensures calls[c].event in old(events)
      ensures env[2] == env[3] == [] ==> billing == Effected(old(billing), calls[c].effect, fate)
      ensures env[2] == env[3] == [] ==>
                var id := calls[c].event;
                && events == old(events)[id := FinalRow(old(events)[id].attempts, fate)]
                && retries == old(retries) + NewRetries(id, old(events)[id].attempts, fate, redisUp)
    {
      OwnedEventExists(s0, before, c);
      trace := before;
      if fate != ThrowsBeforeCommit {
        trace := RunEffect(c, env[2], env, s0, before);
      }
      if fate == Succeeds {
        trace := RecordSuccess(c, env, s0, trace);
        message := OkMessage;
      } else {
        trace := RecordFailure(c, redisUp, env[3], env, s0, trace);
        message := Retry;
      }
    }

    /**
     The insert-or-inspect upsert and the reclaim. What the upsert finds decides: a new event is owned,
     a DONE one is a duplicate, a PROCESSING one is in other hands, and a failed one is owned unless
     another delivery reclaims it first.
     */
    method TakeOwnership(c: CallId, id: EventId, effect: Billing.Step, env: seq<seq<Step>>, ghost s0: State)
      returns (ghost trace: seq<Step>)
      requires View() == s0 && c !in calls && !OutsideWebhooks(effect)
      requires |env| == 4 && forall k | 0 <= k < 4 :: forall o <- env[k] :: !StepOf(o, c)
      modifies this
      ensures View() == Run(Apply, s0, trace) && TraceOf(c, env, trace) && s0.retries <= retries
      ensures c in calls && calls[c] == Call(id, effect, calls[c].stage)
      ensures calls[c].stage in {Dispatching, Answered(Duplicate), Answered(Concurrent)}
      ensures id !in s0.events ==> calls[c].stage == Dispatching
      ensures id in s0.events && s0.events[id].status == PROCESSING ==> calls[c].stage == Answered(Concurrent)
      ensures calls[c].stage == Answered(Duplicate) <==> IsDone(s0, id)
      ensures Reclaimable(s0, id) && env[0] == [] ==> calls[c].stage == Dispatching
      ensures env[0] == env[1] == [] ==> retries == s0.retries && billing == s0.billing
      ensures env[0] == env[1] == [] ==>
                events == if calls[c].stage == Dispatching
                    then s0.events[id := EventRow(PROCESSING, FirstAttempts(s0, id))]
                          else s0.events
    {
      DeliverMoves(View(), c, id, effect);
      TraceGrows(c, env, [], Deliver(c, id, effect), env[0]);
      trace := Advance(c, Deliver(c, id, effect), env[0], s0, []);
      if calls[c].stage == Reclaiming {
        ReclaimMoves(View(), c);
        TraceGrows(c, env, trace, Reclaim(c), env[1]);
        trace := Advance(c, Reclaim(c), env[1], s0, trace);
      }
    }

    /** A delivery that passed the checks, up to its answer. */
    method HandleEvent(c: CallId, id: EventId, effect: Billing.Step, fate: Fate, redisUp: bool, env: seq<seq<Step>>)
      returns (message: Message, ghost trace: seq<Step>)
      requires Inv(View()) && c !in calls && !OutsideWebhooks(effect)
      requires |env| == 4 && forall k | 0 <= k < 4 :: forall o <- env[k] :: !StepOf(o, c)
      modifies this
      ensures View() == Run(Apply, old(View()), trace) && TraceOf(c, env, trace)
      ensures c in calls && calls[c] == Call(id, effect, Answered(message))
      ensures message == Duplicate <==> IsDone(old(View()), id)
      ensures id in old(events) && old(events)[id].status == PROCESSING ==> message == Concurrent
      ensures id !in old(events) || (Reclaimable(old(View()), id) && env[0] == []) ==>
                message == if fate == Succeeds then OkMessage else Retry
      ensures message == OkMessage ==> IsDone(View(), id)
      ensures message == Retry ==> fate != Succeeds
      ensures message == Retry && redisUp ==> exists n: nat :: (id, n) in retries && (id, n) !in old(retries)
      ensures AllQuiet(env) && message in {OkMessage, Retry} ==>
                var n := FirstAttempts(old(View()), id);
                && events == old(events)[id := FinalRow(n, fate)] && billing == Effected(old(billing), effect, fate)
                && retries == old(retries) + NewRetries(id, n, fate, redisUp)
      ensures AllQuiet(env) && message in {Duplicate, Concurrent} ==>
                events == old(events) && retries == old(retries) && billing == old(billing)
    {
      ghost var s0 := View();
      trace := TakeOwnership(c, id, effect, env, s0);
      if calls[c].stage == Dispatching {
        message, trace := DispatchAndFinalise(c, fate, redisUp, env, s0, trace);
      } else {
        message := calls[c].stage.message;
      }
    }

    /**
     The whole handler: 400 exactly for a bad request, and otherwise what becomes of the delivery is
     settled by the row it finds and by the handler it dispatches to.
     */
    method HandleRazorpayWebhook(c: CallId, headers: bool, signature: bool, payload: bool, id: EventId,
        effect: Billing.Step, fate: Fate, redisUp: bool, env: seq<seq<Step>>)
      returns (reply: Reply, ghost trace: seq<Step>)
      requires Inv(View()) && c !in calls && !OutsideWebhooks(effect)
      requires |env| == 4 && forall k | 0 <= k < 4 :: forall o <- env[k] :: !StepOf(o, c)
      modifies this
      ensures Inv(View()) && View() == Run(Apply, old(View()), trace) && TraceOf(c, env, trace)
      ensures reply.MissingHeaders? <==> !headers
      ensures reply.InvalidSignature? <==> headers && !signature
      ensures reply.InvalidPayload? <==> headers && signature && !payload
      ensures HttpCode(reply) == if !reply.Handled? then 400 else if reply.message == Retry then 500 else 200
      ensures !reply.Handled? ==> unchanged(this)
      ensures reply.Handled? ==> c in calls && calls[c] == Call(id, effect, Answered(reply.message))
      ensures reply.Handled? ==> (reply.message == Duplicate <==> IsDone(old(View()), id))
      ensures reply.Handled? && id in old(events) && old(events)[id].status == PROCESSING ==>
              reply.message == Concurrent
      ensures reply.Handled? && (id !in old(events) || (Reclaimable(old(View()), id) && env[0] == [])) ==>
                reply.message == if fate == Succeeds then OkMessage else Retry
      ensures reply in {Handled(OkMessage), Handled(Duplicate)} ==> IsDone(View(), id)
      ensures reply == Handled(Retry) ==> fate != Succeeds
      ensures reply == Handled(Retry) && redisUp ==> exists n: nat :: (id, n) in retries && (id, n) !in old(retries)
      ensures AllQuiet(env) && reply in {Handled(OkMessage), Handled(Retry)} ==>
                var n := FirstAttempts(old(View()), id);
                && events == old(events)[id := FinalRow(n, fate)] && billing == Effected(old(billing), effect, fate)
                && retries == old(retries) + NewRetries(id, n, fate, redisUp)
      ensures AllQuiet(env) && reply in {Handled(Duplicate), Handled(Concurrent)} ==>
                events == old(events) && retries == old(retries) && billing == old(billing)
    {
      trace := [];
      if !headers { return MissingHeaders, []; }
      if !signature { return InvalidSignature, []; }
      if !payload { return InvalidPayload, []; }
      ghost var s0 := View();
      var message;
      message, trace := HandleEvent(c, id, effect, fate, redisUp, env);
      reply := Handled(message);
      RunKeepsInv(s0, trace);
      if message == Duplicate { DoneStays(s0, trace, id); }
    }
  }

  /** The attempts that the row counts when a delivery takes the event over. */
  function FirstAttempts(s: State, id: EventId): nat { if id in s.events then s.events[id].attempts + 1 else 0 }

  /** The row after a dispatch that found `n` attempts on it: DONE, or FAILED with one more. */
  function FinalRow(n: nat, fate: Fate): EventRow
  {
    if fate == Succeeds then EventRow(DONE, n) else EventRow(FAILED, n + 1)
  }

  /** The retry job that a failed dispatch puts on a queue that is up. */
  function NewRetries(id: EventId, n: nat, fate: Fate, redisUp: bool): set<(EventId, nat)>
  {
    if fate != Succeeds && redisUp then {(id, n + 1)} else {}
  }

  /** The billing rows: the effect is there unless the handler threw before its commit. */
  function Effected(billing: Billing.State, effect: Billing.Step, fate: Fate): Billing.State
  {
    if fate == ThrowsBeforeCommit then billing else Billing.Apply(billing, effect)
  }

  lemma DoneStays(s: State, es: seq<Step>, id: EventId)
    requires Inv(s) && IsDone(s, id)
    ensures IsDone(Run(Apply, s, es), id)
  {
    var idle := (x: State) => Idle(x, id, DONE);
    forall x: State, e: Step | idle(x) && e in es ensures idle(Apply(x, e)) { IdleIsFinal(x, e, id, DONE); }
    KeptByRun(Apply, idle, s, es);
  }
}
