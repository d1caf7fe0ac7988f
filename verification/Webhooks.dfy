/**
 Webhook event ownership. A delivery inserts the event row or inspects it, may
 reclaim a failed one, dispatches to the billing handlers, and records success
 or failure; it can crash in any gap. Signature and payload checks happen before
 the first database operation, so every delivery here has passed them.
 */
module Webhooks {
  import opened Common
  import opened Runs
  import Billing
  import Tiers

  type SubId = Tiers.SubId

  type EventId = nat
  type CallId = nat

  datatype EventStatus = RECEIVED | PROCESSING | DONE | FAILED

  datatype EventRow = EventRow(status: EventStatus, attempts: nat)

  datatype Message = OkMessage | Duplicate | Concurrent | Retry

  /** A delivery between two of its database operations; `Dispatching` to `Failing` is the dispatch in flight. */
  datatype Stage =
    | Reclaiming
    | Dispatching
    | Dispatched
    | Enqueueing(attempt: nat)
    | Answered(message: Message)
    | Crashed

  /** `effect` is the billing step the event's handler performs. */
  datatype Call = Call(event: EventId, effect: Billing.Step, stage: Stage)

  /** `retries` are the retry jobs enqueued so far, by event and attempt number. */
  datatype State = State(events: map<EventId, EventRow>, calls: map<CallId, Call>, retries: set<(EventId, nat)>,
      billing: Billing.State)

  datatype Step =
    | Deliver(call: CallId, event: EventId, effect: Billing.Step)
    | Reclaim(call: CallId)
    | Effect(call: CallId)
    | Finish(call: CallId)
    | Fail(call: CallId)
    | Enqueue(call: CallId, redisUp: bool)
    | Crash(call: CallId)
    | Elsewhere(step: Billing.Step)

  const INIT := State(map[], map[], {}, Billing.INIT)

  /** The billing steps that no webhook performs. */
  predicate OutsideWebhooks(b: Billing.Step) { b.NewUser? || b.NewSub? || b.Sweep? }

  predicate InStage(s: State, c: CallId, stage: Stage) { c in s.calls && s.calls[c].stage == stage }

  function Move(s: State, c: CallId, stage: Stage): State
    requires c in s.calls
  {
    s.(calls := s.calls[c := s.calls[c].(stage := stage)])
  }

  function SetRow(s: State, id: EventId, row: EventRow): State { s.(events := s.events[id := row]) }

  /** Insert-or-inspect: one upsert that never overwrites an existing row. */
  function Inspect(s: State, c: CallId, id: EventId, effect: Billing.Step): State
  {
    if id !in s.events then
      SetRow(s, id, EventRow(PROCESSING, 0)).(calls := s.calls[c := Call(id, effect, Dispatching)])
    else
      var stage := match s.events[id].status
        case DONE => Answered(Duplicate)
        case PROCESSING => Answered(Concurrent)
        case FAILED => Reclaiming
        case RECEIVED => Reclaiming;
      s.(calls := s.calls[c := Call(id, effect, stage)])
  }

  predicate Reclaimable(s: State, id: EventId) { id in s.events && s.events[id].status in {FAILED, RECEIVED} }

  function Apply(s: State, e: Step): State
  {
    match e
    case Deliver(c, id, effect) => if c in s.calls || OutsideWebhooks(effect) then s else Inspect(s, c, id, effect)
    case Reclaim(c) =>
      if !InStage(s, c, Reclaiming) then s
      else
        var id := s.calls[c].event;
        if Reclaimable(s, id) then SetRow(Move(s, c, Dispatching), id, EventRow(PROCESSING, s.events[id].attempts + 1))
        else Move(s, c, Answered(Concurrent))
    case Effect(c) =>
      if !InStage(s, c, Dispatching) then s
      else Move(s, c, Dispatched).(billing := Billing.Apply(s.billing, s.calls[c].effect))
    case Finish(c) =>
      if !InStage(s, c, Dispatched) || s.calls[c].event !in s.events then s
      else
        var id := s.calls[c].event;
        SetRow(Move(s, c, Answered(OkMessage)), id, s.events[id].(status := DONE))
    case Fail(c) =>
      if !(InStage(s, c, Dispatching) || InStage(s, c, Dispatched)) || s.calls[c].event !in s.events then s
      else
        var id := s.calls[c].event;
        var attempts := s.events[id].attempts + 1;
        SetRow(Move(s, c, Enqueueing(attempts)), id, EventRow(FAILED, attempts))
    case Enqueue(c, redisUp) =>
      if !(c in s.calls && s.calls[c].stage.Enqueueing?) then s
      else
        var job := (s.calls[c].event, s.calls[c].stage.attempt);
        Move(s, c, Answered(Retry)).(retries := if redisUp then s.retries + {job} else s.retries)
    case Crash(c) =>
      if c in s.calls && !s.calls[c].stage.Answered? then Move(s, c, Crashed) else s
    case Elsewhere(b) =>
      if OutsideWebhooks(b) then s.(billing := Billing.Apply(s.billing, b)) else s
  }

  // ----- what every reachable state satisfies -----

  /** The call's dispatch of the event is in flight. */
  predicate Owns(s: State, c: CallId, id: EventId)
  {
    c in s.calls && s.calls[c].event == id && s.calls[c].stage in {Dispatching, Dispatched}
  }

  predicate WillEnqueue(s: State, c: CallId, id: EventId, n: nat)
  {
    c in s.calls && s.calls[c].event == id && s.calls[c].stage == Enqueueing(n)
  }

  ghost predicate OneOwner(s: State)
  {
    && (forall c, id :: Owns(s, c, id) ==> id in s.events && s.events[id].status == PROCESSING)
    && (forall c, d, id :: Owns(s, c, id) && Owns(s, d, id) ==> c == d)
  }

  /** Attempt numbers in use, enqueued or about to be, are at most the row's counter and all distinct. */
  ghost predicate AttemptsDistinct(s: State)
  {
    && (forall c, id, n: nat ::
          WillEnqueue(s, c, id, n) ==> id in s.events && n <= s.events[id].attempts && (id, n) !in s.retries)
    && (forall r <- s.retries :: r.0 in s.events && r.1 <= s.events[r.0].attempts)
    && (forall c, d, id, n: nat :: WillEnqueue(s, c, id, n) && WillEnqueue(s, d, id, n) ==> c == d)
  }

  ghost predicate Inv(s: State)
  {
    OneOwner(s) && AttemptsDistinct(s) && forall c <- s.calls :: s.calls[c].event in s.events
  }

  lemma StepKeepsOwner(s: State, e: Step)
    requires Inv(s)
    ensures OneOwner(Apply(s, e))
  {
    if (e.Finish? || e.Fail?) && e.call in s.calls {
      assert s.calls[e.call].stage in {Dispatching, Dispatched} ==> Owns(s, e.call, s.calls[e.call].event);
    }
    var s' := Apply(s, e);
    forall c, id | Owns(s', c, id) ensures Owns(s, c, id) || (e.Deliver? && e.call == c) || e == Reclaim(c) { }
  }

  lemma AttemptsOnlyGrow(s: State, e: Step, id: EventId)
    requires id in s.events
    ensures id in Apply(s, e).events && s.events[id].attempts <= Apply(s, e).events[id].attempts
  {
  }

  lemma StepKeepsRetries(s: State, e: Step)
    requires Inv(s)
    ensures forall r <- Apply(s, e).retries :: r.0 in Apply(s, e).events && r.1 <= Apply(s, e).events[r.0].attempts
  {
    if e.Enqueue? && e.call in s.calls && s.calls[e.call].stage.Enqueueing? {
      assert WillEnqueue(s, e.call, s.calls[e.call].event, s.calls[e.call].stage.attempt);
    }
    forall r <- s.retries ensures r.0 in Apply(s, e).events && r.1 <= Apply(s, e).events[r.0].attempts {
      AttemptsOnlyGrow(s, e, r.0);
    }
  }

  lemma StepKeepsAttempts(s: State, e: Step, c: CallId, id: EventId, n: nat)
    requires Inv(s) && WillEnqueue(Apply(s, e), c, id, n)
    ensures id in Apply(s, e).events && n <= Apply(s, e).events[id].attempts && (id, n) !in Apply(s, e).retries
    ensures forall d :: WillEnqueue(Apply(s, e), d, id, n) ==> c == d
  {
    var s' := Apply(s, e);
    AttemptsOnlyGrow(s, e, s'.calls[c].event);
    if e.Enqueue? && e.call in s.calls && s.calls[e.call].stage.Enqueueing? {
      assert WillEnqueue(s, e.call, s.calls[e.call].event, s.calls[e.call].stage.attempt);
    }
    assert WillEnqueue(s, c, id, n) || e == Fail(c);
    forall d | WillEnqueue(s', d, id, n) ensures c == d {
      assert WillEnqueue(s, d, id, n) || e == Fail(d);
    }
  }

  lemma StepKeepsInv(s: State, e: Step)
    requires Inv(s)
    ensures Inv(Apply(s, e))
  {
    StepKeepsOwner(s, e);
    StepKeepsRetries(s, e);
    forall c, id, n: nat | WillEnqueue(Apply(s, e), c, id, n)
      ensures id in Apply(s, e).events && n <= Apply(s, e).events[id].attempts && (id, n) !in Apply(s, e).retries
      ensures forall d :: WillEnqueue(Apply(s, e), d, id, n) ==> c == d
    {
      StepKeepsAttempts(s, e, c, id, n);
    }
  }

  ghost function StateAt(es: seq<Step>, i: nat): State
    requires i <= |es|
  {
    At(Apply, INIT, es, i)
  }

  lemma RunKeepsInv(s: State, es: seq<Step>)
    requires Inv(s)
    ensures Inv(Run(Apply, s, es))
  {
    forall s, e | Inv(s) ensures Inv(Apply(s, e)) { StepKeepsInv(s, e); }
    InvariantHolds(Apply, Inv, s, es);
  }

  lemma ReachableInv(es: seq<Step>, i: nat)
    requires i <= |es|
    ensures Inv(StateAt(es, i))
  {
    RunKeepsInv(INIT, es[..i]);
  }

  // ----- ownership -----

  /** In every run at most one dispatch per event is in flight, and only while the row says PROCESSING. */
  lemma OneDispatchInFlight(es: seq<Step>, c: CallId, d: CallId, id: EventId)
    requires Owns(Run(Apply, INIT, es), c, id)
    ensures id in Run(Apply, INIT, es).events && Run(Apply, INIT, es).events[id].status == PROCESSING
    ensures Owns(Run(Apply, INIT, es), d, id) ==> c == d
  {
    ReachableInv(es, |es|);
    assert es[..|es|] == es;
  }

  /** The event has this status and nobody is dispatching it. */
  ghost predicate Idle(s: State, id: EventId, status: EventStatus)
  {
    id in s.events && s.events[id].status == status && forall c :: !Owns(s, c, id)
  }

  lemma IdleIsFinal(s: State, e: Step, id: EventId, status: EventStatus)
    requires status in {DONE, PROCESSING} && Idle(s, id, status)
    ensures Idle(Apply(s, e), id, status)
  {
    if (e.Finish? || e.Fail?) && e.call in s.calls {
      assert !Owns(s, e.call, id);
    }
    forall c | Owns(Apply(s, e), c, id) ensures Owns(s, c, id) { }
  }

  lemma IdleStaysIdle(es: seq<Step>, i: nat, j: nat, id: EventId, status: EventStatus)
    requires i <= j <= |es| && status in {DONE, PROCESSING} && Idle(StateAt(es, i), id, status)
    ensures Idle(StateAt(es, j), id, status)
  {
    var p := (s: State) => Idle(s, id, status);
    forall s, e | p(s) ensures p(Apply(s, e)) { IdleIsFinal(s, e, id, status); }
    HoldsLater(Apply, p, INIT, es, i, j);
  }

  /** After DONE the row stays DONE and no dispatch of the event ever starts. */
  lemma DoneIsFinal(es: seq<Step>, i: nat, j: nat, id: EventId)
    requires i <= j <= |es| && id in StateAt(es, i).events && StateAt(es, i).events[id].status == DONE
    ensures Idle(StateAt(es, j), id, DONE)
  {
    ReachableInv(es, i);
    IdleStaysIdle(es, i, j, id, DONE);
  }

  lemma CrashLeavesIdle(s: State, c: CallId, id: EventId)
    requires Inv(s) && Owns(s, c, id)
    ensures Idle(Apply(s, Crash(c)), id, PROCESSING)
  {
    forall d | Owns(Apply(s, Crash(c)), d, id) ensures d != c && Owns(s, d, id) { }
  }

  /**
   A delivery that crashes while it owns the event strands it: the row says PROCESSING for ever, so
   every later delivery or retry answers "concurrent" and the event is never dispatched again.
   */
  lemma CrashStrandsEvent(es: seq<Step>, i: nat, j: nat, c: CallId, id: EventId)
    requires i < j <= |es| && Owns(StateAt(es, i), c, id) && es[i] == Crash(c)
    ensures Idle(StateAt(es, j), id, PROCESSING)
    ensures j < |es| && es[j].Deliver? && es[j].event == id && es[j].call !in StateAt(es, j).calls
            && !OutsideWebhooks(es[j].effect) ==>
              InStage(StateAt(es, j + 1), es[j].call, Answered(Concurrent))
  {
    ReachableInv(es, i);
    AtStep(Apply, INIT, es, i);
    CrashLeavesIdle(StateAt(es, i), c, id);
    IdleStaysIdle(es, i + 1, j, id, PROCESSING);
    if j < |es| {
      AtStep(Apply, INIT, es, j);
    }
  }

  /** Step `k` is the crash of the delivery that owns the event. */
  ghost predicate OwnerCrashes(es: seq<Step>, k: nat, id: EventId)
    requires k < |es|
  {
    es[k].Crash? && Owns(StateAt(es, k), es[k].call, id)
  }

  /** Nothing but the crash of its owner leaves an event PROCESSING with nobody dispatching it. */
  lemma OnlyCrashStrands(s: State, e: Step, id: EventId)
    requires Inv(s) && Idle(Apply(s, e), id, PROCESSING)
    ensures Idle(s, id, PROCESSING) || (e.Crash? && Owns(s, e.call, id))
  {
    var s' := Apply(s, e);
    if !(e.Crash? && Owns(s, e.call, id)) {
      assert e.Deliver? ==> !Owns(s', e.call, id);
      assert e.Reclaim? ==> !Owns(s', e.call, id);
      forall c ensures !Owns(s, c, id) {
        assert !Owns(s', c, id);
        if Owns(s, c, id) { OwnerLeavesProcessing(s, e, c, id); }
      }
    }
  }

  /** A delivery that owns an event stops owning it by finishing, failing or crashing. */
  lemma OwnerLeavesProcessing(s: State, e: Step, c: CallId, id: EventId)
    requires Inv(s) && Owns(s, c, id) && !Owns(Apply(s, e), c, id)
    ensures e == Crash(c) || (id in Apply(s, e).events && Apply(s, e).events[id].status != PROCESSING)
  {
  }

  lemma StepStrandsIff(s: State, e: Step, id: EventId)
    requires Inv(s)
    ensures Idle(Apply(s, e), id, PROCESSING) <==> Idle(s, id, PROCESSING) || (e.Crash? && Owns(s, e.call, id))
  {
    if Idle(s, id, PROCESSING) {
      IdleIsFinal(s, e, id, PROCESSING);
    } else if e.Crash? && Owns(s, e.call, id) {
      CrashLeavesIdle(s, e.call, id);
    } else if Idle(Apply(s, e), id, PROCESSING) {
      OnlyCrashStrands(s, e, id);
    }
  }

  lemma RunStepStrandsIff(es: seq<Step>, i: nat, id: EventId)
    requires i < |es|
    ensures Idle(StateAt(es, i + 1), id, PROCESSING) <==>
            Idle(StateAt(es, i), id, PROCESSING) || OwnerCrashes(es, i, id)
  {
    ReachableInv(es, i);
    AtStep(Apply, INIT, es, i);
    StepStrandsIff(StateAt(es, i), es[i], id);
  }

  /** In every run an event is stranded exactly when a delivery crashed while it owned the event. */
  lemma StrandedIff(es: seq<Step>, n: nat, id: EventId)
    requires n <= |es|
    ensures Idle(StateAt(es, n), id, PROCESSING) <==> exists k: nat | k < n :: OwnerCrashes(es, k, id)
  {
    var stranded := (i: nat) => i <= n && Idle(StateAt(es, i), id, PROCESSING);
    var crashes := (i: nat) => i < n && OwnerCrashes(es, i, id);
    forall i: nat | i < n ensures stranded(i + 1) <==> stranded(i) || crashes(i) { RunStepStrandsIff(es, i, id); }
    EnteredIff(stranded, crashes, n);
    assert forall k: nat | k < n :: crashes(k) <==> OwnerCrashes(es, k, id);
  }

  /** The shortest such run: the first delivery of an event crashes, and the second is turned away. */
  lemma CrashHappens(effect: Billing.Step)
    requires !OutsideWebhooks(effect)
    ensures var es := [Deliver(0, 7, effect), Crash(0), Deliver(1, 7, effect)];
            OwnerCrashes(es, 1, 7) && Idle(StateAt(es, 2), 7, PROCESSING)
                && InStage(StateAt(es, 3), 1, Answered(Concurrent))
  {
    var es := [Deliver(0, 7, effect), Crash(0), Deliver(1, 7, effect)];
    AtStep(Apply, INIT, es, 0);
    CrashStrandsEvent(es, 1, 2, 0, 7);
    AtStep(Apply, INIT, es, 1);
  }

  // ----- retries -----

  /** Step `k` puts the retry job (`id`, `n`) on the queue. */
  ghost predicate EnqueuesRetry(es: seq<Step>, k: nat, id: EventId, n: nat)
    requires k < |es|
  {
    es[k].Enqueue? && es[k].redisUp && WillEnqueue(StateAt(es, k), es[k].call, id, n)
  }

  lemma RetriesOnlyGrow(es: seq<Step>, i: nat, j: nat)
    requires i <= j <= |es|
    ensures StateAt(es, i).retries <= StateAt(es, j).retries
    decreases j - i
  {
    if i < j {
      RetriesOnlyGrow(es, i, j - 1);
      AtStep(Apply, INIT, es, j - 1);
    }
  }

  /** No attempt number of an event is enqueued twice, so no retry is lost to the queue's job-id deduplication. */
  lemma RetryNumbersNeverRepeat(es: seq<Step>, i: nat, j: nat, id: EventId, n: nat)
    requires i < j < |es| && EnqueuesRetry(es, i, id, n)
    ensures !EnqueuesRetry(es, j, id, n)
  {
    AtStep(Apply, INIT, es, i);
    RetriesOnlyGrow(es, i + 1, j);
    ReachableInv(es, j);
  }

  /** Step `k` records a failed dispatch of the event. */
  ghost predicate FailsAt(es: seq<Step>, k: nat, id: EventId)
    requires k < |es|
  {
    es[k].Fail? && Owns(StateAt(es, k), es[k].call, id)
  }

  ghost function Failures(es: seq<Step>, n: nat, id: EventId): nat
    requires n <= |es|
  {
    if n == 0 then 0 else Failures(es, n - 1, id) + if FailsAt(es, n - 1, id) then 1 else 0
  }

  /** The attempts counter is twice the number of failures, less one while a failure awaits its reclaim. */
  ghost predicate Tallied(s: State, id: EventId, failures: nat)
  {
    if id !in s.events then failures == 0
    else match s.events[id].status
      case RECEIVED => false
      case FAILED => s.events[id].attempts == 2 * failures - 1
      case _ => s.events[id].attempts == 2 * failures
  }

  lemma StepTallies(s: State, e: Step, id: EventId, failures: nat)
    requires Inv(s) && Tallied(s, id, failures)
    ensures Tallied(Apply(s, e), id, failures + if e.Fail? && Owns(s, e.call, id) then 1 else 0)
  {
    if (e.Finish? || e.Fail?) && e.call in s.calls {
      assert s.calls[e.call].stage in {Dispatching, Dispatched} ==> Owns(s, e.call, s.calls[e.call].event);
    }
  }

  lemma {:induction false} AttemptsCountFailures(es: seq<Step>, n: nat, id: EventId)
    requires n <= |es|
    ensures Tallied(StateAt(es, n), id, Failures(es, n, id))
  {
    if n > 0 {
      AttemptsCountFailures(es, n - 1, id);
      ReachableInv(es, n - 1);
      AtStep(Apply, INIT, es, n - 1);
      StepTallies(StateAt(es, n - 1), es[n - 1], id, Failures(es, n - 1, id));
    }
  }

  /** The k-th failure of an event schedules its retry under attempt number 2k - 1. */
  lemma FailureNumbersItsRetry(es: seq<Step>, k: nat, id: EventId)
    requires k < |es| && FailsAt(es, k, id)
    ensures WillEnqueue(StateAt(es, k + 1), es[k].call, id, 2 * Failures(es, k + 1, id) - 1)
  {
    AttemptsCountFailures(es, k, id);
    ReachableInv(es, k);
    AtStep(Apply, INIT, es, k);
  }

  // ----- effects -----

  /** The billing step that step `k` of the run performs, if any. */
  ghost function Performed(es: seq<Step>, k: nat): Option<Billing.Step>
    requires k < |es|
  {
    match es[k]
    case Effect(c) => if InStage(StateAt(es, k), c, Dispatching) then Some(StateAt(es, k).calls[c].effect) else None
    case Elsewhere(b) => if OutsideWebhooks(b) then Some(b) else None
    case _ => None
  }

  ghost function Effects(es: seq<Step>, n: nat): seq<Billing.Step>
    requires n <= |es|
  {
    if n == 0 then []
    else Effects(es, n - 1) + if Performed(es, n - 1).Some? then [Performed(es, n - 1).value] else []
  }

  /**
   The billing rows of a webhook run are those of the billing run made of its effects, so every theorem about
   billing runs applies.
   */
  lemma {:induction false} WebhookRunIsBillingRun(es: seq<Step>, n: nat)
    requires n <= |es|
    ensures StateAt(es, n).billing == Run(Billing.Apply, Billing.INIT, Effects(es, n))
  {
    if n > 0 {
      WebhookRunIsBillingRun(es, n - 1);
      AtStep(Apply, INIT, es, n - 1);
      var fs := Effects(es, n - 1);
      if Performed(es, n - 1).Some? {
        assert (fs + [Performed(es, n - 1).value])[..|fs|] == fs;
      } else {
        assert fs + [] == fs;
      }
    }
  }

  ghost predicate Uncounted(b: Billing.Step, id: SubId)
  {
    b.Charged? && b.charge.sub == id ==> b.charge.paidCount.None?
  }

  ghost predicate CallsUncounted(s: State, id: SubId) { forall c <- s.calls :: Uncounted(s.calls[c].effect, id) }

  lemma StepKeepsUncounted(s: State, e: Step, id: SubId)
    requires CallsUncounted(s, id) && (e.Deliver? ==> Uncounted(e.effect, id))
    ensures CallsUncounted(Apply(s, e), id)
  {
  }

  lemma {:induction false} EffectsComeFromDeliveries(es: seq<Step>, n: nat, id: SubId)
    requires n <= |es|
    requires forall k | 0 <= k < n :: es[k].Deliver? ==> Uncounted(es[k].effect, id)
    ensures CallsUncounted(StateAt(es, n), id)
    ensures forall b <- Effects(es, n) :: Uncounted(b, id)
  {
    if n > 0 {
      EffectsComeFromDeliveries(es, n - 1, id);
      AtStep(Apply, INIT, es, n - 1);
      StepKeepsUncounted(StateAt(es, n - 1), es[n - 1], id);
    }
  }

  /**
   Exactly-once charging through any interleaving of deliveries, redeliveries, failures and crashes:
   if no payload for the subscription carries a `paid_count`, its counter is the number of distinct
   payment ids on record for it.
   */
  lemma ChargedExactlyOnce(es: seq<Step>, n: nat, id: SubId)
    requires n <= |es|
    requires forall k | 0 <= k < n :: es[k].Deliver? ==> Uncounted(es[k].effect, id)
    requires id in StateAt(es, n).billing.subs
    ensures StateAt(es, n).billing.subs[id].paidCount == |Billing.PaymentsOf(StateAt(es, n).billing, id)|
  {
    var fs := Effects(es, n);
    assert fs[..|fs|] == fs;
    WebhookRunIsBillingRun(es, n);
    EffectsComeFromDeliveries(es, n, id);
    forall k | 0 <= k < |fs| ensures Uncounted(fs[k], id) { assert fs[k] in fs; }
    Billing.PaidCountIsExact(fs, |fs|, id);
  }

  /** Call `c` has performed the event's effect but not yet recorded it. */
  predicate Undecided(s: State, c: CallId, id: EventId) { InStage(s, c, Dispatched) && s.calls[c].event == id }

  predicate IsDone(s: State, id: EventId) { id in s.events && s.events[id].status == DONE }

  /** Step `k` performs the event's effect. */
  ghost predicate EffectAt(es: seq<Step>, k: nat, id: EventId)
    requires k < |es|
  {
    es[k].Effect? && InStage(StateAt(es, k), es[k].call, Dispatching) && StateAt(es, k).calls[es[k].call].event == id
  }

  lemma StepTowardsDone(s: State, e: Step, c: CallId, id: EventId)
    ensures Undecided(Apply(s, e), c, id) ==>
            Undecided(s, c, id) || (e == Effect(c) && InStage(s, c, Dispatching) && s.calls[c].event == id)
    ensures IsDone(Apply(s, e), id) ==> IsDone(s, id) || (e.Finish? && Undecided(s, e.call, id))
  {
  }

  /** An event is marked DONE only after its effect was performed. */
  lemma {:induction false} DoneMeansDispatched(es: seq<Step>, n: nat, c: CallId, id: EventId)
    requires n <= |es| && (IsDone(StateAt(es, n), id) || Undecided(StateAt(es, n), c, id))
    ensures exists k | 0 <= k < n :: EffectAt(es, k, id)
  {
    if n > 0 {
      AtStep(Apply, INIT, es, n - 1);
      var s, e := StateAt(es, n - 1), es[n - 1];
      StepTowardsDone(s, e, c, id);
      if IsDone(s, id) || Undecided(s, c, id) {
        DoneMeansDispatched(es, n - 1, c, id);
      } else if e.Finish? && Undecided(s, e.call, id) {
        DoneMeansDispatched(es, n - 1, e.call, id);
      } else {
        assert EffectAt(es, n - 1, id);
      }
    }
  }

  lemma StepGrowsBilling(s: State, e: Step)
    ensures Billing.Grows(s.billing, Apply(s, e).billing)
  {
    if e.Elsewhere? {
      Billing.StepGrows(s.billing, e.step);
    } else if e.Effect? && e.call in s.calls {
      Billing.StepGrows(s.billing, s.calls[e.call].effect);
    }
  }

  lemma GrowsTransitively(a: Billing.State, b: Billing.State, c: Billing.State)
    requires Billing.Grows(a, b) && Billing.Grows(b, c)
    ensures Billing.Grows(a, c)
  {
  }

  lemma {:induction false} BillingOnlyGrows(es: seq<Step>, i: nat, j: nat)
    requires i <= j <= |es|
    ensures Billing.Grows(StateAt(es, i).billing, StateAt(es, j).billing)
    decreases j - i
  {
    if i < j {
      BillingOnlyGrows(es, i, j - 1);
      AtStep(Apply, INIT, es, j - 1);
      StepGrowsBilling(StateAt(es, j - 1), es[j - 1]);
      GrowsTransitively(StateAt(es, i).billing, StateAt(es, j - 1).billing, StateAt(es, j).billing);
    }
  }

  /**
   Once the effect of a charge was performed its payment is on record for good, unless the charge
   came before its subscription or user row and was skipped.
   */
  lemma DispatchedChargeIsRecorded(es: seq<Step>, k: nat, n: nat, id: EventId)
    requires k < n <= |es| && EffectAt(es, k, id) && StateAt(es, k).calls[es[k].call].effect.Charged?
    ensures var ch := StateAt(es, k).calls[es[k].call].effect.charge;
            && (Billing.Known(StateAt(es, k).billing, ch.sub) ==> ch.pay in StateAt(es, n).billing.payments)
            && (!Billing.Known(StateAt(es, k).billing, ch.sub) ==> StateAt(es, k + 1).billing == StateAt(es, k).billing)
  {
    AtStep(Apply, INIT, es, k);
    var s := StateAt(es, k);
    Billing.StepRecordsPayment(s.billing, s.calls[es[k].call].effect, s.calls[es[k].call].effect.charge.pay);
    BillingOnlyGrows(es, k + 1, n);
  }

  /** Step `k` performs a charge of payment `p`, and finds its subscription and user. */
  ghost predicate ChargesAt(es: seq<Step>, k: nat, p: Billing.PaymentId)
    requires k < |es|
  {
    && Performed(es, k).Some? && Performed(es, k).value.Charged? && Performed(es, k).value.charge.pay == p
    && Billing.Known(StateAt(es, k).billing, Performed(es, k).value.charge.sub)
  }

  lemma RunStepRecordsIff(es: seq<Step>, i: nat, p: Billing.PaymentId)
    requires i < |es|
    ensures p in StateAt(es, i + 1).billing.payments <==> p in StateAt(es, i).billing.payments || ChargesAt(es, i, p)
  {
    AtStep(Apply, INIT, es, i);
    if Performed(es, i).Some? {
      Billing.StepRecordsPayment(StateAt(es, i).billing, Performed(es, i).value, p);
    }
  }

  /** In every run a payment is on record exactly when some dispatched charge of it found its subscription and user. */
  lemma RecordedIff(es: seq<Step>, n: nat, p: Billing.PaymentId)
    requires n <= |es|
    ensures p in StateAt(es, n).billing.payments <==> exists k: nat | k < n :: ChargesAt(es, k, p)
  {
    var recorded := (i: nat) => i <= n && p in StateAt(es, i).billing.payments;
    var charges := (i: nat) => i < n && ChargesAt(es, i, p);
    forall i: nat | i < n ensures recorded(i + 1) <==> recorded(i) || charges(i) { RunStepRecordsIff(es, i, p); }
    EnteredIff(recorded, charges, n);
    assert forall k: nat | k < n :: charges(k) <==> ChargesAt(es, k, p);
  }

  /** A charge that comes before its subscription: the event is DONE and the payment is not on record. */
  lemma SkippedChargeIsDone(ch: Billing.Charge)
    ensures var es := [Deliver(0, 7, Billing.Charged(ch)), Effect(0), Finish(0)];
            IsDone(StateAt(es, 3), 7) && ch.pay !in StateAt(es, 3).billing.payments
  {
    var es := [Deliver(0, 7, Billing.Charged(ch)), Effect(0), Finish(0)];
    AtStep(Apply, INIT, es, 0);
    AtStep(Apply, INIT, es, 1);
    AtStep(Apply, INIT, es, 2);
  }
}
