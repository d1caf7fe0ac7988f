/** The room service over the row it updates in place; other requests (`env`) run in the gaps of `Register`. */
module RoomService {
  import opened Common
  import opened Runs
  import opened Rooms

  predicate StepOf(e: Step, c: CallId)
  {
    match e
    case Begin(d, _, _) => d == c
    case AddParticipant(d) => d == c
    case BumpCount(d) => d == c
    case Diagnose(d) => d == c
    case _ => false
  }

  lemma ForeignStepKeepsCall(s: State, e: Step, c: CallId)
    requires !StepOf(e, c) && c in s.calls
    ensures c in Apply(s, e).calls && Apply(s, e).calls[c] == s.calls[c]
  {
  }

  lemma ForeignRunKeepsCall(s: State, es: seq<Step>, c: CallId, call: Call)
    requires c in s.calls && s.calls[c] == call && forall e <- es :: !StepOf(e, c)
    ensures c in Run(Apply, s, es).calls && Run(Apply, s, es).calls[c] == call
  {
    var kept := (x: State) => c in x.calls && x.calls[c] == call;
    forall x: State, e: Step | kept(x) && e in es ensures kept(Apply(x, e)) { ForeignStepKeepsCall(x, e, c); }
    KeptByRun(Apply, kept, s, es);
  }

  /** The trace holds steps of call `c` and steps that others make in its gaps, and nothing else. */
  ghost predicate TraceOf(c: CallId, env: seq<seq<Step>>, trace: seq<Step>)
  {
    forall e <- trace :: StepOf(e, c) || InEnv(env, e)
  }

  lemma TraceGrows(c: CallId, env: seq<seq<Step>>, before: seq<Step>, e: Step, others: seq<Step>)
    requires TraceOf(c, env, before) && StepOf(e, c) && (others == [] || others in env)
    ensures TraceOf(c, env, before + [e] + others)
  {
    GapIsInEnv(env, others);
  }

  /** The room that takes registrations: not completed, and fewer than 100 on its list. */
  predicate TakesMore(r: Room) { r.status != COMPLETED && |r.participants| < 100 }

  /** What an undisturbed registration makes of the room: one more seat and one more on the counter, or nothing. */
  function WithSeat(r: Room, u: UserId): Room
  {
    if TakesMore(r) && u !in r.participants then Room(r.status, r.participants + [u], r.count + 1) else r
  }

  /** What an undisturbed registration answers. */
  function Answer(r: Room, u: UserId): Outcome
  {
    if u in r.participants then Registered(true)
    else if TakesMore(r) then Registered(false)
    else if r.status == COMPLETED then StateInvalid else RoomFull
  }

  lemma AddMoves(s: State, c: CallId)
    requires InStage(s, c, Admitted)
    ensures var s', u := Apply(s, AddParticipant(c)), s.calls[c].user;
            && c in s'.calls && s'.calls[c] == s.calls[c].(stage := s'.calls[c].stage)
            && s'.calls[c].stage in {Diagnosing, Counting, Returned(Registered(true))}
            && (s.room.Some? ==> s'.calls[c].stage == AfterUpdate(s.room.value, u))
            && (s.room.Some? ==> s'.room == Some(OnList(s.room.value, u)))
  {
  }

  /** Where the guarded update leads. */
  function AfterUpdate(r: Room, u: UserId): Stage
  {
    if !TakesMore(r) then Diagnosing else if u in r.participants then Returned(Registered(true)) else Counting
  }

  /** The room after the guarded update. */
  function OnList(r: Room, u: UserId): Room
  {
    if TakesMore(r) && u !in r.participants then r.(participants := r.participants + [u]) else r
  }

  lemma AnswerMoves(s: State, c: CallId)
    requires c in s.calls && CallOk(s, s.calls[c])
    ensures s.calls[c].stage == Diagnosing ==>
              var s' := Apply(s, Diagnose(c));
              && c in s'.calls && s'.calls[c] == s.calls[c].(stage := s'.calls[c].stage) && s'.calls[c].stage.Returned?
              && s'.calls[c].stage.outcome !in {FeatureDisabled, NotFound, TierNotAccessible} && s'.room == s.room
              && (s.room.Some? && !TakesMore(s.room.value) ==>
                    s'.calls[c].stage.outcome == Answer(s.room.value, s.calls[c].user))
    ensures s.calls[c].stage == Counting ==>
              var s' := Apply(s, BumpCount(c));
              && c in s'.calls && s'.calls[c] == s.calls[c].(stage := Returned(Registered(false)))
              && (s.room.Some? ==> s'.room == Some(s.room.value.(count := s.room.value.count + 1)))
  {
  }

  class RoomService {
    var room: Option<Room>
    var calls: map<CallId, Call>

    ghost function View(): State
      reads this
    {
      State(room, calls)
    }

    constructor ()
      ensures View() == INIT
    {
      room, calls := None, map[];
    }

    method SetStage(c: CallId, stage: Stage)
      requires c in calls
      modifies this`calls
      ensures View() == Move(old(View()), c, stage)
    {
      calls := calls[c := calls[c].(stage := stage)];
    }

    /** False stands for ROOM_STATE_INVALID. */
    method SetRoomStatus(from: RoomStatus, to: RoomStatus) returns (ok: bool)
      modifies this`room
      ensures View() == SetStatus(old(View()), from, to)
      ensures ok <==> old(room).Some? && old(room).value.status == from
    {
      ok := room.Some? && room.value.status == from;
      if ok { room := Some(room.value.(status := to)); }
    }

    /** False stands for ROOM_STATE_INVALID: the room is not SCHEDULED. */
    method StartTheMatch() returns (ok: bool)
      modifies this`room
      ensures View() == Apply(old(View()), StartMatch)
      ensures ok <==> old(room).Some? && old(room).value.status == SCHEDULED
      ensures room == if ok then Some(old(room).value.(status := LIVE)) else old(room)
    {
      ok := SetRoomStatus(SCHEDULED, LIVE);
    }

    /** False stands for ROOM_STATE_INVALID: the room is not LIVE. */
    method EndTheMatch() returns (ok: bool)
      modifies this`room
      ensures View() == Apply(old(View()), EndMatch)
      ensures ok <==> old(room).Some? && old(room).value.status == LIVE
      ensures room == if ok then Some(old(room).value.(status := COMPLETED)) else old(room)
    {
      ok := SetRoomStatus(LIVE, COMPLETED);
    }

    method Perform(e: Step)
      modifies this
      ensures View() == Apply(old(View()), e)
    {
      match e
      case Create => if room.None? { room := Some(Room(SCHEDULED, [], 0)); }
      case StartMatch => var _ := StartTheMatch();
      case EndMatch => var _ := EndTheMatch();
      case Begin(c, u, hasTier) =>
        if c !in calls {
          var stage := Admitted;
          if room.None? { stage := Returned(NotFound); } else if !hasTier { stage := Returned(TierNotAccessible); }
          calls := calls[c := Call(u, stage)];
        }
      case AddParticipant(c) =>
        if c in calls && calls[c].stage == Admitted {
          var u := calls[c].user;
          if room.None? || !Open(room.value) {
            SetStage(c, Diagnosing);
          } else {
            var pre := room.value.participants;
            var wasAlready := u in pre;
            if !wasAlready { room := Some(room.value.(participants := pre + [u])); }
            SetStage(c, if wasAlready then Returned(Registered(true)) else Counting);
          }
        }
      case BumpCount(c) =>
        if c in calls && calls[c].stage == Counting && room.Some? {
          room := Some(room.value.(count := room.value.count + 1));
          SetStage(c, Returned(Registered(false)));
        }
      case Diagnose(c) =>
        if c in calls && calls[c].stage == Diagnosing {
          SetStage(c, Returned(Diagnosis(room, calls[c].user)));
        }
    }

    /** Lets the other requests run. */
    method LetOthersRun(others: seq<Step>)
      modifies this
      ensures View() == Run(Apply, old(View()), others)
    {
      for i := 0 to |others|
        invariant View() == Run(Apply, old(View()), others[..i])
      {
        RunStep(Apply, old(View()), others[..i], others[i]);
        assert others[..i + 1] == others[..i] + [others[i]];
        Perform(others[i]);
      }
      assert others[..|others|] == others;
    }

    /** Performs step `e` of call `c`, then lets the other requests run `others`. */
    method Advance(c: CallId, e: Step, others: seq<Step>, ghost s0: State, ghost before: seq<Step>)
      returns (ghost trace: seq<Step>)
      requires View() == Run(Apply, s0, before) && c in Apply(View(), e).calls
      requires forall o <- others :: !StepOf(o, c)
      modifies this
      ensures View() == Run(Apply, s0, trace) && trace == before + [e] + others
      ensures c in calls && calls[c] == Apply(old(View()), e).calls[c]
      ensures others == [] ==> View() == Apply(old(View()), e)
    {
      Perform(e);
      RunStep(Apply, s0, before, e);
      ghost var mid, call := View(), calls[c];
      LetOthersRun(others);
      trace := before + [e] + others;
      RunConcat(Apply, s0, before + [e], others);
      ForeignRunKeepsCall(mid, others, c, call);
    }

    /** From the guarded update to the answer. */
    method AddAndCount(c: CallId, others: seq<Step>, ghost env: seq<seq<Step>>, ghost s0: State,
        ghost before: seq<Step>)
      returns (ghost trace: seq<Step>)
      requires Inv(s0) && View() == Run(Apply, s0, before) && c in calls && calls[c].stage == Admitted
      requires others in env && (forall o <- others :: !StepOf(o, c)) && TraceOf(c, env, before)
      modifies this
      ensures View() == Run(Apply, s0, trace) && TraceOf(c, env, trace)
      ensures c in calls && calls[c] == old(calls[c]).(stage := calls[c].stage) && calls[c].stage.Returned?
      ensures calls[c].stage.outcome !in {FeatureDisabled, NotFound, TierNotAccessible}
      ensures old(room).Some? && (TakesMore(old(room).value) || others == []) ==>
                calls[c].stage.outcome == Answer(old(room).value, calls[c].user)
      ensures old(room).Some? && others == [] ==> room == Some(WithSeat(old(room).value, calls[c].user))
    {
      AddMoves(View(), c);
      TraceGrows(c, env, before, AddParticipant(c), others);
      trace := Advance(c, AddParticipant(c), others, s0, before);
      RunKeepsCallOk(s0, trace, c);
      AnswerMoves(View(), c);
      if calls[c].stage == Diagnosing {
        TraceGrows(c, env, trace, Diagnose(c), []);
        trace := Advance(c, Diagnose(c), [], s0, trace);
      } else if calls[c].stage == Counting {
        TraceGrows(c, env, trace, BumpCount(c), []);
        trace := Advance(c, BumpCount(c), [], s0, trace);
      }
    }

    /** The register handler; `enabled` is the tournaments flag and `hasTier` the advisory tier check. */
    method Register(c: CallId, u: UserId, enabled: bool, hasTier: bool, env: seq<seq<Step>>)
      returns (r: Outcome, ghost trace: seq<Step>)
      requires Inv(View()) && c !in calls
      requires |env| == 2 && forall k | 0 <= k < 2 :: forall o <- env[k] :: !StepOf(o, c)
      modifies this
      ensures Inv(View()) && View() == Run(Apply, old(View()), trace) && TraceOf(c, env, trace)
      ensures (r.FeatureDisabled? <==> !enabled) && (!enabled ==> unchanged(this))
      ensures enabled ==> c in calls && calls[c] == Call(u, Returned(r))
      ensures r.Registered? ==> u in Participants(View())
      ensures r.RoomFull? ==> u !in Participants(View()) && |Participants(View())| == 100
      ensures r.StateInvalid? ==> u !in Participants(View()) && room.value.status == COMPLETED
      ensures r.NotFound? <==> enabled && old(room).None?
      ensures r.TierNotAccessible? <==> enabled && old(room).Some? && !hasTier
      ensures !r.RegisterFailed?
      ensures enabled && hasTier && old(room).Some? && env[0] == [] && (TakesMore(old(room).value) || env[1] == []) ==>
                r == Answer(old(room).value, u)
      ensures env[0] == env[1] == [] ==>
                room == if enabled && hasTier && old(room).Some? then Some(WithSeat(old(room).value, u)) else old(room)
    {
      if !enabled { return FeatureDisabled, []; }
      ghost var s0 := View();
      TraceGrows(c, env, [], Begin(c, u, hasTier), env[0]);
      trace := Advance(c, Begin(c, u, hasTier), env[0], s0, []);
      if calls[c].stage == Admitted {
        trace := AddAndCount(c, env[1], env, s0, trace);
      }
      r := calls[c].stage.outcome;
      RunKeepsInv(s0, trace);
      RunKeepsCallOk(s0, trace, c);
    }
  }
}
