/**
 Custom-room registration. `register` reads the room, adds the user with one
 guarded update, bumps a counter in a second write, and reads again only to
 explain a refused update. The room's status steps run in between.
 */
module Rooms {
  import opened Common
  import opened Runs

  type UserId = nat
  type CallId = nat

  const PARTICIPANT_CAP := 100

  datatype RoomStatus = SCHEDULED | LIVE | COMPLETED

  datatype Room = Room(status: RoomStatus, participants: seq<UserId>, count: int)

  datatype Outcome =
    | Registered(already: bool)
    | FeatureDisabled | NotFound | TierNotAccessible | StateInvalid | RoomFull | RegisterFailed

  datatype Stage =
    | Admitted
    | Counting
    | Diagnosing
    | Returned(outcome: Outcome)

  datatype Call = Call(user: UserId, stage: Stage)

  datatype State = State(room: Option<Room>, calls: map<CallId, Call>)

  datatype Step =
    | Create
    | StartMatch
    | EndMatch
    | Begin(call: CallId, user: UserId, hasTier: bool)
    | AddParticipant(call: CallId)
    | BumpCount(call: CallId)
    | Diagnose(call: CallId)

  const INIT := State(None, map[])

  predicate Open(r: Room) { r.status in {SCHEDULED, LIVE} && |r.participants| < PARTICIPANT_CAP }

  predicate InStage(s: State, c: CallId, stage: Stage) { c in s.calls && s.calls[c].stage == stage }

  function Move(s: State, c: CallId, stage: Stage): State
    requires c in s.calls
  {
    s.(calls := s.calls[c := s.calls[c].(stage := stage)])
  }

  function AddToSet(us: seq<UserId>, u: UserId): seq<UserId> { if u in us then us else us + [u] }

  /** The guarded `$addToSet`, and the branch on the participants it found. */
  function TryAdd(s: State, c: CallId): State
    requires c in s.calls
  {
    var u := s.calls[c].user;
    if s.room.None? || !Open(s.room.value) then Move(s, c, Diagnosing)
    else
      var r := s.room.value;
      Move(s.(room := Some(r.(participants := AddToSet(r.participants, u)))), c,
           if u in r.participants then Returned(Registered(true)) else Counting)
  }

  function Diagnosis(room: Option<Room>, u: UserId): Outcome
  {
    if room.None? then NotFound
    else if u in room.value.participants then Registered(true)
    else if room.value.status !in {SCHEDULED, LIVE} then StateInvalid
    else if |room.value.participants| >= PARTICIPANT_CAP then RoomFull
    else RegisterFailed
  }

  function SetStatus(s: State, from: RoomStatus, to: RoomStatus): State
  {
    if s.room.Some? && s.room.value.status == from then s.(room := Some(s.room.value.(status := to))) else s
  }

  function Apply(s: State, e: Step): State
  {
    match e
    case Create => if s.room.None? then s.(room := Some(Room(SCHEDULED, [], 0))) else s
    case StartMatch => SetStatus(s, SCHEDULED, LIVE)
    case EndMatch => SetStatus(s, LIVE, COMPLETED)
    case Begin(c, u, hasTier) =>
      if c in s.calls then s
      else
        var stage := if s.room.None? then Returned(NotFound) else if !hasTier then Returned(TierNotAccessible)
            else Admitted;
        s.(calls := s.calls[c := Call(u, stage)])
    case AddParticipant(c) => if InStage(s, c, Admitted) then TryAdd(s, c) else s
    case BumpCount(c) =>
      if InStage(s, c, Counting) && s.room.Some?
      then Move(s.(room := Some(s.room.value.(count := s.room.value.count + 1))), c, Returned(Registered(false))) else s
    case Diagnose(c) =>
      if InStage(s, c, Diagnosing) then Move(s, c, Returned(Diagnosis(s.room, s.calls[c].user))) else s
  }

  // ----- what every reachable state satisfies -----

  function Participants(s: State): seq<UserId> { if s.room.Some? then s.room.value.participants else [] }

  function Count(s: State): int { if s.room.Some? then s.room.value.count else 0 }

  ghost function CallsIn(calls: map<CallId, Call>, stage: Stage): set<CallId>
  {
    set c | c in calls && calls[c].stage == stage
  }

  /** The calls between their two writes. */
  ghost function Lagging(s: State): set<CallId> { CallsIn(s.calls, Counting) }

  /** The calls that were answered `alreadyRegistered: false`. */
  ghost function Fresh(s: State): set<CallId> { CallsIn(s.calls, Returned(Registered(false))) }

  /** The room can never accept anybody again. */
  ghost predicate Closed(s: State) { s.room.Some? && !Open(s.room.value) }

  ghost predicate CallOk(s: State, call: Call)
  {
    match call.stage
    case Admitted => s.room.Some?
    case Counting => s.room.Some? && call.user in Participants(s)
    case Diagnosing => Closed(s)
    case Returned(Registered(_)) => s.room.Some? && call.user in Participants(s)
    case Returned(RegisterFailed) => false
    case Returned(FeatureDisabled) => true
    case Returned(StateInvalid) => Closed(s) && s.room.value.status == COMPLETED && call.user !in Participants(s)
    case Returned(RoomFull) => Closed(s) && call.user !in Participants(s) && |Participants(s)| == PARTICIPANT_CAP
    case Returned(NotFound) => true
    case Returned(TierNotAccessible) => true
  }

  /** Different calls that added a user added different users. */
  ghost predicate AddersDiffer(s: State)
  {
    forall c <- Lagging(s) + Fresh(s), d <- Lagging(s) + Fresh(s) :: s.calls[c].user == s.calls[d].user ==> c == d
  }

  ghost predicate Seated(s: State)
  {
    && |Participants(s)| <= PARTICIPANT_CAP
    && (forall i, j | 0 <= i < j < |Participants(s)| :: Participants(s)[i] != Participants(s)[j])
    && Count(s) == |Fresh(s)|
    && |Participants(s)| == |Lagging(s)| + |Fresh(s)|
  }

  ghost predicate Inv(s: State)
  {
    && Seated(s) && AddersDiffer(s) && (s.room.None? ==> Lagging(s) + Fresh(s) == {})
    && forall c <- s.calls :: CallOk(s, s.calls[c])
  }

  /** A participant stays, the room never vanishes, and a closed room neither opens nor changes its list. */
  lemma StepIsMonotone(s: State, e: Step)
    ensures s.room.Some? ==> Apply(s, e).room.Some? && Participants(s) <= Participants(Apply(s, e))
    ensures Closed(s) ==> Closed(Apply(s, e)) && Participants(s) == Participants(Apply(s, e))
  {
  }

  lemma CallOkIsStable(s: State, e: Step, call: Call)
    requires CallOk(s, call)
    ensures CallOk(Apply(s, e), call)
  {
    StepIsMonotone(s, e);
  }

  lemma BegunCallOk(s: State, c: CallId, u: UserId, hasTier: bool)
    requires c !in s.calls
    ensures var s' := Apply(s, Begin(c, u, hasTier)); c in s'.calls && CallOk(s', s'.calls[c])
  {
  }

  lemma AddedCallOk(s: State, c: CallId)
    requires InStage(s, c, Admitted) && CallOk(s, s.calls[c])
    ensures var s' := TryAdd(s, c); c in s'.calls && CallOk(s', s'.calls[c])
  {
  }

  lemma BumpedCallOk(s: State, c: CallId)
    requires InStage(s, c, Counting) && CallOk(s, s.calls[c])
    ensures var s' := Apply(s, BumpCount(c)); c in s'.calls && CallOk(s', s'.calls[c])
  {
  }

  /** The diagnosis finds the cause that refused the update, so it is never at a loss. */
  lemma DiagnosedCallOk(s: State, c: CallId)
    requires Seated(s) && InStage(s, c, Diagnosing) && CallOk(s, s.calls[c])
    ensures var s' := Apply(s, Diagnose(c)); c in s'.calls && CallOk(s', s'.calls[c])
  {
  }

  lemma MovedCallOk(s: State, e: Step, c: CallId)
    requires Seated(s) && (c in s.calls ==> CallOk(s, s.calls[c]))
    requires c in Apply(s, e).calls && (c in s.calls ==> Apply(s, e).calls[c] != s.calls[c])
    ensures CallOk(Apply(s, e), Apply(s, e).calls[c])
  {
    match e
    case Begin(_, u, hasTier) => BegunCallOk(s, c, u, hasTier);
    case AddParticipant(_) => AddedCallOk(s, c);
    case BumpCount(_) => BumpedCallOk(s, c);
    case Diagnose(_) => DiagnosedCallOk(s, c);
  }

  lemma StepKeepsCalls(s: State, e: Step, c: CallId)
    requires Inv(s) && c in Apply(s, e).calls
    ensures CallOk(Apply(s, e), Apply(s, e).calls[c])
  {
    if c in s.calls && Apply(s, e).calls[c] == s.calls[c] {
      CallOkIsStable(s, e, s.calls[c]);
    } else {
      MovedCallOk(s, e, c);
    }
  }

  lemma UpdateMovesCall(calls: map<CallId, Call>, c: CallId, call: Call, stage: Stage)
    ensures CallsIn(calls[c := call], stage) ==
            if call.stage == stage then CallsIn(calls, stage) + {c} else CallsIn(calls, stage) - {c}
  {
  }

  /** The step is an update that seats a new participant. */
  predicate Seats(s: State, e: Step)
  {
    && e.AddParticipant? && InStage(s, e.call, Admitted)
    && s.room.Some? && Open(s.room.value) && s.calls[e.call].user !in Participants(s)
  }

  /** The step is a seated call's counter bump. */
  predicate Bumps(s: State, e: Step) { e.BumpCount? && InStage(s, e.call, Counting) && s.room.Some? }

  /** How a step moves calls between the two groups. */
  lemma StepMovesAdders(s: State, e: Step)
    ensures Lagging(Apply(s, e)) ==
            if Seats(s, e) then Lagging(s) + {e.call} else if Bumps(s, e) then Lagging(s) - {e.call} else Lagging(s)
    ensures Fresh(Apply(s, e)) == if Bumps(s, e) then Fresh(s) + {e.call} else Fresh(s)
  {
    var s' := Apply(s, e);
    if s'.calls != s.calls {
      var call := s'.calls[e.call];
      assert s'.calls == s.calls[e.call := call];
      UpdateMovesCall(s.calls, e.call, call, Counting);
      UpdateMovesCall(s.calls, e.call, call, Returned(Registered(false)));
    }
  }

  /** How a step moves the participant list and the counter. */
  lemma StepMovesRoom(s: State, e: Step)
    ensures var s' := Apply(s, e);
            && (s.room.Some? ==> s'.room.Some?)
            && Participants(s') == (if Seats(s, e) then Participants(s) + [s.calls[e.call].user] else Participants(s))
            && Count(s') == (if Bumps(s, e) then Count(s) + 1 else Count(s))
            && (Seats(s, e) ==> |Participants(s)| < PARTICIPANT_CAP)
  {
  }

  lemma StepKeepsSeats(s: State, e: Step)
    requires Inv(s)
    ensures Seated(Apply(s, e)) && (Apply(s, e).room.None? ==> Lagging(Apply(s, e)) + Fresh(Apply(s, e)) == {})
  {
    StepMovesAdders(s, e);
    StepMovesRoom(s, e);
  }

  lemma CallKeepsUser(s: State, e: Step, c: CallId)
    requires c in s.calls
    ensures c in Apply(s, e).calls && Apply(s, e).calls[c].user == s.calls[c].user
  {
  }

  lemma OldAdderIsSeated(s: State, c: CallId)
    requires Inv(s) && c in Lagging(s) + Fresh(s)
    ensures s.calls[c].user in Participants(s)
  {
    assert CallOk(s, s.calls[c]);
  }

  lemma AdderWasSeated(s: State, e: Step, c: CallId)
    requires Inv(s) && c in Lagging(Apply(s, e)) + Fresh(Apply(s, e))
    ensures c in s.calls && Apply(s, e).calls[c].user == s.calls[c].user
    ensures if Seats(s, e) && e.call == c then s.calls[c].user !in Participants(s)
            else c in Lagging(s) + Fresh(s) && s.calls[c].user in Participants(s)
  {
    StepMovesAdders(s, e);
    CallKeepsUser(s, e, c);
    if !(Seats(s, e) && e.call == c) { OldAdderIsSeated(s, c); }
  }

  lemma StepKeepsAdders(s: State, e: Step)
    requires Inv(s)
    ensures AddersDiffer(Apply(s, e))
  {
    var s' := Apply(s, e);
    forall c <- Lagging(s') + Fresh(s'), d <- Lagging(s') + Fresh(s') | s'.calls[c].user == s'.calls[d].user
      ensures c == d
    {
      AdderWasSeated(s, e, c);
      AdderWasSeated(s, e, d);
    }
  }

  lemma StepKeepsInv(s: State, e: Step)
    requires Inv(s)
    ensures Inv(Apply(s, e))
  {
    StepKeepsSeats(s, e);
    StepKeepsAdders(s, e);
    forall c <- Apply(s, e).calls ensures CallOk(Apply(s, e), Apply(s, e).calls[c]) { StepKeepsCalls(s, e, c); }
  }

  // ----- theorems about every run -----

  ghost function StateAt(es: seq<Step>, i: nat): State
    requires i <= |es|
  {
    At(Apply, INIT, es, i)
  }

  lemma RunKeepsInv(s: State, es: seq<Step>)
    requires Inv(s)
    ensures Inv(Run(Apply, s, es))
  {
    forall s, e | Inv(s) ensures Inv(Apply(s, e)) { StepKeepsInv(s, e); }
    InvariantHolds(Apply, Inv, s, es);
  }

  lemma RunKeepsCallOk(s: State, es: seq<Step>, c: CallId)
    requires Inv(s) && c in Run(Apply, s, es).calls
    ensures CallOk(Run(Apply, s, es), Run(Apply, s, es).calls[c])
  {
    RunKeepsInv(s, es);
  }

  lemma ReachableInv(es: seq<Step>, i: nat)
    requires i <= |es|
    ensures Inv(StateAt(es, i))
  {
    RunKeepsInv(INIT, es[..i]);
  }

  /**
   In every run the participants are distinct and at most 100, and the counter lags the list by
   exactly the calls that are between their two writes.
   */
  lemma SeatsAndCounter(es: seq<Step>, i: nat)
    requires i <= |es| && StateAt(es, i).room.Some?
    ensures var s := StateAt(es, i);
            var r := s.room.value;
            && |r.participants| <= 100
            && (forall j, k | 0 <= j < k < |r.participants| :: r.participants[j] != r.participants[k])
            && |r.participants| - r.count == |Lagging(s)| && r.count == |Fresh(s)|
  {
    ReachableInv(es, i);
  }

  /** A user is told `alreadyRegistered: false` at most once. */
  lemma NewlyRegisteredOnce(es: seq<Step>, i: nat, c: CallId, d: CallId)
    requires i <= |es| && c in Fresh(StateAt(es, i)) && d in Fresh(StateAt(es, i))
    requires StateAt(es, i).calls[c].user == StateAt(es, i).calls[d].user
    ensures c == d
  {
    ReachableInv(es, i);
  }

  /** The "unknown reason" branch is unreachable: the cause of a refused update outlives the second read. */
  lemma RegisterFailedUnreachable(es: seq<Step>, i: nat, c: CallId)
    requires i <= |es| && c in StateAt(es, i).calls
    ensures StateAt(es, i).calls[c].stage != Returned(RegisterFailed)
  {
    ReachableInv(es, i);
    assert CallOk(StateAt(es, i), StateAt(es, i).calls[c]);
  }

  lemma ParticipantsOnlyGrow(es: seq<Step>, i: nat, j: nat)
    requires i <= j <= |es|
    ensures Participants(StateAt(es, i)) <= Participants(StateAt(es, j))
    ensures Closed(StateAt(es, i)) ==>
            Closed(StateAt(es, j)) && Participants(StateAt(es, i)) == Participants(StateAt(es, j))
    decreases j - i
  {
    if i < j {
      ParticipantsOnlyGrow(es, i, j - 1);
      AtStep(Apply, INIT, es, j - 1);
      StepIsMonotone(StateAt(es, j - 1), es[j - 1]);
    }
  }

  /** An answer is never taken back: the registered stay on the list, and the refused never get on it. */
  lemma AnswersArePermanent(es: seq<Step>, i: nat, j: nat, c: CallId)
    requires i <= j <= |es| && c in StateAt(es, i).calls && StateAt(es, i).calls[c].stage.Returned?
    ensures var u := StateAt(es, i).calls[c].user;
            match StateAt(es, i).calls[c].stage.outcome
            case Registered(_) => u in Participants(StateAt(es, j))
            case RoomFull => u !in Participants(StateAt(es, j)) && |Participants(StateAt(es, j))| == 100
            case StateInvalid => u !in Participants(StateAt(es, j)) && Closed(StateAt(es, j))
            case _ => true
  {
    ReachableInv(es, i);
    assert CallOk(StateAt(es, i), StateAt(es, i).calls[c]);
    ParticipantsOnlyGrow(es, i, j);
  }

  // ----- the room's status -----

  ghost predicate StatusAt(es: seq<Step>, i: nat, status: RoomStatus)
    requires i <= |es|
  {
    StateAt(es, i).room.Some? && StateAt(es, i).room.value.status == status
  }

  lemma RunStepMovesStatus(es: seq<Step>, i: nat)
    requires i < |es|
    ensures StatusAt(es, i + 1, LIVE) <==>
            (es[i] == StartMatch && StatusAt(es, i, SCHEDULED)) || (es[i] != EndMatch && StatusAt(es, i, LIVE))
    ensures StatusAt(es, i + 1, COMPLETED) <==>
            (es[i] == EndMatch && StatusAt(es, i, LIVE)) || StatusAt(es, i, COMPLETED)
    ensures StateAt(es, i + 1).room.Some? <==> es[i] == Create || StateAt(es, i).room.Some?
  {
    AtStep(Apply, INIT, es, i);
  }

  /** From step `k` to point `n` nobody ends the match. */
  predicate NotEnded(es: seq<Step>, k: nat, n: nat)
    requires n <= |es|
  {
    k < n && forall m: nat | k < m < n :: es[m] != EndMatch
  }

  /** A room is LIVE exactly from a start while it was SCHEDULED until the next end. */
  lemma {:induction false} LiveIff(es: seq<Step>, n: nat)
    requires n <= |es|
    ensures StatusAt(es, n, LIVE) <==>
            exists k: nat | k < n :: es[k] == StartMatch && StatusAt(es, k, SCHEDULED) && NotEnded(es, k, n)
  {
    if n > 0 {
      LiveIff(es, n - 1);
      RunStepMovesStatus(es, n - 1);
      assert forall k: nat | k < n - 1 :: NotEnded(es, k, n) <==> NotEnded(es, k, n - 1) && es[n - 1] != EndMatch;
      assert NotEnded(es, n - 1, n);
    }
  }

  /** A room is COMPLETED exactly once it was ended while LIVE. */
  lemma CompletedIff(es: seq<Step>, n: nat)
    requires n <= |es|
    ensures StatusAt(es, n, COMPLETED) <==> exists k: nat | k < n :: es[k] == EndMatch && StatusAt(es, k, LIVE)
  {
    var done := (i: nat) => i <= n && StatusAt(es, i, COMPLETED);
    var ends := (i: nat) => i < n && es[i] == EndMatch && StatusAt(es, i, LIVE);
    forall i: nat | i < n ensures done(i + 1) <==> done(i) || ends(i) { RunStepMovesStatus(es, i); }
    EnteredIff(done, ends, n);
    assert forall k: nat | k < n :: ends(k) <==> es[k] == EndMatch && StatusAt(es, k, LIVE);
  }
}
