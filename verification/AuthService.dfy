/**
 The auth service over the session collection it updates in place. `Perform`
 is one atomic database operation; `Refresh` is the whole handler, with the
 operations of other requests (`env`) running in every gap between its own.
 */
module AuthService {
  import opened Runs
  import opened Sessions

  /** The call that a step belongs to, if it is a step of a refresh call. */
  predicate StepOf(e: Step, c: CallId)
  {
    match e
    case Begin(d, _, _, _) => d == c
    case Lookup(d) => d == c
    case CheckFamily(d) => d == c
    case CheckUser(d, _) => d == c
    case Rotate(d, _) => d == c
    case RevokeFamily(d) => d == c
    case _ => false
  }

  /** A step of somebody else: not of call `c`, and not minting the id `jti`. */
  predicate Foreign(e: Step, c: CallId, jti: Jti)
  {
    !StepOf(e, c) && !(e.Login? && e.jti == jti) && !(e.Rotate? && e.jti == jti)
  }

  lemma ForeignStepKeepsCall(s: State, e: Step, c: CallId, jti: Jti)
    requires Foreign(e, c, jti) && c in s.calls
    ensures c in Apply(s, e).calls && Apply(s, e).calls[c] == s.calls[c]
    ensures FreshJti(s, jti) ==> FreshJti(Apply(s, e), jti)
  {
  }

  /** The trace holds steps of call `c` and steps that others make in its gaps, and nothing else. */
  ghost predicate TraceOf(c: CallId, env: seq<seq<Step>>, trace: seq<Step>)
  {
    forall e <- trace :: StepOf(e, c) || InEnv(env, e)
  }

  lemma TraceGrows(c: CallId, env: seq<seq<Step>>, before: seq<Step>, e: Step, others: seq<Step>)
    requires TraceOf(c, env, before) && StepOf(e, c) && (others == [] || others in env)
    ensures TraceOf(c, env, before + [e] + others)
  {
    GapIsInEnv(env, others);
  }

  lemma ForeignRunKeepsCall(s: State, es: seq<Step>, c: CallId, call: Call, jti: Jti)
    requires c in s.calls && s.calls[c] == call && forall e <- es :: Foreign(e, c, jti)
    ensures c in Run(Apply, s, es).calls && Run(Apply, s, es).calls[c] == call
    ensures FreshJti(s, jti) ==> FreshJti(Run(Apply, s, es), jti)
  {
    var wasFresh := FreshJti(s, jti);
    var kept := (x: State) => c in x.calls && x.calls[c] == call && (wasFresh ==> FreshJti(x, jti));
    forall x: State, e: Step | kept(x) && e in es ensures kept(Apply(x, e)) { ForeignStepKeepsCall(x, e, c, jti); }
    KeptByRun(Apply, kept, s, es);
  }

  class AuthService {
    var sessions: map<Jti, Session>
    var issued: set<Token>
    var calls: map<CallId, Call>

    ghost function View(): State
      reads this
    {
      State(sessions, issued, calls)
    }

    constructor ()
      ensures View() == INIT
    {
      sessions, issued, calls := map[], {}, map[];
    }

    /** `findOne({refreshTokenHash, revokedAt: {$exists: false}})`. */
    method FindActiveByRefreshHash(t: Token) returns (found: bool, row: Session)
      requires Inv(View())
      ensures found <==> exists j :: Active(sessions, j) && sessions[j].token == t
      ensures found <==> ActiveFor(sessions, t)
      ensures found ==> row == sessions[t.jti]
    {
      found, row := false, Session(0, 0, t, 0, true);
      if j :| j in sessions && sessions[j].token == t && !sessions[j].revoked {
        found, row := true, sessions[j];
      }
    }

    method RevokeFamilyRows(f: Family)
      modifies this`sessions
      ensures sessions == RevokeWhere(old(sessions), (x: Session) => x.family == f)
      ensures Dead(sessions, f)
    {
      sessions := map j | j in sessions ::
          if sessions[j].family == f then sessions[j].(revoked := true) else sessions[j];
    }

    method IssueTokensAndSession(t: Token, device: Device)
      modifies this`sessions, this`issued
      ensures View() == Issue(old(View()), t, device)
    {
      sessions := sessions[t.jti := Session(t.sub, t.family, t, device, false)];
      issued := issued + {t};
    }

    method SetStage(c: CallId, stage: Stage)
      requires c in calls
      modifies this`calls
      ensures View() == Move(old(View()), c, stage)
    {
      calls := calls[c := calls[c].(stage := stage)];
    }

    /** The session of a verified login: a fresh family on the device that logged in. */
    method OpenSession(u: UserId, device: Device, jti: Jti, family: Family) returns (token: Token)
      requires FreshJti(View(), jti) && FreshFamily(View(), family)
      modifies this`sessions, this`issued
      ensures View() == Apply(old(View()), Login(u, device, jti, family))
      ensures token == Token(jti, family, u) && issued == old(issued) + {token}
      ensures sessions == old(sessions)[jti := Session(u, family, token, device, false)]
    {
      token := Token(jti, family, u);
      IssueTokensAndSession(token, device);
    }

    method Logout(t: Token, u: UserId)
      modifies this`sessions
      ensures View() == Apply(old(View()), Step.Logout(t, u))
      ensures sessions.Keys == old(sessions).Keys
      ensures forall j <- sessions ::
                if sessions[j].token == t && sessions[j].user == u
                    then sessions[j] == old(sessions)[j].(revoked := true)
                else sessions[j] == old(sessions)[j]
    {
      sessions := map j | j in sessions ::
        if sessions[j].token == t && sessions[j].user == u then sessions[j].(revoked := true) else sessions[j];
    }

    method LogoutAll(u: UserId) returns (revokedCount: nat)
      modifies this`sessions
      ensures View() == Apply(old(View()), Step.LogoutAll(u))
      ensures sessions.Keys == old(sessions).Keys
      ensures forall j <- sessions ::
                if sessions[j].user == u then sessions[j] == old(sessions)[j].(revoked := true)
                else sessions[j] == old(sessions)[j]
      ensures revokedCount == |set j | j in old(sessions) && Active(old(sessions), j) && old(sessions)[j].user == u|
    {
      var hit := set j | j in sessions && sessions[j].user == u && !sessions[j].revoked;
      revokedCount := |hit|;
      assert hit == set j | j in sessions && Active(sessions, j) && sessions[j].user == u;
      sessions := map j | j in sessions :: if sessions[j].user == u then sessions[j].(revoked := true) else sessions[j];
    }

    /** The rotate transaction of call `c`. */
    method RotateInTransaction(c: CallId, jti: Jti)
      requires c in calls && calls[c].stage.Rotating?
      modifies this
      ensures View() == RotateTransaction(old(View()), c, jti)
    {
      var Rotating(j, f, device) := calls[c].stage;
      var raceDetected := false;
      if j in sessions && !sessions[j].revoked {
        sessions := sessions[j := sessions[j].(revoked := true)];
      } else {
        raceDetected := true;
      }
      if raceDetected {
        SetStage(c, Revoking(f, RaceLost));
      } else {
        var successor := Token(jti, f, calls[c].token.sub);
        IssueTokensAndSession(successor, device);
        SetStage(c, Returned(Rotated(successor)));
      }
    }

    method Perform(e: Step)
      requires Inv(View())
      modifies this
      ensures View() == Apply(old(View()), e)
    {
      match e
      case Login(u, d, j, f) =>
        if FreshJti(State(sessions, issued, calls), j) && FreshFamily(State(sessions, issued, calls), f) {
          var _ := OpenSession(u, d, j, f);
        }
      case Logout(t, u) => Logout(t, u);
      case LogoutAll(u) => var _ := LogoutAll(u);
      case DeleteSessions(jtis) => sessions := sessions - jtis;
      case Begin(c, t, d, forced) =>
        if c !in calls && t in issued {
          calls := calls[c := Call(t, d, if forced then Revoking(t.family, ForceLogout) else Presented)];
        }
      case Lookup(c) =>
        if c in calls && calls[c].stage.Presented? {
          var found, row := FindActiveByRefreshHash(calls[c].token);
          if !found {
            SetStage(c, NoActiveSession);
          } else if row.device != calls[c].device {
            SetStage(c, Revoking(row.family, DeviceMismatch));
          } else {
            SetStage(c, Matched(row.token.jti, row.family, row.device));
          }
        }
      case CheckFamily(c) =>
        if c in calls && calls[c].stage.NoActiveSession? {
          var familyHasAny := exists j <- sessions :: sessions[j].family == calls[c].token.family;
          SetStage(c, if familyHasAny then Revoking(calls[c].token.family, ReuseDetected)
              else Returned(Refused(NoFamily)));
        }
      case CheckUser(c, row) =>
        if c in calls && calls[c].stage.Matched? {
          SetStage(c, CheckUserStage(calls[c], row));
        }
      case Rotate(c, jti) =>
        if c in calls && calls[c].stage.Rotating? && FreshJti(State(sessions, issued, calls), jti) {
          RotateInTransaction(c, jti);
        }
      case RevokeFamily(c) =>
        if c in calls && calls[c].stage.Revoking? {
          var Revoking(f, why) := calls[c].stage;
          RevokeFamilyRows(f);
          SetStage(c, Returned(Refused(why)));
        }
    }

    /** Lets the other requests run. */
    method LetOthersRun(others: seq<Step>)
      requires Inv(View())
      modifies this
      ensures Inv(View()) && View() == Run(Apply, old(View()), others)
    {
      for i := 0 to |others|
        invariant Inv(View()) && View() == Run(Apply, old(View()), others[..i])
      {
        StepKeepsInv(View(), others[i]);
        RunStep(Apply, old(View()), others[..i], others[i]);
        assert others[..i + 1] == others[..i] + [others[i]];
        Perform(others[i]);
      }
      assert others[..|others|] == others;
    }

    /** Performs step `e` of call `c`, then lets the other requests run `others`. */
    method Advance(c: CallId, jti: Jti, e: Step, others: seq<Step>, ghost s0: State, ghost before: seq<Step>)
      returns (ghost trace: seq<Step>)
      requires Inv(s0) && View() == Run(Apply, s0, before) && c in Apply(View(), e).calls
      requires forall o <- others :: Foreign(o, c, jti)
      modifies this
      ensures View() == Run(Apply, s0, trace) && trace == before + [e] + others
      ensures View() == Run(Apply, Apply(old(View()), e), others)
      ensures c in calls && calls[c] == Apply(old(View()), e).calls[c]
      ensures FreshJti(Apply(old(View()), e), jti) ==> FreshJti(View(), jti)
    {
      RunKeepsInv(s0, before);
      StepKeepsInv(View(), e);
      Perform(e);
      RunStep(Apply, s0, before, e);
      ghost var mid := View();
      LetOthersRun(others);
      trace := before + [e] + others;
      RunConcat(Apply, s0, before + [e], others);
      ForeignRunKeepsCall(mid, others, c, mid.calls[c], jti);
    }

    /** From the verified token to the outcome of the session lookup; `met` is the database that the lookup found. */
    method PresentToken(c: CallId, token: Token, device: Device, forced: bool, jti: Jti, env: seq<seq<Step>>,
        ghost s0: State)
      returns (ghost trace: seq<Step>, ghost met: State)
      requires Inv(s0) && View() == s0 && c !in calls && token in issued && FreshJti(View(), jti)
      requires |env| == 4 && forall k | 0 <= k < 4 :: forall o <- env[k] :: Foreign(o, c, jti)
      modifies this
      ensures View() == Run(Apply, s0, trace) && FreshJti(View(), jti)
      ensures met == Run(Apply, Apply(s0, Begin(c, token, device, forced)), env[0])
      ensures env[0] == [] ==> met.sessions == s0.sessions
      ensures c in calls && calls[c] == Call(token, device, calls[c].stage)
      ensures calls[c].stage ==
              if forced then Revoking(token.family, ForceLogout) else LookupStage(met.sessions, token, device)
      ensures (forced || env[1] == []) ==> sessions == met.sessions
      ensures TraceOf(c, env, trace)
    {
      TraceGrows(c, env, [], Begin(c, token, device, forced), env[0]);
      BeginMoves(s0, c, token, device, forced);
      trace := Advance(c, jti, Begin(c, token, device, forced), env[0], s0, []);
      met := View();
      if !forced {
        LookupMoves(met, c);
        TraceGrows(c, env, trace, Lookup(c), env[1]);
        trace := Advance(c, jti, Lookup(c), env[1], s0, trace);
      }
    }

    /** From a matched session to the rotate transaction; `met` is the database that the transaction found. */
    method CheckAndRotate(c: CallId, row: UserRow, jti: Jti, env: seq<seq<Step>>, ghost s0: State,
        ghost before: seq<Step>)
      returns (ghost trace: seq<Step>, ghost met: State)
      requires Inv(s0) && View() == Run(Apply, s0, before) && c in calls && calls[c].stage.Matched?
      requires FreshJti(View(), jti) && TraceOf(c, env, before)
      requires |env| == 4 && forall k | 0 <= k < 4 :: forall o <- env[k] :: Foreign(o, c, jti)
      modifies this
      ensures View() == Run(Apply, s0, trace) && TraceOf(c, env, trace)
      ensures met == Run(Apply, Apply(old(View()), CheckUser(c, row)), env[2])
      ensures env[2] == [] ==> met.sessions == old(sessions)
      ensures c in calls && calls[c] == old(calls[c]).(stage := calls[c].stage)
      ensures calls[c].stage ==
              if row != Current then CheckUserStage(old(calls[c]), row)
              else RotateStage(met.sessions, calls[c].token, jti)
      ensures env[2] == env[3] == [] ==>
                sessions == if calls[c].stage.Returned? && calls[c].stage.outcome.Rotated?
                            then Exchanged(old(sessions), calls[c].token, jti, calls[c].device) else old(sessions)
    {
      ghost var was := View();
      MatchedNamesToken(s0, before, c);
      CheckUserMoves(was, c, row);
      TraceGrows(c, env, before, CheckUser(c, row), env[2]);
      trace := Advance(c, jti, CheckUser(c, row), env[2], s0, before);
      met := View();
      if calls[c].stage.Rotating? {
        RotateMoves(met, c, jti);
        TraceGrows(c, env, trace, Rotate(c, jti), env[3]);
        trace := Advance(c, jti, Rotate(c, jti), env[3], s0, trace);
      }
    }

    /** The family revoke that ends a failed refresh. */
    method RevokeAndRefuse(c: CallId, jti: Jti, ghost env: seq<seq<Step>>, ghost s0: State, ghost before: seq<Step>)
      returns (ghost trace: seq<Step>)
      requires Inv(s0) && View() == Run(Apply, s0, before) && c in calls && calls[c].stage.Revoking?
      requires TraceOf(c, env, before)
      modifies this
      ensures View() == Run(Apply, s0, trace) && TraceOf(c, env, trace)
      ensures c in calls && calls[c] == old(calls[c]).(stage := Returned(Refused(old(calls[c]).stage.why)))
      ensures sessions == FamilyRevoked(old(sessions), calls[c].token.family)
    {
      RevokingNamesFamily(s0, before, c);
      RevokeMoves(View(), c);
      TraceGrows(c, env, before, RevokeFamily(c), []);
      trace := Advance(c, jti, RevokeFamily(c), [], s0, before);
    }

    /** Reuse check on a token without an active session. */
    method CheckReuse(c: CallId, jti: Jti, others: seq<Step>, ghost env: seq<seq<Step>>, ghost s0: State,
        ghost before: seq<Step>)
      returns (ghost trace: seq<Step>)
      requires Inv(s0) && View() == Run(Apply, s0, before) && c in calls && calls[c].stage.NoActiveSession?
      requires others in env && (forall o <- others :: Foreign(o, c, jti)) && TraceOf(c, env, before)
      modifies this
      ensures View() == Run(Apply, s0, trace) && TraceOf(c, env, trace)
      ensures c in calls && calls[c] == old(calls[c]).(stage := calls[c].stage)
      ensures calls[c].stage == if FamilyExists(old(sessions), calls[c].token.family)
                                then Revoking(calls[c].token.family, ReuseDetected) else Returned(Refused(NoFamily))
      ensures others == [] ==> sessions == old(sessions)
    {
      CheckFamilyMoves(View(), c);
      TraceGrows(c, env, before, CheckFamily(c), others);
      trace := Advance(c, jti, CheckFamily(c), others, s0, before);
    }

    /** From a matched session to the answer. */
    method FinishMatched(c: CallId, row: UserRow, jti: Jti, env: seq<seq<Step>>, ghost s0: State,
        ghost before: seq<Step>)
      returns (r: Outcome, ghost trace: seq<Step>)
      requires Inv(s0) && View() == Run(Apply, s0, before) && c in calls && calls[c].stage.Matched?
      requires FreshJti(View(), jti) && TraceOf(c, env, before)
      requires |env| == 4 && forall k | 0 <= k < 4 :: forall o <- env[k] :: Foreign(o, c, jti)
      modifies this
      ensures View() == Run(Apply, s0, trace) && TraceOf(c, env, trace)
      ensures c in calls && calls[c] == old(calls[c]).(stage := Returned(r))
      ensures DueTo(r, row) && (r.Rotated? ==> r.token == Token(jti, calls[c].token.family, calls[c].token.sub))
      ensures env[2] == [] && row == Current ==> (r.Rotated? <==> Active(old(sessions), calls[c].token.jti))
      ensures env[2] == env[3] == [] ==> sessions == Outcomes(old(sessions), calls[c].token, calls[c].device, r, jti)
    {
      ghost var met;
      trace, met := CheckAndRotate(c, row, jti, env, s0, before);
      if calls[c].stage.Revoking? {
        trace := RevokeAndRefuse(c, jti, env, s0, trace);
      }
      r := calls[c].stage.outcome;
    }

    /** From a token without an active session to the answer. */
    method FinishUnmatched(c: CallId, jti: Jti, env: seq<seq<Step>>, ghost s0: State, ghost before: seq<Step>)
      returns (r: Outcome, ghost trace: seq<Step>)
      requires Inv(s0) && View() == Run(Apply, s0, before) && c in calls && calls[c].stage.NoActiveSession?
      requires TraceOf(c, env, before)
      requires |env| == 4 && forall k | 0 <= k < 4 :: forall o <- env[k] :: Foreign(o, c, jti)
      modifies this
      ensures View() == Run(Apply, s0, trace) && TraceOf(c, env, trace)
      ensures c in calls && calls[c] == old(calls[c]).(stage := Returned(r))
      ensures r == Refused(if FamilyExists(old(sessions), calls[c].token.family) then ReuseDetected else NoFamily)
      ensures env[2] == [] ==> sessions == Outcomes(old(sessions), calls[c].token, calls[c].device, r, jti)
    {
      trace := CheckReuse(c, jti, env[2], env, s0, before);
      if calls[c].stage.Revoking? {
        trace := RevokeAndRefuse(c, jti, env, s0, trace);
      }
      r := calls[c].stage.outcome;
    }

    /** The refresh of a verified token, up to its answer. */
    method RefreshVerified(c: CallId, token: Token, device: Device, forced: bool, row: UserRow, jti: Jti,
        env: seq<seq<Step>>)
      returns (r: Outcome, ghost trace: seq<Step>)
      requires Inv(View()) && c !in calls && FreshJti(View(), jti) && token in issued
      requires |env| == 4 && forall k | 0 <= k < 4 :: forall o <- env[k] :: Foreign(o, c, jti)
      modifies this
      ensures View() == Run(Apply, old(View()), trace) && TraceOf(c, env, trace)
      ensures c in calls && calls[c] == Call(token, device, Returned(r)) && r != Refused(Unverified)
      ensures r.Rotated? ==> r.token == Token(jti, token.family, token.sub)
      ensures r == Refused(ForceLogout) <==> forced
      ensures r.Rotated? || r.why in {UserMissing, Anonymized, Blocked, VersionMismatch, RaceLost} ==> DueTo(r, row)
      ensures !forced && env[0] == env[1] == env[2] == [] ==> r == Undisturbed(old(sessions), token, device, row, jti)
      ensures AllQuiet(env) ==> sessions == Outcomes(old(sessions), token, device, r, jti)
    {
      ghost var s0 := View();
      ghost var met;
      trace, met := PresentToken(c, token, device, forced, jti, env, s0);
      if calls[c].stage.Matched? {
        r, trace := FinishMatched(c, row, jti, env, s0, trace);
      } else if calls[c].stage.NoActiveSession? {
        r, trace := FinishUnmatched(c, jti, env, s0, trace);
      } else {
        r := Refused(calls[c].stage.why);
        trace := RevokeAndRefuse(c, jti, env, s0, trace);
      }
    }

    /**
     The refresh handler. `valid` is the verdict on the token's signature and expiry, `forced` the
     denylist verdict, `row` what the user row says when it is read, `jti` the random id of a successor.
     The run it takes part in is a run of the protocol, so every theorem about runs applies; on its own
     the contract says what each answer guarantees, what each refusal is due to, and which answer an
     undisturbed call gets.
     */
    method Refresh(c: CallId, token: Token, valid: bool, device: Device, forced: bool, row: UserRow, jti: Jti,
        env: seq<seq<Step>>)
      returns (r: Outcome, ghost trace: seq<Step>)
      requires Inv(View()) && c !in calls && FreshJti(View(), jti) && (valid ==> token in issued)
      requires |env| == 4 && forall k | 0 <= k < 4 :: forall o <- env[k] :: Foreign(o, c, jti)
      modifies this
      ensures Inv(View()) && View() == Run(Apply, old(View()), trace) && TraceOf(c, env, trace)
      ensures AllQuiet(env) ==> sessions == Outcomes(old(sessions), token, device, r, jti)
      ensures !valid <==> r == Refused(Unverified)
      ensures r == Refused(Unverified) ==> unchanged(this)
      ensures r != Refused(Unverified) ==> c in calls && calls[c] == Call(token, device, Returned(r))
      ensures valid ==> (r == Refused(ForceLogout) <==> forced)
      ensures r.Rotated? || r.why in {UserMissing, Anonymized, Blocked, VersionMismatch, RaceLost} ==> DueTo(r, row)
      ensures valid && !forced && env[0] == env[1] == env[2] == [] ==>
                r == Undisturbed(old(sessions), token, device, row, jti)
      ensures r.Refused? && Kills(r.why) ==> Dead(sessions, token.family)
      ensures r.Rotated? ==> r.token == Token(jti, token.family, token.sub) && r.token in issued
      ensures r.Rotated? ==> Spent(sessions, token)
    {
      trace := [];
      if !valid {
        return Refused(Unverified), [];
      }
      ghost var s0 := View();
      r, trace := RefreshVerified(c, token, device, forced, row, jti, env);
      RunKeepsInv(s0, trace);
      AnswerHolds(View(), c);
    }
  }

  ghost predicate AllQuiet(env: seq<seq<Step>>) { forall k | 0 <= k < |env| :: env[k] == [] }

  /** What an answer guarantees of the rows. */
  lemma AnswerHolds(s: State, c: CallId)
    requires Inv(s) && c in s.calls && s.calls[c].stage.Returned?
    ensures var r, t := s.calls[c].stage.outcome, s.calls[c].token;
            && (r.Refused? && Kills(r.why) ==> Dead(s.sessions, t.family))
            && (r.Rotated? ==> r.token in s.issued && Spent(s.sessions, t))
  {
    assert CallOk(s, s.calls[c]);
  }

  /** The rows after an answer that nothing disturbed. */
  function Outcomes(sessions: map<Jti, Session>, t: Token, device: Device, r: Outcome, jti: Jti): map<Jti, Session>
  {
    if r.Rotated? then Exchanged(sessions, t, jti, device)
    else if r.why in {UserMissing, Blocked, NoFamily, Unverified} then sessions
    else FamilyRevoked(sessions, t.family)
  }

  /** The rows after an exchange: the presented one revoked, the successor's added, and no other touched. */
  function Exchanged(sessions: map<Jti, Session>, t: Token, jti: Jti, device: Device): map<Jti, Session>
  {
    (if t.jti in sessions then sessions[t.jti := sessions[t.jti].(revoked := true)] else sessions)
    [jti := Session(t.sub, t.family, Token(jti, t.family, t.sub), device, false)]
  }

  /** The rows after a family revoke: those of the family revoked, and no other touched. */
  function FamilyRevoked(sessions: map<Jti, Session>, f: Family): map<Jti, Session>
  {
    map j | j in sessions :: if sessions[j].family == f then sessions[j].(revoked := true) else sessions[j]
  }

  /** The user row that a rotation, or a refusal that comes after the lookup, is due to. */
  predicate DueTo(r: Outcome, row: UserRow)
  {
    match row
    case Missing => r == Refused(UserMissing)
    case Tombstoned => r == Refused(Anonymized)
    case Suspended => r == Refused(Blocked)
    case StaleVersion => r == Refused(VersionMismatch)
    case Current => r.Rotated? || r == Refused(RaceLost)
  }

  /** What a refresh that nothing disturbs answers. */
  function Undisturbed(sessions: map<Jti, Session>, t: Token, device: Device, row: UserRow, jti: Jti): Outcome
  {
    if !ActiveFor(sessions, t) then Refused(if FamilyExists(sessions, t.family) then ReuseDetected else NoFamily)
    else if sessions[t.jti].device != device then Refused(DeviceMismatch)
    else match row
      case Missing => Refused(UserMissing)
      case Tombstoned => Refused(Anonymized)
      case Suspended => Refused(Blocked)
      case StaleVersion => Refused(VersionMismatch)
      case Current => Rotated(Token(jti, t.family, t.sub))
  }

  lemma RunKeepsInv(s: State, es: seq<Step>)
    requires Inv(s)
    ensures Inv(Run(Apply, s, es))
  {
    ApplyPreservesInv();
    InvariantHolds(Apply, Inv, s, es);
  }

  lemma RunKeepsCallOk(s: State, es: seq<Step>, c: CallId)
    requires Inv(s) && c in Run(Apply, s, es).calls
    ensures CallOk(Run(Apply, s, es), Run(Apply, s, es).calls[c])
  {
    RunKeepsInv(s, es);
  }

  // ----- what each step of a refresh does to its call -----

  /** The step only moves call `c` on, to this stage. */
  predicate MovesOn(s: State, s': State, c: CallId, stage: Stage)
  {
    c in s.calls && s'.sessions == s.sessions && s'.issued == s.issued && c in s'.calls
    && s'.calls[c] == s.calls[c].(stage := stage)
  }

  lemma BeginMoves(s: State, c: CallId, t: Token, device: Device, forced: bool)
    requires c !in s.calls && t in s.issued
    ensures var s' := Apply(s, Begin(c, t, device, forced));
            && s'.sessions == s.sessions && s'.issued == s.issued && c in s'.calls
            && s'.calls[c] == Call(t, device, if forced then Revoking(t.family, ForceLogout) else Presented)
  {
  }

  lemma LookupMoves(s: State, c: CallId)
    requires c in s.calls && s.calls[c].stage.Presented?
    ensures MovesOn(s, Apply(s, Lookup(c)), c, LookupStage(s.sessions, s.calls[c].token, s.calls[c].device))
  {
  }

  lemma CheckUserMoves(s: State, c: CallId, row: UserRow)
    requires c in s.calls && s.calls[c].stage.Matched?
    ensures MovesOn(s, Apply(s, CheckUser(c, row)), c, CheckUserStage(s.calls[c], row))
  {
  }

  /** A matched session is the one that the token names. */
  lemma MatchedNamesToken(s0: State, es: seq<Step>, c: CallId)
    requires Inv(s0) && c in Run(Apply, s0, es).calls && Run(Apply, s0, es).calls[c].stage.Matched?
    ensures var call := Run(Apply, s0, es).calls[c];
            && call.stage.jti == call.token.jti && call.stage.family == call.token.family
            && call.stage.device == call.device
  {
    RunKeepsCallOk(s0, es, c);
  }

  lemma RevokingNamesFamily(s0: State, es: seq<Step>, c: CallId)
    requires Inv(s0) && c in Run(Apply, s0, es).calls && Run(Apply, s0, es).calls[c].stage.Revoking?
    ensures Run(Apply, s0, es).calls[c].stage.family == Run(Apply, s0, es).calls[c].token.family
  {
    RunKeepsCallOk(s0, es, c);
  }

  /** The stage that the rotate transaction leads to. */
  function RotateStage(sessions: map<Jti, Session>, t: Token, jti: Jti): Stage
  {
    if Active(sessions, t.jti) then Returned(Rotated(Token(jti, t.family, t.sub))) else Revoking(t.family, RaceLost)
  }

  lemma RotateMoves(s: State, c: CallId, jti: Jti)
    requires c in s.calls && s.calls[c].stage.Rotating? && FreshJti(s, jti)
    requires s.calls[c].stage.jti == s.calls[c].token.jti && s.calls[c].stage.family == s.calls[c].token.family
    requires s.calls[c].stage.device == s.calls[c].device
    ensures var s', t := Apply(s, Rotate(c, jti)), s.calls[c].token;
            && c in s'.calls && s'.calls[c] == s.calls[c].(stage := RotateStage(s.sessions, t, jti))
            && s'.sessions == if Active(s.sessions, t.jti) then Exchanged(s.sessions, t, jti, s.calls[c].device)
               else s.sessions
  {
  }

  lemma CheckFamilyMoves(s: State, c: CallId)
    requires c in s.calls && s.calls[c].stage.NoActiveSession?
    ensures var f := s.calls[c].token.family;
            MovesOn(s, Apply(s, CheckFamily(c)), c,
                    if FamilyExists(s.sessions, f) then Revoking(f, ReuseDetected) else Returned(Refused(NoFamily)))
  {
  }

  lemma RevokeMoves(s: State, c: CallId)
    requires c in s.calls && s.calls[c].stage.Revoking?
    ensures var s' := Apply(s, RevokeFamily(c));
            && c in s'.calls && s'.calls[c] == s.calls[c].(stage := Returned(Refused(s.calls[c].stage.why)))
            && s'.sessions == FamilyRevoked(s.sessions, s.calls[c].stage.family)
  {
  }
}
