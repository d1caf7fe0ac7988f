/**
 Login sessions and refresh-token rotation. A refresh call is split at every
 point where another request can run: lookup, family check, user read, the
 rotate transaction, and the family revoke that a race loser runs after its
 transaction.

 Hashes are injective, so a session row stores the token itself. A signature
 check accepts exactly the issued tokens. Random ids are fresh.
 */
module Sessions {
  import opened Runs

  type UserId = nat
  type Jti = nat
  type Family = nat
  type Device = nat
  type CallId = nat

  datatype Token = Token(jti: Jti, family: Family, sub: UserId)

  datatype Session = Session(user: UserId, family: Family, token: Token, device: Device, revoked: bool)

  datatype Refusal =
    | ForceLogout | ReuseDetected | NoFamily | DeviceMismatch
    | UserMissing | Anonymized | Blocked | VersionMismatch | RaceLost | Unverified

  datatype Outcome = Rotated(token: Token) | Refused(why: Refusal)

  /** Where a refresh call stands between two of its database operations. */
  datatype Stage =
    | Presented
    | NoActiveSession
    | Matched(jti: Jti, family: Family, device: Device)
    | Rotating(jti: Jti, family: Family, device: Device)
    | Revoking(family: Family, why: Refusal)
    | Returned(outcome: Outcome)

  datatype Call = Call(token: Token, device: Device, stage: Stage)

  datatype State = State(sessions: map<Jti, Session>, issued: set<Token>, calls: map<CallId, Call>)

  /** What the user row says when a refresh reads it. */
  datatype UserRow = Missing | Tombstoned | Suspended | StaleVersion | Current

  datatype Step =
    | Login(user: UserId, device: Device, jti: Jti, family: Family)
    | Logout(token: Token, user: UserId)
    | LogoutAll(user: UserId)
    | DeleteSessions(jtis: set<Jti>)
    | Begin(call: CallId, token: Token, device: Device, forced: bool)
    | Lookup(call: CallId)
    | CheckFamily(call: CallId)
    | CheckUser(call: CallId, row: UserRow)
    | Rotate(call: CallId, jti: Jti)
    | RevokeFamily(call: CallId)

  const INIT := State(map[], {}, map[])

  predicate FreshJti(s: State, j: Jti) { forall t <- s.issued :: t.jti != j }
  predicate FreshFamily(s: State, f: Family) { forall t <- s.issued :: t.family != f }

  predicate Active(sessions: map<Jti, Session>, j: Jti) { j in sessions && !sessions[j].revoked }

  function RevokeWhere(sessions: map<Jti, Session>, p: Session -> bool): map<Jti, Session>
  {
    map j | j in sessions :: if p(sessions[j]) then sessions[j].(revoked := true) else sessions[j]
  }

  /** `issueTokensAndSession`: a session row and the token that names it. */
  function Issue(s: State, t: Token, device: Device): State
  {
    s.(sessions := s.sessions[t.jti := Session(t.sub, t.family, t, device, false)], issued := s.issued + {t})
  }

  function Move(s: State, c: CallId, stage: Stage): State
    requires c in s.calls
  {
    s.(calls := s.calls[c := s.calls[c].(stage := stage)])
  }

  /** The active row whose stored hash is that of `t`; rows are keyed by the token's own jti. */
  predicate ActiveFor(sessions: map<Jti, Session>, t: Token)
  {
    Active(sessions, t.jti) && sessions[t.jti].token == t
  }

  function LookupStage(sessions: map<Jti, Session>, t: Token, device: Device): Stage
  {
    if !ActiveFor(sessions, t) then NoActiveSession
    else
      var x := sessions[t.jti];
      if x.device != device then Revoking(x.family, DeviceMismatch) else Matched(t.jti, x.family, x.device)
  }

  predicate FamilyExists(sessions: map<Jti, Session>, f: Family)
  {
    exists j <- sessions :: sessions[j].family == f
  }

  function CheckUserStage(call: Call, row: UserRow): Stage
    requires call.stage.Matched?
  {
    match row
    case Missing => Returned(Refused(UserMissing))
    case Tombstoned => Revoking(call.token.family, Anonymized)
    case Suspended => Returned(Refused(Blocked))
    case StaleVersion => Revoking(call.token.family, VersionMismatch)
    case Current => Rotating(call.stage.jti, call.stage.family, call.stage.device)
  }

  /** The rotate transaction: revoke the presented session if it is still active and issue its successor. */
  function RotateTransaction(s: State, c: CallId, jti: Jti): State
    requires c in s.calls && s.calls[c].stage.Rotating?
  {
    var Call(t, _, Rotating(j, f, device)) := s.calls[c];
    if Active(s.sessions, j) then
      var successor := Token(jti, f, t.sub);
      var revoked := s.(sessions := s.sessions[j := s.sessions[j].(revoked := true)]);
      Move(Issue(revoked, successor, device), c, Returned(Rotated(successor)))
    else
      Move(s, c, Revoking(f, RaceLost))
  }

  /** One atomic database operation, together with the local code up to the next one. */
  function Apply(s: State, e: Step): State
  {
    match e
    case Login(u, d, j, f) =>
      if FreshJti(s, j) && FreshFamily(s, f) then Issue(s, Token(j, f, u), d) else s
    case Logout(t, u) =>
      s.(sessions := RevokeWhere(s.sessions, (x: Session) => x.token == t && x.user == u))
    case LogoutAll(u) =>
      s.(sessions := RevokeWhere(s.sessions, (x: Session) => x.user == u))
    case DeleteSessions(jtis) =>
      s.(sessions := s.sessions - jtis)
    case Begin(c, t, d, forced) =>
      if c in s.calls || t !in s.issued then s
      else s.(calls := s.calls[c := Call(t, d, if forced then Revoking(t.family, ForceLogout) else Presented)])
    case Lookup(c) =>
      if c in s.calls && s.calls[c].stage.Presented?
      then Move(s, c, LookupStage(s.sessions, s.calls[c].token, s.calls[c].device)) else s
    case CheckFamily(c) =>
      if !(c in s.calls && s.calls[c].stage.NoActiveSession?) then s
      else if FamilyExists(s.sessions, s.calls[c].token.family)
      then Move(s, c, Revoking(s.calls[c].token.family, ReuseDetected))
      else Move(s, c, Returned(Refused(NoFamily)))
    case CheckUser(c, row) =>
      if c in s.calls && s.calls[c].stage.Matched? then Move(s, c, CheckUserStage(s.calls[c], row)) else s
    case Rotate(c, jti) =>
      if c in s.calls && s.calls[c].stage.Rotating? && FreshJti(s, jti) then RotateTransaction(s, c, jti) else s
    case RevokeFamily(c) =>
      if !(c in s.calls && s.calls[c].stage.Revoking?) then s
      else
        var Revoking(f, why) := s.calls[c].stage;
        Move(s.(sessions := RevokeWhere(s.sessions, (x: Session) => x.family == f)), c, Returned(Refused(why)))
  }

  // ----- what every reachable state satisfies -----

  /** No session of the family is active. */
  ghost predicate Dead(sessions: map<Jti, Session>, f: Family)
  {
    forall j <- sessions :: sessions[j].family == f ==> sessions[j].revoked
  }

  /** The token names no active session. */
  ghost predicate Spent(sessions: map<Jti, Session>, t: Token) { !Active(sessions, t.jti) }

  ghost predicate AtMostOneActive(sessions: map<Jti, Session>)
  {
    forall i, j :: Active(sessions, i) && Active(sessions, j) && sessions[i].family == sessions[j].family ==> i == j
  }

  ghost predicate RowsNameTheirTokens(s: State)
  {
    && (forall j <- s.sessions :: var x := s.sessions[j];
        x.token in s.issued && x.token == Token(j, x.family, x.user))
    && (forall t <- s.issued, u <- s.issued :: t.jti == u.jti ==> t == u)
  }

  /** The refusals that are answered only after the whole family was revoked (or found gone). */
  ghost predicate Kills(why: Refusal) { why !in {UserMissing, Blocked, Unverified} }

  ghost predicate OnDevice(sessions: map<Jti, Session>, j: Jti, d: Device)
  {
    j in sessions ==> sessions[j].device == d
  }

  /** A family belongs to one user and one device. */
  ghost predicate FamiliesAreBound(s: State)
  {
    && (forall t <- s.issued, u <- s.issued :: t.family == u.family ==> t.sub == u.sub)
    && (forall i <- s.sessions, j <- s.sessions ::
          s.sessions[i].family == s.sessions[j].family ==> s.sessions[i].device == s.sessions[j].device)
  }

  ghost predicate CallOk(s: State, call: Call)
  {
    var t := call.token;
    && t in s.issued
    && match call.stage
       case Presented => true
       case NoActiveSession => Spent(s.sessions, t)
       case Matched(j, f, d) => j == t.jti && f == t.family && d == call.device && OnDevice(s.sessions, j, d)
       case Rotating(j, f, d) => j == t.jti && f == t.family && d == call.device && OnDevice(s.sessions, j, d)
       case Revoking(f, why) =>
         f == t.family && Kills(why) && (why in {ReuseDetected, RaceLost} ==> Spent(s.sessions, t))
       case Returned(Refused(why)) => Kills(why) ==> Dead(s.sessions, t.family)
       case Returned(Rotated(u)) =>
         && u in s.issued && u.family == t.family && Spent(s.sessions, t)
         && OnDevice(s.sessions, u.jti, call.device)
  }

  ghost predicate Inv(s: State)
  {
    && RowsNameTheirTokens(s)
    && AtMostOneActive(s.sessions)
    && FamiliesAreBound(s)
    && forall c <- s.calls :: CallOk(s, s.calls[c])
  }

  // ----- every step keeps it -----

  /** Outside `added`, rows are only revoked or deleted. */
  ghost predicate Shrinks(sessions: map<Jti, Session>, sessions': map<Jti, Session>, added: set<Jti>)
  {
    forall j <- sessions' | j !in added :: && j in sessions
                                           && sessions'[j] == sessions[j].(revoked := sessions'[j].revoked)
                                           && (sessions[j].revoked ==> sessions'[j].revoked)
  }

  /** One row is added: a login opens a fresh family, a rotation replaces the family's active row. */
  ghost predicate Adds(s: State, s': State, t: Token)
  {
    && t.jti in s'.sessions && FreshJti(s, t.jti) && s'.issued == s.issued + {t}
    && s'.sessions[t.jti] == Session(t.sub, t.family, t, s'.sessions[t.jti].device, false)
    && Shrinks(s.sessions, s'.sessions, {t.jti})
    && (FreshFamily(s, t.family) || Replaces(s, s', t))
  }

  ghost predicate Replaces(s: State, s': State, t: Token)
    requires t.jti in s'.sessions
  {
    exists j :: && Active(s.sessions, j) && !Active(s'.sessions, j)
                && s.sessions[j].family == t.family && s.sessions[j].user == t.sub
                && s.sessions[j].device == s'.sessions[t.jti].device
  }

  ghost predicate Evolves(s: State, s': State)
  {
    (s'.issued == s.issued && Shrinks(s.sessions, s'.sessions, {})) || (exists t :: Adds(s, s', t))
  }

  lemma RotationReplaces(s: State, c: CallId, jti: Jti)
    requires Inv(s) && c in s.calls && s.calls[c].stage.Rotating? && FreshJti(s, jti)
    ensures Evolves(s, RotateTransaction(s, c, jti))
  {
    assert CallOk(s, s.calls[c]);
    var Call(t, _, Rotating(j, f, device)) := s.calls[c];
    if Active(s.sessions, j) {
      assert Replaces(s, RotateTransaction(s, c, jti), Token(jti, f, t.sub));
      assert Adds(s, RotateTransaction(s, c, jti), Token(jti, f, t.sub));
    }
  }

  lemma StepEvolves(s: State, e: Step)
    requires Inv(s)
    ensures Evolves(s, Apply(s, e))
  {
    match e
    case Login(u, d, j, f) =>
      if FreshJti(s, j) && FreshFamily(s, f) {
        assert Adds(s, Apply(s, e), Token(j, f, u));
      }
    case Rotate(c, jti) =>
      if c in s.calls && s.calls[c].stage.Rotating? && FreshJti(s, jti) {
        RotationReplaces(s, c, jti);
      }
    case _ =>
  }

  /** A spent token stays spent and a dead family stays dead. */
  lemma EndsAreFinal(s: State, s': State, t: Token)
    requires Evolves(s, s') && t in s.issued
    ensures Spent(s.sessions, t) ==> Spent(s'.sessions, t)
    ensures Dead(s.sessions, t.family) ==> Dead(s'.sessions, t.family)
  {
  }

  lemma EvolutionKeepsRows(s: State, s': State)
    requires RowsNameTheirTokens(s) && Evolves(s, s')
    ensures RowsNameTheirTokens(s')
  {
  }

  lemma EvolutionKeepsOneActive(s: State, s': State)
    requires RowsNameTheirTokens(s) && AtMostOneActive(s.sessions) && Evolves(s, s')
    ensures AtMostOneActive(s'.sessions)
  {
  }

  lemma EvolutionKeepsBinding(s: State, s': State)
    requires RowsNameTheirTokens(s) && FamiliesAreBound(s) && Evolves(s, s')
    ensures FamiliesAreBound(s')
  {
  }

  lemma CallOkIsStable(s: State, s': State, call: Call)
    requires Evolves(s, s') && CallOk(s, call)
    ensures CallOk(s', call)
  {
    EndsAreFinal(s, s', call.token);
  }

  lemma RotatedCallOk(s: State, c: CallId, jti: Jti)
    requires Inv(s) && c in s.calls && s.calls[c].stage.Rotating? && FreshJti(s, jti)
    ensures c in RotateTransaction(s, c, jti).calls
    ensures CallOk(RotateTransaction(s, c, jti), RotateTransaction(s, c, jti).calls[c])
  {
    assert CallOk(s, s.calls[c]);
  }

  lemma LookedUpCallOk(s: State, c: CallId)
    requires Inv(s) && c in s.calls && s.calls[c].stage.Presented?
    ensures var s' := Apply(s, Lookup(c)); c in s'.calls && CallOk(s', s'.calls[c])
  {
    assert CallOk(s, s.calls[c]);
  }

  lemma CheckedCallOk(s: State, e: Step, c: CallId)
    requires c in s.calls && CallOk(s, s.calls[c])
    requires (e == CheckFamily(c) && s.calls[c].stage.NoActiveSession?)
             || (e.CheckUser? && e.call == c && s.calls[c].stage.Matched?)
    ensures c in Apply(s, e).calls && CallOk(Apply(s, e), Apply(s, e).calls[c])
  {
  }

  lemma RevokedCallOk(s: State, c: CallId)
    requires c in s.calls && s.calls[c].stage.Revoking? && CallOk(s, s.calls[c])
    ensures var s' := Apply(s, RevokeFamily(c)); c in s'.calls && CallOk(s', s'.calls[c])
  {
  }

  /** The call that takes the step reaches a stage that satisfies its condition. */
  lemma MovedCallOk(s: State, e: Step, c: CallId)
    requires Inv(s) && c in Apply(s, e).calls
    requires c in s.calls ==> Apply(s, e).calls[c] != s.calls[c]
    ensures CallOk(Apply(s, e), Apply(s, e).calls[c])
  {
    if c in s.calls {
      assert CallOk(s, s.calls[c]);
    }
    match e
    case Begin(_, _, _, _) =>
    case Lookup(_) => LookedUpCallOk(s, c);
    case Rotate(_, jti) => RotatedCallOk(s, c, jti);
    case RevokeFamily(_) => RevokedCallOk(s, c);
    case _ => CheckedCallOk(s, e, c);
  }

  lemma StepKeepsCalls(s: State, e: Step, c: CallId)
    requires Inv(s) && c in Apply(s, e).calls
    ensures CallOk(Apply(s, e), Apply(s, e).calls[c])
  {
    if c in s.calls && Apply(s, e).calls[c] == s.calls[c] {
      StepEvolves(s, e);
      CallOkIsStable(s, Apply(s, e), s.calls[c]);
    } else {
      MovedCallOk(s, e, c);
    }
  }

  lemma StepKeepsInv(s: State, e: Step)
    requires Inv(s)
    ensures Inv(Apply(s, e))
  {
    StepEvolves(s, e);
    EvolutionKeepsRows(s, Apply(s, e));
    EvolutionKeepsOneActive(s, Apply(s, e));
    EvolutionKeepsBinding(s, Apply(s, e));
    forall c <- Apply(s, e).calls ensures CallOk(Apply(s, e), Apply(s, e).calls[c]) {
      StepKeepsCalls(s, e, c);
    }
  }

  // ----- theorems about every run -----

  ghost function StateAt(es: seq<Step>, i: nat): State
    requires i <= |es|
  {
    At(Apply, INIT, es, i)
  }

  lemma ApplyPreservesInv()
    ensures Preserves(Apply, Inv)
  {
    forall s, e | Inv(s) ensures Inv(Apply(s, e)) { StepKeepsInv(s, e); }
  }

  lemma ReachableInv(es: seq<Step>, i: nat)
    requires i <= |es|
    ensures Inv(StateAt(es, i))
  {
    ApplyPreservesInv();
    InvariantHolds(Apply, Inv, INIT, es[..i]);
  }

  /** In every reachable state a family has at most one unrevoked session. */
  lemma OneActiveSessionPerFamily(es: seq<Step>)
    ensures AtMostOneActive(Run(Apply, INIT, es).sessions)
  {
    ReachableInv(es, |es|);
    assert es[..|es|] == es;
  }

  /** Once a known family has no active session it never has one again. */
  lemma DeadFamilyStaysDead(es: seq<Step>, i: nat, j: nat, t: Token)
    requires i <= j <= |es|
    requires t in StateAt(es, i).issued && Dead(StateAt(es, i).sessions, t.family)
    ensures Dead(StateAt(es, j).sessions, t.family)
  {
    var p := (s: State) => Inv(s) && t in s.issued && Dead(s.sessions, t.family);
    forall s, e | p(s) ensures p(Apply(s, e)) {
      StepKeepsInv(s, e);
      StepEvolves(s, e);
      EndsAreFinal(s, Apply(s, e), t);
    }
    ReachableInv(es, i);
    HoldsLater(Apply, p, INIT, es, i, j);
  }

  /** The step is a rotate transaction that wins: it trades `t` for a successor. */
  ghost predicate Exchanges(s: State, e: Step, t: Token)
  {
    && e.Rotate? && e.call in s.calls && s.calls[e.call].token == t
    && s.calls[e.call].stage.Rotating? && Apply(s, e).calls[e.call].stage.Returned?
  }

  lemma WinnerSpends(s: State, e: Step, t: Token)
    requires Inv(s) && Exchanges(s, e, t)
    ensures !Spent(s.sessions, t)
    ensures t in Apply(s, e).issued && Spent(Apply(s, e).sessions, t)
  {
    assert CallOk(s, s.calls[e.call]);
  }

  lemma SpentTokenStaysSpent(es: seq<Step>, i: nat, j: nat, t: Token)
    requires i <= j <= |es|
    requires t in StateAt(es, i).issued && Spent(StateAt(es, i).sessions, t)
    ensures t in StateAt(es, j).issued && Spent(StateAt(es, j).sessions, t)
  {
    var p := (s: State) => Inv(s) && t in s.issued && Spent(s.sessions, t);
    forall s, e | p(s) ensures p(Apply(s, e)) {
      StepKeepsInv(s, e);
      StepEvolves(s, e);
      EndsAreFinal(s, Apply(s, e), t);
    }
    ReachableInv(es, i);
    HoldsLater(Apply, p, INIT, es, i, j);
  }

  lemma ExchangeSpends(es: seq<Step>, i: nat, j: nat, t: Token)
    requires i < j <= |es| && Exchanges(StateAt(es, i), es[i], t)
    ensures t in StateAt(es, j).issued && Spent(StateAt(es, j).sessions, t)
  {
    ReachableInv(es, i);
    AtStep(Apply, INIT, es, i);
    WinnerSpends(StateAt(es, i), es[i], t);
    SpentTokenStaysSpent(es, i + 1, j, t);
  }

  /** A refresh token is exchanged at most once over any run. */
  lemma TokenExchangedOnce(es: seq<Step>, i: nat, j: nat, t: Token)
    requires i < j < |es| && Exchanges(StateAt(es, i), es[i], t)
    ensures !Exchanges(StateAt(es, j), es[j], t)
  {
    ExchangeSpends(es, i, j, t);
    ReachableInv(es, j);
    if Exchanges(StateAt(es, j), es[j], t) {
      WinnerSpends(StateAt(es, j), es[j], t);
    }
  }

  /** A call in one of these stages can only end in a refusal that kills the family. */
  ghost predicate Doomed(stage: Stage)
  {
    || stage.NoActiveSession?
    || (stage.Revoking? && stage.why in {ReuseDetected, RaceLost})
    || (stage.Returned? && stage.outcome.Refused? && stage.outcome.why in {ReuseDetected, NoFamily, RaceLost})
  }

  /** The step is call `c` looking up `t`, or trying to rotate it. */
  ghost predicate Tries(s: State, e: Step, c: CallId, t: Token)
  {
    && c in s.calls && s.calls[c].token == t
    && ((e == Lookup(c) && s.calls[c].stage.Presented?)
        || (e.Rotate? && e.call == c && s.calls[c].stage.Rotating? && FreshJti(s, e.jti)))
  }

  lemma LateTryIsDoomed(s: State, e: Step, c: CallId, t: Token)
    requires Inv(s) && Spent(s.sessions, t) && Tries(s, e, c, t)
    ensures c in Apply(s, e).calls && Apply(s, e).calls[c].token == t && Doomed(Apply(s, e).calls[c].stage)
  {
    assert CallOk(s, s.calls[c]);
  }

  lemma DoomedStaysDoomed(s: State, e: Step, c: CallId, t: Token)
    requires c in s.calls && s.calls[c].token == t && Doomed(s.calls[c].stage)
    ensures c in Apply(s, e).calls && Apply(s, e).calls[c].token == t && Doomed(Apply(s, e).calls[c].stage)
  {
  }

  /** Every refusal except an unknown or a blocked user is final for the family. */
  lemma RefusalIsFinal(es: seq<Step>, k: nat, m: nat, c: CallId)
    requires k <= m <= |es| && c in StateAt(es, k).calls
    requires StateAt(es, k).calls[c].stage.Returned? && StateAt(es, k).calls[c].stage.outcome.Refused?
    requires Kills(StateAt(es, k).calls[c].stage.outcome.why)
    ensures Dead(StateAt(es, m).sessions, StateAt(es, k).calls[c].token.family)
  {
    ReachableInv(es, k);
    var call := StateAt(es, k).calls[c];
    assert CallOk(StateAt(es, k), call);
    DeadFamilyStaysDead(es, k, m, call.token);
  }

  lemma DoomedCallStaysDoomed(es: seq<Step>, i: nat, j: nat, c: CallId, t: Token)
    requires i <= j <= |es| && c in StateAt(es, i).calls
    requires StateAt(es, i).calls[c].token == t && Doomed(StateAt(es, i).calls[c].stage)
    ensures c in StateAt(es, j).calls
    ensures StateAt(es, j).calls[c].token == t && Doomed(StateAt(es, j).calls[c].stage)
  {
    var p := (s: State) => c in s.calls && s.calls[c].token == t && Doomed(s.calls[c].stage);
    forall s, e | p(s) ensures p(Apply(s, e)) { DoomedStaysDoomed(s, e, c, t); }
    HoldsLater(Apply, p, INIT, es, i, j);
  }

  /**
   After a token was exchanged, any call that looks it up, or whose rotate step comes second, is
   refused, and by the time it returns its whole family is revoked for good, the winner's fresh
   session included.
   */
  lemma ReuseRevokesFamily(es: seq<Step>, i: nat, j: nat, k: nat, m: nat, c: CallId, t: Token)
    requires i < j < k <= m <= |es|
    requires Exchanges(StateAt(es, i), es[i], t)
    requires Tries(StateAt(es, j), es[j], c, t)
    ensures c in StateAt(es, k).calls
    ensures StateAt(es, k).calls[c].stage.Returned? ==>
              StateAt(es, k).calls[c].stage.outcome.Refused? && Dead(StateAt(es, m).sessions, t.family)
  {
    ExchangeSpends(es, i, j, t);
    ReachableInv(es, j);
    AtStep(Apply, INIT, es, j);
    LateTryIsDoomed(StateAt(es, j), es[j], c, t);
    DoomedCallStaysDoomed(es, j + 1, k, c, t);
    if StateAt(es, k).calls[c].stage.Returned? {
      RefusalIsFinal(es, k, m, c);
    }
  }

  /** All sessions a family ever has in one state belong to one user and one device, and only that device rotates. */
  lemma FamilyIsBoundToDevice(es: seq<Step>, i: nat, c: CallId)
    requires i <= |es| && c in StateAt(es, i).calls
    requires StateAt(es, i).calls[c].stage.Returned? && StateAt(es, i).calls[c].stage.outcome.Rotated?
    ensures forall j <- StateAt(es, i).sessions :: var x := StateAt(es, i).sessions[j];
              x.token == StateAt(es, i).calls[c].stage.outcome.token ==> x.device == StateAt(es, i).calls[c].device
    ensures FamiliesAreBound(StateAt(es, i))
  {
    ReachableInv(es, i);
    assert CallOk(StateAt(es, i), StateAt(es, i).calls[c]);
  }

  /** The row is the family's active one. */
  predicate ActiveOf(s: State, j: Jti, f: Family) { Active(s.sessions, j) && s.sessions[j].family == f }

  ghost predicate HasActive(s: State, f: Family) { exists j :: ActiveOf(s, j, f) }

  /**
   The steps that end a family: a logout or a deletion that hits its active row, a logout of all
   sessions of that row's user, and the revoke of a call that has decided to revoke this family.
   */
  ghost predicate Ends(s: State, e: Step, f: Family)
  {
    match e
    case Logout(t, u) => exists j :: ActiveOf(s, j, f) && s.sessions[j].token == t && s.sessions[j].user == u
    case LogoutAll(u) => exists j :: ActiveOf(s, j, f) && s.sessions[j].user == u
    case DeleteSessions(jtis) => exists j :: ActiveOf(s, j, f) && j in jtis
    case RevokeFamily(c) => c in s.calls && s.calls[c].stage.Revoking? && s.calls[c].stage.family == f
    case _ => false
  }

  /** A rotation moves the family's activity to the successor, or to nothing else. */
  lemma RotationKeepsActive(s: State, c: CallId, jti: Jti, j: Jti, f: Family)
    requires Inv(s) && c in s.calls && s.calls[c].stage.Rotating? && FreshJti(s, jti) && ActiveOf(s, j, f)
    ensures HasActive(RotateTransaction(s, c, jti), f)
  {
    assert CallOk(s, s.calls[c]);
    assert s.sessions[j].token in s.issued;
    var s' := RotateTransaction(s, c, jti);
    if s.calls[c].token.jti == j {
      assert ActiveOf(s', jti, f);
    } else {
      assert ActiveOf(s', j, f);
    }
  }

  lemma StepKeepsActive(s: State, e: Step, f: Family)
    requires Inv(s) && HasActive(s, f) && !Ends(s, e, f)
    ensures HasActive(Apply(s, e), f)
  {
    var j :| ActiveOf(s, j, f);
    assert s.sessions[j].token in s.issued;
    if e.Rotate? && e.call in s.calls && s.calls[e.call].stage.Rotating? && FreshJti(s, e.jti) {
      RotationKeepsActive(s, e.call, e.jti, j, f);
    } else {
      assert ActiveOf(Apply(s, e), j, f);
    }
  }

  /** An end leaves no active row, because the family had only the one. */
  lemma EndLeavesNone(s: State, e: Step, f: Family)
    requires Inv(s) && Ends(s, e, f)
    ensures !HasActive(Apply(s, e), f)
  {
    var s' := Apply(s, e);
    forall j ensures !ActiveOf(s', j, f) {
      assert ActiveOf(s', j, f) ==> ActiveOf(s, j, f);
    }
  }

  /** The family has an active session at point `k`. */
  ghost predicate AliveAt(es: seq<Step>, k: nat, f: Family)
    requires k <= |es|
  {
    HasActive(StateAt(es, k), f)
  }

  ghost predicate EndsAt(es: seq<Step>, k: nat, f: Family)
    requires k < |es|
  {
    Ends(StateAt(es, k), es[k], f)
  }

  lemma RunStepKeepsAlive(es: seq<Step>, k: nat, f: Family)
    requires k < |es| && AliveAt(es, k, f) && !EndsAt(es, k, f)
    ensures AliveAt(es, k + 1, f)
  {
    ReachableInv(es, k);
    AtStep(Apply, INIT, es, k);
    StepKeepsActive(StateAt(es, k), es[k], f);
  }

  lemma {:induction false} AliveUnlessEnded(es: seq<Step>, i: nat, j: nat, f: Family)
    requires i <= j <= |es| && AliveAt(es, i, f) && forall k: nat | i <= k < j :: !EndsAt(es, k, f)
    ensures AliveAt(es, j, f)
    decreases j
  {
    if i < j {
      AliveUnlessEnded(es, i, j - 1, f);
      RunStepKeepsAlive(es, j - 1, f);
    }
  }

  lemma {:induction false} IssuedStays(es: seq<Step>, i: nat, j: nat, t: Token)
    requires i <= j <= |es| && t in StateAt(es, i).issued
    ensures t in StateAt(es, j).issued
    decreases j
  {
    if i < j {
      IssuedStays(es, i, j - 1, t);
      AtStep(Apply, INIT, es, j - 1);
    }
  }

  lemma LivingFamilyIsIssued(es: seq<Step>, i: nat, f: Family) returns (t: Token)
    requires i <= |es| && AliveAt(es, i, f)
    ensures t in StateAt(es, i).issued && t.family == f
  {
    ReachableInv(es, i);
    var j :| ActiveOf(StateAt(es, i), j, f);
    t := StateAt(es, i).sessions[j].token;
  }

  lemma RunStepEnds(es: seq<Step>, k: nat, f: Family)
    requires k < |es| && EndsAt(es, k, f)
    ensures Dead(StateAt(es, k + 1).sessions, f)
  {
    ReachableInv(es, k);
    AtStep(Apply, INIT, es, k);
    EndLeavesNone(StateAt(es, k), es[k], f);
    DeadIffNoneActive(StateAt(es, k + 1), f);
  }

  lemma DeadIffNoneActive(s: State, f: Family)
    ensures Dead(s.sessions, f) <==> !HasActive(s, f)
  {
    forall j <- s.sessions ensures ActiveOf(s, j, f) <==> s.sessions[j].family == f && !s.sessions[j].revoked { }
  }

  lemma EndedStaysEnded(es: seq<Step>, i: nat, k: nat, j: nat, f: Family)
    requires i <= k < j <= |es| && AliveAt(es, i, f) && EndsAt(es, k, f)
    ensures !AliveAt(es, j, f)
  {
    var t := LivingFamilyIsIssued(es, i, f);
    IssuedStays(es, i, k + 1, t);
    RunStepEnds(es, k, f);
    DeadFamilyStaysDead(es, k + 1, j, t);
    DeadIffNoneActive(StateAt(es, j), f);
  }

  /** Rotation alone never logs a client out: a family has an active session exactly as long as no step has ended it. */
  lemma FamilySurvivesIff(es: seq<Step>, i: nat, j: nat, f: Family)
    requires i <= j <= |es| && AliveAt(es, i, f)
    ensures AliveAt(es, j, f) <==> forall k: nat | i <= k < j :: !EndsAt(es, k, f)
  {
    if k: nat :| i <= k < j && EndsAt(es, k, f) {
      EndedStaysEnded(es, i, k, j, f);
    } else {
      AliveUnlessEnded(es, i, j, f);
    }
  }

  lemma RotateOnce(s: State, c: CallId, t: Token, jti: Jti)
    requires t in s.issued && ActiveFor(s.sessions, t) && FreshJti(s, jti)
    ensures var d := s.sessions[t.jti].device;
            var u := Token(jti, t.family, t.sub);
            var s' := Apply(s.(calls := s.calls[c := Call(t, d, Rotating(t.jti, t.family, d))]), Rotate(c, jti));
            && s'.sessions == s.sessions[t.jti := s.sessions[t.jti].(revoked := true)]
                                        [jti := Session(t.sub, t.family, u, d, false)]
            && s'.calls == s.calls[c := Call(t, d, Returned(Rotated(u)))]
  {
  }

  lemma RunOfFour(s: State, e1: Step, e2: Step, e3: Step, e4: Step)
    ensures Run(Apply, s, [e1, e2, e3, e4]) == Apply(Apply(Apply(Apply(s, e1), e2), e3), e4)
  {
    RunStep(Apply, s, [], e1);
    RunStep(Apply, s, [e1], e2);
    RunStep(Apply, s, [e1, e2], e3);
    RunStep(Apply, s, [e1, e2, e3], e4);
    assert [] + [e1] == [e1] && [e1] + [e2] == [e1, e2];
    assert [e1, e2] + [e3] == [e1, e2, e3] && [e1, e2, e3] + [e4] == [e1, e2, e3, e4];
  }

  /** With nothing in between, an active token presented from its own device is exchanged. */
  lemma UncontendedRefreshRotates(s: State, c: CallId, t: Token, jti: Jti)
    requires c !in s.calls && t in s.issued && ActiveFor(s.sessions, t) && s.sessions[t.jti].family == t.family
             && FreshJti(s, jti)
    ensures var d := s.sessions[t.jti].device;
            var u := Token(jti, t.family, t.sub);
            var s' := Run(Apply, s, [Begin(c, t, d, false), Lookup(c), CheckUser(c, Current), Rotate(c, jti)]);
            && s'.sessions == s.sessions[t.jti := s.sessions[t.jti].(revoked := true)]
                                        [jti := Session(t.sub, t.family, u, d, false)]
            && s'.calls == s.calls[c := Call(t, d, Returned(Rotated(u)))]
  {
    var x := s.sessions[t.jti];
    var d := x.device;
    var e1, e2, e3, e4 := Begin(c, t, d, false), Lookup(c), CheckUser(c, Current), Rotate(c, jti);
    var s1 := s.(calls := s.calls[c := Call(t, d, Presented)]);
    var s2 := s.(calls := s.calls[c := Call(t, d, Matched(t.jti, t.family, d))]);
    var s3 := s.(calls := s.calls[c := Call(t, d, Rotating(t.jti, t.family, d))]);
    assert Apply(s, e1) == s1;
    assert Apply(s1, e2) == s2;
    assert Apply(s2, e3) == s3;
    RotateOnce(s, c, t, jti);
    RunOfFour(s, e1, e2, e3, e4);
  }

  /** A fresh login: its row is on the device that logged in, and its token is active. */
  lemma LoginOpensSession(s: State, u: UserId, d: Device, j: Jti, f: Family)
    requires FreshJti(s, j) && FreshFamily(s, f)
    ensures var s', t := Apply(s, Login(u, d, j, f)), Token(j, f, u);
            && t in s'.issued && ActiveFor(s'.sessions, t) && s'.sessions == s.sessions[j := Session(u, f, t, d, false)]
            && s'.calls == s.calls
  {
  }

  /** A refresh from the device that logged in rotates. */
  lemma LoginDeviceRotates(s: State, u: UserId, d: Device, j: Jti, f: Family, c: CallId, jti: Jti)
    requires FreshJti(s, j) && FreshFamily(s, f) && FreshJti(s, jti) && jti != j && c !in s.calls
    ensures var t := Token(j, f, u);
            var es := [Login(u, d, j, f)] + [Begin(c, t, d, false), Lookup(c), CheckUser(c, Current), Rotate(c, jti)];
            var s' := Run(Apply, s, es);
            && c in s'.calls && s'.calls[c].stage == Returned(Rotated(Token(jti, f, u)))
            && s'.sessions == s.sessions[j := Session(u, f, t, d, true)][jti := Session(u, f, Token(jti, f, u), d,
               false)]
  {
    var t := Token(j, f, u);
    LoginOpensSession(s, u, d, j, f);
    RunStep(Apply, s, [], Login(u, d, j, f));
    assert [] + [Login(u, d, j, f)] == [Login(u, d, j, f)];
    var es := [Begin(c, t, d, false), Lookup(c), CheckUser(c, Current), Rotate(c, jti)];
    RunConcat(Apply, s, [Login(u, d, j, f)], es);
    UncontendedRefreshRotates(Apply(s, Login(u, d, j, f)), c, t, jti);
  }

  /** A refresh from any other device is refused, and nothing of the family survives. */
  lemma OtherDeviceIsRefused(s: State, c: CallId, t: Token, other: Device)
    requires Inv(s) && c !in s.calls && t in s.issued && ActiveFor(s.sessions, t) && s.sessions[t.jti].device != other
    ensures var s' := Apply(Apply(Apply(s, Begin(c, t, other, false)), Lookup(c)), RevokeFamily(c));
            && c in s'.calls && s'.calls[c].stage == Returned(Refused(DeviceMismatch)) && Dead(s'.sessions, t.family)
  {
    var s1 := Apply(s, Begin(c, t, other, false));
    assert s1.calls[c] == Call(t, other, Presented) && s1.sessions == s.sessions;
    var s2 := Apply(s1, Lookup(c));
    assert s.sessions[t.jti].family == t.family;
    assert s2.calls[c] == Call(t, other, Revoking(t.family, DeviceMismatch)) && s2.sessions == s.sessions;
  }
}
