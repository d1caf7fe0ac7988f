/**
 The life of a redeem code: uploaded, published to a post, claimed first come
 first served, marked claimed by its user or by the reconcile job, or voided.
 Reconcile reads the stuck codes first and writes them back one by one later,
 from what it read.
 */
module Codes {
  import opened Common
  import opened Runs

  type CodeId = nat
  type BatchId = nat
  type PostId = nat
  type UserId = nat
  type WinnerId = nat
  type JobId = nat

  datatype CodeStatus = AVAILABLE | PUBLISHED | COPIED | CLAIMED | VOID

  datatype Code = Code(
    batch: BatchId, status: CodeStatus, post: Option<PostId>,
    firstCopiedBy: Option<UserId>, firstCopiedAt: int, copyCount: nat, claimedBy: Option<UserId>)

  datatype Payout = PENDING | RELEASED | WITHHELD | VOIDED

  /** A prize awarded as a gift code; released when its user claims the code, or by an admin. */
  datatype Winner = Winner(user: UserId, code: CodeId, payout: Payout)

  /** `snapshots` holds what each reconcile job read. */
  datatype State = State(codes: map<CodeId, Code>, winners: map<WinnerId, Winner>,
      snapshots: map<JobId, map<CodeId, Option<UserId>>>)

  datatype Step =
    | Upload(code: CodeId, batch: BatchId)
    | Award(winner: WinnerId, user: UserId, code: CodeId)
    | Publish(code: CodeId, batch: BatchId, post: PostId)
    | Claim(code: CodeId, user: UserId, now: int, winner: WinnerId)
    | MarkPayout(winner: WinnerId, payout: Payout)
    | MarkClaimed(code: CodeId, user: UserId)
    | VoidCode(code: CodeId)
    | ReadStuck(job: JobId, threshold: int)
    | Settle(job: JobId, code: CodeId)

  const INIT := State(map[], map[], map[])

  predicate HasStatus(s: State, c: CodeId, status: CodeStatus) { c in s.codes && s.codes[c].status == status }

  function Put(s: State, c: CodeId, code: Code): State { s.(codes := s.codes[c := code]) }

  /** The claim's winner row: the one the database picks among the pending rows of this user and code. */
  predicate Matches(s: State, w: WinnerId, c: CodeId, u: UserId)
  {
    w in s.winners && s.winners[w] == Winner(u, c, PENDING)
  }

  predicate SomeMatch(s: State, c: CodeId, u: UserId) { exists w <- s.winners :: Matches(s, w, c, u) }

  predicate ClaimWins(s: State, e: Step)
  {
    e.Claim? && HasStatus(s, e.code, PUBLISHED)
        && (Matches(s, e.winner, e.code, e.user) || !SomeMatch(s, e.code, e.user))
  }

  /** The claim transaction: copy the code and release the prize that goes with it. */
  function ClaimTransaction(s: State, c: CodeId, u: UserId, now: int, w: WinnerId): State
    requires c in s.codes
  {
    var x := s.codes[c];
    var copied := x.(status := COPIED, firstCopiedBy := Some(u), firstCopiedAt := now, copyCount := x.copyCount + 1);
    Put(s, c, copied).(winners := if Matches(s, w, c, u) then s.winners[w := Winner(u, c, RELEASED)] else s.winners)
  }

  predicate Stuck(code: Code, threshold: int) { code.status == COPIED && code.firstCopiedAt <= threshold }

  function Apply(s: State, e: Step): State
  {
    match e
    case Upload(c, b) => if c in s.codes then s else Put(s, c, Code(b, AVAILABLE, None, None, 0, 0, None))
    case Award(w, u, c) => if w in s.winners then s else s.(winners := s.winners[w := Winner(u, c, PENDING)])
    case Publish(c, b, p) =>
      if HasStatus(s, c, AVAILABLE) && s.codes[c].batch == b
      then Put(s, c, s.codes[c].(status := PUBLISHED, post := Some(p))) else s
    case Claim(c, u, now, w) => if ClaimWins(s, e) then ClaimTransaction(s, c, u, now, w) else s
    case MarkPayout(w, p) => if w in s.winners then s.(winners := s.winners[w := s.winners[w].(payout := p)]) else s
    case MarkClaimed(c, u) =>
      if HasStatus(s, c, COPIED) && s.codes[c].firstCopiedBy == Some(u)
      then Put(s, c, s.codes[c].(status := CLAIMED, claimedBy := Some(u))) else s
    case VoidCode(c) => if c in s.codes then Put(s, c, s.codes[c].(status := VOID)) else s
    case ReadStuck(job, threshold) =>
      if job in s.snapshots then s
      else s.(snapshots := s.snapshots[job := map c | c in s.codes && Stuck(s.codes[c], threshold) ::
          s.codes[c].firstCopiedBy])
    case Settle(job, c) =>
      if job in s.snapshots && c in s.snapshots[job] && s.snapshots[job][c].Some? && HasStatus(s, c, COPIED)
      then Put(s, c, s.codes[c].(status := CLAIMED, claimedBy := s.snapshots[job][c])) else s
  }

  // ----- one code -----

  function Rank(status: CodeStatus): nat
  {
    match status case AVAILABLE => 0 case PUBLISHED => 1 case COPIED => 2 case CLAIMED => 3 case VOID => 4
  }

  /** A code's record agrees with how far it got. */
  predicate CodeOk(x: Code)
  {
    && x.copyCount == (if x.firstCopiedBy.Some? then 1 else 0)
    && (x.claimedBy.Some? ==> x.claimedBy == x.firstCopiedBy)
    && (x.firstCopiedBy.Some? ==> x.post.Some?)
    && match x.status
       case AVAILABLE => x.post.None?
       case PUBLISHED => x.post.Some? && x.firstCopiedBy.None?
       case COPIED => x.firstCopiedBy.Some? && x.claimedBy.None?
       case CLAIMED => x.claimedBy.Some?
       case VOID => true
  }

  predicate Once<T(==)>(before: Option<T>, after: Option<T>) { before.Some? ==> after == before }

  /** The status moves forward, and post, first copier and claimer are written at most once. */
  predicate Forward(x: Code, y: Code)
  {
    && Rank(x.status) <= Rank(y.status) && x.batch == y.batch && x.copyCount <= y.copyCount
    && Once(x.post, y.post) && Once(x.firstCopiedBy, y.firstCopiedBy) && Once(x.claimedBy, y.claimedBy)
    && (x.firstCopiedBy.Some? ==> x.firstCopiedAt == y.firstCopiedAt)
  }

  ghost predicate SnapshotsOk(s: State)
  {
    forall job <- s.snapshots :: forall c <- s.snapshots[job] ::
        c in s.codes && s.codes[c].firstCopiedBy.Some? && s.snapshots[job][c] == s.codes[c].firstCopiedBy
  }

  ghost predicate Inv(s: State)
  {
    (forall c <- s.codes :: CodeOk(s.codes[c])) && SnapshotsOk(s)
  }

  ghost predicate AllForward(s: State, s': State)
  {
    && (forall c <- s.codes :: c in s'.codes && Forward(s.codes[c], s'.codes[c]))
    && (forall w <- s.winners ::
          w in s'.winners && s'.winners[w].code == s.winners[w].code && s'.winners[w].user == s.winners[w].user)
    && (forall job <- s.snapshots :: job in s'.snapshots && s'.snapshots[job] == s.snapshots[job])
  }

  lemma CodeGoesForward(s: State, e: Step, c: CodeId)
    requires c in s.codes && CodeOk(s.codes[c])
    ensures c in Apply(s, e).codes && Forward(s.codes[c], Apply(s, e).codes[c])
  {
  }

  lemma StepGoesForward(s: State, e: Step)
    requires Inv(s)
    ensures AllForward(s, Apply(s, e))
  {
    forall c <- s.codes ensures c in Apply(s, e).codes && Forward(s.codes[c], Apply(s, e).codes[c]) {
      CodeGoesForward(s, e, c);
    }
  }

  lemma ForwardIsTransitive(s: State, s': State, s'': State)
    requires AllForward(s, s') && AllForward(s', s'')
    ensures AllForward(s, s'')
  {
  }

  lemma StepKeepsCodes(s: State, e: Step, c: CodeId)
    requires Inv(s) && c in Apply(s, e).codes
    ensures CodeOk(Apply(s, e).codes[c])
  {
    if c in s.codes { assert CodeOk(s.codes[c]); }
  }

  lemma StepKeepsSnapshots(s: State, e: Step)
    requires Inv(s) && AllForward(s, Apply(s, e))
    ensures SnapshotsOk(Apply(s, e))
  {
    var s' := Apply(s, e);
    forall job <- s'.snapshots, c <- s'.snapshots[job]
      ensures c in s'.codes && s'.codes[c].firstCopiedBy.Some? && s'.snapshots[job][c] == s'.codes[c].firstCopiedBy
    {
      if job !in s.snapshots { assert CodeOk(s.codes[c]); }
    }
  }

  lemma StepKeepsInv(s: State, e: Step)
    requires Inv(s)
    ensures Inv(Apply(s, e))
  {
    var s' := Apply(s, e);
    StepGoesForward(s, e);
    forall c <- s'.codes ensures CodeOk(s'.codes[c]) { StepKeepsCodes(s, e, c); }
    StepKeepsSnapshots(s, e);
  }

  // ----- theorems about every run -----

  ghost function StateAt(es: seq<Step>, i: nat): State
    requires i <= |es|
  {
    At(Apply, INIT, es, i)
  }

  lemma RunKeepsInv(s: State, es: seq<Step>)
    requires Inv(s)
    ensures Inv(Run(Apply, s, es))
  {
    forall s, e | Inv(s) ensures Inv(Apply(s, e)) { StepKeepsInv(s, e); }
    InvariantHolds(Apply, Inv, s, es);
  }

  lemma {:induction false} RunGoesForward(s: State, es: seq<Step>)
    requires Inv(s)
    ensures AllForward(s, Run(Apply, s, es))
    decreases |es|
  {
    if es != [] {
      var front := es[..|es| - 1];
      RunGoesForward(s, front);
      RunKeepsInv(s, front);
      StepGoesForward(Run(Apply, s, front), es[|es| - 1]);
    }
  }

  /**
   Between any two points of any run a code's status only moves forward (VOID is final), its post,
   first copier and claimer are written at most once, and at every point it was copied at most once
   and its claimer is its first copier, even when reconcile wrote it from a stale read.
   */
  lemma CodeLifecycle(es: seq<Step>, i: nat, j: nat, c: CodeId)
    requires i <= j <= |es| && c in StateAt(es, i).codes
    ensures c in StateAt(es, j).codes && Forward(StateAt(es, i).codes[c], StateAt(es, j).codes[c])
    ensures var x := StateAt(es, j).codes[c];
            x.copyCount <= 1 && (x.claimedBy.Some? ==> x.claimedBy == x.firstCopiedBy)
    ensures StateAt(es, i).codes[c].status == VOID ==> StateAt(es, j).codes[c].status == VOID
  {
    RunKeepsInv(INIT, es[..i]);
    RunKeepsInv(INIT, es[..j]);
    assert es[..j] == es[..i] + es[i..j];
    RunConcat(Apply, INIT, es[..i], es[i..j]);
    RunGoesForward(StateAt(es, i), es[i..j]);
    assert CodeOk(StateAt(es, j).codes[c]);
  }

  /** At most one claim of a code wins over any run, however many race for it. */
  lemma OneClaimWins(es: seq<Step>, i: nat, j: nat)
    requires i < j < |es| && ClaimWins(StateAt(es, i), es[i]) && es[j].Claim? && es[j].code == es[i].code
    ensures !ClaimWins(StateAt(es, j), es[j])
    ensures es[i].code in StateAt(es, j).codes && StateAt(es, j).codes[es[i].code].firstCopiedBy == Some(es[i].user)
  {
    AtStep(Apply, INIT, es, i);
    CodeLifecycle(es, i + 1, j, es[i].code);
  }

  // ----- which status a code has -----

  /** The step uploads the code. */
  predicate Uploads(s: State, e: Step, c: CodeId) { e.Upload? && e.code == c && c !in s.codes }

  /** The step publishes the code to some post. */
  predicate Publishes(s: State, e: Step, c: CodeId)
  {
    e.Publish? && e.code == c && HasStatus(s, c, AVAILABLE) && s.codes[c].batch == e.batch
  }

  /** The step is the winning claim of the code. */
  predicate ClaimsCode(s: State, e: Step, c: CodeId) { ClaimWins(s, e) && e.code == c }

  /** The step closes the copied code: its copier marks it, or a reconcile job that read it settles it. */
  predicate Closes(s: State, e: Step, c: CodeId)
  {
    && HasStatus(s, c, COPIED)
    && ((e.MarkClaimed? && e.code == c && s.codes[c].firstCopiedBy == Some(e.user))
        || (e.Settle? && e.code == c && e.job in s.snapshots && c in s.snapshots[e.job]))
  }

  predicate Voids(s: State, e: Step, c: CodeId) { e == VoidCode(c) && c in s.codes }

  /** How a status is entered and left: the five statuses of the life cycle. */
  predicate Enters(s: State, e: Step, c: CodeId, status: CodeStatus)
  {
    match status
    case AVAILABLE => Uploads(s, e, c)
    case PUBLISHED => Publishes(s, e, c)
    case COPIED => ClaimsCode(s, e, c)
    case CLAIMED => Closes(s, e, c)
    case VOID => Voids(s, e, c)
  }

  predicate Leaves(s: State, e: Step, c: CodeId, status: CodeStatus)
  {
    match status
    case AVAILABLE => Publishes(s, e, c) || Voids(s, e, c)
    case PUBLISHED => ClaimsCode(s, e, c) || Voids(s, e, c)
    case COPIED => Closes(s, e, c) || Voids(s, e, c)
    case CLAIMED => Voids(s, e, c)
    case VOID => false
  }

  lemma StepMovesStatusIff(s: State, e: Step, c: CodeId, status: CodeStatus)
    requires Inv(s)
    ensures HasStatus(Apply(s, e), c, status) <==>
            Enters(s, e, c, status) || (HasStatus(s, c, status) && !Leaves(s, e, c, status))
  {
    if c in s.codes { assert CodeOk(s.codes[c]); }
  }

  ghost predicate StatusAt(es: seq<Step>, i: nat, c: CodeId, status: CodeStatus)
    requires i <= |es|
  {
    HasStatus(StateAt(es, i), c, status)
  }

  ghost predicate EntersAt(es: seq<Step>, i: nat, c: CodeId, status: CodeStatus)
    requires i < |es|
  {
    Enters(StateAt(es, i), es[i], c, status)
  }

  ghost predicate LeavesAt(es: seq<Step>, i: nat, c: CodeId, status: CodeStatus)
    requires i < |es|
  {
    Leaves(StateAt(es, i), es[i], c, status)
  }

  lemma RunStepMovesStatusIff(es: seq<Step>, i: nat, c: CodeId, status: CodeStatus)
    requires i < |es|
    ensures StatusAt(es, i + 1, c, status) <==>
            EntersAt(es, i, c, status) || (StatusAt(es, i, c, status) && !LeavesAt(es, i, c, status))
  {
    RunKeepsInv(INIT, es[..i]);
    AtStep(Apply, INIT, es, i);
    StepMovesStatusIff(StateAt(es, i), es[i], c, status);
  }

  /** From step `k` to point `n` no step takes the code out of the status. */
  ghost predicate KeepsStatus(es: seq<Step>, k: nat, n: nat, c: CodeId, status: CodeStatus)
    requires n <= |es|
  {
    k < n && forall m: nat | k < m < n :: !LeavesAt(es, m, c, status)
  }

  /**
   In every run a code has a status exactly when a step brought it there and none has taken it on
   since: AVAILABLE from its upload to a publish, PUBLISHED from there to a winning claim, COPIED from
   there until its copier or a reconcile job closes it, CLAIMED from there on, each until a void, and
   VOID for good.
   */
  lemma {:induction false} StatusIff(es: seq<Step>, n: nat, c: CodeId, status: CodeStatus)
    requires n <= |es|
    ensures StatusAt(es, n, c, status) <==>
            exists k: nat | k < n :: EntersAt(es, k, c, status) && KeepsStatus(es, k, n, c, status)
  {
    if n > 0 {
      StatusIff(es, n - 1, c, status);
      RunStepMovesStatusIff(es, n - 1, c, status);
      assert forall k: nat | k < n - 1 ::
          KeepsStatus(es, k, n, c, status) <==> KeepsStatus(es, k, n - 1, c, status) && !LeavesAt(es, n - 1, c, status);
      assert KeepsStatus(es, n - 1, n, c, status);
    }
  }

  // ----- prizes -----

  predicate Copied(s: State, c: CodeId, u: UserId) { c in s.codes && s.codes[c].firstCopiedBy == Some(u) }

  predicate IsReleased(s: State, w: WinnerId) { w in s.winners && s.winners[w].payout == RELEASED }

  /** The step is user `u`'s winning claim of the code. */
  predicate Copies(s: State, e: Step, c: CodeId, u: UserId) { ClaimWins(s, e) && e.code == c && e.user == u }

  /** The step is a winning claim that releases the prize with it. */
  predicate ClaimReleases(s: State, e: Step, w: WinnerId)
  {
    ClaimWins(s, e) && e.winner == w && Matches(s, w, e.code, e.user)
  }

  /** The step is an admin payout that releases the prize. */
  predicate AdminReleases(s: State, e: Step, w: WinnerId) { e == MarkPayout(w, RELEASED) && w in s.winners }

  /** The step is an admin payout that takes the prize out of RELEASED. */
  predicate Reverts(e: Step, w: WinnerId) { e.MarkPayout? && e.winner == w && e.payout != RELEASED }

  lemma StepCopiesIff(s: State, e: Step, c: CodeId, u: UserId)
    requires Inv(s)
    ensures Copied(Apply(s, e), c, u) <==> Copied(s, c, u) || Copies(s, e, c, u)
  {
    if c in s.codes { assert CodeOk(s.codes[c]); }
  }

  lemma RunStepCopiesIff(es: seq<Step>, i: nat, c: CodeId, u: UserId)
    requires i < |es|
    ensures Copied(StateAt(es, i + 1), c, u) <==> Copied(StateAt(es, i), c, u) || Copies(StateAt(es, i), es[i], c, u)
  {
    RunKeepsInv(INIT, es[..i]);
    AtStep(Apply, INIT, es, i);
    StepCopiesIff(StateAt(es, i), es[i], c, u);
  }

  /** A user is a code's first copier exactly when a claim of that user won it. */
  lemma CopiedIff(es: seq<Step>, n: nat, c: CodeId, u: UserId)
    requires n <= |es|
    ensures Copied(StateAt(es, n), c, u) <==> exists k: nat | k < n :: Copies(StateAt(es, k), es[k], c, u)
  {
    var copied := (i: nat) => i <= n && Copied(StateAt(es, i), c, u);
    var copies := (i: nat) => i < n && Copies(StateAt(es, i), es[i], c, u);
    forall i: nat | i < n ensures copied(i + 1) <==> copied(i) || copies(i) { RunStepCopiesIff(es, i, c, u); }
    EnteredIff(copied, copies, n);
    assert forall k: nat | k < n :: copies(k) <==> Copies(StateAt(es, k), es[k], c, u);
  }

  /** Until point `n` nobody takes back the release made at step `k`. */
  predicate Stands(es: seq<Step>, k: nat, n: nat, w: WinnerId)
    requires n <= |es|
  {
    k < n && forall m | k < m < n :: !Reverts(es[m], w)
  }

  ghost predicate ReleasedAt(es: seq<Step>, k: nat, w: WinnerId)
    requires k < |es|
  {
    ClaimReleases(StateAt(es, k), es[k], w) || AdminReleases(StateAt(es, k), es[k], w)
  }

  lemma RunStepReleasesIff(es: seq<Step>, i: nat, w: WinnerId)
    requires i < |es|
    ensures IsReleased(StateAt(es, i + 1), w) <==>
            ReleasedAt(es, i, w) || (IsReleased(StateAt(es, i), w) && !Reverts(es[i], w))
  {
    AtStep(Apply, INIT, es, i);
  }

  lemma {:induction false} ReleasedIff(es: seq<Step>, n: nat, w: WinnerId)
    requires n <= |es|
    ensures IsReleased(StateAt(es, n), w) <==> exists k: nat | k < n :: ReleasedAt(es, k, w) && Stands(es, k, n, w)
  {
    if n > 0 {
      ReleasedIff(es, n - 1, w);
      RunStepReleasesIff(es, n - 1, w);
      assert forall k: nat | k < n - 1 :: Stands(es, k, n, w) <==> Stands(es, k, n - 1, w) && !Reverts(es[n - 1], w);
      assert Stands(es, n - 1, n, w);
    }
  }

  lemma WinnerKeepsClaimant(es: seq<Step>, i: nat, j: nat, w: WinnerId)
    requires i <= j <= |es| && w in StateAt(es, i).winners
    ensures w in StateAt(es, j).winners
    ensures StateAt(es, j).winners[w].user == StateAt(es, i).winners[w].user
    ensures StateAt(es, j).winners[w].code == StateAt(es, i).winners[w].code
  {
    RunKeepsInv(INIT, es[..i]);
    assert es[..j] == es[..i] + es[i..j];
    RunConcat(Apply, INIT, es[..i], es[i..j]);
    RunGoesForward(StateAt(es, i), es[i..j]);
  }

  /** A prize that a claim released belongs to the code's first copier at every later point. */
  lemma ClaimedPrizeFollowsCopier(es: seq<Step>, i: nat, j: nat, w: WinnerId)
    requires i < j <= |es| && ClaimReleases(StateAt(es, i), es[i], w)
    ensures w in StateAt(es, j).winners
    ensures Copied(StateAt(es, j), StateAt(es, j).winners[w].code, StateAt(es, j).winners[w].user)
  {
    WinnerKeepsClaimant(es, i, j, w);
    CopiedIff(es, j, es[i].code, es[i].user);
  }

  /**
   A released prize whose user did not copy its code exists exactly when an admin payout that still
   stands released it and its user never won the code.
   */
  lemma UncopiedReleaseIff(es: seq<Step>, n: nat, w: WinnerId)
    requires n <= |es| && w in StateAt(es, n).winners
    ensures var Winner(u, c, _) := StateAt(es, n).winners[w];
            IsReleased(StateAt(es, n), w) && !Copied(StateAt(es, n), c, u) <==>
            && (exists k: nat | k < n :: AdminReleases(StateAt(es, k), es[k], w) && Stands(es, k, n, w))
            && (forall k: nat | k < n :: !Copies(StateAt(es, k), es[k], c, u))
  {
    var Winner(u, c, _) := StateAt(es, n).winners[w];
    ReleasedIff(es, n, w);
    CopiedIff(es, n, c, u);
    if IsReleased(StateAt(es, n), w) && !Copied(StateAt(es, n), c, u) {
      var k: nat :| k < n && ReleasedAt(es, k, w) && Stands(es, k, n, w);
      if ClaimReleases(StateAt(es, k), es[k], w) { ClaimedPrizeFollowsCopier(es, k, n, w); }
      assert AdminReleases(StateAt(es, k), es[k], w);
    }
    if k: nat :| k < n && AdminReleases(StateAt(es, k), es[k], w) && Stands(es, k, n, w) {
      assert ReleasedAt(es, k, w);
    }
  }

  /** It does exist: an admin releases a prize whose code is not even published. */
  lemma PayoutWithoutCopyHappens()
    ensures var es := [Upload(0, 0), Award(0, 7, 0), MarkPayout(0, RELEASED)];
            IsReleased(StateAt(es, 3), 0) && !Copied(StateAt(es, 3), 0, 7) && StateAt(es, 3).winners[0].code == 0
  {
    var es := [Upload(0, 0), Award(0, 7, 0), MarkPayout(0, RELEASED)];
    AtStep(Apply, INIT, es, 0);
    AtStep(Apply, INIT, es, 1);
    AtStep(Apply, INIT, es, 2);
  }
}
