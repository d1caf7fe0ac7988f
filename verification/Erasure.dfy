/**
 The erasure clock: request, cancel, hold and clear move a user's `deletedAt`; a sweep pass picks
 candidates with one read and then writes each of them by id.
 */
module Erasure {
  import opened Common
  import opened Runs

  type UserId = nat
  type PassId = nat

  const MS_PER_DAY := 24 * 60 * 60 * 1000
  const GRACE_PERIOD_DAYS := 30
  const GRACE := GRACE_PERIOD_DAYS * MS_PER_DAY

  /** `hold` is the time at which the active hold was applied. */
  datatype User = User(deletedAt: Option<int>, hold: Option<int>, anonymizedAt: Option<int>)

  /** A sweep pass dated `at`; `left` are the candidates of its scan that it has not come to yet. */
  datatype Pass = Pass(at: int, left: set<UserId>)

  datatype State = State(now: int, users: map<UserId, User>, passes: map<PassId, Pass>)

  datatype Step =
    | Tick(ms: nat)
    | Join(user: UserId)
    | Request(user: UserId)
    | Cancel(user: UserId)
    | Hold(user: UserId)
    | Clear(user: UserId)
    | Scan(pass: PassId, at: int)
    | Anonymize(pass: PassId, user: UserId)
    | Skip(pass: PassId, user: UserId)

  const INIT := State(0, map[], map[])

  predicate Candidate(u: User, at: int)
  {
    u.deletedAt.Some? && u.deletedAt.value <= at - GRACE && u.anonymizedAt.None? && u.hold.None?
  }

  function Candidates(users: map<UserId, User>, at: int): set<UserId> { set u | u in users && Candidate(users[u], at) }

  /** Refusals leave the row alone, so `None` stands for the error. */
  function Requested(u: User, now: int): Option<User>
  {
    if u.anonymizedAt.Some? then None else if u.deletedAt.Some? then Some(u) else Some(u.(deletedAt := Some(now)))
  }

  function Cancelled(u: User): Option<User>
  {
    if u.anonymizedAt.Some? || u.deletedAt.None? then None else Some(u.(deletedAt := None, hold := None))
  }

  function Held(u: User, now: int): Option<User>
  {
    if u.deletedAt.None? || u.anonymizedAt.Some? || u.hold.Some? then None else Some(u.(hold := Some(now)))
  }

  function Cleared(u: User, now: int): Option<User>
  {
    if u.hold.None? || u.deletedAt.None? then None
    else Some(u.(deletedAt := Some(u.deletedAt.value + (now - u.hold.value)), hold := None))
  }

  function Write(s: State, u: UserId, after: Option<User>): State
  {
    if after.Some? then s.(users := s.users[u := after.value]) else s
  }

  /** The pass picked the user and has not come to the user yet. */
  predicate Picked(s: State, p: PassId, u: UserId) { p in s.passes && u in s.passes[p].left }

  function TickOff(s: State, p: PassId, u: UserId): State
    requires p in s.passes
  {
    s.(passes := s.passes[p := s.passes[p].(left := s.passes[p].left - {u})])
  }

  function Apply(s: State, e: Step): State
  {
    match e
    case Tick(ms) => s.(now := s.now + ms)
    case Join(u) => if u in s.users then s else s.(users := s.users[u := User(None, None, None)])
    case Request(u) => if u in s.users then Write(s, u, Requested(s.users[u], s.now)) else s
    case Cancel(u) => if u in s.users then Write(s, u, Cancelled(s.users[u])) else s
    case Hold(u) => if u in s.users then Write(s, u, Held(s.users[u], s.now)) else s
    case Clear(u) => if u in s.users then Write(s, u, Cleared(s.users[u], s.now)) else s
    case Scan(p, at) =>
      if at <= s.now && p !in s.passes then s.(passes := s.passes[p := Pass(at, Candidates(s.users, at))]) else s
    case Anonymize(p, u) =>
      if Picked(s, p, u) && u in s.users
      then TickOff(s.(users := s.users[u := s.users[u].(anonymizedAt := Some(s.passes[p].at))]), p, u) else s
    case Skip(p, u) => if Picked(s, p, u) then TickOff(s, p, u) else s
  }

  // ----- the status a user sees -----

  datatype Status = Status(requested: bool, held: bool, daysRemaining: Option<nat>)

  function CeilDays(ms: int): int { (ms + MS_PER_DAY - 1) / MS_PER_DAY }

  function ToStatus(u: User, now: int): Status
  {
    if u.anonymizedAt.Some? then Status(true, u.hold.Some?, None)
    else if u.deletedAt.None? then Status(false, false, None)
    else if u.hold.Some? then Status(true, true, None)
    else
      var left := CeilDays(GRACE - (now - u.deletedAt.value));
      Status(true, false, Some(if left > 0 then left else 0))
  }

  /** The days shown are the grace that is left, rounded up to whole days, and zero once it is over. */
  lemma DaysRoundUp(u: User, now: int)
    requires u.anonymizedAt.None? && u.deletedAt.Some? && u.hold.None?
    ensures var days, left := ToStatus(u, now).daysRemaining, u.deletedAt.value + 30 * 24 * 60 * 60 * 1000 - now;
            && days.Some?
            && (left > 0 ==> (days.value - 1) * 24 * 60 * 60 * 1000 < left <= days.value * 24 * 60 * 60 * 1000)
            && (left <= 0 ==> days.value == 0)
  {
  }

  /** The status shows zero days exactly when a sweep at that instant would pick the user. */
  lemma ZeroDaysIffCandidate(u: User, now: int)
    ensures ToStatus(u, now).daysRemaining == Some(0) <==> Candidate(u, now)
  {
  }

  // ----- un-held time since the pending request, counted from the steps alone -----

  predicate Pending(s: State, u: UserId) { u in s.users && s.users[u].anonymizedAt.None? && s.users[u].deletedAt.Some? }

  predicate OnHold(s: State, u: UserId) { u in s.users && s.users[u].hold.Some? }

  predicate AnonymizedAt(s: State, u: UserId) { u in s.users && s.users[u].anonymizedAt.Some? }

  ghost function StateAt(es: seq<Step>, i: nat): State
    requires i <= |es|
  {
    At(Apply, INIT, es, i)
  }

  /** A stopwatch: no such user, nothing pending, counting, or paused by a hold. */
  datatype Clock = Absent | Off | Counting(ms: nat) | Paused(ms: nat)

  /** How a step moves the stopwatch of user `u`; it knows nothing of dates or rows. */
  function NextClock(c: Clock, e: Step, u: UserId): Clock
  {
    match e
    case Tick(ms) => if c.Counting? then Counting(c.ms + ms) else c
    case Join(v) => if v == u && c.Absent? then Off else c
    case Request(v) => if v == u && c.Off? then Counting(0) else c
    case Cancel(v) => if v == u && !c.Absent? then Off else c
    case Hold(v) => if v == u && c.Counting? then Paused(c.ms) else c
    case Clear(v) => if v == u && c.Paused? then Counting(c.ms) else c
    case _ => c
  }

  function ClockAt(es: seq<Step>, i: nat, u: UserId): Clock
    requires i <= |es|
  {
    if i == 0 then Absent else NextClock(ClockAt(es, i - 1, u), es[i - 1], u)
  }

  /** What the row of a user who is not anonymized holds when the stopwatch shows `c`. */
  ghost predicate Shows(s: State, u: UserId, c: Clock)
  {
    !AnonymizedAt(s, u) ==>
      match c
      case Absent => u !in s.users
      case Off => u in s.users && s.users[u] == User(None, None, None)
      case Counting(ms) => u in s.users && s.users[u] == User(Some(s.now - ms), None, None)
      case Paused(ms) =>
        && u in s.users && OnHold(s, u) && s.users[u].hold.value <= s.now
        && s.users[u] == User(Some(s.users[u].hold.value - ms), s.users[u].hold, None)
  }

  lemma StepKeepsAnonymized(s: State, e: Step, u: UserId)
    requires AnonymizedAt(s, u)
    ensures AnonymizedAt(Apply(s, e), u)
  {
  }

  lemma StepMovesClock(s: State, e: Step, u: UserId, c: Clock)
    requires Shows(s, u, c)
    ensures Shows(Apply(s, e), u, NextClock(c, e, u))
  {
    if AnonymizedAt(s, u) { StepKeepsAnonymized(s, e, u); }
  }

  /** In every run the stored dates of a user who is not anonymized show exactly what the stopwatch shows. */
  lemma {:induction false} RowShowsClock(es: seq<Step>, i: nat, u: UserId)
    requires i <= |es|
    ensures Shows(StateAt(es, i), u, ClockAt(es, i, u))
  {
    if i > 0 {
      RowShowsClock(es, i - 1, u);
      AtStep(Apply, INIT, es, i - 1);
      StepMovesClock(StateAt(es, i - 1), es[i - 1], u, ClockAt(es, i - 1, u));
    }
  }

  /** The promise: not yet anonymized, a request pending and not held, and 30 days of un-held time gone by. */
  ghost predicate GraceServed(es: seq<Step>, i: nat, u: UserId)
    requires i <= |es|
  {
    !AnonymizedAt(StateAt(es, i), u) && ClockAt(es, i, u).Counting? && ClockAt(es, i, u).ms >= 30 * 24 * 60 * 60 * 1000
  }

  /** At every point of every run, the stored fields satisfy the sweep's predicate exactly when the promise is met. */
  lemma CandidateIffGraceServed(es: seq<Step>, i: nat, u: UserId)
    requires i <= |es|
    ensures (u in StateAt(es, i).users && Candidate(StateAt(es, i).users[u], StateAt(es, i).now)) <==>
            GraceServed(es, i, u)
  {
    RowShowsClock(es, i, u);
  }

  // ----- what the sweep may do -----

  predicate Writes(e: Step, u: UserId) { e.Anonymize? && e.user == u }

  /** Nothing but a sweep's own write anonymizes, and it only writes users that the pass picked. */
  lemma OnlySweepAnonymizes(es: seq<Step>, i: nat, u: UserId)
    requires i < |es| && !AnonymizedAt(StateAt(es, i), u) && AnonymizedAt(StateAt(es, i + 1), u)
    ensures Writes(es[i], u) && Picked(StateAt(es, i), es[i].pass, u)
  {
    AtStep(Apply, INIT, es, i);
  }

  /** Step `i` is a scan that starts pass `p` and picks the user. */
  ghost predicate ScanPicks(es: seq<Step>, i: nat, p: PassId, u: UserId)
    requires i < |es|
  {
    es[i].Scan? && es[i].pass == p && p !in StateAt(es, i).passes && Picked(StateAt(es, i + 1), p, u)
  }

  lemma ScanPicksCandidates(es: seq<Step>, i: nat, p: PassId, u: UserId)
    requires i < |es| && ScanPicks(es, i, p, u)
    ensures GraceServed(es, i + 1, u) && StateAt(es, i + 1).now == StateAt(es, i).now
  {
    AtStep(Apply, INIT, es, i);
    CandidateIffGraceServed(es, i + 1, u);
  }

  /** A user whose grace is served when a pass scans at the present time is picked by it, and no other user is. */
  lemma ScanPicksAllServed(es: seq<Step>, i: nat, p: PassId, u: UserId)
    requires i < |es| && es[i] == Scan(p, StateAt(es, i).now) && p !in StateAt(es, i).passes
    ensures Picked(StateAt(es, i + 1), p, u) <==> GraceServed(es, i, u)
  {
    AtStep(Apply, INIT, es, i);
    CandidateIffGraceServed(es, i, u);
  }

  // ----- between the scan and the write -----

  /** The grace is used up, whether or not a hold has paused the clock since. */
  predicate Due(c: Clock) { (c.Counting? || c.Paused?) && c.ms >= GRACE }

  /** Only a cancel ends a request whose grace is used up. */
  lemma {:induction false} DueUntilCancelled(es: seq<Step>, i: nat, j: nat, u: UserId)
    requires i <= j <= |es| && Due(ClockAt(es, i, u)) && forall k | i <= k < j :: es[k] != Cancel(u)
    ensures Due(ClockAt(es, j, u))
    decreases j
  {
    if i < j { DueUntilCancelled(es, i, j - 1, u); }
  }

  /** What the stopwatch shows. */
  function Elapsed(c: Clock): nat { if c.Counting? || c.Paused? then c.ms else 0 }

  /** The stopwatch gains no more than the wall clock. */
  lemma {:induction false} ElapsedIsBounded(es: seq<Step>, i: nat, j: nat, u: UserId)
    requires i <= j <= |es|
    ensures Elapsed(ClockAt(es, j, u)) <= Elapsed(ClockAt(es, i, u)) + (StateAt(es, j).now - StateAt(es, i).now)
    decreases j
  {
    if i < j {
      ElapsedIsBounded(es, i, j - 1, u);
      AtStep(Apply, INIT, es, j - 1);
    }
  }

  lemma {:induction false} ClockNeverGoesBack(es: seq<Step>, i: nat, j: nat)
    requires i <= j <= |es|
    ensures StateAt(es, i).now <= StateAt(es, j).now
    decreases j
  {
    if i < j {
      ClockNeverGoesBack(es, i, j - 1);
      AtStep(Apply, INIT, es, j - 1);
    }
  }

  /** After a cancel, 30 more days must go by before the grace can be served again. */
  lemma CancelRestartsGrace(es: seq<Step>, k: nat, j: nat, u: UserId)
    requires k < j <= |es| && es[k] == Cancel(u) && Due(ClockAt(es, j, u))
    ensures StateAt(es, j).now >= StateAt(es, k).now + GRACE
  {
    assert Elapsed(ClockAt(es, k + 1, u)) == 0;
    ElapsedIsBounded(es, k + 1, j, u);
    ClockNeverGoesBack(es, k, k + 1);
  }

  ghost predicate NoCancel(es: seq<Step>, i: nat, j: nat, u: UserId)
    requires i <= j <= |es|
  {
    forall k | i <= k < j :: es[k] != Cancel(u)
  }

  /**
   A user picked by the scan at `i` and written at `j`, with no cancel in between and no hold at the
   write, is anonymized only after 30 full days of un-held time since the pending request.
   */
  lemma SweepHonoursGrace(es: seq<Step>, i: nat, j: nat, p: PassId, u: UserId)
    requires i < j < |es| && ScanPicks(es, i, p, u) && es[j] == Anonymize(p, u) && !AnonymizedAt(StateAt(es, j), u)
    requires NoCancel(es, i + 1, j, u) && !OnHold(StateAt(es, j), u)
    ensures GraceServed(es, j, u)
  {
    ScanPicksCandidates(es, i, p, u);
    DueUntilCancelled(es, i + 1, j, u);
    RowShowsClock(es, j, u);
  }

  /**
   Exactly when the write that anonymizes a user keeps the promise, in terms of what happened since
   the scan. Without a cancel: when there is no hold at the write. In a pass that takes less than 30
   days: when there is neither a cancel since the scan nor a hold at the write.
   */
  lemma WriteIsRightIff(es: seq<Step>, i: nat, j: nat, p: PassId, u: UserId)
    requires i < j < |es| && ScanPicks(es, i, p, u) && es[j] == Anonymize(p, u) && !AnonymizedAt(StateAt(es, j), u)
    ensures NoCancel(es, i + 1, j, u) ==> (GraceServed(es, j, u) <==> !OnHold(StateAt(es, j), u))
    ensures StateAt(es, j).now < StateAt(es, i).now + GRACE ==>
              (GraceServed(es, j, u) <==> NoCancel(es, i + 1, j, u) && !OnHold(StateAt(es, j), u))
  {
    RowShowsClock(es, j, u);
    if NoCancel(es, i + 1, j, u) && !OnHold(StateAt(es, j), u) {
      SweepHonoursGrace(es, i, j, p, u);
    }
    if !NoCancel(es, i + 1, j, u) && GraceServed(es, j, u) {
      var k: nat :| i < k < j && es[k] == Cancel(u);
      ClockNeverGoesBack(es, i, k);
      CancelRestartsGrace(es, k, j, u);
    }
  }

  /** A request whose 30 days have gone by is picked by a scan. */
  const PICKED := [Join(0), Request(0), Tick(GRACE), Scan(1, GRACE)]

  /** The user row of that request, and the state after the scan. */
  const DUE := map[0 := User(Some(0), None, None)]
  const SCANNED := State(GRACE, DUE, map[1 := Pass(GRACE, {0})])

  lemma PickedIsScanned()
    ensures Run(Apply, INIT, PICKED) == SCANNED
  {
    var s1 := State(0, map[0 := User(None, None, None)], map[]);
    assert Apply(INIT, Join(0)) == s1;
    assert Apply(s1, Request(0)) == State(0, DUE, map[]);
    assert Candidates(DUE, GRACE) == {0};
    assert Apply(State(GRACE, DUE, map[]), Scan(1, GRACE)) == SCANNED;
    RunStep(Apply, INIT, [], Join(0));
    RunStep(Apply, INIT, [Join(0)], Request(0));
    RunStep(Apply, INIT, [Join(0), Request(0)], Tick(GRACE));
    RunStep(Apply, INIT, [Join(0), Request(0), Tick(GRACE)], Scan(1, GRACE));
    assert [] + [Join(0)] == [Join(0)] && [Join(0)] + [Request(0)] == [Join(0), Request(0)];
    assert [Join(0), Request(0)] + [Tick(GRACE)] == [Join(0), Request(0), Tick(GRACE)];
    assert [Join(0), Request(0), Tick(GRACE)] + [Scan(1, GRACE)] == PICKED;
  }

  const LATE_CANCEL := PICKED + [Cancel(0), Anonymize(1, 0)]

  /** The write is by id alone: a cancel between the scan and the write does not stop it. */
  lemma CancelDuringPassIsLost()
    ensures !Pending(StateAt(LATE_CANCEL, 5), 0) && !GraceServed(LATE_CANCEL, 5, 0)
    ensures AnonymizedAt(StateAt(LATE_CANCEL, 6), 0)
  {
    PickedIsScanned();
    assert LATE_CANCEL[..4] == PICKED;
    AtStep(Apply, INIT, LATE_CANCEL, 4);
    AtStep(Apply, INIT, LATE_CANCEL, 5);
    CandidateIffGraceServed(LATE_CANCEL, 5, 0);
  }

  // ----- anonymized is terminal -----

  /** Once anonymized, always anonymized, however many passes overlap. */
  lemma {:induction false} AnonymizedStays(es: seq<Step>, i: nat, j: nat, u: UserId)
    requires i <= j <= |es| && AnonymizedAt(StateAt(es, i), u)
    ensures AnonymizedAt(StateAt(es, j), u)
    decreases j
  {
    if i < j {
      AnonymizedStays(es, i, j - 1, u);
      AtStep(Apply, INIT, es, j - 1);
      StepKeepsAnonymized(StateAt(es, j - 1), es[j - 1], u);
    }
  }

  /** The date is rewritten by a pass that picked the user and carries another date, and by nothing else. */
  lemma StepMovesDateIff(s: State, e: Step, u: UserId)
    requires AnonymizedAt(s, u)
    ensures u in Apply(s, e).users
    ensures Apply(s, e).users[u].anonymizedAt != s.users[u].anonymizedAt <==>
            Writes(e, u) && Picked(s, e.pass, u) && Some(s.passes[e.pass].at) != s.users[u].anonymizedAt
  {
  }

  /** No scan picks an anonymized user. */
  lemma {:induction false} PickedEarlier(es: seq<Step>, i: nat, j: nat, p: PassId, u: UserId)
    requires i <= j <= |es| && AnonymizedAt(StateAt(es, i), u) && Picked(StateAt(es, j), p, u)
    ensures Picked(StateAt(es, i), p, u)
    decreases j
  {
    if i < j {
      AnonymizedStays(es, i, j - 1, u);
      AtStep(Apply, INIT, es, j - 1);
      PickedEarlier(es, i, j - 1, p, u);
    }
  }

  /**
   The date of an anonymized user changes only when a second pass, which had picked the user before
   the first one wrote, comes to the user too. Passes that do not overlap leave it as it is.
   */
  lemma {:induction false} DateMovesOnlyByOverlap(es: seq<Step>, i: nat, j: nat, u: UserId)
    requires i <= j <= |es| && AnonymizedAt(StateAt(es, i), u)
    ensures AnonymizedAt(StateAt(es, j), u)
    ensures StateAt(es, j).users[u].anonymizedAt != StateAt(es, i).users[u].anonymizedAt ==>
              exists k: nat | i <= k < j :: Writes(es[k], u) && Picked(StateAt(es, i), es[k].pass, u)
    decreases j
  {
    AnonymizedStays(es, i, j, u);
    if i < j {
      DateMovesOnlyByOverlap(es, i, j - 1, u);
      AtStep(Apply, INIT, es, j - 1);
      StepMovesDateIff(StateAt(es, j - 1), es[j - 1], u);
      if StateAt(es, j).users[u].anonymizedAt != StateAt(es, j - 1).users[u].anonymizedAt {
        PickedEarlier(es, i, j - 1, es[j - 1].pass, u);
      }
    }
  }

  /** Step `k` rewrites the date of the anonymized user. */
  ghost predicate MovesDateAt(es: seq<Step>, k: nat, u: UserId)
    requires k < |es|
  {
    var s := StateAt(es, k);
    && AnonymizedAt(s, u) && Writes(es[k], u) && Picked(s, es[k].pass, u)
    && Some(s.passes[es[k].pass].at) != s.users[u].anonymizedAt
  }

  ghost predicate DatedAt(es: seq<Step>, k: nat, u: UserId, date: int)
    requires k <= |es|
  {
    u in StateAt(es, k).users && StateAt(es, k).users[u].anonymizedAt == Some(date)
  }

  lemma RunStepKeepsDateIff(es: seq<Step>, k: nat, u: UserId, date: int)
    requires k < |es| && DatedAt(es, k, u, date)
    ensures DatedAt(es, k + 1, u, date) <==> !MovesDateAt(es, k, u)
  {
    AtStep(Apply, INIT, es, k);
    StepMovesDateIff(StateAt(es, k), es[k], u);
  }

  /**
   The date of an anonymized user stays the same through a run exactly when no step of it is the
   write of another pass that had picked the user and carries another date.
   */
  lemma DateStaysIff(es: seq<Step>, i: nat, j: nat, u: UserId, date: int)
    requires i <= j <= |es| && DatedAt(es, i, u, date)
    ensures (forall k: nat | i <= k <= j :: DatedAt(es, k, u, date)) <==>
            (forall k: nat | i <= k < j :: !MovesDateAt(es, k, u))
  {
    var kept := (k: nat) => k <= j && DatedAt(es, k, u, date);
    var bad := (k: nat) => k < j && MovesDateAt(es, k, u);
    forall k: nat | i <= k < j && kept(k) ensures kept(k + 1) <==> !bad(k) { RunStepKeepsDateIff(es, k, u, date); }
    KeptIffNeverBad(kept, bad, i, j);
    assert forall k: nat | i <= k <= j :: kept(k) <==> DatedAt(es, k, u, date);
    assert forall k: nat | i <= k < j :: bad(k) <==> MovesDateAt(es, k, u);
  }

  const OVERLAP := PICKED + [Tick(5), Scan(2, GRACE + 5), Anonymize(1, 0), Anonymize(2, 0)]

  lemma BothPassesPick()
    ensures StateAt(OVERLAP, 6) == State(GRACE + 5, DUE, map[1 := Pass(GRACE, {0}), 2 := Pass(GRACE + 5, {0})])
  {
    PickedIsScanned();
    assert OVERLAP[..4] == PICKED;
    assert Candidates(DUE, GRACE + 5) == {0};
    AtStep(Apply, INIT, OVERLAP, 4);
    AtStep(Apply, INIT, OVERLAP, 5);
  }

  /** Two passes that overlap: the second write moves the date. */
  lemma OverlapMovesDate()
    ensures DatedAt(OVERLAP, 7, 0, GRACE) && MovesDateAt(OVERLAP, 7, 0) && DatedAt(OVERLAP, 8, 0, GRACE + 5)
  {
    BothPassesPick();
    AtStep(Apply, INIT, OVERLAP, 6);
    AtStep(Apply, INIT, OVERLAP, 7);
  }

  // ----- a hold stops the clock -----

  lemma {:induction false} HeldTimeIsNotCounted(es: seq<Step>, i: nat, j: nat, u: UserId)
    requires i <= j <= |es| && ClockAt(es, i, u).Paused?
    requires forall k | i <= k < j :: es[k] != Cancel(u) && es[k] != Clear(u)
    ensures ClockAt(es, j, u) == ClockAt(es, i, u)
    decreases j
  {
    if i < j { HeldTimeIsNotCounted(es, i, j - 1, u); }
  }

  /** What the status shows is the grace minus the un-held time, in whole days rounded up. */
  lemma DaysFollowClock(es: seq<Step>, i: nat, u: UserId)
    requires i <= |es| && ClockAt(es, i, u).Counting? && !AnonymizedAt(StateAt(es, i), u)
    ensures var d := CeilDays(GRACE - ClockAt(es, i, u).ms);
            && u in StateAt(es, i).users
            && ToStatus(StateAt(es, i).users[u], StateAt(es, i).now)
               == Status(true, false, Some(if d > 0 then d else 0))
  {
    RowShowsClock(es, i, u);
    StatusOfCounting(StateAt(es, i).now, ClockAt(es, i, u).ms);
  }

  lemma StatusOfCounting(now: int, ms: nat)
    ensures var d := CeilDays(GRACE - ms);
            ToStatus(User(Some(now - ms), None, None), now) == Status(true, false, Some(if d > 0 then d else 0))
  {
    assert now - (now - ms) == ms;
  }

  /** However long a hold lasts, the user has as many days left when it is cleared as when it was applied. */
  lemma HoldPreservesGrace(es: seq<Step>, i: nat, j: nat, u: UserId)
    requires i < j < |es| && es[i] == Hold(u) && es[j] == Clear(u) && ClockAt(es, i, u).Counting?
    requires forall k | i < k < j :: es[k] != Cancel(u) && es[k] != Clear(u)
    requires !AnonymizedAt(StateAt(es, j + 1), u)
    ensures ClockAt(es, j + 1, u) == ClockAt(es, i, u)
    ensures u in StateAt(es, i).users && u in StateAt(es, j + 1).users
    ensures ToStatus(StateAt(es, j + 1).users[u], StateAt(es, j + 1).now)
            == ToStatus(StateAt(es, i).users[u], StateAt(es, i).now)
  {
    HeldTimeIsNotCounted(es, i + 1, j, u);
    if AnonymizedAt(StateAt(es, i), u) { AnonymizedStays(es, i, j + 1, u); }
    DaysFollowClock(es, i, u);
    DaysFollowClock(es, j + 1, u);
  }
}
