/**
 OTP lockout: per phone a lock with an expiry and a failure counter whose expiry is set by its
 first failure. Verifies of one phone come one after another; the clock never goes back.
 */
module Lockout {
  import opened Runs

  type Phone = nat

  const LOCKOUT_TRIGGER_FAILS := 3
  const LOCKOUT_WINDOW_MS := 30 * 60 * 1000

  datatype Counter = Counter(count: nat, expiresAt: int)

  datatype State = State(now: int, locks: map<Phone, int>, fails: map<Phone, Counter>)

  /**
   What the lookup of the active one-time password finds: no row, a used-up row, a row without a hash, or a
   comparison.
   */
  datatype Lookup = NoRow | AttemptsSpent | NoHash | Mismatch | Match

  datatype Answer = OtpLocked | InvalidOtp | Verified

  datatype Step =
    | Tick(ms: nat)
    | Send(phone: Phone)
    | Verify(phone: Phone, found: Lookup)

  const INIT := State(0, map[], map[])

  predicate IsLocked(s: State, p: Phone) { p in s.locks && s.locks[p] > s.now }

  /** The counter while it has not expired. */
  function LiveCount(s: State, p: Phone): nat
  {
    if p in s.fails && s.fails[p].expiresAt > s.now then s.fails[p].count else 0
  }

  /** Reading the lock drops it when it has expired. */
  function DropExpiredLock(s: State, p: Phone): State
  {
    if p in s.locks && s.locks[p] <= s.now then s.(locks := s.locks - {p}) else s
  }

  function Increment(s: State, p: Phone, windowMs: nat): Counter
  {
    if p in s.fails && s.fails[p].expiresAt > s.now then s.fails[p].(count := s.fails[p].count + 1)
        else Counter(1, s.now + windowMs)
  }

  function RecordFail(s: State, p: Phone): State
  {
    var c := Increment(s, p, LOCKOUT_WINDOW_MS);
    var s' := s.(fails := s.fails[p := c]);
    if c.count >= LOCKOUT_TRIGGER_FAILS then s'.(locks := s.locks[p := s.now + LOCKOUT_WINDOW_MS]) else s'
  }

  predicate CountedFail(found: Lookup) { found in {NoRow, AttemptsSpent, Mismatch} }

  function Apply(s: State, e: Step): State
  {
    match e
    case Tick(ms) => s.(now := s.now + ms)
    case Send(p) => DropExpiredLock(s, p)
    case Verify(p, found) =>
      if IsLocked(s, p) then s
      else
        var s' := DropExpiredLock(s, p);
        if CountedFail(found) then RecordFail(s', p)
        else if found == Match then s'.(fails := s.fails - {p})
        else s'
  }

  // ----- the failures of a phone, read off the run -----

  ghost function StateAt(es: seq<Step>, i: nat): State
    requires i <= |es|
  {
    At(Apply, INIT, es, i)
  }

  /** The failure times after one more step: a counted failure is appended, a success empties the list. */
  ghost function NextFailures(s: State, e: Step, p: Phone, h: seq<int>): seq<int>
  {
    if !e.Verify? || e.phone != p || IsLocked(s, p) then h
    else if e.found in {NoRow, AttemptsSpent, Mismatch} then h + [s.now]
    else if e.found == Match then []
    else h
  }

  /** When the counted failures since the phone's last success happened. */
  ghost function Failures(es: seq<Step>, i: nat, p: Phone): seq<int>
    requires i <= |es|
  {
    if i == 0 then [] else NextFailures(StateAt(es, i - 1), es[i - 1], p, Failures(es, i - 1, p))
  }

  // ----- how the stored counter and lock relate to those failures -----

  ghost predicate InOrder(h: seq<int>, now: int)
  {
    (forall i, j | 0 <= i <= j < |h| :: h[i] <= h[j]) && (h != [] ==> h[|h| - 1] <= now)
  }

  /** Any five failures in a row span the window. */
  ghost predicate Spaced(h: seq<int>) { forall k | 0 <= k < |h| - 4 :: h[k + 4] >= h[k] + LOCKOUT_WINDOW_MS }

  /** The counter counts the last `count` failures and expires a window after the first of them. */
  ghost predicate CounterOk(s: State, p: Phone, h: seq<int>)
  {
    if p in s.fails then
      var c, n := s.fails[p].count, |h|;
      && 1 <= c <= n && c <= LOCKOUT_TRIGGER_FAILS
      && s.fails[p].expiresAt == h[n - c] + LOCKOUT_WINDOW_MS > h[n - 1]
      && (n - c >= 2 ==> h[n - c] >= h[n - c - 2] + LOCKOUT_WINDOW_MS)
    else h == []
  }

  /** The phone is locked exactly for one window after the third failure that the counter counts. */
  ghost predicate LockOk(s: State, p: Phone, h: seq<int>)
  {
    IsLocked(s, p) <==>
    && p in s.fails && s.fails[p].count == LOCKOUT_TRIGGER_FAILS
    && h != [] && s.now < h[|h| - 1] + LOCKOUT_WINDOW_MS
  }

  ghost predicate LockTime(s: State, p: Phone, h: seq<int>)
  {
    IsLocked(s, p) ==> h != [] && s.locks[p] == h[|h| - 1] + LOCKOUT_WINDOW_MS
  }

  ghost predicate Inv(s: State, p: Phone, h: seq<int>)
  {
    InOrder(h, s.now) && Spaced(h) && CounterOk(s, p, h) && LockOk(s, p, h) && LockTime(s, p, h)
  }

  /** The counter has room for one more failure, or its window is over; and four failures before lie a window back. */
  lemma RoomForFailure(s: State, p: Phone, h: seq<int>)
    requires Inv(s, p, h) && !IsLocked(s, p)
    ensures LiveCount(s, p) < LOCKOUT_TRIGGER_FAILS
    ensures |h| >= 4 ==> s.now >= h[|h| - 4] + LOCKOUT_WINDOW_MS
    ensures |h| >= 2 && LiveCount(s, p) == 0 ==> s.now >= h[|h| - 2] + LOCKOUT_WINDOW_MS
  {
    if p in s.fails {
      var n, c := |h|, s.fails[p].count;
      assert c == 1 || c == 2 || c == 3;
      assert n >= 4 ==> h[n - 4] <= h[n - 3] <= h[n - 2] <= h[n - 1];
    }
  }

  lemma FailKeepsHistory(s: State, p: Phone, h: seq<int>)
    requires Inv(s, p, h) && !IsLocked(s, p)
    ensures InOrder(h + [s.now], s.now) && Spaced(h + [s.now])
  {
    RoomForFailure(s, p, h);
  }

  lemma FailKeepsCounter(s: State, p: Phone, h: seq<int>)
    requires Inv(s, p, h) && !IsLocked(s, p)
    ensures CounterOk(RecordFail(DropExpiredLock(s, p), p), p, h + [s.now])
  {
    RoomForFailure(s, p, h);
  }

  lemma FailKeepsLock(s: State, p: Phone, h: seq<int>)
    requires Inv(s, p, h) && !IsLocked(s, p)
    ensures var s' := RecordFail(DropExpiredLock(s, p), p); LockOk(s', p, h + [s.now]) && LockTime(s', p, h + [s.now])
  {
    RoomForFailure(s, p, h);
  }

  lemma FailKeepsInv(s: State, p: Phone, h: seq<int>)
    requires Inv(s, p, h) && !IsLocked(s, p)
    ensures Inv(RecordFail(DropExpiredLock(s, p), p), p, h + [s.now])
  {
    FailKeepsHistory(s, p, h);
    FailKeepsCounter(s, p, h);
    FailKeepsLock(s, p, h);
  }

  /** What a step of another phone, a send or an uncounted verify can do to this phone's rows. */
  lemma FrameKeepsInv(s: State, s': State, p: Phone, h: seq<int>)
    requires Inv(s, p, h) && s'.now == s.now && (IsLocked(s', p) <==> IsLocked(s, p))
             && (IsLocked(s, p) ==> s'.locks[p] == s.locks[p])
    requires (p in s'.fails <==> p in s.fails) && (p in s.fails ==> s'.fails[p] == s.fails[p])
    ensures Inv(s', p, h)
  {
  }

  lemma TickKeepsInv(s: State, ms: nat, p: Phone, h: seq<int>)
    requires Inv(s, p, h)
    ensures Inv(Apply(s, Tick(ms)), p, h)
  {
  }

  lemma SuccessKeepsInv(s: State, p: Phone, h: seq<int>)
    requires Inv(s, p, h) && !IsLocked(s, p)
    ensures Inv(Apply(s, Verify(p, Match)), p, [])
  {
  }

  lemma UnrelatedStepFrames(s: State, e: Step, p: Phone)
    requires e.Send? || (e.Verify? && (e.phone != p || IsLocked(s, p) || e.found == NoHash))
    ensures var s' := Apply(s, e);
            && s'.now == s.now && (IsLocked(s', p) <==> IsLocked(s, p))
               && (IsLocked(s, p) ==> s'.locks[p] == s.locks[p])
            && (p in s'.fails <==> p in s.fails) && (p in s.fails ==> s'.fails[p] == s.fails[p])
  {
  }

  lemma StepKeepsInv(s: State, e: Step, p: Phone, h: seq<int>)
    requires Inv(s, p, h)
    ensures Inv(Apply(s, e), p, NextFailures(s, e, p, h))
  {
    if e.Tick? {
      TickKeepsInv(s, e.ms, p, h);
    } else if e.Send? || e.phone != p || IsLocked(s, p) || e.found == NoHash {
      UnrelatedStepFrames(s, e, p);
      FrameKeepsInv(s, Apply(s, e), p, h);
    } else if CountedFail(e.found) {
      FailKeepsInv(s, p, h);
    } else {
      SuccessKeepsInv(s, p, h);
    }
  }

  lemma {:induction false} ReachableInv(es: seq<Step>, i: nat, p: Phone)
    requires i <= |es|
    ensures Inv(StateAt(es, i), p, Failures(es, i, p))
  {
    if i > 0 {
      ReachableInv(es, i - 1, p);
      AtStep(Apply, INIT, es, i - 1);
      StepKeepsInv(StateAt(es, i - 1), es[i - 1], p, Failures(es, i - 1, p));
    }
  }

  // ----- theorems about every run -----

  /** A live count never exceeds three, and a count of three is live only behind a lock that outlives it. */
  lemma LockOutlivesCounter(es: seq<Step>, i: nat, p: Phone)
    requires i <= |es|
    ensures var s := StateAt(es, i);
            && LiveCount(s, p) <= 3
            && (LiveCount(s, p) == 3 ==> IsLocked(s, p) && s.locks[p] >= s.fails[p].expiresAt)
  {
    ReachableInv(es, i, p);
  }

  /** Between successes, a half-open window of 30 minutes holds at most four counted failures. */
  lemma AtMostFourPerWindow(es: seq<Step>, i: nat, p: Phone, from: int, a: nat, b: nat)
    requires i <= |es| && a <= b < |Failures(es, i, p)|
    requires from <= Failures(es, i, p)[a] && Failures(es, i, p)[b] < from + 30 * 60 * 1000
    ensures b - a + 1 <= 4
  {
    ReachableInv(es, i, p);
    var h := Failures(es, i, p);
    assert a + 4 < |h| ==> h[a + 4] >= h[a] + LOCKOUT_WINDOW_MS;
  }

  /** A lock is always earned: three failures within a window, the last of them less than a window ago. */
  lemma LockIsEarned(es: seq<Step>, i: nat, p: Phone)
    requires i <= |es| && IsLocked(StateAt(es, i), p)
    ensures var h := Failures(es, i, p);
            && |h| >= 3 && h[|h| - 1] < h[|h| - 3] + 30 * 60 * 1000
            && StateAt(es, i).now < h[|h| - 1] + 30 * 60 * 1000 == StateAt(es, i).locks[p]
  {
    ReachableInv(es, i, p);
  }

  /**
   Which failure opened the window that the last one falls into, from the times alone: a failure
   opens a window of its own when the window before it is over.
   */
  ghost function Opener(h: seq<int>): (k: nat)
    requires h != []
    ensures k < |h|
  {
    var n := |h| - 1;
    if n == 0 then 0
    else
      var before := Opener(h[..n]);
      if h[n] >= h[before] + LOCKOUT_WINDOW_MS then n else before
  }

  /** The stored counter counts the failures from the opener on. */
  ghost predicate CountsFromOpener(s: State, p: Phone, h: seq<int>)
  {
    p in s.fails ==> h != [] && s.fails[p].count == |h| - Opener(h)
  }

  lemma FailCountsFromOpener(s: State, p: Phone, h: seq<int>)
    requires Inv(s, p, h) && CountsFromOpener(s, p, h) && !IsLocked(s, p)
    ensures CountsFromOpener(RecordFail(DropExpiredLock(s, p), p), p, h + [s.now])
  {
    assert (h + [s.now])[..|h|] == h;
  }

  lemma StepCountsFromOpener(s: State, e: Step, p: Phone, h: seq<int>)
    requires Inv(s, p, h) && CountsFromOpener(s, p, h)
    ensures CountsFromOpener(Apply(s, e), p, NextFailures(s, e, p, h))
  {
    if e.Verify? && e.phone == p && !IsLocked(s, p) && CountedFail(e.found) {
      FailCountsFromOpener(s, p, h);
    }
  }

  lemma {:induction false} RunCountsFromOpener(es: seq<Step>, i: nat, p: Phone)
    requires i <= |es|
    ensures CountsFromOpener(StateAt(es, i), p, Failures(es, i, p))
  {
    if i > 0 {
      RunCountsFromOpener(es, i - 1, p);
      ReachableInv(es, i - 1, p);
      AtStep(Apply, INIT, es, i - 1);
      StepCountsFromOpener(StateAt(es, i - 1), es[i - 1], p, Failures(es, i - 1, p));
    }
  }

  /** Step `i` is a counted failure of a phone that is not locked. */
  ghost predicate FailsAt(es: seq<Step>, i: nat, p: Phone)
    requires i < |es|
  {
    && es[i].Verify? && es[i].phone == p && es[i].found in {NoRow, AttemptsSpent, Mismatch}
    && !IsLocked(StateAt(es, i), p)
  }

  /** What any wrong code does to an unlocked phone: it counts, and the third within a window locks. */
  lemma WrongCodeCounts(s: State, p: Phone, found: Lookup)
    requires !IsLocked(s, p) && found in {NoRow, AttemptsSpent, Mismatch}
    ensures var s' := Apply(s, Verify(p, found));
            && s'.now == s.now && p in s'.fails
            && s'.fails[p] == (if LiveCount(s, p) > 0 then Counter(LiveCount(s, p) + 1, s.fails[p].expiresAt)
                               else if p in s.fails && s.fails[p].expiresAt > s.now
                                   then Counter(1, s.fails[p].expiresAt)
                               else Counter(1, s.now + 30 * 60 * 1000))
            && (IsLocked(s', p) <==> s'.fails[p].count >= 3)
            && (IsLocked(s', p) ==> s'.locks[p] == s.now + 30 * 60 * 1000)
  {
  }

  lemma FailLocksIff(s: State, p: Phone, found: Lookup, h: seq<int>)
    requires Inv(s, p, h) && CountsFromOpener(s, p, h) && !IsLocked(s, p) && found in {NoRow, AttemptsSpent, Mismatch}
    ensures var s', h' := Apply(s, Verify(p, found)), h + [s.now];
            && (IsLocked(s', p) <==> LiveCount(s, p) == 2)
            && (IsLocked(s', p) <==> Opener(h') == |h'| - 3)
            && (IsLocked(s', p) ==> h'[|h'| - 1] < h'[|h'| - 3] + 30 * 60 * 1000)
  {
    WrongCodeCounts(s, p, found);
    FailKeepsInv(s, p, h);
    FailCountsFromOpener(s, p, h);
    RoomForFailure(s, p, h);
  }

  /**
   Exactly when a failure locks: when two failures are live before it, which is when the failure two
   before it opened the window. That the last three lie within 30 minutes of each other is implied,
   and is not enough.
   */
  lemma FailureLocksIff(es: seq<Step>, i: nat, p: Phone)
    requires i < |es| && FailsAt(es, i, p)
    ensures var h := Failures(es, i + 1, p);
            && h == Failures(es, i, p) + [StateAt(es, i).now]
            && (IsLocked(StateAt(es, i + 1), p) <==> LiveCount(StateAt(es, i), p) == 2)
            && (IsLocked(StateAt(es, i + 1), p) <==> Opener(h) == |h| - 3)
            && (IsLocked(StateAt(es, i + 1), p) ==> h[|h| - 1] < h[|h| - 3] + 30 * 60 * 1000)
  {
    ReachableInv(es, i, p);
    RunCountsFromOpener(es, i, p);
    AtStep(Apply, INIT, es, i);
    FailLocksIff(StateAt(es, i), p, es[i].found, Failures(es, i, p));
  }

  /**
   The promise of a rolling window, that a third failure within 30 minutes locks, is kept at a
   failure exactly when the first of the three opened the counter's window.
   */
  lemma RollingWindowIff(es: seq<Step>, i: nat, p: Phone)
    requires i < |es| && FailsAt(es, i, p)
    ensures var h := Failures(es, i + 1, p);
            var third := |h| >= 3 && h[|h| - 1] < h[|h| - 3] + 30 * 60 * 1000;
            (third ==> IsLocked(StateAt(es, i + 1), p)) <==> !third || Opener(h) == |h| - 3
  {
    FailureLocksIff(es, i, p);
  }

  /** Two failures in one counter's window and three in the next, four of them within one millisecond. */
  const BURSTS := [Verify(0, NoRow), Tick(LOCKOUT_WINDOW_MS - 1), Verify(0, NoRow), Tick(1), Verify(0, NoRow),
      Verify(0, NoRow), Verify(0, NoRow)]

  lemma BurstStep(i: nat, s: State, h: seq<int>)
    requires i < 7 && StateAt(BURSTS, i) == s && Failures(BURSTS, i, 0) == h
    ensures StateAt(BURSTS, i + 1) == Apply(s, BURSTS[i])
            && Failures(BURSTS, i + 1, 0) == NextFailures(s, BURSTS[i], 0, h)
  {
    AtStep(Apply, INIT, BURSTS, i);
  }

  lemma FirstBurst()
    ensures StateAt(BURSTS, 4) == State(LOCKOUT_WINDOW_MS, map[], map[0 := Counter(2, LOCKOUT_WINDOW_MS)])
    ensures Failures(BURSTS, 4, 0) == [0, LOCKOUT_WINDOW_MS - 1]
  {
    var w := LOCKOUT_WINDOW_MS;
    BurstStep(0, INIT, []);
    BurstStep(1, State(0, map[], map[0 := Counter(1, w)]), [0]);
    BurstStep(2, State(w - 1, map[], map[0 := Counter(1, w)]), [0]);
    BurstStep(3, State(w - 1, map[], map[0 := Counter(2, w)]), [0, w - 1]);
  }

  /**
   Four is reached, and the window is the counter's, not a rolling one: the fourth failure is the
   third within a minute and still does not lock.
   */
  lemma FourIsReached()
    ensures !IsLocked(StateAt(BURSTS, 6), 0)
    ensures Failures(BURSTS, 6, 0) == [0, LOCKOUT_WINDOW_MS - 1, LOCKOUT_WINDOW_MS, LOCKOUT_WINDOW_MS]
    ensures IsLocked(StateAt(BURSTS, 7), 0)
    ensures Failures(BURSTS, 7, 0) ==
            [0, LOCKOUT_WINDOW_MS - 1, LOCKOUT_WINDOW_MS, LOCKOUT_WINDOW_MS, LOCKOUT_WINDOW_MS]
  {
    var w := LOCKOUT_WINDOW_MS;
    FirstBurst();
    BurstStep(4, State(w, map[], map[0 := Counter(2, w)]), [0, w - 1]);
    BurstStep(5, State(w, map[], map[0 := Counter(1, w + w)]), [0, w - 1, w]);
    BurstStep(6, State(w, map[], map[0 := Counter(2, w + w)]), [0, w - 1, w, w]);
  }

  /** From a phone without a live failure: three wrong codes within half an hour lock it, for half an hour. */
  lemma ThreeWrongCodesLock(s: State, p: Phone, a: nat, b: nat)
    requires !IsLocked(s, p) && (p in s.fails ==> s.fails[p].expiresAt <= s.now) && a + b < 30 * 60 * 1000
    ensures var s1 := Apply(Apply(s, Verify(p, Mismatch)), Tick(a));
            var s2 := Apply(Apply(s1, Verify(p, Mismatch)), Tick(b));
            var s3 := Apply(s2, Verify(p, Mismatch));
            && !IsLocked(s1, p) && !IsLocked(s2, p)
            && IsLocked(s3, p) && s3.locks[p] == s.now + a + b + 30 * 60 * 1000
  {
    WrongCodeCounts(s, p, Mismatch);
    var s1 := Apply(Apply(s, Verify(p, Mismatch)), Tick(a));
    WrongCodeCounts(s1, p, Mismatch);
    var s2 := Apply(Apply(s1, Verify(p, Mismatch)), Tick(b));
    WrongCodeCounts(s2, p, Mismatch);
  }

  /** A right code on an unlocked phone forgets its failures. */
  lemma RightCodeForgives(s: State, p: Phone)
    requires !IsLocked(s, p)
    ensures var s' := Apply(s, Verify(p, Match)); LiveCount(s', p) == 0 && !IsLocked(s', p)
  {
  }
}
