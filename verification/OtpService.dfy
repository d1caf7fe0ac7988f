/** The lockout store with its two maps, and the one-time-password service that drives it. */
module OtpService {
  import opened Lockout

  class InMemoryLockoutStore {
    /** What the clock shows. */
    var now: int
    var locks: map<Phone, int>
    var fails: map<Phone, Counter>

    ghost function View(): State
      reads this
    {
      State(now, locks, fails)
    }

    constructor ()
      ensures View() == INIT
    {
      now, locks, fails := 0, map[], map[];
    }

    method IsLockedNow(p: Phone) returns (locked: bool)
      modifies this`locks
      ensures View() == DropExpiredLock(old(View()), p)
      ensures locked == IsLocked(old(View()), p) == IsLocked(View(), p)
      ensures locked <==> p in old(locks) && now < old(locks)[p]
      ensures locks == if locked then old(locks) else old(locks) - {p}
    {
      if p !in locks { return false; }
      if locks[p] <= now {
        locks := locks - {p};
        return false;
      }
      locked := true;
    }

    method Lock(p: Phone, ttlMs: nat)
      modifies this`locks
      ensures locks == old(locks)[p := now + ttlMs]
    {
      locks := locks[p := now + ttlMs];
    }

    method IncrementFails(p: Phone, windowMs: nat) returns (count: nat)
      modifies this`fails
      ensures fails == old(fails)[p := Increment(old(View()), p, windowMs)]
      ensures count == fails[p].count == LiveCount(old(View()), p) + 1
    {
      if p in fails && fails[p].expiresAt > now {
        fails := fails[p := fails[p].(count := fails[p].count + 1)];
        return fails[p].count;
      }
      fails := fails[p := Counter(1, now + windowMs)];
      count := 1;
    }

    method ClearFails(p: Phone)
      modifies this`fails
      ensures fails == old(fails) - {p}
    {
      fails := fails - {p};
    }
  }

  class OtpService {
    const store: InMemoryLockoutStore

    constructor ()
      ensures fresh(store) && store.View() == INIT
    {
      store := new InMemoryLockoutStore();
    }

    /** True when this failure locks the phone. */
    method RecordFailAndMaybeLock(p: Phone) returns (locked: bool)
      modifies store
      ensures store.View() == RecordFail(old(store.View()), p)
      ensures locked <==> LiveCount(old(store.View()), p) + 1 >= LOCKOUT_TRIGGER_FAILS
    {
      var count := store.IncrementFails(p, LOCKOUT_WINDOW_MS);
      locked := count >= LOCKOUT_TRIGGER_FAILS;
      if locked { store.Lock(p, LOCKOUT_WINDOW_MS); }
    }

    /** `found` is what the lookup of the active row and the hash comparison give. */
    method VerifyOtp(p: Phone, found: Lookup) returns (r: Answer)
      modifies store
      ensures store.View() == Apply(old(store.View()), Verify(p, found))
      ensures r == Verified <==> !IsLocked(old(store.View()), p) && found == Match
      ensures r == OtpLocked <==> IsLocked(store.View(), p)
      ensures IsLocked(old(store.View()), p) ==> store.View() == old(store.View())
      ensures !IsLocked(old(store.View()), p) && found in {NoRow, AttemptsSpent, Mismatch} ==>
                && p in store.fails && store.fails[p].count == LiveCount(old(store.View()), p) + 1
                && (r == OtpLocked <==> store.fails[p].count >= 3)
                && (r == OtpLocked ==> p in store.locks && store.locks[p] == store.now + 30 * 60 * 1000)
      ensures !IsLocked(old(store.View()), p) && found == Match ==> store.fails == old(store.fails) - {p}
      ensures !IsLocked(old(store.View()), p) && found == NoHash ==> r == InvalidOtp && store.fails == old(store.fails)
    {
      var locked := store.IsLockedNow(p);
      if locked { return OtpLocked; }
      match found {
        case NoHash => r := InvalidOtp;
        case Match =>
          store.ClearFails(p);
          r := Verified;
        case _ =>
          locked := RecordFailAndMaybeLock(p);
          r := if locked then OtpLocked else InvalidOtp;
      }
    }

    /** False stands for OTP_LOCKED; a send never touches the counter. */
    method SendOtp(p: Phone) returns (sent: bool)
      modifies store
      ensures store.View() == Apply(old(store.View()), Send(p)) && (sent <==> !IsLocked(old(store.View()), p))
    {
      var locked := store.IsLockedNow(p);
      sent := !locked;
    }
  }
}
