/** The batched tier sweep and the job chain that re-enqueues itself while batches come back full. */
module TierSweep {
  import opened Common
  import opened Tiers
  import opened Billing

  const MAX_BATCH := 10_000

  /** The batch limit the sweep applies, whatever it was asked for. */
  function Clamp(batchSize: int): (r: nat)
    ensures 1 <= r <= MAX_BATCH
  {
    if batchSize < 1 then 1 else if batchSize > MAX_BATCH then MAX_BATCH else batchSize
  }

  /** How many of `n` users one job sweeps. */
  function Swept(n: nat, batchSize: int): nat { if n < Clamp(batchSize) then n else Clamp(batchSize) }

  /** A job continues the chain when it swept as many users as it was asked for, before clamping. */
  predicate Continues(n: nat, batchSize: int) { Swept(n, batchSize) == batchSize }

  function ChainLength(n: nat, batchSize: int): nat
    requires n > 0 || batchSize != 0
  {
    if Continues(n, batchSize) then 1 + ChainLength(n - Swept(n, batchSize), batchSize) else 1
  }

  /** The users still waiting when the chain ends. */
  function LeftOver(n: nat, batchSize: int): nat
    requires n > 0 || batchSize != 0
  {
    if Continues(n, batchSize) then LeftOver(n - Swept(n, batchSize), batchSize) else n - Swept(n, batchSize)
  }

  lemma DivideOff(n: nat, b: nat)
    requires 1 <= b <= n
    ensures n / b == (n - b) / b + 1
  {
    var q, p := n / b, (n - b) / b;
    assert n == b * q + n % b && n - b == b * p + (n - b) % b;
    if q > p + 1 {
      TimesIsMonotone(b, p + 2, q);
    } else if q < p + 1 {
      TimesIsMonotone(b, q, p);
    }
  }

  lemma {:induction false} ChainLengthIsExact(n: nat, b: nat)
    requires 1 <= b <= MAX_BATCH
    ensures ChainLength(n, b) == n / b + 1 && LeftOver(n, b) == 0
  {
    if n >= b {
      ChainLengthIsExact(n - b, b);
      DivideOff(n, b);
    } else {
      assert n / b == 0;
    }
  }

  /** The chain leaves nobody behind exactly when the batch size is one the sweep honours, or one job is enough. */
  lemma ChainDrainsIff(n: nat, batchSize: int)
    requires n > 0 || batchSize != 0
    ensures LeftOver(n, batchSize) == 0 <==> 1 <= batchSize <= MAX_BATCH || n <= Clamp(batchSize)
  {
    if 1 <= batchSize <= MAX_BATCH {
      ChainLengthIsExact(n, batchSize);
    }
  }

  /** A request for more than the sweep honours ends the chain after one job, with users left. */
  lemma EarlyEndHappens()
    ensures ChainLength(20_000, 20_000) == 1 && LeftOver(20_000, 20_000) == 10_000
  {
  }

  /** The users still waiting after `k` jobs of the chain. */
  function Waiting(n: nat, batchSize: int, k: nat): nat
  {
    if k == 0 then n else Waiting(n, batchSize, k - 1) - Swept(Waiting(n, batchSize, k - 1), batchSize)
  }

  /** The first `k` jobs have all re-enqueued. */
  predicate StillGoing(n: nat, batchSize: int, k: nat)
  {
    forall m: nat | m < k :: Continues(Waiting(n, batchSize, m), batchSize)
  }

  lemma {:induction false} WaitingShifts(n: nat, batchSize: int, k: nat)
    ensures Waiting(n, batchSize, k + 1) == Waiting(n - Swept(n, batchSize), batchSize, k)
  {
    if k > 0 { WaitingShifts(n, batchSize, k - 1); }
  }

  /** A chain that has something to do, or a batch size other than 0, stops after its last job. */
  lemma {:induction false} ChainStops(n: nat, batchSize: int)
    requires n > 0 || batchSize != 0
    ensures !StillGoing(n, batchSize, ChainLength(n, batchSize))
    decreases n
  {
    if Continues(n, batchSize) {
      var rest := n - Swept(n, batchSize);
      ChainStops(rest, batchSize);
      var m: nat :| m < ChainLength(rest, batchSize) && !Continues(Waiting(rest, batchSize, m), batchSize);
      WaitingShifts(n, batchSize, m);
      assert !Continues(Waiting(n, batchSize, m + 1), batchSize);
    } else {
      assert !Continues(Waiting(n, batchSize, 0), batchSize);
    }
  }

  lemma {:induction false} NothingWaits(k: nat)
    ensures Waiting(0, 0, k) == 0
  {
    if k > 0 { NothingWaits(k - 1); }
  }

  /** The chain goes on for ever exactly when it is asked for batches of 0 and has nothing to sweep. */
  lemma NeverEndsIff(n: nat, batchSize: int)
    ensures (forall k: nat :: StillGoing(n, batchSize, k)) <==> n == 0 && batchSize == 0
  {
    if n == 0 && batchSize == 0 {
      forall k: nat ensures StillGoing(n, batchSize, k) {
        forall m: nat | m < k ensures Continues(Waiting(n, batchSize, m), batchSize) { NothingWaits(m); }
      }
    } else {
      ChainStops(n, batchSize);
    }
  }

  /** The users a sweep at `now` has work for. */
  function Backlog(entries: map<UserId, seq<Entry>>, now: Instant): set<UserId>
  {
    set u | u in entries && HasExpired(entries[u], now)
  }

  lemma SweepShrinksBacklog(entries: map<UserId, seq<Entry>>, ids: set<UserId>, now: Instant, keepUnset: bool)
    ensures Backlog(map u | u in entries ::
            if u in ids then SweepFilter(entries[u], now, keepUnset) else entries[u], now)
            == Backlog(entries, now) - ids
  {
    forall u <- entries { SweepClears(entries[u], now, keepUnset); }
  }

  class SweepService {
    var entries: map<UserId, seq<Entry>>

    /** The database picks at most `limit` matching users. */
    method FindCandidates(now: Instant, limit: nat) returns (ids: set<UserId>)
      ensures ids <= Backlog(entries, now)
      ensures forall u <- ids :: u in entries && exists e <- entries[u] :: e.expiresAt.Some? && e.expiresAt.value < now
      ensures |ids| < limit ==> forall u <- entries ::
                (exists e <- entries[u] :: e.expiresAt.Some? && e.expiresAt.value < now) ==> u in ids
      ensures |ids| == if |Backlog(entries, now)| < limit then |Backlog(entries, now)| else limit
    {
      var rest := Backlog(entries, now);
      ids := {};
      while |ids| < limit && rest != {}
        invariant ids + rest == Backlog(entries, now) && ids !! rest
        invariant |ids| <= limit && |ids| + |rest| == |Backlog(entries, now)|
        decreases rest
      {
        var u :| u in rest;
        rest := rest - {u};
        ids := ids + {u};
      }
      if rest == {} {
        assert ids == Backlog(entries, now);
      }
    }

    method SweepExpiredTiers(now: Instant, batchSize: int, keepUnset: bool) returns (sweptCount: nat, ids: set<UserId>)
      modifies this
      ensures ids <= Backlog(old(entries), now) && sweptCount == |ids| == Swept(|Backlog(old(entries), now)|, batchSize)
      ensures sweptCount == if |Backlog(old(entries), now)| < (if batchSize < 1 then 1 else if batchSize > 10_000
              then 10_000 else batchSize)
                            then |Backlog(old(entries), now)|
                            else if batchSize < 1 then 1 else if batchSize > 10_000 then 10_000 else batchSize
      ensures entries.Keys == old(entries).Keys
      ensures forall u <- entries ::
                entries[u] == if u in ids then SweepFilter(old(entries)[u], now, keepUnset) else old(entries)[u]
      ensures Backlog(entries, now) == Backlog(old(entries), now) - ids
      ensures |Backlog(entries, now)| == |Backlog(old(entries), now)| - sweptCount
    {
      ids := FindCandidates(now, Clamp(batchSize));
      sweptCount := |ids|;
      if |ids| == 0 {
        return;
      }
      SweepShrinksBacklog(entries, ids, now, keepUnset);
      entries := map u | u in entries :: if u in ids then SweepFilter(entries[u], now, keepUnset) else entries[u];
    }

    /** One `tier-sweep` job. */
    method HandleJob(now: Instant, batchSize: int, keepUnset: bool) returns (sweptCount: nat, reEnqueued: bool)
      modifies this
      ensures sweptCount == Swept(|Backlog(old(entries), now)|, batchSize)
      ensures |Backlog(entries, now)| == |Backlog(old(entries), now)| - sweptCount
      ensures reEnqueued <==> Continues(|Backlog(old(entries), now)|, batchSize)
    {
      var ids;
      sweptCount, ids := SweepExpiredTiers(now, batchSize, keepUnset);
      reEnqueued := false;
      if sweptCount == batchSize {
        reEnqueued := true;
      }
    }

    /** The continuation chain: jobs run until one does not re-enqueue. */
    method RunChain(now: Instant, batchSize: int, keepUnset: bool) returns (jobs: nat)
      requires Backlog(entries, now) != {} || batchSize != 0
      modifies this
      ensures jobs == ChainLength(|Backlog(old(entries), now)|, batchSize)
      ensures |Backlog(entries, now)| == LeftOver(|Backlog(old(entries), now)|, batchSize)
      ensures 1 <= batchSize <= MAX_BATCH ==>
                jobs == |Backlog(old(entries), now)| / batchSize + 1 && Backlog(entries, now) == {}
    {
      ghost var n := |Backlog(entries, now)|;
      var swept, again := HandleJob(now, batchSize, keepUnset);
      jobs := 1;
      while again
        invariant 0 <= batchSize || !again
        invariant again ==> batchSize > 0
        invariant again ==> jobs + ChainLength(|Backlog(entries, now)|, batchSize) == ChainLength(n, batchSize)
        invariant again ==> LeftOver(|Backlog(entries, now)|, batchSize) == LeftOver(n, batchSize)
        invariant !again ==> jobs == ChainLength(n, batchSize) && |Backlog(entries, now)| == LeftOver(n, batchSize)
        decreases again, |Backlog(entries, now)|
      {
        swept, again := HandleJob(now, batchSize, keepUnset);
        jobs := jobs + 1;
      }
      if 1 <= batchSize <= MAX_BATCH {
        ChainLengthIsExact(n, batchSize);
      }
    }
  }
}
