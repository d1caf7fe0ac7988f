/**
 The daily prize pool of a tier. A computation reads votes, configuration and donations, in any
 order and with others writing in between, and then inserts the row unless the (tier, day) already
 has one; the row stores neither share, so later runs and reads take them back out of it.
 */
module PrizePools {
  import opened Common
  import opened Runs
  import opened Tiers

  type DayKey = nat
  type RunId = nat

  datatype Config = Config(baseRate: nat, pro: nat, proMax: nat)

  const DEFAULT_CONFIG := Config(100, 5, 10)

  /** What one computation read. */
  datatype Snapshot = Snapshot(tier: Tier, day: DayKey, yesterday: DayKey, voteCount: nat, config: Config,
      donations: nat)

  datatype Figures = Figures(tier: Tier, voteCount: int, multiplier: int, baseRate: int, voteShare: int,
      donationShare: int, total: int, gift: int, room: int)

  datatype Pool = Pool(tier: Tier, voteCount: int, baseRate: int, total: int, gift: int, room: int, pro: int,
      proMax: int)

  /** A computation has made some of its three reads, or has finished on what it read. */
  datatype Computation =
    | Reading(tier: Tier, day: DayKey, yesterday: DayKey, voteCount: Option<nat>, config: Option<Config>,
        donations: Option<nat>)
    | Finished(snap: Snapshot, created: bool, figures: Figures)

  datatype State = State(pools: map<(Tier, DayKey), Pool>, runs: map<RunId, Computation>,
                         votes: map<(Tier, DayKey), nat>, donations: map<DayKey, nat>, config: Option<Config>)

  datatype Step =
    | CountVote(tier: Tier, day: DayKey)
    | Donate(day: DayKey, paise: nat)
    | SetConfig(config: Config)
    | Begin(run: RunId, tier: Tier, day: DayKey, yesterday: DayKey)
    | ReadVotes(run: RunId)
    | ReadConfig(run: RunId)
    | ReadDonations(run: RunId)
    | Upsert(run: RunId, gift: nat)

  const INIT := State(map[], map[], map[], map[], None)

  function Multiplier(t: Tier, pro: int, proMax: int): int
  {
    if t == PRO then pro else if t == PRO_MAX then proMax else 1
  }

  function VoteShare(snap: Snapshot): int
  {
    snap.voteCount * snap.config.baseRate * Multiplier(snap.tier, snap.config.pro, snap.config.proMax)
  }

  function Total(snap: Snapshot): int { VoteShare(snap) + snap.donations }

  /** What the winner reports; `gift` is the floor of the 0.7 share, computed in floating point. */
  function Computed(snap: Snapshot, gift: nat): Figures
  {
    Figures(snap.tier, snap.voteCount, Multiplier(snap.tier, snap.config.pro, snap.config.proMax), snap.config.baseRate,
            VoteShare(snap), snap.donations, Total(snap), gift, Total(snap) - gift)
  }

  /** What the winner stores. */
  function Seed(snap: Snapshot, gift: nat): Pool
  {
    Pool(snap.tier, snap.voteCount, snap.config.baseRate, Total(snap), gift, Total(snap) - gift, snap.config.pro,
        snap.config.proMax)
  }

  /** What everyone after the winner reports. */
  function Rebuilt(p: Pool): Figures
  {
    var m := Multiplier(p.tier, p.pro, p.proMax);
    var share := p.voteCount * p.baseRate * m;
    Figures(p.tier, p.voteCount, m, p.baseRate, share, p.total - share, p.total, p.gift, p.room)
  }

  function Pending(t: Tier): Figures { Figures(t, 0, 0, 0, 0, 0, 0, 0, 0) }

  function Today(s: State, t: Tier, d: DayKey): Figures
  {
    if (t, d) in s.pools then Rebuilt(s.pools[(t, d)]) else Pending(t)
  }

  function Lookup<K>(m: map<K, nat>, k: K): nat { if k in m then m[k] else 0 }

  predicate IsReading(s: State, r: RunId) { r in s.runs && s.runs[r].Reading? }

  predicate HasRead(s: State, r: RunId)
  {
    IsReading(s, r) && s.runs[r].voteCount.Some? && s.runs[r].config.Some? && s.runs[r].donations.Some?
  }

  function SnapshotOf(c: Computation): Snapshot
    requires c.Reading? && c.voteCount.Some? && c.config.Some? && c.donations.Some?
  {
    Snapshot(c.tier, c.day, c.yesterday, c.voteCount.value, c.config.value, c.donations.value)
  }

  function CurrentConfig(s: State): Config { if s.config.Some? then s.config.value else DEFAULT_CONFIG }

  /** Only the PUBLIC pool asks for donations. */
  function DonationsFor(s: State, t: Tier, day: DayKey): nat { if t == PUBLIC then Lookup(s.donations, day) else 0 }

  function Note(s: State, r: RunId, c: Computation): State { s.(runs := s.runs[r := c]) }

  /** The upsert of a computation that has read everything. */
  function Publish(s: State, r: RunId, snap: Snapshot, gift: nat): State
  {
    var k := (snap.tier, snap.day);
    if k in s.pools then Note(s, r, Finished(snap, false, Rebuilt(s.pools[k])))
    else Note(s.(pools := s.pools[k := Seed(snap, gift)]), r, Finished(snap, true, Computed(snap, gift)))
  }

  function Apply(s: State, e: Step): State
  {
    match e
    case CountVote(t, d) => s.(votes := s.votes[(t, d) := Lookup(s.votes, (t, d)) + 1])
    case Donate(d, paise) => s.(donations := s.donations[d := Lookup(s.donations, d) + paise])
    case SetConfig(c) => s.(config := Some(c))
    case Begin(r, t, d, yesterday) => if r in s.runs then s else Note(s, r, Reading(t, d, yesterday, None, None, None))
    case ReadVotes(r) =>
      if IsReading(s, r) && s.runs[r].voteCount.None?
      then Note(s, r, s.runs[r].(voteCount := Some(Lookup(s.votes, (s.runs[r].tier, s.runs[r].yesterday))))) else s
    case ReadConfig(r) =>
      if IsReading(s, r) && s.runs[r].config.None?
      then Note(s, r, s.runs[r].(config := Some(CurrentConfig(s)))) else s
    case ReadDonations(r) =>
      if IsReading(s, r) && s.runs[r].donations.None?
      then Note(s, r, s.runs[r].(donations := Some(DonationsFor(s, s.runs[r].tier, s.runs[r].yesterday)))) else s
    case Upsert(r, gift) =>
      if HasRead(s, r) && gift <= Total(SnapshotOf(s.runs[r])) then Publish(s, r, SnapshotOf(s.runs[r]), gift) else s
  }

  // ----- what every reachable state satisfies -----

  /** The stored row gives back the shares that it does not store. */
  lemma RebuildIsExact(snap: Snapshot, gift: nat)
    ensures Rebuilt(Seed(snap, gift)) == Computed(snap, gift)
  {
  }

  lemma ShareIsNatural(snap: Snapshot)
    ensures VoteShare(snap) >= 0
  {
    var m := Multiplier(snap.tier, snap.config.pro, snap.config.proMax);
    assert snap.voteCount * snap.config.baseRate >= 0 && m >= 0;
  }

  /** The money adds up: shares to the total, budgets to the total, and nothing is negative. */
  ghost predicate Sound(f: Figures)
  {
    && f.voteShare == f.voteCount * f.baseRate * f.multiplier
    && f.voteShare + f.donationShare == f.total == f.gift + f.room
    && f.voteShare >= 0 && f.donationShare >= 0 && f.gift >= 0 && f.room >= 0
    && (f.tier != PUBLIC ==> f.donationShare == 0)
  }

  ghost predicate SnapshotOk(snap: Snapshot) { snap.tier != PUBLIC ==> snap.donations == 0 }

  function Key(c: Computation): (Tier, DayKey)
    requires c.Finished?
  {
    (c.snap.tier, c.snap.day)
  }

  ghost predicate ComputationOk(s: State, c: Computation)
  {
    && (if c.Finished? then SnapshotOk(c.snap) else c.tier != PUBLIC && c.donations.Some? ==> c.donations.value == 0)
    && (c.Finished? ==> Key(c) in s.pools && c.figures == Rebuilt(s.pools[Key(c)]))
    && (c.Finished? && c.created ==> exists gift: nat | gift <= Total(c.snap) :: c.figures == Computed(c.snap, gift))
  }

  predicate Created(s: State, r: RunId, k: (Tier, DayKey))
  {
    r in s.runs && s.runs[r].Finished? && s.runs[r].created && Key(s.runs[r]) == k
  }

  ghost predicate PoolOk(s: State, k: (Tier, DayKey))
    requires k in s.pools
  {
    s.pools[k].tier == k.0 && Sound(Rebuilt(s.pools[k])) && exists r :: Created(s, r, k)
  }

  ghost predicate Inv(s: State)
  {
    && (forall r <- s.runs :: ComputationOk(s, s.runs[r]))
    && (forall k <- s.pools :: PoolOk(s, k))
    && (forall k, r, q | Created(s, r, k) && Created(s, q, k) :: r == q)
  }

  lemma SeedIsSound(snap: Snapshot, gift: nat)
    requires gift <= Total(snap) && SnapshotOk(snap)
    ensures Sound(Rebuilt(Seed(snap, gift)))
  {
    RebuildIsExact(snap, gift);
    ShareIsNatural(snap);
  }

  /** Rows are inserted once and never changed, and a finished computation keeps its answer. */
  ghost predicate Extends(s: State, s': State)
  {
    && (forall k <- s.pools :: k in s'.pools && s'.pools[k] == s.pools[k])
    && (forall r <- s.runs :: r in s'.runs && (s.runs[r].Finished? ==> s'.runs[r] == s.runs[r]))
  }

  lemma StepExtends(s: State, e: Step)
    ensures Extends(s, Apply(s, e))
  {
  }

  lemma ExtensionKeepsComputation(s: State, s': State, c: Computation)
    requires Extends(s, s') && ComputationOk(s, c)
    ensures ComputationOk(s', c)
  {
  }

  lemma PublishedOk(s: State, r: RunId, gift: nat)
    requires HasRead(s, r) && ComputationOk(s, s.runs[r]) && gift <= Total(SnapshotOf(s.runs[r]))
    ensures var s' := Publish(s, r, SnapshotOf(s.runs[r]), gift); r in s'.runs && ComputationOk(s', s'.runs[r])
  {
    RebuildIsExact(SnapshotOf(s.runs[r]), gift);
  }

  lemma ReadOk(s: State, e: Step, r: RunId)
    requires !e.Upsert? && r in Apply(s, e).runs && (r in s.runs ==> ComputationOk(s, s.runs[r]))
    requires r in s.runs ==> Apply(s, e).runs[r] != s.runs[r]
    ensures ComputationOk(Apply(s, e), Apply(s, e).runs[r])
  {
  }

  lemma StepKeepsComputation(s: State, e: Step, r: RunId)
    requires Inv(s) && r in Apply(s, e).runs
    ensures ComputationOk(Apply(s, e), Apply(s, e).runs[r])
  {
    if r in s.runs { assert ComputationOk(s, s.runs[r]); }
    if r in s.runs && Apply(s, e).runs[r] == s.runs[r] {
      StepExtends(s, e);
      ExtensionKeepsComputation(s, Apply(s, e), s.runs[r]);
    } else if e.Upsert? {
      PublishedOk(s, r, e.gift);
    } else {
      ReadOk(s, e, r);
    }
  }

  lemma StepKeepsPool(s: State, e: Step, k: (Tier, DayKey))
    requires Inv(s) && k in Apply(s, e).pools
    ensures PoolOk(Apply(s, e), k)
  {
    StepExtends(s, e);
    if k in s.pools {
      assert PoolOk(s, k);
      var r :| Created(s, r, k);
      assert Created(Apply(s, e), r, k);
    } else {
      assert ComputationOk(s, s.runs[e.run]);
      SeedIsSound(SnapshotOf(s.runs[e.run]), e.gift);
      assert Created(Apply(s, e), e.run, k);
    }
  }

  /** A computation that has just created a row is the one that made the step, and the row is new. */
  lemma CreationIsTheUpsert(s: State, e: Step, r: RunId, k: (Tier, DayKey))
    requires Created(Apply(s, e), r, k)
    ensures Created(s, r, k) || (e.Upsert? && e.run == r && k !in s.pools)
  {
  }

  lemma CreatedKeyHasRow(s: State, r: RunId, k: (Tier, DayKey))
    requires Inv(s) && Created(s, r, k)
    ensures k in s.pools
  {
    assert ComputationOk(s, s.runs[r]);
  }

  lemma CreatorsAreOld(s: State, e: Step, r: RunId, k: (Tier, DayKey))
    requires Inv(s) && Created(Apply(s, e), r, k)
    ensures if k in s.pools then Created(s, r, k) else e.Upsert? && e.run == r
  {
    CreationIsTheUpsert(s, e, r, k);
    if Created(s, r, k) { CreatedKeyHasRow(s, r, k); }
  }

  lemma StepKeepsInv(s: State, e: Step)
    requires Inv(s)
    ensures Inv(Apply(s, e))
  {
    var s' := Apply(s, e);
    forall r <- s'.runs ensures ComputationOk(s', s'.runs[r]) { StepKeepsComputation(s, e, r); }
    forall k <- s'.pools ensures PoolOk(s', k) { StepKeepsPool(s, e, k); }
    forall k, r, q | Created(s', r, k) && Created(s', q, k) ensures r == q {
      CreatorsAreOld(s, e, r, k);
      CreatorsAreOld(s, e, q, k);
    }
  }

  // ----- theorems about every run -----

  ghost function StateAt(es: seq<Step>, i: nat): State
    requires i <= |es|
  {
    At(Apply, INIT, es, i)
  }

  lemma RunKeepsInv(s: State, es: seq<Step>)
    requires Inv(s)
    ensures Inv(Run(Apply, s, es))
  {
    forall s, e | Inv(s) ensures Inv(Apply(s, e)) { StepKeepsInv(s, e); }
    InvariantHolds(Apply, Inv, s, es);
  }

  lemma ReachableInv(es: seq<Step>, i: nat)
    requires i <= |es|
    ensures Inv(StateAt(es, i))
  {
    RunKeepsInv(INIT, es[..i]);
  }

  lemma {:induction false} RunExtends(s: State, es: seq<Step>)
    ensures Extends(s, Run(Apply, s, es))
    decreases |es|
  {
    if es != [] {
      RunExtends(s, es[..|es| - 1]);
      StepExtends(Run(Apply, s, es[..|es| - 1]), es[|es| - 1]);
    }
  }

  lemma LaterExtends(es: seq<Step>, i: nat, j: nat)
    requires i <= j <= |es|
    ensures Extends(StateAt(es, i), StateAt(es, j))
  {
    assert es[..j] == es[..i] + es[i..j];
    RunConcat(Apply, INIT, es[..i], es[i..j]);
    RunExtends(StateAt(es, i), es[i..j]);
  }

  /**
   The first computation wins: of the computations of one (tier, day) that have finished, exactly
   one created the row, from its own snapshot, and all of them report its figures.
   */
  lemma FirstComputationWins(es: seq<Step>, i: nat, r: RunId)
    requires i <= |es| && r in StateAt(es, i).runs && StateAt(es, i).runs[r].Finished?
    ensures var s := StateAt(es, i);
            exists w: RunId, gift: nat ::
              && Created(s, w, Key(s.runs[r])) && gift <= Total(s.runs[w].snap)
              && s.runs[r].figures == s.runs[w].figures == Computed(s.runs[w].snap, gift)
              && forall q :: Created(s, q, Key(s.runs[r])) ==> q == w
  {
    ReachableInv(es, i);
    var s := StateAt(es, i);
    assert ComputationOk(s, s.runs[r]) && PoolOk(s, Key(s.runs[r]));
    var w :| Created(s, w, Key(s.runs[r]));
    assert ComputationOk(s, s.runs[w]);
    var gift: nat :| gift <= Total(s.runs[w].snap) && s.runs[w].figures == Computed(s.runs[w].snap, gift);
  }

  /** The money of a pool: votes at the base rate, five- or tenfold by default for the paid tiers, and the donations. */
  lemma FiguresByTier(snap: Snapshot, gift: nat)
    ensures var f := Computed(snap, gift);
            && f.tier == snap.tier && f.voteCount == snap.voteCount && f.baseRate == snap.config.baseRate
            && (snap.tier == PUBLIC ==> f.multiplier == 1 && f.voteShare == snap.voteCount * snap.config.baseRate)
            && (snap.tier == PRO ==> f.multiplier == snap.config.pro)
            && (snap.tier == PRO_MAX ==> f.multiplier == snap.config.proMax)
            && f.voteShare == snap.voteCount * snap.config.baseRate * f.multiplier
            && f.donationShare == snap.donations && f.total == f.voteShare + f.donationShare
            && f.gift == gift && f.room == f.total - gift
    ensures DEFAULT_CONFIG.baseRate == 100 && DEFAULT_CONFIG.pro == 5 && DEFAULT_CONFIG.proMax == 10
  {
  }

  // ----- where the figures come from -----

  /** The computation's own read of the vote count found this value. */
  ghost predicate VotesSeen(es: seq<Step>, n: nat, r: RunId, t: Tier, d: DayKey, v: nat)
    requires n <= |es|
  {
    exists k: nat | k < n :: es[k] == ReadVotes(r) &&
        v == if (t, d) in StateAt(es, k).votes then StateAt(es, k).votes[(t, d)] else 0
  }

  ghost predicate ConfigSeen(es: seq<Step>, n: nat, r: RunId, c: Config)
    requires n <= |es|
  {
    exists k: nat | k < n :: es[k] == ReadConfig(r) &&
        c == if StateAt(es, k).config.Some? then StateAt(es, k).config.value else Config(100, 5, 10)
  }

  ghost predicate DonationsSeen(es: seq<Step>, n: nat, r: RunId, t: Tier, d: DayKey, v: nat)
    requires n <= |es|
  {
    exists k: nat | k < n :: es[k] == ReadDonations(r) &&
        v == if t == PUBLIC && d in StateAt(es, k).donations then StateAt(es, k).donations[d] else 0
  }

  ghost predicate ReadsSeen(es: seq<Step>, n: nat, r: RunId, c: Computation)
    requires n <= |es|
  {
    match c
    case Finished(snap, _, _) =>
      && VotesSeen(es, n, r, snap.tier, snap.yesterday, snap.voteCount) && ConfigSeen(es, n, r, snap.config)
      && DonationsSeen(es, n, r, snap.tier, snap.yesterday, snap.donations)
    case Reading(t, _, y, votes, config, donations) =>
      && (votes.Some? ==> VotesSeen(es, n, r, t, y, votes.value))
      && (config.Some? ==> ConfigSeen(es, n, r, config.value))
      && (donations.Some? ==> DonationsSeen(es, n, r, t, y, donations.value))
  }

  lemma SeenStaysSeen(es: seq<Step>, n: nat, r: RunId, c: Computation)
    requires n < |es| && ReadsSeen(es, n, r, c)
    ensures ReadsSeen(es, n + 1, r, c)
  {
  }

  /** One step of computation `r`: nothing, one of its reads, or its upsert on what it read. */
  ghost predicate Progresses(s: State, e: Step, r: RunId, c: Computation, c': Computation)
  {
    c' == c ||
    (c.Reading? &&
     (|| (e == ReadVotes(r) && c' == c.(voteCount := Some(Lookup(s.votes, (c.tier, c.yesterday)))))
      || (e == ReadConfig(r) && c' == c.(config := Some(CurrentConfig(s))))
      || (e == ReadDonations(r) && c' == c.(donations := Some(DonationsFor(s, c.tier, c.yesterday))))
      || (c.voteCount.Some? && c.config.Some? && c.donations.Some? && c'.Finished? && c'.snap == SnapshotOf(c))))
  }

  lemma StepProgresses(s: State, e: Step, r: RunId)
    requires r in s.runs
    ensures r in Apply(s, e).runs && Progresses(s, e, r, s.runs[r], Apply(s, e).runs[r])
  {
  }

  lemma ProgressIsSeen(es: seq<Step>, i: nat, r: RunId, c: Computation, c': Computation)
    requires i < |es| && Progresses(StateAt(es, i), es[i], r, c, c') && ReadsSeen(es, i, r, c)
    ensures ReadsSeen(es, i + 1, r, c')
  {
    var s := StateAt(es, i);
    SeenStaysSeen(es, i, r, c);
    if c.Reading? {
      assert es[i] == ReadVotes(r) ==>
          VotesSeen(es, i + 1, r, c.tier, c.yesterday, Lookup(s.votes, (c.tier, c.yesterday)));
      assert es[i] == ReadConfig(r) ==> ConfigSeen(es, i + 1, r, CurrentConfig(s));
      assert es[i] == ReadDonations(r) ==>
          DonationsSeen(es, i + 1, r, c.tier, c.yesterday, DonationsFor(s, c.tier, c.yesterday));
    }
  }

  lemma BeginReadsNothing(s: State, e: Step, r: RunId)
    requires r !in s.runs && r in Apply(s, e).runs
    ensures var c := Apply(s, e).runs[r]; c.Reading? && c.voteCount.None? && c.config.None? && c.donations.None?
  {
  }

  /** A computation works with exactly what its own three reads found, each at its own point of the run. */
  lemma {:induction false} FiguresWereRead(es: seq<Step>, n: nat, r: RunId)
    requires n <= |es| && r in StateAt(es, n).runs
    ensures ReadsSeen(es, n, r, StateAt(es, n).runs[r])
  {
    if n > 0 {
      AtStep(Apply, INIT, es, n - 1);
      if r in StateAt(es, n - 1).runs {
        FiguresWereRead(es, n - 1, r);
        RunStepIsSeen(es, n - 1, r);
      } else {
        BeginReadsNothing(StateAt(es, n - 1), es[n - 1], r);
      }
    }
  }

  lemma RunStepIsSeen(es: seq<Step>, i: nat, r: RunId)
    requires i < |es| && r in StateAt(es, i).runs && ReadsSeen(es, i, r, StateAt(es, i).runs[r])
    ensures r in StateAt(es, i + 1).runs && ReadsSeen(es, i + 1, r, StateAt(es, i + 1).runs[r])
  {
    AtStep(Apply, INIT, es, i);
    StepProgresses(StateAt(es, i), es[i], r);
    ProgressIsSeen(es, i, r, StateAt(es, i).runs[r], StateAt(es, i + 1).runs[r]);
  }

  /** From then on every read of the day shows those figures, whatever votes, donations and configuration do. */
  lemma ReadsShowTheWinner(es: seq<Step>, i: nat, j: nat, r: RunId)
    requires i <= j <= |es| && r in StateAt(es, i).runs && StateAt(es, i).runs[r].Finished?
    ensures Today(StateAt(es, j), StateAt(es, i).runs[r].snap.tier, StateAt(es, i).runs[r].snap.day) ==
            StateAt(es, i).runs[r].figures
  {
    ReachableInv(es, i);
    assert ComputationOk(StateAt(es, i), StateAt(es, i).runs[r]);
    LaterExtends(es, i, j);
  }

  /** Whatever a read shows adds up; a day without a row shows zeros. */
  lemma TodayIsSound(es: seq<Step>, i: nat, t: Tier, d: DayKey)
    requires i <= |es|
    ensures Sound(Today(StateAt(es, i), t, d)) && Today(StateAt(es, i), t, d).tier == t
    ensures (t, d) !in StateAt(es, i).pools ==> Today(StateAt(es, i), t, d).total == 0
  {
    ReachableInv(es, i);
    if (t, d) in StateAt(es, i).pools { assert PoolOk(StateAt(es, i), (t, d)); }
  }
}
