/** The pool service over the rows it upserts; `env` is what others do between its reads and its upsert. */
module PrizePoolService {
  import opened Common
  import opened Runs
  import opened Tiers
  import opened PrizePools

  predicate StepOf(e: Step, r: RunId) { !(e.CountVote? || e.Donate? || e.SetConfig?) && e.run == r }

  lemma ForeignStepKeepsComputation(s: State, e: Step, r: RunId)
    requires r in s.runs && !StepOf(e, r)
    ensures r in Apply(s, e).runs && Apply(s, e).runs[r] == s.runs[r]
  {
  }

  lemma ForeignRunKeepsComputation(s: State, es: seq<Step>, r: RunId)
    requires r in s.runs && forall e <- es :: !StepOf(e, r)
    ensures r in Run(Apply, s, es).runs && Run(Apply, s, es).runs[r] == s.runs[r]
  {
    var kept := (x: State) => r in x.runs && x.runs[r] == s.runs[r];
    forall x: State, e: Step | kept(x) && e in es ensures kept(Apply(x, e)) { ForeignStepKeepsComputation(x, e, r); }
    KeptByRun(Apply, kept, s, es);
  }

  /** The trace holds steps of computation `r` and what others do in its gaps, and nothing else. */
  ghost predicate TraceOf(r: RunId, env: seq<seq<Step>>, trace: seq<Step>)
  {
    forall e <- trace :: StepOf(e, r) || InEnv(env, e)
  }

  lemma TraceGrows(r: RunId, env: seq<seq<Step>>, before: seq<Step>, e: Step, others: seq<Step>)
    requires TraceOf(r, env, before) && StepOf(e, r) && (others == [] || others in env)
    ensures TraceOf(r, env, before + [e] + others)
  {
    GapIsInEnv(env, others);
  }

  /** The upsert of a computation that has read its inputs. */
  lemma UpsertFinishes(s: State, r: RunId, gift: nat)
    requires Inv(s) && HasRead(s, r) && gift <= Total(SnapshotOf(s.runs[r]))
    ensures var s', snap := Apply(s, Upsert(r, gift)), SnapshotOf(s.runs[r]);
            && Inv(s') && (snap.tier, snap.day) in s'.pools && r in s'.runs && s'.runs[r].Finished?
            && s'.runs[r].figures == Today(s', snap.tier, snap.day) && Sound(s'.runs[r].figures)
            && (s'.runs[r].created <==> (snap.tier, snap.day) !in s.pools)
            && (s'.runs[r].created ==> s'.runs[r].figures == Computed(snap, gift))
  {
    var s', snap := Apply(s, Upsert(r, gift)), SnapshotOf(s.runs[r]);
    StepKeepsInv(s, Upsert(r, gift));
    StepExtends(s, Upsert(r, gift));
    assert ComputationOk(s', s'.runs[r]) && PoolOk(s', (snap.tier, snap.day));
  }

  /** The states that the database operations of one computation met. */
  datatype Met = Met(votes: State, config: State, donations: State, upsert: State)

  class PrizePoolService {
    var pools: map<(Tier, DayKey), Pool>
    var runs: map<RunId, Computation>
    var votes: map<(Tier, DayKey), nat>
    var donations: map<DayKey, nat>
    var config: Option<Config>

    ghost function View(): State
      reads this
    {
      State(pools, runs, votes, donations, config)
    }

    constructor ()
      ensures View() == INIT
    {
      pools, runs, votes, donations, config := map[], map[], map[], map[], None;
    }

    /** Insert the row unless it is there, and report the computed or the rebuilt figures. */
    method UpsertPool(r: RunId, gift: nat)
      modifies this`pools, this`runs
      ensures View() == Apply(old(View()), Upsert(r, gift))
    {
      if r !in runs || !runs[r].Reading? { return; }
      var c := runs[r];
      if c.voteCount.None? || c.config.None? || c.donations.None? { return; }
      var snap := Snapshot(c.tier, c.day, c.yesterday, c.voteCount.value, c.config.value, c.donations.value);
      if gift > Total(snap) { return; }
      var key := (snap.tier, snap.day);
      if key in pools {
        var prev := pools[key];
        runs := runs[r := Finished(snap, false, Rebuilt(prev))];
      } else {
        pools := pools[key := Seed(snap, gift)];
        runs := runs[r := Finished(snap, true, Computed(snap, gift))];
      }
    }

    method Perform(e: Step)
      modifies this
      ensures View() == Apply(old(View()), e)
    {
      match e
      case CountVote(t, d) => votes := votes[(t, d) := Lookup(votes, (t, d)) + 1];
      case Donate(d, paise) => donations := donations[d := Lookup(donations, d) + paise];
      case SetConfig(c) => config := Some(c);
      case Begin(r, t, d, yesterday) => if r !in runs { runs := runs[r := Reading(t, d, yesterday, None, None, None)]; }
      case ReadVotes(r) =>
        if r in runs && runs[r].Reading? && runs[r].voteCount.None? {
          runs := runs[r := runs[r].(voteCount := Some(Lookup(votes, (runs[r].tier, runs[r].yesterday))))];
        }
      case ReadConfig(r) =>
        if r in runs && runs[r].Reading? && runs[r].config.None? {
          runs := runs[r := runs[r].(config := Some(if config.Some? then config.value else DEFAULT_CONFIG))];
        }
      case ReadDonations(r) =>
        if r in runs && runs[r].Reading? && runs[r].donations.None? {
          var donated := 0;
          if runs[r].tier == PUBLIC { donated := Lookup(donations, runs[r].yesterday); }
          runs := runs[r := runs[r].(donations := Some(donated))];
        }
      case Upsert(r, gift) => UpsertPool(r, gift);
    }

    method LetOthersRun(others: seq<Step>)
      modifies this
      ensures View() == Run(Apply, old(View()), others)
    {
      for i := 0 to |others|
        invariant View() == Run(Apply, old(View()), others[..i])
      {
        RunStep(Apply, old(View()), others[..i], others[i]);
        assert others[..i + 1] == others[..i] + [others[i]];
        Perform(others[i]);
      }
      assert others[..|others|] == others;
    }

    /** Performs step `e` of computation `r`, then lets the others run. */
    method Advance(r: RunId, e: Step, others: seq<Step>, ghost s0: State, ghost before: seq<Step>)
      returns (ghost trace: seq<Step>)
      requires View() == Run(Apply, s0, before) && r in Apply(View(), e).runs && forall o <- others :: !StepOf(o, r)
      modifies this
      ensures View() == Run(Apply, s0, trace) && trace == before + [e] + others
      ensures View() == Run(Apply, Apply(old(View()), e), others)
      ensures r in runs && runs[r] == Apply(old(View()), e).runs[r]
    {
      Perform(e);
      RunStep(Apply, s0, before, e);
      ForeignRunKeepsComputation(View(), others, r);
      LetOthersRun(others);
      trace := before + [e] + others;
      RunConcat(Apply, s0, before + [e], others);
    }

    /** The start and the first read, each followed by others. */
    method BeginAndReadVotes(r: RunId, t: Tier, d: DayKey, yesterday: DayKey, env: seq<seq<Step>>)
      returns (ghost trace: seq<Step>, ghost votesAt: State)
      requires r !in runs && |env| == 4 && forall k | 0 <= k < 4 :: forall o <- env[k] :: !StepOf(o, r)
      modifies this
      ensures View() == Run(Apply, old(View()), trace) && r in runs && TraceOf(r, env, trace)
      ensures runs[r] == Reading(t, d, yesterday, Some(Lookup(votesAt.votes, (t, yesterday))), None, None)
      ensures votesAt == Run(Apply, Apply(old(View()), Begin(r, t, d, yesterday)), env[0])
      ensures View() == Run(Apply, Apply(votesAt, ReadVotes(r)), env[1])
    {
      ghost var s0 := View();
      TraceGrows(r, env, [], Begin(r, t, d, yesterday), env[0]);
      trace := Advance(r, Begin(r, t, d, yesterday), env[0], s0, []);
      votesAt := View();
      TraceGrows(r, env, trace, ReadVotes(r), env[1]);
      trace := Advance(r, ReadVotes(r), env[1], s0, trace);
    }

    /** The other two reads, each followed by others. */
    method ReadConfigAndDonations(r: RunId, env: seq<seq<Step>>, ghost s0: State, ghost before: seq<Step>)
      returns (ghost trace: seq<Step>, ghost donationsAt: State)
      requires View() == Run(Apply, s0, before) && IsReading(View(), r)
      requires runs[r].config.None? && runs[r].donations.None? && TraceOf(r, env, before)
      requires |env| == 4 && forall k | 0 <= k < 4 :: forall o <- env[k] :: !StepOf(o, r)
      modifies this
      ensures View() == Run(Apply, s0, trace) && r in runs && TraceOf(r, env, trace)
      ensures runs[r] == old(runs[r]).(config := Some(CurrentConfig(old(View()))),
                                       donations := Some(DonationsFor(donationsAt, old(runs[r]).tier,
                                           old(runs[r]).yesterday)))
      ensures donationsAt == Run(Apply, Apply(old(View()), ReadConfig(r)), env[2])
    {
      TraceGrows(r, env, before, ReadConfig(r), env[2]);
      trace := Advance(r, ReadConfig(r), env[2], s0, before);
      donationsAt := View();
      TraceGrows(r, env, trace, ReadDonations(r), env[3]);
      trace := Advance(r, ReadDonations(r), env[3], s0, trace);
    }

    /** The upsert of a computation that has read everything, and its answer. */
    method PublishFigures(r: RunId, gift: nat, ghost env: seq<seq<Step>>, ghost s0: State, ghost before: seq<Step>)
      returns (created: bool, figures: Figures, ghost trace: seq<Step>)
      requires Inv(s0) && View() == Run(Apply, s0, before) && TraceOf(r, env, before)
      requires HasRead(View(), r) && gift <= Total(SnapshotOf(runs[r]))
      modifies this`pools, this`runs
      ensures View() == Run(Apply, s0, trace) && Inv(View()) && TraceOf(r, env, trace)
      ensures trace != [] && trace[..|trace| - 1] == before
      ensures var snap := SnapshotOf(old(runs[r]));
              && (snap.tier, snap.day) in pools && figures == Today(View(), snap.tier, snap.day) && Sound(figures)
              && (created <==> (snap.tier, snap.day) !in old(pools)) && (created ==> figures == Computed(snap, gift))
    {
      RunKeepsInv(s0, before);
      UpsertFinishes(View(), r, gift);
      RunStep(Apply, s0, before, Upsert(r, gift));
      TraceGrows(r, env, before, Upsert(r, gift), []);
      assert before + [Upsert(r, gift)] + [] == before + [Upsert(r, gift)];
      UpsertPool(r, gift);
      trace := before + [Upsert(r, gift)];
      created, figures := runs[r].created, runs[r].figures;
    }

    /**
     `share` is the floating-point floor of 0.7 times the total, of which only its bounds are used.
     `at` are the states that the three reads and the upsert met.
     */
    method ComputeAndPublishPool(r: RunId, t: Tier, d: DayKey, yesterday: DayKey, share: nat -> nat,
        env: seq<seq<Step>>)
      returns (created: bool, figures: Figures, ghost trace: seq<Step>, ghost at: Met)
      requires Inv(View()) && r !in runs && forall n: nat :: share(n) <= n
      requires |env| == 4 && forall k | 0 <= k < 4 :: forall o <- env[k] :: !StepOf(o, r)
      modifies this
      ensures Inv(View()) && View() == Run(Apply, old(View()), trace) && TraceOf(r, env, trace)
      ensures at.votes == Run(Apply, Apply(old(View()), Begin(r, t, d, yesterday)), env[0])
      ensures at.config == Run(Apply, Apply(at.votes, ReadVotes(r)), env[1])
      ensures at.donations == Run(Apply, Apply(at.config, ReadConfig(r)), env[2])
      ensures trace != [] && at.upsert == Run(Apply, old(View()), trace[..|trace| - 1])
      ensures (t, d) in pools && figures == Today(View(), t, d) && Sound(figures)
      ensures created <==> (t, d) !in at.upsert.pools
      ensures created ==>
                var snap := Snapshot(t, d, yesterday, Lookup(at.votes.votes, (t, yesterday)), CurrentConfig(at.config),
                                     DonationsFor(at.donations, t, yesterday));
                Total(snap) >= 0 && figures == Computed(snap, share(Total(snap)))
      ensures forall k <- old(pools) :: k in pools && pools[k] == old(pools)[k]
    {
      ghost var s0 := View();
      ghost var before, s1 := BeginAndReadVotes(r, t, d, yesterday, env);
      ghost var s2, s3 := View(), s1;
      before, s3 := ReadConfigAndDonations(r, env, s0, before);
      at := Met(s1, s2, s3, View());
      var c := runs[r];
      var snap := Snapshot(t, d, yesterday, c.voteCount.value, c.config.value, c.donations.value);
      ShareIsNatural(snap);
      var gift := share(Total(snap));
      created, figures, trace := PublishFigures(r, gift, env, s0, before);
      RunExtends(s0, trace);
    }

    /** False stands for the PENDING status. */
    method GetTodayForTier(t: Tier, d: DayKey) returns (published: bool, figures: Figures)
      requires Inv(View())
      ensures published <==> (t, d) in pools
      ensures figures == Today(View(), t, d) && Sound(figures)
    {
      if (t, d) !in pools { return false, Pending(t); }
      assert PoolOk(View(), (t, d));
      published, figures := true, Rebuilt(pools[(t, d)]);
    }
  }
}
