/** The erasure handlers and the anonymize sweep over the user rows they update in place. */
module ErasureService {
  import opened Common
  import opened Runs
  import opened Erasure

  datatype Reply =
    | Accepted(status: Status)
    | HoldApplied(heldAt: int)
    | HoldCleared(clearedAt: int, deletedAtAdvancedTo: int)
    | UserUnknown | AlreadyAnonymized | NoPendingErasure | AlreadyHeld | NotHeld

  /** What the sweep reports. */
  datatype Report = Report(candidateCount: nat, anonymizedCount: nat, errors: set<UserId>)

  predicate OfPass(e: Step, p: PassId) { (e.Scan? || e.Anonymize? || e.Skip?) && e.pass == p }

  /** No user disappears, and anonymized users stay anonymized. */
  ghost predicate KeepsAnonymized(us: map<UserId, User>, vs: map<UserId, User>)
  {
    forall u <- us :: u in vs && (us[u].anonymizedAt.Some? ==> vs[u].anonymizedAt.Some?)
  }

  /** Each of these users is anonymized, or the pass's transaction for the user failed. */
  ghost predicate Swept(users: map<UserId, User>, done: set<UserId>, failing: set<UserId>)
  {
    forall u <- done :: u in users && (u in failing || users[u].anonymizedAt.Some?)
  }

  /** The candidates the pass has written carry its date; those it has not come to, and the failed ones, carry none. */
  ghost predicate Dated(users: map<UserId, User>, candidates: set<UserId>, left: set<UserId>, failing: set<UserId>,
      at: int)
  {
    forall u <- candidates :: u in users && users[u].anonymizedAt == if u in left + failing then None else Some(at)
  }

  lemma DatedOneMore(us: map<UserId, User>, vs: map<UserId, User>, candidates: set<UserId>, left: set<UserId>,
      failing: set<UserId>, at: int, u: UserId)
    requires Dated(us, candidates, left, failing, at) && u in left && u in vs
    requires SameDates(us - (if u in failing then {} else {u}), vs)
    requires u !in failing ==> vs[u].anonymizedAt == Some(at)
    ensures Dated(vs, candidates, left - {u}, failing, at)
  {
    forall v <- candidates
      ensures v in vs && vs[v].anonymizedAt == if v in left - {u} + failing then None else Some(at)
    {
      if v != u || u in failing { assert v in us - (if u in failing then {} else {u}); }
    }
  }

  lemma SweptOneMore(us: map<UserId, User>, vs: map<UserId, User>, done: set<UserId>, failing: set<UserId>, u: UserId)
    requires Swept(us, done, failing) && KeepsAnonymized(us, vs) && u in vs
    requires u in failing || vs[u].anonymizedAt.Some?
    ensures Swept(vs, done + {u}, failing)
  {
  }

  /** What the write, or the failed transaction, of one candidate does. */
  lemma WriteMoves(s: State, p: PassId, u: UserId, fails: bool)
    requires Picked(s, p, u) && u in s.users
    ensures var s' := Apply(s, if fails then Skip(p, u) else Anonymize(p, u));
            && p in s'.passes && s'.passes[p] == Pass(s.passes[p].at, s.passes[p].left - {u}) && u in s'.users
            && (!fails ==> s'.users[u].anonymizedAt == Some(s.passes[p].at))
            && KeepsAnonymized(s.users, s'.users) && SameDates(s.users - (if fails then {} else {u}), s'.users)
  {
  }

  lemma AnonymizedAreKept(us: map<UserId, User>, vs: map<UserId, User>, ws: map<UserId, User>)
    requires KeepsAnonymized(us, vs) && KeepsAnonymized(vs, ws)
    ensures KeepsAnonymized(us, ws)
  {
  }

  lemma DatesAreKept(us: map<UserId, User>, vs: map<UserId, User>, ws: map<UserId, User>, not: set<UserId>)
    requires SameDates(us, vs) && SameDates(vs - not, ws)
    ensures SameDates(us - not, ws)
  {
  }

  /** No other pass writes. */
  ghost predicate Quiet(es: seq<Step>) { forall e <- es :: !e.Anonymize? }

  ghost predicate SameDates(us: map<UserId, User>, vs: map<UserId, User>)
  {
    forall u <- us :: u in vs && vs[u].anonymizedAt == us[u].anonymizedAt
  }

  lemma QuietRunKeepsDates(s: State, es: seq<Step>)
    requires Quiet(es)
    ensures SameDates(s.users, Run(Apply, s, es).users)
  {
    var same := (x: State) => SameDates(s.users, x.users);
    forall x: State, e: Step | same(x) && e in es ensures same(Apply(x, e)) { }
    KeptByRun(Apply, same, s, es);
  }

  /** The report is right about the candidates that the pass has come to. */
  ghost predicate Tallies(r: Report, candidates: set<UserId>, left: set<UserId>, failing: set<UserId>)
  {
    r.candidateCount == |candidates| && r.errors == (candidates - left) * failing
        && r.anonymizedCount + |r.errors| + |left| == |candidates|
  }

  lemma TallyOne(r: Report, candidates: set<UserId>, left: set<UserId>, failing: set<UserId>, u: UserId)
    requires Tallies(r, candidates, left, failing) && u in left && left <= candidates
    ensures Tallies(if u in failing then r.(errors := r.errors + {u}) else r.(anonymizedCount := r.anonymizedCount + 1),
                    candidates, left - {u}, failing)
  {
    assert (candidates - (left - {u})) * failing == if u in failing then r.errors + {u} else r.errors;
  }

  /** The trace holds steps of pass `p` and what others do before its writes, and nothing else. */
  ghost predicate TraceOf(p: PassId, env: nat -> seq<Step>, trace: seq<Step>)
  {
    forall e <- trace :: OfPass(e, p) || exists k: nat :: e in env(k)
  }

  lemma TraceStarts(p: PassId, env: nat -> seq<Step>, at: int)
    ensures TraceOf(p, env, [] + [Scan(p, at)])
  {
  }

  lemma TraceGrows(p: PassId, env: nat -> seq<Step>, before: seq<Step>, k: nat, e: Step)
    requires TraceOf(p, env, before) && OfPass(e, p)
    ensures TraceOf(p, env, before + env(k) + [e])
  {
  }

  lemma ForeignRunKeepsPass(s: State, es: seq<Step>, p: PassId)
    requires p in s.passes && forall e <- es :: !OfPass(e, p)
    ensures var s' := Run(Apply, s, es);
            p in s'.passes && s'.passes[p] == s.passes[p] && KeepsAnonymized(s.users, s'.users)
  {
    var kept := (x: State) => p in x.passes && x.passes[p] == s.passes[p] && KeepsAnonymized(s.users, x.users);
    forall x: State, e: Step | kept(x) && e in es ensures kept(Apply(x, e)) { ForeignStepKeepsPass(x, e, p); }
    KeptByRun(Apply, kept, s, es);
  }

  lemma ForeignStepKeepsPass(s: State, e: Step, p: PassId)
    requires p in s.passes && !OfPass(e, p)
    ensures var s' := Apply(s, e); p in s'.passes && s'.passes[p] == s.passes[p] && KeepsAnonymized(s.users, s'.users)
  {
  }

  class ErasureService {
    var now: int
    var users: map<UserId, User>
    var passes: map<PassId, Pass>

    ghost function View(): State
      reads this
    {
      State(now, users, passes)
    }

    constructor ()
      ensures View() == INIT
    {
      now, users, passes := 0, map[], map[];
    }

    /** Re-requesting during the grace period changes nothing and is answered with the current status. */
    method RequestErasure(u: UserId) returns (r: Reply)
      modifies this`users
      ensures View() == Apply(old(View()), Request(u))
      ensures r == if u !in old(users) then UserUnknown
                   else if old(users)[u].anonymizedAt.Some? then AlreadyAnonymized
                   else if old(users)[u].deletedAt.Some? then Accepted(ToStatus(old(users)[u], now))
                   else Accepted(Status(true, old(users)[u].hold.Some?, if old(users)[u].hold.Some? then None
                       else Some(30)))
      ensures users == if r.Accepted? && old(users)[u].deletedAt.None?
                       then old(users)[u := old(users)[u].(deletedAt := Some(now))] else old(users)
    {
      if u !in users { return UserUnknown; }
      var user := users[u];
      if user.anonymizedAt.Some? { return AlreadyAnonymized; }
      if user.deletedAt.Some? { return Accepted(ToStatus(user, now)); }
      users := users[u := user.(deletedAt := Some(now))];
      r := Accepted(ToStatus(users[u], now));
    }

    method CancelErasure(u: UserId) returns (r: Reply)
      modifies this`users
      ensures View() == Apply(old(View()), Cancel(u))
      ensures r == if u !in old(users) then UserUnknown
                   else if old(users)[u].anonymizedAt.Some? then AlreadyAnonymized
                   else if old(users)[u].deletedAt.None? then NoPendingErasure
                   else Accepted(Status(false, false, None))
      ensures users == if r.Accepted? then old(users)[u := User(None, None, None)] else old(users)
    {
      if u !in users { return UserUnknown; }
      var user := users[u];
      if user.anonymizedAt.Some? { return AlreadyAnonymized; }
      if user.deletedAt.None? { return NoPendingErasure; }
      users := users[u := user.(deletedAt := None, hold := None)];
      r := Accepted(Status(false, false, None));
    }

    method ApplyErasureHold(u: UserId) returns (r: Reply)
      modifies this`users
      ensures View() == Apply(old(View()), Hold(u))
      ensures r == if u !in old(users) then UserUnknown
                   else if old(users)[u].deletedAt.None? then NoPendingErasure
                   else if old(users)[u].anonymizedAt.Some? then AlreadyAnonymized
                   else if old(users)[u].hold.Some? then AlreadyHeld
                   else HoldApplied(now)
      ensures users == if r.HoldApplied? then old(users)[u := old(users)[u].(hold := Some(now))] else old(users)
      ensures r.HoldApplied? ==> OnHold(View(), u) && ToStatus(users[u], now) == Status(true, true, None)
    {
      if u !in users { return UserUnknown; }
      var user := users[u];
      if user.deletedAt.None? { return NoPendingErasure; }
      if user.anonymizedAt.Some? { return AlreadyAnonymized; }
      if user.hold.Some? { return AlreadyHeld; }
      users := users[u := user.(hold := Some(now))];
      r := HoldApplied(now);
    }

    method ClearErasureHold(u: UserId) returns (r: Reply)
      modifies this`users
      ensures View() == Apply(old(View()), Clear(u))
      ensures r == if u !in old(users) then UserUnknown
                   else if old(users)[u].hold.None? then NotHeld
                   else if old(users)[u].deletedAt.None? then NoPendingErasure
                   else HoldCleared(now, old(users)[u].deletedAt.value + (now - old(users)[u].hold.value))
      ensures users == if r.HoldCleared?
                       then old(users)[u := old(users)[u].(deletedAt := Some(r.deletedAtAdvancedTo), hold := None)]
                       else old(users)
      ensures r.HoldCleared? ==> u in users && users[u].deletedAt == Some(r.deletedAtAdvancedTo) && !OnHold(View(), u)
    {
      if u !in users { return UserUnknown; }
      var user := users[u];
      if user.hold.None? { return NotHeld; }
      if user.deletedAt.None? { return NoPendingErasure; }
      var heldDuration := now - user.hold.value;
      users := users[u := user.(deletedAt := Some(user.deletedAt.value + heldDuration), hold := None)];
      r := HoldCleared(now, user.deletedAt.value + heldDuration);
    }

    method Perform(e: Step)
      modifies this
      ensures View() == Apply(old(View()), e)
    {
      match e
      case Tick(ms) => now := now + ms;
      case Join(u) => if u !in users { users := users[u := User(None, None, None)]; }
      case Request(u) => var _ := RequestErasure(u);
      case Cancel(u) => var _ := CancelErasure(u);
      case Hold(u) => var _ := ApplyErasureHold(u);
      case Clear(u) => var _ := ClearErasureHold(u);
      case Scan(p, at) =>
        if at <= now && p !in passes {
          passes := passes[p := Pass(at, set u | u in users && Candidate(users[u], at))];
        }
      case Anonymize(p, u) =>
        if p in passes && u in passes[p].left && u in users {
          users := users[u := users[u].(anonymizedAt := Some(passes[p].at))];
          passes := passes[p := passes[p].(left := passes[p].left - {u})];
        }
      case Skip(p, u) =>
        if p in passes && u in passes[p].left {
          passes := passes[p := passes[p].(left := passes[p].left - {u})];
        }
    }

    /** What other requests and other passes do. */
    method LetOthersRun(others: seq<Step>)
      modifies this
      ensures View() == Run(Apply, old(View()), others)
    {
      for i := 0 to |others|
        invariant View() == Run(Apply, old(View()), others[..i])
      {
        RunStep(Apply, old(View()), others[..i], others[i]);
        assert others[..i + 1] == others[..i] + [others[i]];
        Perform(others[i]);
      }
      assert others[..|others|] == others;
    }

    /** What others do, and then the write (or the failed transaction) of one candidate. */
    method SweepOne(p: PassId, u: UserId, fails: bool, k: nat, env: nat -> seq<Step>, ghost s0: State,
        ghost before: seq<Step>)
      returns (ghost trace: seq<Step>)
      requires View() == Run(Apply, s0, before) && Picked(View(), p, u) && u in users
      requires TraceOf(p, env, before) && forall e <- env(k) :: !OfPass(e, p)
      modifies this
      ensures View() == Run(Apply, s0, trace) && p in passes
      ensures TraceOf(p, env, trace)
      ensures passes[p] == Pass(old(passes[p].at), old(passes[p].left) - {u}) && KeepsAnonymized(old(users), users)
      ensures u in users && (fails || users[u].anonymizedAt == Some(passes[p].at))
      ensures Quiet(env(k)) ==> SameDates(old(users) - (if fails then {} else {u}), users)
    {
      if Quiet(env(k)) { QuietRunKeepsDates(View(), env(k)); }
      ForeignRunKeepsPass(View(), env(k), p);
      RunConcat(Apply, s0, before, env(k));
      ghost var was := users;
      LetOthersRun(env(k));
      ghost var mid := users;
      WriteMoves(View(), p, u, fails);
      ghost var e := if fails then Skip(p, u) else Anonymize(p, u);
      TraceGrows(p, env, before, k, e);
      RunStep(Apply, s0, before + env(k), e);
      if fails {
        Perform(Skip(p, u));
      } else {
        Perform(Anonymize(p, u));
      }
      AnonymizedAreKept(was, mid, users);
      if Quiet(env(k)) { DatesAreKept(was, mid, users, if fails then {} else {u}); }
      trace := before + env(k) + [e];
    }

    /** How far a pass has got: who is left, what was written, what the report says. */
    ghost predicate Midway(p: PassId, r: Report, candidates: set<UserId>, failing: set<UserId>, quiet: bool)
      reads this
    {
      && p in passes && candidates <= users.Keys && passes[p].left <= candidates
      && Swept(users, candidates - passes[p].left, failing) && Tallies(r, candidates, passes[p].left, failing)
      && (quiet ==> Dated(users, candidates, passes[p].left, failing, passes[p].at))
    }

    /** The loop body: one candidate and the counter that records its outcome. */
    method SweepNext(p: PassId, r0: Report, candidates: set<UserId>, failing: set<UserId>, k: nat,
                     env: nat -> seq<Step>, ghost s0: State, ghost before: seq<Step>, ghost quiet: bool)
      returns (r: Report, ghost trace: seq<Step>)
      requires View() == Run(Apply, s0, before) && Midway(p, r0, candidates, failing, quiet) && passes[p].left != {}
      requires (forall e <- env(k) :: !OfPass(e, p)) && (quiet ==> Quiet(env(k)))
      requires TraceOf(p, env, before)
      modifies this
      ensures View() == Run(Apply, s0, trace) && TraceOf(p, env, trace) && Midway(p, r, candidates, failing, quiet)
      ensures passes[p].at == old(passes[p].at) && |passes[p].left| < |old(passes[p].left)|
    {
      var u :| u in passes[p].left;
      TallyOne(r0, candidates, passes[p].left, failing, u);
      ghost var done, left, was := candidates - passes[p].left, passes[p].left, users;
      trace := SweepOne(p, u, u in failing, k, env, s0, before);
      assert candidates - passes[p].left == done + {u};
      SweptOneMore(was, users, done, failing, u);
      if quiet { DatedOneMore(was, users, candidates, left, failing, passes[p].at, u); }
      if u in failing {
        r := r0.(errors := r0.errors + {u});
      } else {
        r := r0.(anonymizedCount := r0.anonymizedCount + 1);
      }
    }

    /**
     One pass: the candidates are read once, then each is written by id, except those whose
     transaction fails. `env(k)` is what other requests and passes do before the k-th write.
     */
    method AnonymizeSweep(p: PassId, at: int, failing: set<UserId>, env: nat -> seq<Step>)
      returns (r: Report, ghost trace: seq<Step>)
      requires at <= now && p !in passes && forall k: nat :: forall e <- env(k) :: !OfPass(e, p)
      modifies this
      ensures p in passes && passes[p].left == {} && View() == Run(Apply, old(View()), trace) && TraceOf(p, env, trace)
      ensures Swept(users, Candidates(old(users), at), failing)
      ensures (forall k: nat :: Quiet(env(k))) ==> Dated(users, Candidates(old(users), at), {}, failing, at)
      ensures r.errors == Candidates(old(users), at) * failing && r.candidateCount == |Candidates(old(users), at)|
      ensures r.anonymizedCount + |r.errors| == r.candidateCount
    {
      ghost var s0 := View();
      RunStep(Apply, s0, [], Scan(p, at));
      TraceStarts(p, env, at);
      Perform(Scan(p, at));
      trace := [] + [Scan(p, at)];
      var candidates := passes[p].left;
      r := Report(|candidates|, 0, {});
      var k: nat := 0;
      ghost var quiet := forall n: nat :: Quiet(env(n));
      assert candidates - candidates == {};
      assert candidates * failing == failing * candidates;
      while passes[p].left != {}
        invariant View() == Run(Apply, s0, trace) && TraceOf(p, env, trace)
        invariant Midway(p, r, candidates, failing, quiet) && passes[p].at == at
        decreases |passes[p].left|
      {
        r, trace := SweepNext(p, r, candidates, failing, k, env, s0, trace, quiet);
        k := k + 1;
      }
      assert candidates - passes[p].left == candidates;
    }
  }
}
