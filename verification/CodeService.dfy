/** The redeem-code services over the rows they update in place, with other requests (`env`) between their writes. */
module CodeService {
  import opened Common
  import opened Runs
  import opened Codes

  datatype PublishReply = PostNotFound | BatchNotFound | Published(count: nat, exhausted: bool)

  function Available(codes: map<CodeId, Code>, b: BatchId): set<CodeId>
  {
    set c | c in codes && codes[c].batch == b && codes[c].status == AVAILABLE
  }

  /** Every code of `cs` belongs to the batch and is attached to the post. */
  predicate Attached(codes: map<CodeId, Code>, cs: set<CodeId>, b: BatchId, post: PostId)
  {
    forall c <- cs :: c in codes && codes[c].batch == b && codes[c].post == Some(post)
  }

  /** No code of `cs` is COPIED or earlier any more. */
  predicate Past(codes: map<CodeId, Code>, cs: set<CodeId>)
  {
    forall c <- cs :: c in codes && Rank(codes[c].status) > Rank(COPIED)
  }

  /** Every code of `cs` was closed for the user that was read for it. */
  predicate ClosedAs(codes: map<CodeId, Code>, cs: set<CodeId>, stuck: map<CodeId, Option<UserId>>)
  {
    forall c <- cs :: c in codes && c in stuck && stuck[c].Some? && codes[c].claimedBy == stuck[c]
  }

  lemma ForwardKeeps(s: State, s': State, cs: set<CodeId>, b: BatchId, post: PostId, stuck: map<CodeId, Option<UserId>>)
    requires AllForward(s, s')
    ensures Attached(s.codes, cs, b, post) ==> Attached(s'.codes, cs, b, post)
    ensures Past(s.codes, cs) ==> Past(s'.codes, cs)
    ensures ClosedAs(s.codes, cs, stuck) ==> ClosedAs(s'.codes, cs, stuck)
  {
    if Attached(s.codes, cs, b, post) {
      forall c <- cs ensures c in s'.codes && s'.codes[c].batch == b && s'.codes[c].post == Some(post) {
        assert Forward(s.codes[c], s'.codes[c]);
      }
    }
    if Past(s.codes, cs) {
      forall c <- cs ensures c in s'.codes && Rank(s'.codes[c].status) > Rank(COPIED) {
        assert Forward(s.codes[c], s'.codes[c]);
      }
    }
    if ClosedAs(s.codes, cs, stuck) {
      forall c <- cs ensures c in s'.codes && s'.codes[c].claimedBy == stuck[c] {
        assert Forward(s.codes[c], s'.codes[c]);
      }
    }
  }

  /** Publishing an available code attaches it and takes it, and nothing else, out of the available ones. */
  lemma PublishAttaches(s: State, c: CodeId, b: BatchId, post: PostId, published: set<CodeId>)
    requires Attached(s.codes, published, b, post) && c in Available(s.codes, b) && c !in published
    ensures Attached(Apply(s, Publish(c, b, post)).codes, published + {c}, b, post)
    ensures Available(Apply(s, Publish(c, b, post)).codes, b) == Available(s.codes, b) - {c}
    ensures Apply(s, Publish(c, b, post)).codes == PublishedTo(s.codes, {c}, post)
  {
  }

  /** The codes once those of `cs` are published to the post; no other is touched. */
  function PublishedTo(codes: map<CodeId, Code>, cs: set<CodeId>, post: PostId): map<CodeId, Code>
  {
    map c | c in codes :: if c in cs then codes[c].(status := PUBLISHED, post := Some(post)) else codes[c]
  }

  /** The codes once those of `cs` are closed for their first copiers; no other is touched. */
  function ClosedFor(codes: map<CodeId, Code>, cs: set<CodeId>): map<CodeId, Code>
  {
    map c | c in codes :: if c in cs then codes[c].(status := CLAIMED, claimedBy := codes[c].firstCopiedBy)
        else codes[c]
  }

  /** Nothing happened but that these available codes of the batch were published to the post. */
  ghost predicate PublishedOnly(codes: map<CodeId, Code>, after: map<CodeId, Code>, cs: set<CodeId>, b: BatchId,
      post: PostId)
  {
    && cs <= Available(codes, b) && Available(after, b) == Available(codes, b) - cs
    && after == PublishedTo(codes, cs, post)
  }

  lemma PublishedOneMore(codes: map<CodeId, Code>, now: map<CodeId, Code>, cs: set<CodeId>, b: BatchId, post: PostId,
      c: CodeId)
    requires PublishedOnly(codes, now, cs, b, post) && c in Available(now, b) && c !in cs
    ensures PublishedOnly(codes, PublishedTo(now, {c}, post), cs + {c}, b, post)
  {
  }

  predicate PublishStep(e: Step, b: BatchId, post: PostId) { e.Publish? && e.batch == b && e.post == post }

  predicate JobStep(e: Step, job: JobId) { (e.ReadStuck? || e.Settle?) && e.job == job }

  /** The trace holds publishes of this batch to this post and what others do in between, and nothing else. */
  ghost predicate PublishTrace(b: BatchId, post: PostId, env: seq<seq<Step>>, trace: seq<Step>)
  {
    forall e <- trace :: PublishStep(e, b, post) || InEnv(env, e)
  }

  /** The trace holds steps of this reconcile job and what others do in between, and nothing else. */
  ghost predicate JobTrace(job: JobId, env: seq<seq<Step>>, trace: seq<Step>)
  {
    forall e <- trace :: JobStep(e, job) || InEnv(env, e)
  }

  lemma PublishTraceGrows(b: BatchId, post: PostId, env: seq<seq<Step>>, before: seq<Step>, e: Step, others: seq<Step>)
    requires PublishTrace(b, post, env, before) && PublishStep(e, b, post) && (others == [] || others in env)
    ensures PublishTrace(b, post, env, before + [e] + others)
  {
    GapIsInEnv(env, others);
  }

  lemma JobTraceGrows(job: JobId, env: seq<seq<Step>>, before: seq<Step>, e: Step, others: seq<Step>)
    requires JobTrace(job, env, before) && JobStep(e, job) && (others == [] || others in env)
    ensures JobTrace(job, env, before + [e] + others)
  {
    GapIsInEnv(env, others);
  }

  /** A code that is still available is attached to no post. */
  lemma AvailableIsUnattached(s: State, c: CodeId, b: BatchId)
    requires Inv(s) && c in Available(s.codes, b)
    ensures s.codes[c].post.None?
  {
    assert CodeOk(s.codes[c]);
  }

  class CodeService {
    var codes: map<CodeId, Code>
    var winners: map<WinnerId, Winner>
    var snapshots: map<JobId, map<CodeId, Option<UserId>>>

    ghost function View(): State
      reads this
    {
      State(codes, winners, snapshots)
    }

    constructor ()
      ensures View() == INIT
    {
      codes, winners, snapshots := map[], map[], map[];
    }

    /** Null when the code was not there to copy (CODE_TAKEN). */
    method AtomicFcfsClaim(c: CodeId, u: UserId, now: int) returns (ok: bool)
      modifies this`codes
      ensures ok <==> HasStatus(old(View()), c, PUBLISHED)
      ensures !ok ==> codes == old(codes)
      ensures ok ==> codes == old(codes)[c := old(codes)[c].(status := COPIED,
                                                              firstCopiedBy := Some(u), firstCopiedAt := now,
                                                              copyCount := old(codes)[c].copyCount + 1)]
    {
      ok := c in codes && codes[c].status == PUBLISHED;
      if ok {
        codes := codes[c := codes[c].(status := COPIED, firstCopiedBy := Some(u), firstCopiedAt := now,
            copyCount := codes[c].copyCount + 1)];
      }
    }

    /** The transaction part of `claim`. */
    method ClaimInTransaction(c: CodeId, u: UserId, now: int) returns (ok: bool, ghost e: Step)
      modifies this
      ensures e.Claim? && e == Claim(c, u, now, e.winner) && View() == Apply(old(View()), e)
      ensures ok <==> ClaimWins(old(View()), e)
      ensures ok <==> HasStatus(old(View()), c, PUBLISHED)
      ensures ok ==> c in codes && codes[c].firstCopiedBy == Some(u)
      ensures if ok
              then && c in old(codes)
                   && codes == old(codes)[c := old(codes)[c].(status := COPIED, firstCopiedBy := Some(u),
                                                              firstCopiedAt := now,
                                                              copyCount := old(codes)[c].copyCount + 1)]
              else codes == old(codes)
      ensures ok && SomeMatch(old(View()), c, u) ==>
                Matches(old(View()), e.winner, c, u) && winners == old(winners)[e.winner := Winner(u, c, RELEASED)]
      ensures !ok || !SomeMatch(old(View()), c, u) ==> winners == old(winners)
    {
      var pick := 0;
      if w :| w in winners && winners[w] == Winner(u, c, PENDING) {
        assert Matches(View(), w, c, u);
        pick := w;
      }
      e := Claim(c, u, now, pick);
      ok := AtomicFcfsClaim(c, u, now);
      if ok && pick in winners && winners[pick] == Winner(u, c, PENDING) {
        winners := winners[pick := Winner(u, c, RELEASED)];
      }
    }

    /** False stands for a winner that does not exist; any status may follow any other. */
    method MarkWinnerPayout(w: WinnerId, p: Payout) returns (ok: bool)
      modifies this`winners
      ensures View() == Apply(old(View()), MarkPayout(w, p))
      ensures ok <==> w in old(winners)
      ensures winners == if ok then old(winners)[w := old(winners)[w].(payout := p)] else old(winners)
    {
      ok := w in winners;
      if ok { winners := winners[w := winners[w].(payout := p)]; }
    }

    /** False stands for CODE_NOT_OWNED. */
    method MarkCodeClaimed(c: CodeId, u: UserId) returns (ok: bool)
      modifies this`codes
      ensures View() == Apply(old(View()), MarkClaimed(c, u))
      ensures ok <==> HasStatus(old(View()), c, COPIED) && old(codes)[c].firstCopiedBy == Some(u)
      ensures codes == if ok then old(codes)[c := old(codes)[c].(status := CLAIMED, claimedBy := Some(u))]
              else old(codes)
    {
      ok := c in codes && codes[c].status == COPIED && codes[c].firstCopiedBy == Some(u);
      if ok {
        codes := codes[c := codes[c].(status := CLAIMED, claimedBy := Some(u))];
      }
    }

    /** Voids a code whatever its status, and keeps who copied and claimed it. */
    method VoidRedeemCode(c: CodeId)
      modifies this`codes
      ensures View() == Apply(old(View()), VoidCode(c))
      ensures codes == if c in old(codes) then old(codes)[c := old(codes)[c].(status := VOID)] else old(codes)
    {
      if c in codes { codes := codes[c := codes[c].(status := VOID)]; }
    }

    method Perform(e: Step)
      modifies this
      ensures View() == Apply(old(View()), e)
    {
      match e
      case Upload(c, b) => if c !in codes { codes := codes[c := Code(b, AVAILABLE, None, None, 0, 0, None)]; }
      case Award(w, u, c) => if w !in winners { winners := winners[w := Winner(u, c, PENDING)]; }
      case Publish(c, b, p) =>
        if c in codes && codes[c].status == AVAILABLE && codes[c].batch == b {
          codes := codes[c := codes[c].(status := PUBLISHED, post := Some(p))];
        }
      case Claim(c, u, now, w) =>
        if ClaimWins(State(codes, winners, snapshots), e) {
          var ok := AtomicFcfsClaim(c, u, now);
          if w in winners && winners[w] == Winner(u, c, PENDING) { winners := winners[w := Winner(u, c, RELEASED)]; }
        }
      case MarkPayout(w, p) => var _ := MarkWinnerPayout(w, p);
      case MarkClaimed(c, u) => var _ := MarkCodeClaimed(c, u);
      case VoidCode(c) => VoidRedeemCode(c);
      case ReadStuck(job, threshold) =>
        if job !in snapshots {
          snapshots := snapshots[job := map c | c in codes && Stuck(codes[c], threshold) :: codes[c].firstCopiedBy];
        }
      case Settle(job, c) =>
        if job in snapshots && c in snapshots[job] && snapshots[job][c].Some? && c in codes
            && codes[c].status == COPIED {
          codes := codes[c := codes[c].(status := CLAIMED, claimedBy := snapshots[job][c])];
        }
    }

    /** Lets the other requests run `others`. */
    method Interfere(others: seq<Step>, ghost s0: State, ghost before: seq<Step>) returns (ghost trace: seq<Step>)
      requires View() == Run(Apply, s0, before)
      modifies this
      ensures View() == Run(Apply, s0, trace) && trace == before + others
    {
      trace := before;
      for i := 0 to |others|
        invariant View() == Run(Apply, s0, trace) && trace == before + others[..i]
      {
        ghost var done := trace;
        Perform(others[i]);
        trace := done + [others[i]];
        assert trace[..|done|] == done;
      }
    }

    /** Performs `e`, then lets the other requests run `others`. */
    method PerformThen(e: Step, others: seq<Step>, ghost s0: State, ghost before: seq<Step>)
      returns (ghost trace: seq<Step>)
      requires View() == Run(Apply, s0, before) && Inv(s0)
      modifies this
      ensures View() == Run(Apply, s0, trace) && AllForward(Apply(old(View()), e), View())
              && AllForward(old(View()), View())
      ensures others == [] ==> View() == Apply(old(View()), e)
      ensures trace == before + [e] + others
    {
      RunKeepsInv(s0, before);
      StepKeepsInv(View(), e);
      StepGoesForward(View(), e);
      Perform(e);
      trace := before + [e];
      assert trace[..|before|] == before;
      ghost var mid := View();
      trace := Interfere(others, s0, trace);
      RunConcat(Apply, s0, before + [e], others);
      RunGoesForward(mid, others);
      ForwardIsTransitive(old(View()), mid, View());
    }

    /** One round of the publish loop: any available code of the batch, if there is one. */
    method PublishOne(b: BatchId, post: PostId, others: seq<Step>, ghost published: set<CodeId>,
        ghost env: seq<seq<Step>>, ghost s0: State, ghost before: seq<Step>)
      returns (flipped: Option<CodeId>, ghost trace: seq<Step>)
      requires View() == Run(Apply, s0, before) && Inv(s0) && Attached(codes, published, b, post)
      requires others in env && PublishTrace(b, post, env, before)
      modifies this
      ensures View() == Run(Apply, s0, trace) && PublishTrace(b, post, env, trace)
      ensures flipped.None? <==> Available(old(codes), b) == {}
      ensures flipped.None? ==> View() == old(View())
      ensures flipped.Some? ==> var c := flipped.value;
                c in Available(old(codes), b) && c !in published && Attached(codes, published + {c}, b, post)
      ensures flipped.Some? && others == [] ==> Available(codes, b) == Available(old(codes), b) - {flipped.value}
      ensures flipped.Some? && others == [] ==> codes == PublishedTo(old(codes), {flipped.value}, post)
    {
      trace := before;
      var free := Available(codes, b);
      if free == {} { return None, before; }
      var c :| c in free;
      assert c !in published by { RunKeepsInv(s0, before); AvailableIsUnattached(View(), c, b); }
      PublishTraceGrows(b, post, env, before, Publish(c, b, post), others);
      trace := PerformThen(Publish(c, b, post), others, s0, before);
      flipped := Some(c);
      ghost var mid := Apply(old(View()), Publish(c, b, post));
      PublishAttaches(old(View()), c, b, post, published);
      ForwardKeeps(mid, View(), published + {c}, b, post, map[]);
    }

    /**
     Publishes up to `count` codes of the batch, one atomic update at a time. Every code it counts is
     attached to this post for good, whatever runs in between; undisturbed, it publishes all it can.
     */
    method PublishLoop(b: BatchId, post: PostId, count: nat, env: seq<seq<Step>>)
      returns (publishedCount: nat, batchExhausted: bool, ghost published: set<CodeId>, ghost trace: seq<Step>)
      requires Inv(View()) && |env| == count
      modifies this
      ensures Inv(View()) && View() == Run(Apply, old(View()), trace) && PublishTrace(b, post, env, trace)
      ensures publishedCount == |published| <= count && Attached(codes, published, b, post)
      ensures batchExhausted <==> Available(codes, b) == {}
      ensures publishedCount == count || batchExhausted
      ensures (forall k | 0 <= k < count :: env[k] == []) ==> PublishedOnly(old(codes), codes, published, b, post)
    {
      publishedCount, published, trace := 0, {}, [];
      ghost var s0 := View();
      var exhausted := false;
      ghost var quiet := forall k | 0 <= k < count :: env[k] == [];
      while publishedCount < count && !exhausted
        invariant publishedCount == |published| <= count && View() == Run(Apply, s0, trace)
        invariant Attached(codes, published, b, post) && PublishTrace(b, post, env, trace)
        invariant exhausted ==> Available(codes, b) == {}
        invariant quiet ==> PublishedOnly(s0.codes, codes, published, b, post)
        decreases count - publishedCount, !exhausted
      {
        var flipped;
        ghost var was := codes;
        flipped, trace := PublishOne(b, post, env[publishedCount], published, env, s0, trace);
        if flipped.None? {
          exhausted := true;
        } else {
          if quiet { PublishedOneMore(s0.codes, was, published, b, post, flipped.value); }
          publishedCount := publishedCount + 1;
          published := published + {flipped.value};
        }
      }
      RunKeepsInv(s0, trace);
      batchExhausted := Available(codes, b) == {};
    }

    /** The publish handler; `postExists` and `batchExists` are its first two reads. */
    method PublishBatchToPost(b: BatchId, post: PostId, count: nat, postExists: bool, batchExists: bool,
        env: seq<seq<Step>>)
      returns (r: PublishReply, ghost published: set<CodeId>, ghost trace: seq<Step>)
      requires Inv(View()) && |env| == count
      modifies this
      ensures Inv(View()) && View() == Run(Apply, old(View()), trace) && PublishTrace(b, post, env, trace)
      ensures (r.PostNotFound? <==> !postExists) && (r.BatchNotFound? <==> postExists && !batchExists)
      ensures !r.Published? ==> unchanged(this)
      ensures r.Published? ==> r.count == |published| <= count && Attached(codes, published, b, post)
      ensures r.Published? ==> (r.exhausted <==> Available(codes, b) == {})
      ensures r.Published? ==> r.count == count || r.exhausted
      ensures r.Published? && (forall k | 0 <= k < count :: env[k] == []) ==>
                && published <= Available(old(codes), b) && Available(codes, b) == Available(old(codes), b) - published
                && codes == PublishedTo(old(codes), published, post)
    {
      if !postExists { return PostNotFound, {}, []; }
      if !batchExists { return BatchNotFound, {}, []; }
      var publishedCount, batchExhausted;
      publishedCount, batchExhausted, published, trace := PublishLoop(b, post, count, env);
      r := Published(publishedCount, batchExhausted);
    }

    /** One round of the reconcile loop. */
    method SettleOne(job: JobId, c: CodeId, others: seq<Step>, ghost done: set<CodeId>, ghost closed: set<CodeId>,
        ghost env: seq<seq<Step>>, ghost s0: State, ghost before: seq<Step>)
      returns (modified: bool, ghost trace: seq<Step>)
      requires View() == Run(Apply, s0, before) && Inv(s0) && job in snapshots && c in snapshots[job]
      requires Past(codes, done) && ClosedAs(codes, closed, snapshots[job])
      requires (others == [] || others in env) && JobTrace(job, env, before)
      modifies this
      ensures View() == Run(Apply, s0, trace) && job in snapshots && snapshots[job] == old(snapshots[job])
      ensures JobTrace(job, env, trace)
      ensures Past(codes, done + {c}) && ClosedAs(codes, if modified then closed + {c} else closed, snapshots[job])
      ensures modified <==> HasStatus(old(View()), c, COPIED)
      ensures others == [] ==> codes == ClosedFor(old(codes), if modified then {c} else {}) && winners == old(winners)
    {
      StuckCodeHasOwner(s0, before, job, c);
      SettleMoves(View(), job, c, done, closed);
      modified := codes[c].status == COPIED;
      ghost var mid := Apply(View(), Settle(job, c));
      ghost var closed' := if modified then closed + {c} else closed;
      JobTraceGrows(job, env, before, Settle(job, c), others);
      trace := PerformThen(Settle(job, c), others, s0, before);
      ForwardKeeps(mid, View(), done + {c}, 0, 0, map[]);
      ForwardKeeps(mid, View(), closed', 0, 0, mid.snapshots[job]);
    }

    /**
     The reconcile job: read the stuck codes, then write them back one by one with other requests in
     between. None of the codes it read is left COPIED, and it counts exactly the codes it closed.
     Undisturbed, it closes exactly the codes copied before the threshold, and touches no other.
     */
    method ReconcileCopiedCodes(job: JobId, threshold: int, env: seq<seq<Step>>)
      returns (reconciled: nat, ghost closed: set<CodeId>, ghost trace: seq<Step>)
      requires Inv(View()) && job !in snapshots
      modifies this
      ensures Inv(View()) && View() == Run(Apply, old(View()), trace) && JobTrace(job, env, trace)
      ensures forall c <- Overdue(old(codes), threshold) :: c in codes && codes[c].status in {CLAIMED, VOID}
      ensures reconciled == |closed| && closed <= Overdue(old(codes), threshold)
      ensures forall c <- closed :: c in codes && codes[c].claimedBy == old(codes)[c].firstCopiedBy
      ensures (forall k | 0 <= k < |env| :: env[k] == []) ==>
                closed == Overdue(old(codes), threshold) && codes == ClosedFor(old(codes), closed)
    {
      ghost var s0 := View();
      JobTraceGrows(job, env, [], ReadStuck(job, threshold), []);
      ReadStuckReads(s0, job, threshold);
      trace := PerformThen(ReadStuck(job, threshold), [], s0, []);
      reconciled, closed, trace := SettleAll(job, env, s0, trace);
      RunKeepsInv(s0, trace);
      PastIsOver(codes, Overdue(s0.codes, threshold));
    }

    method SettleAll(job: JobId, env: seq<seq<Step>>, ghost s0: State, ghost before: seq<Step>)
      returns (reconciled: nat, ghost closed: set<CodeId>, ghost trace: seq<Step>)
      requires View() == Run(Apply, s0, before) && Inv(s0) && job in snapshots && JobTrace(job, env, before)
      modifies this
      ensures View() == Run(Apply, s0, trace) && JobTrace(job, env, trace)
      ensures Past(codes, old(snapshots[job]).Keys) && reconciled == |closed|
              && ClosedAs(codes, closed, old(snapshots[job]))
      ensures AllCopied(old(codes), old(snapshots[job]).Keys) && (forall k | 0 <= k < |env| :: env[k] == []) ==>
                closed == old(snapshots[job]).Keys && codes == ClosedFor(old(codes), closed)
    {
      var rest := snapshots[job].Keys;
      var round := 0;
      reconciled, closed, trace := 0, {}, before;
      ghost var stuck, codes0 := snapshots[job], codes;
      ghost var quiet := AllCopied(codes, stuck.Keys) && forall k | 0 <= k < |env| :: env[k] == [];
      assert stuck.Keys - rest == {};
      assert codes == ClosedFor(codes, {}) && Past(codes, {}) && ClosedAs(codes, {}, stuck);
      while rest != {}
        invariant View() == Run(Apply, s0, trace) && JobTrace(job, env, trace) && reconciled == |closed|
        invariant Midway(job, stuck, rest, closed) && (quiet ==> ClosedOnly(codes0, codes, stuck.Keys - rest, closed))
        decreases rest
      {
        var c :| c in rest;
        var others := if round < |env| then env[round] else [];
        var modified;
        modified, closed, trace := SettleNext(job, c, others, stuck, rest, closed, env, s0, trace, codes0, quiet);
        rest, round := rest - {c}, round + 1;
        if modified {
          reconciled := reconciled + 1;
        }
      }
      assert stuck.Keys - {} == stuck.Keys;
    }

    /** How far the job has got with the codes that it read. */
    ghost predicate Midway(job: JobId, stuck: map<CodeId, Option<UserId>>, rest: set<CodeId>, closed: set<CodeId>)
      reads this
    {
      && job in snapshots && snapshots[job] == stuck && rest <= stuck.Keys && closed !! rest
      && Past(codes, stuck.Keys - rest) && ClosedAs(codes, closed, stuck)
    }

    /** The loop body, and what it adds to the codes that were closed. */
    method SettleNext(job: JobId, c: CodeId, others: seq<Step>, ghost stuck: map<CodeId, Option<UserId>>,
        ghost rest: set<CodeId>, ghost closed0: set<CodeId>, ghost env: seq<seq<Step>>, ghost s0: State,
        ghost before: seq<Step>, ghost codes0: map<CodeId, Code>, ghost quiet: bool)
      returns (modified: bool, ghost closed: set<CodeId>, ghost trace: seq<Step>)
      requires View() == Run(Apply, s0, before) && Inv(s0) && JobTrace(job, env, before) && c in rest
      requires Midway(job, stuck, rest, closed0) && (others == [] || others in env) && (quiet ==> others == [])
      requires quiet ==> AllCopied(codes0, stuck.Keys) && ClosedOnly(codes0, codes, stuck.Keys - rest, closed0)
      modifies this
      ensures View() == Run(Apply, s0, trace) && JobTrace(job, env, trace) && Midway(job, stuck, rest - {c}, closed)
      ensures |closed| == |closed0| + if modified then 1 else 0
      ensures quiet ==> ClosedOnly(codes0, codes, stuck.Keys - (rest - {c}), closed)
    {
      ghost var was := codes;
      if quiet { ClosedOneMore(codes0, was, stuck.Keys - rest, closed0, c, stuck.Keys); }
      modified, trace := SettleOne(job, c, others, stuck.Keys - rest, closed0, env, s0, before);
      closed := if modified then closed0 + {c} else closed0;
      assert stuck.Keys - (rest - {c}) == stuck.Keys - rest + {c};
    }
  }

  /** Nothing happened but that all of these codes were closed. */
  ghost predicate ClosedOnly(codes: map<CodeId, Code>, after: map<CodeId, Code>, done: set<CodeId>, closed: set<CodeId>)
  {
    closed == done && after == ClosedFor(codes, closed)
  }

  /** The codes copied at or before the threshold and not closed since. */
  function Overdue(codes: map<CodeId, Code>, threshold: int): set<CodeId>
  {
    set c | c in codes && codes[c].status == COPIED && codes[c].firstCopiedAt <= threshold
  }

  lemma ReadStuckReads(s: State, job: JobId, threshold: int)
    requires job !in s.snapshots
    ensures var s' := Apply(s, ReadStuck(job, threshold));
            && s'.codes == s.codes && job in s'.snapshots && s'.snapshots[job].Keys == Overdue(s.codes, threshold)
            && forall c <- s'.snapshots[job] :: s'.snapshots[job][c] == s.codes[c].firstCopiedBy
  {
  }

  lemma PastIsOver(codes: map<CodeId, Code>, cs: set<CodeId>)
    requires Past(codes, cs)
    ensures forall c <- cs :: c in codes && codes[c].status in {CLAIMED, VOID}
  {
  }

  predicate AllCopied(codes: map<CodeId, Code>, cs: set<CodeId>)
  {
    forall c <- cs :: c in codes && codes[c].status == COPIED
  }

  lemma ClosedOneMore(codes: map<CodeId, Code>, now: map<CodeId, Code>, done: set<CodeId>, closed: set<CodeId>,
      c: CodeId,
      all: set<CodeId>)
    requires AllCopied(codes, all) && c in all && c !in closed && ClosedOnly(codes, now, done, closed)
    ensures c in now && now[c].status == COPIED
    ensures ClosedOnly(codes, ClosedFor(now, {c}), done + {c}, closed + {c})
  {
  }

  /** A code a job read as stuck is still COPIED, or further, and had an owner when it was read. */
  lemma StuckCodeHasOwner(s0: State, before: seq<Step>, job: JobId, c: CodeId)
    requires Inv(s0) && job in Run(Apply, s0, before).snapshots && c in Run(Apply, s0, before).snapshots[job]
    ensures var s := Run(Apply, s0, before);
            && c in s.codes && s.snapshots[job][c].Some? && Rank(s.codes[c].status) >= Rank(COPIED)
            && s.snapshots[job][c] == s.codes[c].firstCopiedBy
  {
    RunKeepsInv(s0, before);
    assert CodeOk(Run(Apply, s0, before).codes[c]);
  }

  lemma SettleMoves(s: State, job: JobId, c: CodeId, done: set<CodeId>, closed: set<CodeId>)
    requires job in s.snapshots && c in s.snapshots[job] && s.snapshots[job][c].Some?
    requires c in s.codes && s.snapshots[job][c] == s.codes[c].firstCopiedBy
    requires Rank(s.codes[c].status) >= Rank(COPIED)
    requires Past(s.codes, done) && ClosedAs(s.codes, closed, s.snapshots[job])
    ensures var s' := Apply(s, Settle(job, c));
            && s'.snapshots == s.snapshots && Past(s'.codes, done + {c})
            && ClosedAs(s'.codes, if s.codes[c].status == COPIED then closed + {c} else closed, s.snapshots[job])
            && s'.codes == ClosedFor(s.codes, if s.codes[c].status == COPIED then {c} else {})
               && s'.winners == s.winners
  {
  }
}
