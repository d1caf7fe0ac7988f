/**
 Coins: balances and counters on the user row, votes, post completions, and the
 ledger rows that four services append. Each service's writes are one
 transaction, so each is one step.
 */
module Ledger {
  import opened Common
  import opened Runs
  import opened Tiers

  type UserId = nat
  type PostId = nat
  type VoteId = nat
  type DayKey = nat

  const SIGNUP_BONUS_COINS := 3
  const VOTE_COST := 3

  datatype Kind = SIGNUP_BONUS | POST_REWARD | VOTE_SPEND | ADMIN_CREDIT | ADMIN_DEBIT

  datatype Ref = SystemRef | VoteRef(vote: VoteId) | PostRef(post: PostId) | AdminRef

  datatype Row = Row(user: UserId, kind: Kind, amount: int, balanceAfter: int, ref: Ref)

  datatype User = User(balance: int, earned: int, votesCast: nat, blocked: bool)

  datatype Vote = Vote(user: UserId, tier: Tier, day: DayKey)

  /** `tx` is the back-link to the ledger row that paid the completion. */
  datatype Completion = Completion(coins: nat, tx: Option<nat>)

  datatype State = State(users: map<UserId, User>, ledger: seq<Row>, votes: map<VoteId, Vote>,
      completions: map<(UserId, PostId), Completion>)

  datatype Step =
    | Signup(user: UserId)
    | CastVote(vote: VoteId, user: UserId, tier: Tier, day: DayKey)
    | CompletePost(user: UserId, post: PostId, reward: nat)
    | AdjustCoins(user: UserId, delta: int)
    | SetBlocked(user: UserId, blocked: bool)

  const INIT := State(map[], [], map[], map[])

  /** The unique index on (user, tier, day) already holds this vote. */
  predicate AlreadyVoted(s: State, v: Vote) { exists id <- s.votes :: s.votes[id] == v }

  predicate CanSpend(s: State, u: UserId) { u in s.users && s.users[u].balance >= VOTE_COST && !s.users[u].blocked }

  /** Changes the balance and appends the ledger row that records it. */
  function Post(s: State, u: UserId, user: User, kind: Kind, amount: int, ref: Ref): State
  {
    s.(users := s.users[u := user], ledger := s.ledger + [Row(u, kind, amount, user.balance, ref)])
  }

  function Apply(s: State, e: Step): State
  {
    match e
    case Signup(u) =>
      if u in s.users then s
      else Post(s, u, User(SIGNUP_BONUS_COINS, SIGNUP_BONUS_COINS, 0, false), SIGNUP_BONUS, SIGNUP_BONUS_COINS,
          SystemRef)
    case CastVote(id, u, t, d) =>
      if id in s.votes || AlreadyVoted(s, Vote(u, t, d)) || !CanSpend(s, u) then s
      else
        var x := s.users[u];
        Post(s, u, x.(balance := x.balance - VOTE_COST, votesCast := x.votesCast + 1), VOTE_SPEND, -VOTE_COST,
            VoteRef(id))
        .(votes := s.votes[id := Vote(u, t, d)])
    case CompletePost(u, p, reward) =>
      if (u, p) in s.completions || u !in s.users then s
      else
        var x := s.users[u];
        Post(s, u, x.(balance := x.balance + reward, earned := x.earned + reward), POST_REWARD, reward, PostRef(p))
        .(completions := s.completions[(u, p) := Completion(reward, Some(|s.ledger|))])
    case AdjustCoins(u, delta) =>
      if delta == 0 || u !in s.users then s
      else
        var x := s.users[u];
        Post(s, u, x.(balance := x.balance + delta), if delta > 0 then ADMIN_CREDIT else ADMIN_DEBIT, delta, AdminRef)
    case SetBlocked(u, b) =>
      if u in s.users then s.(users := s.users[u := s.users[u].(blocked := b)]) else s
  }

  // ----- sums over the ledger -----

  const EVERY_KIND: set<Kind> := {SIGNUP_BONUS, POST_REWARD, VOTE_SPEND, ADMIN_CREDIT, ADMIN_DEBIT}
  const EARN_KINDS: set<Kind> := {SIGNUP_BONUS, POST_REWARD}
  const SPEND_KINDS: set<Kind> := {VOTE_SPEND}
  const BONUS_KINDS: set<Kind> := {SIGNUP_BONUS}

  predicate Counts(r: Row, u: UserId, kinds: set<Kind>) { r.user == u && r.kind in kinds }

  /** The sum of the user's rows of these kinds. */
  function Sum(l: seq<Row>, u: UserId, kinds: set<Kind>): int
  {
    if l == [] then 0
    else Sum(l[..|l| - 1], u, kinds) + if Counts(l[|l| - 1], u, kinds) then l[|l| - 1].amount else 0
  }

  function Tally(l: seq<Row>, u: UserId, kinds: set<Kind>): nat
  {
    if l == [] then 0
    else Tally(l[..|l| - 1], u, kinds) + if Counts(l[|l| - 1], u, kinds) then 1 else 0
  }

  lemma Append(l: seq<Row>, r: Row, u: UserId, kinds: set<Kind>)
    ensures Sum(l + [r], u, kinds) == Sum(l, u, kinds) + if Counts(r, u, kinds) then r.amount else 0
    ensures Tally(l + [r], u, kinds) == Tally(l, u, kinds) + if Counts(r, u, kinds) then 1 else 0
  {
    assert (l + [r])[..|l|] == l;
  }

  lemma {:induction false} SumSplits(l: seq<Row>, u: UserId, a: set<Kind>, b: set<Kind>)
    requires a !! b
    ensures Sum(l, u, a + b) == Sum(l, u, a) + Sum(l, u, b)
    decreases |l|
  {
    if l != [] { SumSplits(l[..|l| - 1], u, a, b); }
  }

  // ----- what every reachable state satisfies -----

  /** The user row agrees with the ledger (a missing user has an empty ledger). */
  ghost predicate Agrees(users: map<UserId, User>, l: seq<Row>, u: UserId)
  {
    if u in users then
      && users[u].balance == Sum(l, u, EVERY_KIND)
      && users[u].earned == Sum(l, u, EARN_KINDS)
      && users[u].votesCast == Tally(l, u, SPEND_KINDS)
      && Tally(l, u, BONUS_KINDS) == 1
    else
      Sum(l, u, EVERY_KIND) == Sum(l, u, EARN_KINDS) == Tally(l, u, SPEND_KINDS) == Tally(l, u, BONUS_KINDS) == 0
  }

  /** Row `i` carries the running sum, and its amount and reference fit its kind. */
  ghost predicate RowOk(s: State, i: nat)
    requires i < |s.ledger|
  {
    var r := s.ledger[i];
    && r.user in s.users
    && r.balanceAfter == Sum(s.ledger[..i + 1], r.user, EVERY_KIND)
    && match r.kind
       case SIGNUP_BONUS => r.amount == SIGNUP_BONUS_COINS && r.ref == SystemRef
       case POST_REWARD =>
         && r.ref.PostRef? && (r.user, r.ref.post) in s.completions
         && s.completions[(r.user, r.ref.post)].coins == r.amount && s.completions[(r.user, r.ref.post)].tx == Some(i)
       case VOTE_SPEND => r.amount == -VOTE_COST && r.ref.VoteRef? && r.ref.vote in s.votes
           && s.votes[r.ref.vote].user == r.user
       case ADMIN_CREDIT => r.amount > 0
       case ADMIN_DEBIT => r.amount < 0
  }

  ghost predicate CompletionOk(s: State, k: (UserId, PostId))
    requires k in s.completions
  {
    var c := s.completions[k];
    && c.tx.Some? && c.tx.value < |s.ledger|
    && var r := s.ledger[c.tx.value];
    && r.user == k.0 && r.kind == POST_REWARD && r.amount == c.coins && r.ref == PostRef(k.1)
  }

  ghost function VotesOf(votes: map<VoteId, Vote>, u: UserId): set<VoteId>
  {
    set id | id in votes && votes[id].user == u
  }

  predicate IsSpendOf(r: Row, id: VoteId) { r.kind == VOTE_SPEND && r.ref == VoteRef(id) }

  ghost predicate HasSpendRow(l: seq<Row>, id: VoteId) { exists i: nat | i < |l| :: IsSpendOf(l[i], id) }

  /** One vote per user, tier and day, and one spend row per vote. */
  ghost predicate VotesOk(s: State)
  {
    && (forall i <- s.votes, j <- s.votes :: s.votes[i] == s.votes[j] ==> i == j)
    && (forall id <- s.votes :: s.votes[id].user in s.users && HasSpendRow(s.ledger, id))
    && (forall i, j | 0 <= i < j < |s.ledger| && s.ledger[i].kind == s.ledger[j].kind == VOTE_SPEND ::
          s.ledger[i].ref != s.ledger[j].ref)
    && (forall u :: |VotesOf(s.votes, u)| == Tally(s.ledger, u, SPEND_KINDS))
  }

  ghost predicate Inv(s: State)
  {
    && (forall u :: Agrees(s.users, s.ledger, u))
    && (forall i | 0 <= i < |s.ledger| :: RowOk(s, i))
    && (forall k <- s.completions :: k.0 in s.users && CompletionOk(s, k))
    && VotesOk(s)
  }

  // ----- every step keeps it -----

  /** Collections only grow, and the ledger gains at most one row, at its end. */
  ghost predicate Extends(s: State, s': State)
  {
    && s.users.Keys <= s'.users.Keys
    && (forall id <- s.votes :: id in s'.votes && s'.votes[id] == s.votes[id])
    && (forall k <- s.completions :: k in s'.completions && s'.completions[k] == s.completions[k])
    && (s'.ledger == s.ledger || (s'.ledger != [] && s'.ledger[..|s'.ledger| - 1] == s.ledger))
  }

  lemma StepExtends(s: State, e: Step)
    ensures Extends(s, Apply(s, e))
  {
    var s' := Apply(s, e);
    if s'.ledger != s.ledger { assert s'.ledger[..|s'.ledger| - 1] == s.ledger; }
  }

  lemma OldRowsStayOk(s: State, s': State, i: nat)
    requires Extends(s, s') && i < |s.ledger| && RowOk(s, i)
    ensures RowOk(s', i)
  {
    assert s'.ledger[..i + 1] == s.ledger[..i + 1];
    assert s'.ledger[i] == s.ledger[i];
  }

  lemma OldCompletionsStayOk(s: State, s': State, k: (UserId, PostId))
    requires Extends(s, s') && k in s.completions && CompletionOk(s, k)
    ensures CompletionOk(s', k)
  {
    assert s'.ledger[s.completions[k].tx.value] == s.ledger[s.completions[k].tx.value];
  }

  /** Appending a row and updating its user by what the row says keeps the two in agreement. */
  lemma PostKeepsAgreement(s: State, u: UserId, user: User, kind: Kind, amount: int, ref: Ref, w: UserId)
    requires Agrees(s.users, s.ledger, w)
    requires u in s.users ==> && kind != SIGNUP_BONUS
                              && user.balance == s.users[u].balance + amount
                              && user.earned == s.users[u].earned + (if kind == POST_REWARD then amount else 0)
                              && user.votesCast == s.users[u].votesCast + (if kind == VOTE_SPEND then 1 else 0)
    requires u !in s.users ==> kind == SIGNUP_BONUS && user.balance == user.earned == amount && user.votesCast == 0
    ensures Agrees(Post(s, u, user, kind, amount, ref).users, Post(s, u, user, kind, amount, ref).ledger, w)
  {
    var r := Row(u, kind, amount, user.balance, ref);
    Append(s.ledger, r, w, EVERY_KIND);
    Append(s.ledger, r, w, EARN_KINDS);
    Append(s.ledger, r, w, SPEND_KINDS);
    Append(s.ledger, r, w, BONUS_KINDS);
  }

  lemma VoteKeepsAgreement(s: State, e: Step, w: UserId)
    requires Agrees(s.users, s.ledger, w) && e.CastVote?
    ensures Agrees(Apply(s, e).users, Apply(s, e).ledger, w)
  {
    if e.user in s.users {
      var x := s.users[e.user];
      PostKeepsAgreement(s, e.user, x.(balance := x.balance - VOTE_COST, votesCast := x.votesCast + 1), VOTE_SPEND,
          -VOTE_COST, VoteRef(e.vote), w);
    }
  }

  lemma CompletionKeepsAgreement(s: State, e: Step, w: UserId)
    requires Agrees(s.users, s.ledger, w) && e.CompletePost?
    ensures Agrees(Apply(s, e).users, Apply(s, e).ledger, w)
  {
    if e.user in s.users {
      var x := s.users[e.user];
      PostKeepsAgreement(s, e.user, x.(balance := x.balance + e.reward, earned := x.earned + e.reward), POST_REWARD,
          e.reward, PostRef(e.post), w);
    }
  }

  lemma AdjustmentKeepsAgreement(s: State, e: Step, w: UserId)
    requires Agrees(s.users, s.ledger, w) && e.AdjustCoins?
    ensures Agrees(Apply(s, e).users, Apply(s, e).ledger, w)
  {
    if e.user in s.users {
      var x := s.users[e.user];
      PostKeepsAgreement(s, e.user, x.(balance := x.balance + e.delta), if e.delta > 0 then ADMIN_CREDIT
          else ADMIN_DEBIT, e.delta, AdminRef, w);
    }
  }

  lemma SignupKeepsAgreement(s: State, e: Step, w: UserId)
    requires Agrees(s.users, s.ledger, w) && e.Signup?
    ensures Agrees(Apply(s, e).users, Apply(s, e).ledger, w)
  {
    if e.user !in s.users {
      PostKeepsAgreement(s, e.user, User(SIGNUP_BONUS_COINS, SIGNUP_BONUS_COINS, 0, false), SIGNUP_BONUS,
          SIGNUP_BONUS_COINS, SystemRef, w);
    }
  }

  lemma StepKeepsAgreement(s: State, e: Step, w: UserId)
    requires Agrees(s.users, s.ledger, w)
    ensures Agrees(Apply(s, e).users, Apply(s, e).ledger, w)
  {
    match e
    case Signup(_) => SignupKeepsAgreement(s, e, w);
    case CastVote(_, _, _, _) => VoteKeepsAgreement(s, e, w);
    case CompletePost(_, _, _) => CompletionKeepsAgreement(s, e, w);
    case AdjustCoins(_, _) => AdjustmentKeepsAgreement(s, e, w);
    case SetBlocked(_, _) =>
  }

  lemma StepKeepsRows(s: State, e: Step, i: nat)
    requires Inv(s) && i < |Apply(s, e).ledger|
    ensures RowOk(Apply(s, e), i)
  {
    var s' := Apply(s, e);
    StepExtends(s, e);
    if i < |s.ledger| {
      OldRowsStayOk(s, s', i);
    } else {
      StepKeepsAgreement(s, e, s'.ledger[i].user);
      assert s'.ledger[..i + 1] == s'.ledger;
    }
  }

  lemma StepKeepsCompletions(s: State, e: Step, k: (UserId, PostId))
    requires Inv(s) && k in Apply(s, e).completions
    ensures k.0 in Apply(s, e).users && CompletionOk(Apply(s, e), k)
  {
    StepExtends(s, e);
    if k in s.completions { OldCompletionsStayOk(s, Apply(s, e), k); }
  }

  lemma AddVote(votes: map<VoteId, Vote>, id: VoteId, v: Vote, u: UserId)
    requires id !in votes
    ensures VotesOf(votes[id := v], u) == if v.user == u then VotesOf(votes, u) + {id} else VotesOf(votes, u)
  {
  }

  /** A step adds a vote exactly when it adds a spend row. */
  lemma StepPairsVotes(s: State, e: Step)
    ensures var s' := Apply(s, e);
            if s'.votes == s.votes then s'.ledger == s.ledger
                || (|s'.ledger| == |s.ledger| + 1 && s'.ledger == s.ledger + [s'.ledger[|s.ledger|]]
                    && s'.ledger[|s.ledger|].kind != VOTE_SPEND)
            else && |s'.ledger| == |s.ledger| + 1 && e.CastVote? && e.vote !in s.votes
                 && s'.votes == s.votes[e.vote := Vote(e.user, e.tier, e.day)]
                 && s'.ledger == s.ledger + [Row(e.user, VOTE_SPEND, -VOTE_COST, s'.ledger[|s.ledger|].balanceAfter,
                    VoteRef(e.vote))]
  {
  }

  lemma StepCountsVotes(s: State, e: Step, u: UserId)
    requires |VotesOf(s.votes, u)| == Tally(s.ledger, u, SPEND_KINDS)
    ensures |VotesOf(Apply(s, e).votes, u)| == Tally(Apply(s, e).ledger, u, SPEND_KINDS)
  {
    var s' := Apply(s, e);
    StepPairsVotes(s, e);
    if s'.ledger != s.ledger { Append(s.ledger, s'.ledger[|s.ledger|], u, SPEND_KINDS); }
    if s'.votes != s.votes { AddVote(s.votes, e.vote, Vote(e.user, e.tier, e.day), u); }
  }

  lemma StepKeepsSpendRows(s: State, e: Step, id: VoteId)
    requires Inv(s) && id in Apply(s, e).votes
    ensures HasSpendRow(Apply(s, e).ledger, id)
  {
    var s' := Apply(s, e);
    StepPairsVotes(s, e);
    if id in s.votes {
      var i: nat :| i < |s.ledger| && IsSpendOf(s.ledger[i], id);
      assert s'.ledger[i] == s.ledger[i];
    } else {
      assert IsSpendOf(s'.ledger[|s.ledger|], id);
    }
  }

  lemma StepKeepsRefsApart(s: State, e: Step, i: nat, j: nat)
    requires Inv(s) && i < j < |Apply(s, e).ledger|
    requires Apply(s, e).ledger[i].kind == Apply(s, e).ledger[j].kind == VOTE_SPEND
    ensures Apply(s, e).ledger[i].ref != Apply(s, e).ledger[j].ref
  {
    StepPairsVotes(s, e);
    assert RowOk(s, i);
  }

  lemma StepKeepsVotesApart(s: State, e: Step)
    requires VotesOk(s)
    ensures forall i <- Apply(s, e).votes, j <- Apply(s, e).votes ::
            Apply(s, e).votes[i] == Apply(s, e).votes[j] ==> i == j
    ensures forall id <- Apply(s, e).votes :: Apply(s, e).votes[id].user in Apply(s, e).users
  {
  }

  lemma StepKeepsVotes(s: State, e: Step)
    requires Inv(s)
    ensures VotesOk(Apply(s, e))
  {
    var s' := Apply(s, e);
    forall u ensures |VotesOf(s'.votes, u)| == Tally(s'.ledger, u, SPEND_KINDS) { StepCountsVotes(s, e, u); }
    forall id <- s'.votes ensures HasSpendRow(s'.ledger, id) { StepKeepsSpendRows(s, e, id); }
    forall i, j | 0 <= i < j < |s'.ledger| && s'.ledger[i].kind == s'.ledger[j].kind == VOTE_SPEND
      ensures s'.ledger[i].ref != s'.ledger[j].ref
    {
      StepKeepsRefsApart(s, e, i, j);
    }
    StepKeepsVotesApart(s, e);
  }

  lemma StepKeepsInv(s: State, e: Step)
    requires Inv(s)
    ensures Inv(Apply(s, e))
  {
    var s' := Apply(s, e);
    forall u ensures Agrees(s'.users, s'.ledger, u) { StepKeepsAgreement(s, e, u); }
    forall i | 0 <= i < |s'.ledger| ensures RowOk(s', i) { StepKeepsRows(s, e, i); }
    forall k <- s'.completions ensures k.0 in s'.users && CompletionOk(s', k) { StepKeepsCompletions(s, e, k); }
    StepKeepsVotes(s, e);
  }

  // ----- theorems about every run -----

  ghost function StateAt(es: seq<Step>, i: nat): State
    requires i <= |es|
  {
    At(Apply, INIT, es, i)
  }

  lemma InitInv()
    ensures Inv(INIT)
  {
    forall u ensures |VotesOf(INIT.votes, u)| == 0 { assert VotesOf(INIT.votes, u) == {}; }
  }

  lemma RunKeepsInv(s: State, es: seq<Step>)
    requires Inv(s)
    ensures Inv(Run(Apply, s, es))
  {
    forall s, e | Inv(s) ensures Inv(Apply(s, e)) { StepKeepsInv(s, e); }
    InvariantHolds(Apply, Inv, s, es);
  }

  lemma ReachableInv(es: seq<Step>, i: nat)
    requires i <= |es|
    ensures Inv(StateAt(es, i))
  {
    InitInv();
    RunKeepsInv(INIT, es[..i]);
  }

  /** The balance and the two counters are what the ledger and the votes say, for every user of every run. */
  lemma BalanceIsLedgerSum(es: seq<Step>, i: nat, u: UserId)
    requires i <= |es| && u in StateAt(es, i).users
    ensures var s := StateAt(es, i);
            && s.users[u].balance == Sum(s.ledger, u, EVERY_KIND)
            && s.users[u].earned == Sum(s.ledger, u, EARN_KINDS)
            && s.users[u].votesCast == |VotesOf(s.votes, u)|
  {
    ReachableInv(es, i);
    assert Agrees(StateAt(es, i).users, StateAt(es, i).ledger, u);
    assert |VotesOf(StateAt(es, i).votes, u)| == Tally(StateAt(es, i).ledger, u, SPEND_KINDS);
  }

  /** Every ledger row carries its user's running sum, and rows are never rewritten. */
  lemma RowsCarryRunningSum(es: seq<Step>, i: nat, k: nat)
    requires i <= |es| && k < |StateAt(es, i).ledger|
    ensures StateAt(es, i).ledger[k].balanceAfter ==
            Sum(StateAt(es, i).ledger[..k + 1], StateAt(es, i).ledger[k].user, EVERY_KIND)
  {
    ReachableInv(es, i);
    assert RowOk(StateAt(es, i), k);
  }

  lemma RunStepExtends(es: seq<Step>, i: nat)
    requires i < |es|
    ensures Extends(StateAt(es, i), StateAt(es, i + 1))
  {
    AtStep(Apply, INIT, es, i);
    StepExtends(StateAt(es, i), es[i]);
  }

  lemma {:induction false} LedgerOnlyGrows(es: seq<Step>, i: nat, j: nat)
    requires i <= j <= |es|
    ensures StateAt(es, i).ledger <= StateAt(es, j).ledger
    decreases j
  {
    if i < j {
      LedgerOnlyGrows(es, i, j - 1);
      RunStepExtends(es, j - 1);
    }
  }

  /** Votes and spend rows are in one-to-one correspondence, and a user votes once per tier and day. */
  lemma VotesMatchSpends(es: seq<Step>, i: nat)
    requires i <= |es|
    ensures var s := StateAt(es, i);
            && (forall id <- s.votes, id' <- s.votes :: s.votes[id] == s.votes[id'] ==> id == id')
            && (forall id <- s.votes :: exists k: nat | k < |s.ledger| :: IsSpendOf(s.ledger[k], id))
            && (forall k: nat | k < |s.ledger| && s.ledger[k].kind == VOTE_SPEND ::
                  && s.ledger[k].amount == -VOTE_COST && s.ledger[k].ref.VoteRef?
                  && s.ledger[k].ref.vote in s.votes && s.votes[s.ledger[k].ref.vote].user == s.ledger[k].user)
            && (forall k: nat, m: nat | k < |s.ledger| && m < |s.ledger|
                  && s.ledger[k].kind == s.ledger[m].kind == VOTE_SPEND ::
                  s.ledger[k].ref == s.ledger[m].ref ==> k == m)
  {
    ReachableInv(es, i);
    var s := StateAt(es, i);
    forall id <- s.votes ensures exists k: nat | k < |s.ledger| :: IsSpendOf(s.ledger[k], id) {
      assert HasSpendRow(s.ledger, id);
    }
    forall k: nat | k < |s.ledger| && s.ledger[k].kind == VOTE_SPEND
      ensures && s.ledger[k].amount == -VOTE_COST && s.ledger[k].ref.VoteRef?
              && s.ledger[k].ref.vote in s.votes && s.votes[s.ledger[k].ref.vote].user == s.ledger[k].user
    {
      assert RowOk(s, k);
    }
  }

  /** A completion and the reward row that paid it name each other, so the two are in one-to-one correspondence. */
  lemma CompletionsMatchRewards(es: seq<Step>, i: nat)
    requires i <= |es|
    ensures var s := StateAt(es, i);
            && (forall k <- s.completions ::
                  && s.completions[k].tx.Some? && s.completions[k].tx.value < |s.ledger|
                  && var r := s.ledger[s.completions[k].tx.value];
                  && r.user == k.0 && r.kind == POST_REWARD && r.ref == PostRef(k.1)
                     && r.amount == s.completions[k].coins)
            && (forall n: nat | n < |s.ledger| && s.ledger[n].kind == POST_REWARD ::
                  && s.ledger[n].ref.PostRef? && (s.ledger[n].user, s.ledger[n].ref.post) in s.completions
                  && s.completions[(s.ledger[n].user, s.ledger[n].ref.post)].coins == s.ledger[n].amount
                  && s.completions[(s.ledger[n].user, s.ledger[n].ref.post)].tx == Some(n))
  {
    ReachableInv(es, i);
    var s := StateAt(es, i);
    forall k <- s.completions ensures CompletionOk(s, k) {}
    forall n: nat | n < |s.ledger| && s.ledger[n].kind == POST_REWARD
      ensures && s.ledger[n].ref.PostRef? && (s.ledger[n].user, s.ledger[n].ref.post) in s.completions
              && s.completions[(s.ledger[n].user, s.ledger[n].ref.post)].coins == s.ledger[n].amount
              && s.completions[(s.ledger[n].user, s.ledger[n].ref.post)].tx == Some(n)
    {
      assert RowOk(s, n);
    }
  }

  // ----- conservation -----

  lemma {:induction false} SpendsAreThrees(l: seq<Row>, u: UserId)
    requires forall r <- l :: r.kind == VOTE_SPEND ==> r.amount == -VOTE_COST
    ensures Sum(l, u, SPEND_KINDS) == -VOTE_COST * Tally(l, u, SPEND_KINDS)
    decreases |l|
  {
    if l != [] { SpendsAreThrees(l[..|l| - 1], u); }
  }

  lemma SumByKind(l: seq<Row>, u: UserId)
    ensures Sum(l, u, EVERY_KIND) ==
            Sum(l, u, EARN_KINDS) + Sum(l, u, SPEND_KINDS) + Sum(l, u, {ADMIN_CREDIT}) + Sum(l, u, {ADMIN_DEBIT})
  {
    SumSplits(l, u, EARN_KINDS, SPEND_KINDS);
    SumSplits(l, u, EARN_KINDS + SPEND_KINDS, {ADMIN_CREDIT});
    SumSplits(l, u, EARN_KINDS + SPEND_KINDS + {ADMIN_CREDIT}, {ADMIN_DEBIT});
    assert EARN_KINDS + SPEND_KINDS + {ADMIN_CREDIT} + {ADMIN_DEBIT} == EVERY_KIND;
  }

  lemma SpendIsThreePerVote(s: State, u: UserId)
    requires Inv(s)
    ensures Sum(s.ledger, u, SPEND_KINDS) == -VOTE_COST * |VotesOf(s.votes, u)|
  {
    forall k: nat | k < |s.ledger| && s.ledger[k].kind == VOTE_SPEND ensures s.ledger[k].amount == -VOTE_COST {
      assert RowOk(s, k);
    }
    SpendsAreThrees(s.ledger, u);
    assert |VotesOf(s.votes, u)| == Tally(s.ledger, u, SPEND_KINDS);
  }

  /** What a user has, plus what the votes cost, is what was earned plus what admins added or took. */
  lemma CoinsAreConserved(es: seq<Step>, i: nat, u: UserId)
    requires i <= |es| && u in StateAt(es, i).users
    ensures var s := StateAt(es, i);
            s.users[u].balance + 3 * |VotesOf(s.votes, u)|
            == s.users[u].earned + Sum(s.ledger, u, {ADMIN_CREDIT}) + Sum(s.ledger, u, {ADMIN_DEBIT})
  {
    BalanceIsLedgerSum(es, i, u);
    ReachableInv(es, i);
    SpendIsThreePerVote(StateAt(es, i), u);
    SumByKind(StateAt(es, i).ledger, u);
  }

  // ----- overdrafts -----

  predicate InCredit(s: State, u: UserId) { u in s.users ==> s.users[u].balance >= 0 }

  /** An admin debit of user `u` that asks for more than `u` has. */
  predicate Overdraws(s: State, e: Step, u: UserId)
  {
    e.AdjustCoins? && e.user == u && u in s.users && e.delta < 0 && s.users[u].balance + e.delta < 0
  }

  lemma StepKeepsCreditIff(s: State, e: Step, u: UserId)
    requires InCredit(s, u)
    ensures InCredit(Apply(s, e), u) <==> !Overdraws(s, e, u)
  {
  }

  lemma RunStepKeepsCreditIff(es: seq<Step>, i: nat, u: UserId)
    requires i < |es| && InCredit(StateAt(es, i), u)
    ensures InCredit(StateAt(es, i + 1), u) <==> !Overdraws(StateAt(es, i), es[i], u)
  {
    AtStep(Apply, INIT, es, i);
    StepKeepsCreditIff(StateAt(es, i), es[i], u);
  }

  /** A balance stays non-negative through a run exactly when no admin debit in it asks for more than the balance. */
  lemma NeverOverdrawnIff(es: seq<Step>, u: UserId)
    ensures (forall i: nat | i <= |es| :: InCredit(StateAt(es, i), u)) <==>
            (forall i: nat | i < |es| :: !Overdraws(StateAt(es, i), es[i], u))
  {
    ghost var kept := (i: nat) => i <= |es| && InCredit(StateAt(es, i), u);
    ghost var bad := (i: nat) => i < |es| && Overdraws(StateAt(es, i), es[i], u);
    forall i: nat | i < |es| && kept(i) ensures kept(i + 1) <==> !bad(i) { RunStepKeepsCreditIff(es, i, u); }
    KeptIffNeverBad(kept, bad, 0, |es|);
    assert forall i: nat | i <= |es| :: kept(i) <==> InCredit(StateAt(es, i), u);
    assert forall i: nat | i < |es| :: bad(i) <==> Overdraws(StateAt(es, i), es[i], u);
  }

  /** Without admin debits the votes are paid for by what was earned and credited. */
  lemma VotesArePaidFor(es: seq<Step>, i: nat, u: UserId)
    requires i <= |es| && u in StateAt(es, i).users
    requires forall e <- es :: e.AdjustCoins? && e.user == u ==> e.delta >= 0
    ensures var s := StateAt(es, i);
            && s.users[u].balance >= 0
            && 3 * |VotesOf(s.votes, u)| <= s.users[u].earned + Sum(s.ledger, u, {ADMIN_CREDIT})
  {
    NeverOverdrawnIff(es, u);
    CoinsAreConserved(es, i, u);
    NoDebits(es, i, u);
  }

  lemma StepDebits(s: State, e: Step, u: UserId)
    requires e.AdjustCoins? && e.user == u ==> e.delta >= 0
    ensures Sum(Apply(s, e).ledger, u, {ADMIN_DEBIT}) == Sum(s.ledger, u, {ADMIN_DEBIT})
  {
    var s' := Apply(s, e);
    if s'.ledger != s.ledger {
      assert s'.ledger == s.ledger + [s'.ledger[|s.ledger|]];
      Append(s.ledger, s'.ledger[|s.ledger|], u, {ADMIN_DEBIT});
    }
  }

  lemma {:induction false} NoDebits(es: seq<Step>, i: nat, u: UserId)
    requires i <= |es| && forall e <- es :: e.AdjustCoins? && e.user == u ==> e.delta >= 0
    ensures Sum(StateAt(es, i).ledger, u, {ADMIN_DEBIT}) == 0
  {
    if i > 0 {
      NoDebits(es, i - 1, u);
      AtStep(Apply, INIT, es, i - 1);
      StepDebits(StateAt(es, i - 1), es[i - 1], u);
    }
  }

  /** The adjustment does overdraw, although its comment says that such a debit fails. */
  lemma OverdraftHappens()
    ensures var es := [Signup(0), AdjustCoins(0, -5)];
            0 in StateAt(es, 2).users && StateAt(es, 2).users[0].balance == -2
  {
    var es := [Signup(0), AdjustCoins(0, -5)];
    AtStep(Apply, INIT, es, 0);
    AtStep(Apply, INIT, es, 1);
  }

  // ----- what each step is worth -----

  /**
   The coins that a step moves into or out of the balance of `u`: the bonus, a vote's cost, a post's reward,
   a delta.
   */
  ghost function Worth(s: State, e: Step, u: UserId): int
  {
    match e
    case Signup(v) => if v == u && u !in s.users then 3 else 0
    case CastVote(id, v, t, d) => if v == u && id !in s.votes && !AlreadyVoted(s, Vote(v, t, d)) && CanSpend(s, u)
        then -3 else 0
    case CompletePost(v, p, reward) => if v == u && (u, p) !in s.completions && u in s.users then reward else 0
    case AdjustCoins(v, delta) => if v == u && u in s.users then delta else 0
    case SetBlocked(_, _) => 0
  }

  /** The part of it that counts as earned: the bonus and the rewards. */
  ghost function Earns(s: State, e: Step, u: UserId): int { if e.Signup? || e.CompletePost? then Worth(s, e, u) else 0 }

  ghost function TotalWorth(es: seq<Step>, n: nat, u: UserId): int
    requires n <= |es|
  {
    if n == 0 then 0 else TotalWorth(es, n - 1, u) + Worth(StateAt(es, n - 1), es[n - 1], u)
  }

  ghost function TotalEarned(es: seq<Step>, n: nat, u: UserId): int
    requires n <= |es|
  {
    if n == 0 then 0 else TotalEarned(es, n - 1, u) + Earns(StateAt(es, n - 1), es[n - 1], u)
  }

  lemma StepIsWorth(s: State, e: Step, u: UserId)
    ensures u in s.users ==> u in Apply(s, e).users
    ensures u in Apply(s, e).users ==>
              && Apply(s, e).users[u].balance == (if u in s.users then s.users[u].balance else 0) + Worth(s, e, u)
              && Apply(s, e).users[u].earned == (if u in s.users then s.users[u].earned else 0) + Earns(s, e, u)
    ensures u !in Apply(s, e).users ==> Worth(s, e, u) == 0
  {
  }

  /**
   Over any run a user's balance is what the steps were worth: 3 for signing up, the reward of each
   post completed for the first time, -3 for each vote cast, and every adjustment; and the coins
   earned are the first two of these.
   */
  lemma {:induction false} BalanceIsTotalWorth(es: seq<Step>, n: nat, u: UserId)
    requires n <= |es|
    ensures if u in StateAt(es, n).users
            then StateAt(es, n).users[u].balance == TotalWorth(es, n, u)
                && StateAt(es, n).users[u].earned == TotalEarned(es, n, u)
            else TotalWorth(es, n, u) == 0 && TotalEarned(es, n, u) == 0
  {
    if n > 0 {
      BalanceIsTotalWorth(es, n - 1, u);
      AtStep(Apply, INIT, es, n - 1);
      StepIsWorth(StateAt(es, n - 1), es[n - 1], u);
    }
  }
}
