/**
 The services that move coins, over the rows they update in place. Each transaction works on the
 rows and puts them back when it aborts. `env` is what other requests commit between a handler's
 first read and its transaction.
 */
module CoinService {
  import opened Common
  import opened Runs
  import opened Tiers
  import opened Ledger

  datatype VoteResult =
    | Cast(coinBalance: int)
    | Unauthorized | UserBlocked | VoteTierNotAccessible | InsufficientCoins | VoteAlreadyCast

  datatype PostDoc = PostDoc(live: bool, reward: nat)

  datatype CompleteResult =
    | Completed(coinBalance: int, alreadyCompleted: bool)
    | PostNotFound | PostNotLive | PostTierNotAccessible | UserMissing

  datatype AdjustResult = Adjusted(before: int, after: int) | ZeroDelta | UserNotFound

  lemma {:induction false} ForeignRunKeepsVoteId(s: State, es: seq<Step>, id: VoteId)
    requires id !in s.votes && forall e <- es :: !(e.CastVote? && e.vote == id)
    ensures id !in Run(Apply, s, es).votes
    decreases |es|
  {
    if es != [] { ForeignRunKeepsVoteId(s, es[..|es| - 1], id); }
  }

  lemma {:induction false} UserStays(s: State, es: seq<Step>, u: UserId)
    requires u in s.users
    ensures u in Run(Apply, s, es).users
    decreases |es|
  {
    if es != [] { UserStays(s, es[..|es| - 1], u); }
  }

  class CoinService {
    var users: map<UserId, User>
    var ledger: seq<Row>
    var votes: map<VoteId, Vote>
    var completions: map<(UserId, PostId), Completion>

    ghost function View(): State
      reads this
    {
      State(users, ledger, votes, completions)
    }

    constructor ()
      ensures View() == INIT
    {
      users, ledger, votes, completions := map[], [], map[], map[];
    }

    /** False stands for PHONE_ALREADY_REGISTERED. */
    method SignupUser(u: UserId) returns (ok: bool)
      modifies this
      ensures View() == Apply(old(View()), Signup(u)) && (ok <==> u !in old(users))
      ensures ok ==> users == old(users)[u := User(3, 3, 0, false)]
      ensures ok ==> ledger == old(ledger) + [Row(u, SIGNUP_BONUS, 3, 3, SystemRef)]
      ensures !ok ==> unchanged(this)
    {
      if u in users { return false; }
      users := users[u := User(SIGNUP_BONUS_COINS, SIGNUP_BONUS_COINS, 0, false)];
      ledger := ledger + [Row(u, SIGNUP_BONUS, SIGNUP_BONUS_COINS, SIGNUP_BONUS_COINS, SystemRef)];
      ok := true;
    }

    /** Returns the new balance, or nothing when there is no such user. */
    method IncCoinBalance(u: UserId, delta: int) returns (r: Option<int>)
      modifies this`users
      ensures r == if u in old(users) then Some(old(users)[u].balance + delta) else None
      ensures users == if u in old(users)
                       then old(users)[u := old(users)[u].(balance := old(users)[u].balance + delta,
                                                           earned := old(users)[u].earned + if delta > 0 then delta
                                                               else 0)]
                       else old(users)
    {
      if u !in users { return None; }
      var x := users[u];
      x := x.(balance := x.balance + delta);
      if delta > 0 { x := x.(earned := x.earned + delta); }
      users := users[u := x];
      r := Some(x.balance);
    }

    /** False stands for the duplicate-key error of the unique index on (user, tier, day). */
    method InsertIfAbsent(id: VoteId, v: Vote) returns (inserted: bool)
      requires id !in votes
      modifies this`votes
      ensures inserted <==> !AlreadyVoted(old(View()), v)
      ensures votes == if inserted then old(votes)[id := v] else old(votes)
    {
      inserted := !exists i <- votes :: votes[i] == v;
      if inserted { votes := votes[id := v]; }
    }

    /** The decrement guarded by the balance and the block flag. */
    method SpendOnVote(u: UserId) returns (r: Option<int>)
      modifies this`users
      ensures r.Some? <==> u in old(users) && old(users)[u].balance >= 3 && !old(users)[u].blocked
      ensures r.Some? ==> && r.value == old(users)[u].balance - VOTE_COST
                          && users == old(users)[u := old(users)[u].(balance := r.value,
                             votesCast := old(users)[u].votesCast + 1)]
      ensures r.None? ==> users == old(users)
    {
      if u !in users || users[u].balance < VOTE_COST || users[u].blocked { return None; }
      var x := users[u];
      users := users[u := x.(balance := x.balance - VOTE_COST, votesCast := x.votesCast + 1)];
      r := Some(x.balance - VOTE_COST);
    }

    /** Insert the vote, spend, record; a failed spend rolls the insert back. */
    method VoteInTransaction(id: VoteId, u: UserId, t: Tier, d: DayKey) returns (r: VoteResult)
      requires id !in votes
      modifies this
      ensures View() == Apply(old(View()), CastVote(id, u, t, d))
      ensures r.Cast? && u in old(users) ==>
                var x := old(users)[u];
                && r.coinBalance == x.balance - 3
                && users == old(users)[u := User(x.balance - 3, x.earned, x.votesCast + 1, x.blocked)]
                && votes == old(votes)[id := Vote(u, t, d)]
                && ledger == old(ledger) + [Row(u, VOTE_SPEND, -3, x.balance - 3, VoteRef(id))]
                && completions == old(completions)
      ensures r.VoteAlreadyCast? <==> exists i <- old(votes) :: old(votes)[i] == Vote(u, t, d)
      ensures r.Cast? ==> u in old(users) && old(users)[u].balance >= 3 && !old(users)[u].blocked
      ensures r.InsufficientCoins? <==> !(exists i <- old(votes) :: old(votes)[i] == Vote(u, t, d))
                                        && (u !in old(users) || old(users)[u].balance < 3 || old(users)[u].blocked)
      ensures if r.Cast? then u in users && r.coinBalance == users[u].balance == old(users)[u].balance - 3
              else View() == old(View()) && (r.VoteAlreadyCast? || r.InsufficientCoins?)
    {
      var committed := votes;
      var inserted := InsertIfAbsent(id, Vote(u, t, d));
      if !inserted { return VoteAlreadyCast; }
      var after := SpendOnVote(u);
      if after.None? {
        votes := committed;
        return InsufficientCoins;
      }
      ledger := ledger + [Row(u, VOTE_SPEND, -VOTE_COST, after.value, VoteRef(id))];
      r := Cast(after.value);
    }

    /** Insert the completion unless it is there, award, record, back-link; a missing user rolls the insert back. */
    method CompleteInTransaction(u: UserId, p: PostId, reward: nat) returns (r: CompleteResult)
      modifies this
      ensures View() == Apply(old(View()), CompletePost(u, p, reward))
      ensures if u !in old(users) then r == UserMissing
              else u in users && r == Completed(users[u].balance, (u, p) in old(completions))
      ensures u !in old(users) || (u, p) in old(completions) ==> View() == old(View())
      ensures u in old(users) && (u, p) !in old(completions) ==>
                var x := old(users)[u];
                && users == old(users)[u := User(x.balance + reward, x.earned + reward, x.votesCast, x.blocked)]
                && ledger == old(ledger) + [Row(u, POST_REWARD, reward, x.balance + reward, PostRef(p))]
                && completions == old(completions)[(u, p) := Completion(reward, Some(|old(ledger)|))]
                && votes == old(votes)
    {
      var committed := completions;
      if (u, p) in completions {
        return if u in users then Completed(users[u].balance, true) else UserMissing;
      }
      completions := completions[(u, p) := Completion(reward, None)];
      var after := IncCoinBalance(u, reward);
      if after.None? {
        completions := committed;
        return UserMissing;
      }
      ledger := ledger + [Row(u, POST_REWARD, reward, after.value, PostRef(p))];
      completions := completions[(u, p) := completions[(u, p)].(tx := Some(|ledger| - 1))];
      r := Completed(after.value, false);
    }

    method AdjustUserCoins(u: UserId, delta: int) returns (r: AdjustResult)
      modifies this
      ensures View() == Apply(old(View()), AdjustCoins(u, delta))
      ensures if delta == 0 then r == ZeroDelta
              else if u !in old(users) then r == UserNotFound
              else u in users && r == Adjusted(old(users)[u].balance, old(users)[u].balance + delta)
      ensures !r.Adjusted? ==> unchanged(this)
      ensures r.Adjusted? ==>
                var x := old(users)[u];
                && users == old(users)[u := User(x.balance + delta, x.earned, x.votesCast, x.blocked)]
                && ledger == old(ledger) + [Row(u, if delta > 0 then ADMIN_CREDIT
                   else ADMIN_DEBIT, delta, x.balance + delta, AdminRef)]
                && votes == old(votes) && completions == old(completions)
    {
      if delta == 0 { return ZeroDelta; }
      if u !in users { return UserNotFound; }
      var x := users[u];
      var after := x.balance + delta;
      users := users[u := x.(balance := after)];
      ledger := ledger + [Row(u, if delta > 0 then ADMIN_CREDIT else ADMIN_DEBIT, delta, after, AdminRef)];
      r := Adjusted(after - delta, after);
    }

    method Perform(e: Step)
      modifies this
      ensures View() == Apply(old(View()), e)
    {
      match e
      case Signup(u) => var _ := SignupUser(u);
      case CastVote(id, u, t, d) => if id !in votes { var _ := VoteInTransaction(id, u, t, d); }
      case CompletePost(u, p, reward) => var _ := CompleteInTransaction(u, p, reward);
      case AdjustCoins(u, delta) => var _ := AdjustUserCoins(u, delta);
      case SetBlocked(u, b) => if u in users { users := users[u := users[u].(blocked := b)]; }
    }

    /** What other requests commit. */
    method LetOthersRun(es: seq<Step>)
      modifies this
      ensures View() == Run(Apply, old(View()), es)
    {
      for i := 0 to |es|
        invariant View() == Run(Apply, old(View()), es[..i])
      {
        Perform(es[i]);
        assert es[..i + 1][..i] == es[..i];
      }
      assert es[..|es|] == es;
    }

    /** The vote handler: checks on a first read, then the transaction, with other requests in between. */
    method CastVoteHandler(id: VoteId, u: UserId, t: Tier, d: DayKey, hasTier: bool, env: seq<Step>)
      returns (r: VoteResult, ghost mid: State)
      requires id !in votes && forall e <- env :: !(e.CastVote? && e.vote == id)
      modifies this
      ensures (r.Unauthorized? <==> u !in old(users)) && (r.UserBlocked? <==> u in old(users) && old(users)[u].blocked)
      ensures r.VoteTierNotAccessible? <==> u in old(users) && !old(users)[u].blocked && !hasTier
      ensures r.Unauthorized? || r.UserBlocked? || r.VoteTierNotAccessible? ==> mid == View() == old(View())
      ensures u in old(users) && !old(users)[u].blocked && hasTier && old(users)[u].balance < 3 ==>
                r == InsufficientCoins && mid == View() == old(View())
      ensures u in old(users) && !old(users)[u].blocked && hasTier && old(users)[u].balance >= 3 ==>
                && mid == Run(Apply, old(View()), env) && View() == Apply(mid, CastVote(id, u, t, d))
                && u in mid.users
                && (r.VoteAlreadyCast? <==> exists i <- mid.votes :: mid.votes[i] == Vote(u, t, d))
                && (r.Cast? <==> !r.VoteAlreadyCast? && mid.users[u].balance >= 3 && !mid.users[u].blocked)
                && (!r.Cast? ==> View() == mid && (r.VoteAlreadyCast? || r.InsufficientCoins?))
                && (r.Cast? ==> && u in users && r.coinBalance == users[u].balance == mid.users[u].balance - 3
                                && votes == mid.votes[id := Vote(u, t, d)]
                                && ledger == mid.ledger + [Row(u, VOTE_SPEND, -3, r.coinBalance, VoteRef(id))])
    {
      mid := View();
      if u !in users { return Unauthorized, mid; }
      if users[u].blocked { return UserBlocked, mid; }
      if !hasTier { return VoteTierNotAccessible, mid; }
      if users[u].balance < VOTE_COST { return InsufficientCoins, mid; }
      UserStays(View(), env, u);
      ForeignRunKeepsVoteId(View(), env, id);
      LetOthersRun(env);
      mid := View();
      r := VoteInTransaction(id, u, t, d);
    }

    /** The completion handler; `post` is the post document it reads. */
    method CompletePostHandler(u: UserId, p: PostId, post: Option<PostDoc>, hasTier: bool, env: seq<Step>)
      returns (r: CompleteResult, ghost mid: State)
      modifies this
      ensures (r == PostNotFound <==> post.None?) && (r == PostNotLive <==> post.Some? && !post.value.live)
      ensures r == PostTierNotAccessible <==> post.Some? && post.value.live && !hasTier
      ensures if post.Some? && post.value.live && hasTier
              then && mid == Run(Apply, old(View()), env) && View() == Apply(mid, CompletePost(u, p, post.value.reward))
                   && (if u in mid.users then u in users && r == Completed(users[u].balance, (u, p) in mid.completions)
                         else r == UserMissing)
              else mid == View() == old(View())
      ensures u in old(users) ==> r != UserMissing
      ensures r.Completed? && u in mid.users && post.Some? ==>
                r.coinBalance == mid.users[u].balance + if r.alreadyCompleted then 0 else post.value.reward
    {
      mid := View();
      if post.None? { return PostNotFound, mid; }
      if !post.value.live { return PostNotLive, mid; }
      if !hasTier { return PostTierNotAccessible, mid; }
      ghost var s0 := View();
      LetOthersRun(env);
      mid := View();
      if u in s0.users { UserStays(s0, env, u); }
      r := CompleteInTransaction(u, p, post.value.reward);
    }
  }
}
