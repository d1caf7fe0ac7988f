/**
 Subscription billing: the payment, subscription and user rows that the
 webhook handlers update, each handler being one transaction.
 */
module Billing {
  import opened Common
  import opened Runs
  import opened Tiers

  type UserId = nat
  type PaymentId = nat

  datatype Payment = Payment(sub: SubId, user: UserId, amount: int)

  datatype SubRow = SubRow(user: UserId, tier: PaidTier, paidCount: int)

  datatype State = State(payments: map<PaymentId, Payment>, subs: map<SubId, SubRow>, entries: map<UserId, seq<Entry>>)

  /** A `subscription.charged` payload; `paidCount` and `currentEnd` may be absent. */
  datatype Charge = Charge(sub: SubId, pay: PaymentId, amount: int, paidCount: Option<int>, currentEnd: Option<Instant>)

  datatype Step =
    | NewUser(user: UserId)
    | NewSub(sub: SubId, user: UserId, tier: PaidTier)
    | Charged(charge: Charge)
    | Halted(sub: SubId, now: Instant)
    | Cancelled(sub: SubId, atCycleEnd: bool, now: Instant)
    | Sweep(users: set<UserId>, now: Instant, keepUnset: bool)

  const INIT := State(map[], map[], map[])

  /** The subscription and its user both exist, so a charge is not skipped. */
  predicate Known(s: State, id: SubId) { id in s.subs && s.subs[id].user in s.entries }

  function Bump(row: SubRow, paidCount: Option<int>): SubRow
  {
    row.(paidCount := if paidCount.Some? then paidCount.value else row.paidCount + 1)
  }

  function Edit(s: State, id: SubId, f: seq<Entry> -> seq<Entry>): State
  {
    if Known(s, id) then s.(entries := s.entries[s.subs[id].user := f(s.entries[s.subs[id].user])]) else s
  }

  /** The charge transaction: payment row if absent, then count and entry. */
  function OnCharged(s: State, ch: Charge): State
  {
    if !Known(s, ch.sub) || ch.pay in s.payments then s
    else
      var row := s.subs[ch.sub];
      var entry := Entry(row.tier, ACTIVE, ch.currentEnd, ch.sub);
      State(s.payments[ch.pay := Payment(ch.sub, row.user, ch.amount)],
            s.subs[ch.sub := Bump(row, ch.paidCount)],
            s.entries[row.user := Upsert(s.entries[row.user], entry)])
  }

  function Apply(s: State, e: Step): State
  {
    match e
    case NewUser(u) => if u in s.entries then s else s.(entries := s.entries[u := []])
    case NewSub(id, u, t) => if id in s.subs then s else s.(subs := s.subs[id := SubRow(u, t, 0)])
    case Charged(ch) => OnCharged(s, ch)
    case Halted(id, now) => Edit(s, id, x => MarkExpired(x, id, now))
    case Cancelled(id, atCycleEnd, now) =>
      Edit(s, id, x => if atCycleEnd then MarkCancelled(x, id) else MarkExpired(x, id, now))
    case Sweep(users, now, keepUnset) =>
      s.(entries := map u | u in s.entries ::
           if u in users then SweepFilter(s.entries[u], now, keepUnset) else s.entries[u])
  }

  // ----- the entries array -----

  ghost predicate Paid(s: State, id: SubId) { exists p <- s.payments :: s.payments[p].sub == id }

  /** An entry of user `u` belongs to a subscription of that user and tier that has a payment. */
  ghost predicate EntryOk(s: State, u: UserId, e: Entry)
  {
    e.sub in s.subs && s.subs[e.sub].user == u && s.subs[e.sub].tier == e.tier && Paid(s, e.sub)
  }

  ghost predicate EntriesOk(s: State, u: UserId, es: seq<Entry>)
  {
    DistinctKeys((e: Entry) => e.tier, es) && forall e <- es :: EntryOk(s, u, e)
  }

  ghost predicate Inv(s: State)
  {
    && (forall u <- s.entries :: EntriesOk(s, u, s.entries[u]))
    && (forall p <- s.payments :: s.payments[p].sub in s.subs && s.payments[p].user == s.subs[s.payments[p].sub].user)
  }

  /** Payments are never changed or removed; a subscription keeps its user and tier. */
  ghost predicate Grows(s: State, s': State)
  {
    && (forall p <- s.payments :: p in s'.payments && s'.payments[p] == s.payments[p])
    && (forall id <- s.subs ::
          id in s'.subs && s'.subs[id].user == s.subs[id].user && s'.subs[id].tier == s.subs[id].tier)
    && s.entries.Keys <= s'.entries.Keys
  }

  lemma StepGrows(s: State, e: Step)
    ensures Grows(s, Apply(s, e))
  {
  }

  lemma GrowthKeepsEntries(s: State, s': State, u: UserId, es: seq<Entry>)
    requires Grows(s, s') && EntriesOk(s, u, es)
    ensures EntriesOk(s', u, es)
  {
    forall e <- es ensures EntryOk(s', u, e) {
      assert EntryOk(s, u, e);
      var p :| p in s.payments && s.payments[p].sub == e.sub;
      assert p in s'.payments && s'.payments[p].sub == e.sub;
    }
  }

  lemma UpsertKeepsEntries(s: State, u: UserId, es: seq<Entry>, e: Entry)
    requires EntriesOk(s, u, es) && EntryOk(s, u, e)
    ensures EntriesOk(s, u, Upsert(es, e))
  {
    UpsertKeepsTiersApart(es, e);
  }

  lemma MapKeepsEntries(s: State, u: UserId, es: seq<Entry>, f: Entry -> Entry)
    requires EntriesOk(s, u, es) && forall e :: f(e).tier == e.tier && f(e).sub == e.sub
    ensures EntriesOk(s, u, Map(f, es))
  {
    forall e <- Map(f, es) ensures EntryOk(s, u, e) {
      var i :| 0 <= i < |es| && e == f(es[i]);
      assert es[i] in es;
    }
  }

  lemma MarksKeepEntries(s: State, u: UserId, es: seq<Entry>, id: SubId, now: Instant)
    requires EntriesOk(s, u, es)
    ensures EntriesOk(s, u, MarkCancelled(es, id)) && EntriesOk(s, u, MarkExpired(es, id, now))
  {
    MapKeepsEntries(s, u, es, (x: Entry) => if x.sub == id then x.(status := CANCELLED) else x);
    MapKeepsEntries(s, u, es, (x: Entry) => if x.sub == id then x.(status := CANCELLED, expiresAt := Some(now)) else x);
  }

  lemma SweepKeepsEntries(s: State, u: UserId, es: seq<Entry>, now: Instant, keepUnset: bool)
    requires EntriesOk(s, u, es)
    ensures EntriesOk(s, u, SweepFilter(es, now, keepUnset))
  {
    FilterKeepsDistinct((x: Entry) => x.tier, (x: Entry) => Kept(x, now, keepUnset), es);
  }

  lemma ChargeKeepsEntries(s: State, ch: Charge, u: UserId)
    requires Inv(s) && u in s.entries
    ensures EntriesOk(OnCharged(s, ch), u, OnCharged(s, ch).entries[u])
  {
    var s' := OnCharged(s, ch);
    StepGrows(s, Charged(ch));
    GrowthKeepsEntries(s, s', u, s.entries[u]);
    if Known(s, ch.sub) && ch.pay !in s.payments && u == s.subs[ch.sub].user {
      assert ch.pay in s'.payments && s'.payments[ch.pay].sub == ch.sub;
      UpsertKeepsEntries(s', u, s.entries[u], Entry(s.subs[ch.sub].tier, ACTIVE, ch.currentEnd, ch.sub));
    }
  }

  lemma StepKeepsEntries(s: State, e: Step, u: UserId)
    requires Inv(s) && u in Apply(s, e).entries
    ensures EntriesOk(Apply(s, e), u, Apply(s, e).entries[u])
  {
    StepGrows(s, e);
    if u in s.entries {
      GrowthKeepsEntries(s, Apply(s, e), u, s.entries[u]);
      match e
      case Charged(ch) => ChargeKeepsEntries(s, ch, u);
      case Halted(id, now) => MarksKeepEntries(Apply(s, e), u, s.entries[u], id, now);
      case Cancelled(id, _, now) => MarksKeepEntries(Apply(s, e), u, s.entries[u], id, now);
      case Sweep(_, now, keepUnset) => SweepKeepsEntries(Apply(s, e), u, s.entries[u], now, keepUnset);
      case _ =>
    }
  }

  lemma StepKeepsInv(s: State, e: Step)
    requires Inv(s)
    ensures Inv(Apply(s, e))
  {
    forall u <- Apply(s, e).entries ensures EntriesOk(Apply(s, e), u, Apply(s, e).entries[u]) {
      StepKeepsEntries(s, e, u);
    }
  }

  ghost function StateAt(es: seq<Step>, i: nat): State
    requires i <= |es|
  {
    At(Apply, INIT, es, i)
  }

  lemma ReachableInv(es: seq<Step>, i: nat)
    requires i <= |es|
    ensures Inv(StateAt(es, i))
  {
    forall s, e | Inv(s) ensures Inv(Apply(s, e)) { StepKeepsInv(s, e); }
    InvariantHolds(Apply, Inv, INIT, es[..i]);
  }

  /** Every run keeps at most one entry per tier and per subscription id, all paid for and owned by the user. */
  lemma EntriesStayUnique(es: seq<Step>, u: UserId)
    requires u in Run(Apply, INIT, es).entries
    ensures var a := Run(Apply, INIT, es).entries[u];
            && DistinctKeys((e: Entry) => e.tier, a) && DistinctKeys((e: Entry) => e.sub, a)
            && forall e <- a :: EntryOk(Run(Apply, INIT, es), u, e)
  {
    ReachableInv(es, |es|);
    assert es[..|es|] == es;
    var a := Run(Apply, INIT, es).entries[u];
    assert EntriesOk(Run(Apply, INIT, es), u, a);
    forall i, j | 0 <= i < j < |a| ensures a[i].sub != a[j].sub {
      assert a[i] in a && a[j] in a;
    }
  }

  // ----- replaced subscriptions -----

  /** The subscription has no entry in its user's array. */
  ghost predicate Replaced(s: State, id: SubId)
  {
    forall u <- s.entries :: forall e <- s.entries[u] :: e.sub != id
  }

  lemma MarksOfAbsentSub(es: seq<Entry>, id: SubId, now: Instant)
    requires forall e <- es :: e.sub != id
    ensures MarkCancelled(es, id) == es && MarkExpired(es, id, now) == es
  {
  }

  /** A cancel or halt for a replaced subscription changes nothing. */
  lemma LateCancelIsNoop(s: State, id: SubId, atCycleEnd: bool, now: Instant)
    requires Replaced(s, id)
    ensures Apply(s, Cancelled(id, atCycleEnd, now)) == s && Apply(s, Halted(id, now)) == s
  {
    if Known(s, id) {
      MarksOfAbsentSub(s.entries[s.subs[id].user], id, now);
    }
  }

  /** A recorded charge replaces every other subscription of the same user and tier. */
  lemma ChargeReplaces(s: State, ch: Charge, id: SubId)
    requires Inv(s) && Known(s, ch.sub) && ch.pay !in s.payments && id in s.subs && id != ch.sub
    requires s.subs[id].user == s.subs[ch.sub].user && s.subs[id].tier == s.subs[ch.sub].tier
    ensures Replaced(Apply(s, Charged(ch)), id)
  {
    var s' := Apply(s, Charged(ch));
    StepKeepsInv(s, Charged(ch));
    var owner := s.subs[ch.sub].user;
    assert Entry(s.subs[ch.sub].tier, ACTIVE, ch.currentEnd, ch.sub) in s'.entries[owner];
    forall u <- s'.entries, e <- s'.entries[u] ensures e.sub != id {
      assert EntriesOk(s', u, s'.entries[u]);
      if u == owner {
        var i :| 0 <= i < |s'.entries[u]| && s'.entries[u][i] == e;
      }
    }
  }

  lemma StepKeepsReplaced(s: State, e: Step, id: SubId)
    requires Replaced(s, id) && !(e.Charged? && e.charge.sub == id)
    ensures Replaced(Apply(s, e), id)
  {
    if e.Halted? && Known(s, e.sub) {
      MarksKeepAbsence(s.entries[s.subs[e.sub].user], e.sub, e.now, id);
    } else if e.Cancelled? && Known(s, e.sub) {
      MarksKeepAbsence(s.entries[s.subs[e.sub].user], e.sub, e.now, id);
    }
  }

  lemma MarksKeepAbsence(es: seq<Entry>, other: SubId, now: Instant, id: SubId)
    requires forall e <- es :: e.sub != id
    ensures forall e <- MarkCancelled(es, other) :: e.sub != id
    ensures forall e <- MarkExpired(es, other, now) :: e.sub != id
  {
  }

  /** Until it is charged again, a replaced subscription cannot be touched by its late cancels and halts. */
  lemma {:induction false} ReplacedSubStaysInert(es: seq<Step>, i: nat, j: nat, id: SubId, atCycleEnd: bool,
      now: Instant)
    requires i <= j <= |es| && Replaced(StateAt(es, i), id)
    requires forall k | i <= k < j :: !(es[k].Charged? && es[k].charge.sub == id)
    ensures Replaced(StateAt(es, j), id)
    ensures Apply(StateAt(es, j), Cancelled(id, atCycleEnd, now)) == StateAt(es, j)
    ensures Apply(StateAt(es, j), Halted(id, now)) == StateAt(es, j)
    decreases j - i
  {
    if i < j {
      ReplacedSubStaysInert(es, i, j - 1, id, atCycleEnd, now);
      AtStep(Apply, INIT, es, j - 1);
      StepKeepsReplaced(StateAt(es, j - 1), es[j - 1], id);
    }
    LateCancelIsNoop(StateAt(es, j), id, atCycleEnd, now);
  }

  // ----- exactly-once charging -----

  /** Step `k` of the run is a charge that is not skipped for an unknown subscription or user. */
  ghost predicate Processes(es: seq<Step>, k: nat, p: PaymentId)
    requires k < |es|
  {
    es[k].Charged? && es[k].charge.pay == p && Known(StateAt(es, k), es[k].charge.sub)
  }

  lemma RunGrows(es: seq<Step>, i: nat, j: nat)
    requires i <= j <= |es|
    ensures Grows(StateAt(es, i), StateAt(es, j))
    decreases j - i
  {
    if i < j {
      RunGrows(es, i, j - 1);
      AtStep(Apply, INIT, es, j - 1);
      StepGrows(StateAt(es, j - 1), es[j - 1]);
    }
  }

  lemma StepRecordsPayment(s: State, e: Step, p: PaymentId)
    ensures var hit := e.Charged? && e.charge.pay == p && Known(s, e.charge.sub);
            && (p in Apply(s, e).payments <==> p in s.payments || hit)
            && (p in s.payments ==> Apply(s, e).payments[p] == s.payments[p])
            && (p !in s.payments && hit ==>
                  Apply(s, e).payments[p] == Payment(e.charge.sub, s.subs[e.charge.sub].user, e.charge.amount))
  {
  }

  /** There is a payment row for exactly the payment ids that some charge processed. */
  lemma {:induction false} OnePaymentPerId(es: seq<Step>, n: nat, p: PaymentId)
    requires n <= |es|
    ensures p in StateAt(es, n).payments <==> exists k | 0 <= k < n :: Processes(es, k, p)
  {
    if n > 0 {
      OnePaymentPerId(es, n - 1, p);
      AtStep(Apply, INIT, es, n - 1);
      StepRecordsPayment(StateAt(es, n - 1), es[n - 1], p);
      assert Processes(es, n - 1, p) ==> p in StateAt(es, n).payments;
    }
  }

  /** A payment row carries what the first processed charge for its id said, whatever comes later. */
  lemma FirstChargeWins(es: seq<Step>, k: nat, n: nat, p: PaymentId)
    requires k < n <= |es| && Processes(es, k, p) && forall h | 0 <= h < k :: !Processes(es, h, p)
    ensures p in StateAt(es, n).payments
    ensures StateAt(es, n).payments[p] ==
            Payment(es[k].charge.sub, StateAt(es, k).subs[es[k].charge.sub].user, es[k].charge.amount)
  {
    OnePaymentPerId(es, k, p);
    AtStep(Apply, INIT, es, k);
    StepRecordsPayment(StateAt(es, k), es[k], p);
    RunGrows(es, k + 1, n);
  }

  ghost function PaymentsOf(s: State, id: SubId): set<PaymentId>
  {
    set p | p in s.payments && s.payments[p].sub == id
  }

  lemma AddPayment(s: State, s': State, p: PaymentId, id: SubId)
    requires p !in s.payments && p in s'.payments && s'.payments == s.payments[p := s'.payments[p]]
    ensures PaymentsOf(s', id) == if s'.payments[p].sub == id then PaymentsOf(s, id) + {p} else PaymentsOf(s, id)
  {
  }

  lemma StepCountsPayment(s: State, e: Step, id: SubId)
    requires id in s.subs ==> s.subs[id].paidCount == |PaymentsOf(s, id)|
    requires id !in s.subs ==> PaymentsOf(s, id) == {}
    requires e.Charged? && e.charge.sub == id ==> e.charge.paidCount.None?
    ensures id in Apply(s, e).subs ==> Apply(s, e).subs[id].paidCount == |PaymentsOf(Apply(s, e), id)|
    ensures id !in Apply(s, e).subs ==> PaymentsOf(Apply(s, e), id) == {}
  {
    var s' := Apply(s, e);
    if e.Charged? && Known(s, e.charge.sub) && e.charge.pay !in s.payments {
      AddPayment(s, s', e.charge.pay, id);
    } else {
      assert s'.payments == s.payments;
    }
  }

  /** When the payloads carry no `paid_count`, the counter is exactly the number of distinct payments. */
  lemma {:induction false} PaidCountIsExact(es: seq<Step>, n: nat, id: SubId)
    requires n <= |es|
    requires forall k | 0 <= k < n :: es[k].Charged? && es[k].charge.sub == id ==> es[k].charge.paidCount.None?
    ensures id in StateAt(es, n).subs ==> StateAt(es, n).subs[id].paidCount == |PaymentsOf(StateAt(es, n), id)|
    ensures id !in StateAt(es, n).subs ==> PaymentsOf(StateAt(es, n), id) == {}
  {
    if n > 0 {
      PaidCountIsExact(es, n - 1, id);
      AtStep(Apply, INIT, es, n - 1);
      StepCountsPayment(StateAt(es, n - 1), es[n - 1], id);
    }
  }

  /** Once a payment id is on record, any further charge with that id leaves every row as it is. */
  lemma ReplayIsNoop(es: seq<Step>, i: nat, j: nat, ch: Charge)
    requires i <= j <= |es| && ch.pay in StateAt(es, i).payments
    ensures Apply(StateAt(es, j), Charged(ch)) == StateAt(es, j)
  {
    RunGrows(es, i, j);
  }

  // ----- the count that payloads carry -----

  /** Step `k` records a first charge of the subscription. */
  ghost predicate CapturesAt(es: seq<Step>, k: nat, id: SubId)
    requires k < |es|
  {
    && es[k].Charged? && es[k].charge.sub == id && Known(StateAt(es, k), id)
    && es[k].charge.pay !in StateAt(es, k).payments
  }

  lemma RunStepCounts(es: seq<Step>, i: nat, id: SubId)
    requires i < |es| && id in StateAt(es, i).subs
    ensures id in StateAt(es, i + 1).subs
    ensures StateAt(es, i + 1).subs[id].paidCount ==
            if !CapturesAt(es, i, id) then StateAt(es, i).subs[id].paidCount
            else if es[i].charge.paidCount.Some? then es[i].charge.paidCount.value
            else StateAt(es, i).subs[id].paidCount + 1
  {
    AtStep(Apply, INIT, es, i);
  }

  /** A count that a recorded charge carries stands until the next recorded charge of the subscription. */
  lemma {:induction false} PaidCountFollowsPayload(es: seq<Step>, k: nat, n: nat, id: SubId)
    requires k < n <= |es| && CapturesAt(es, k, id) && es[k].charge.paidCount.Some?
    requires forall m: nat | k < m < n :: !CapturesAt(es, m, id)
    ensures id in StateAt(es, n).subs && StateAt(es, n).subs[id].paidCount == es[k].charge.paidCount.value
    decreases n
  {
    if n == k + 1 {
      RunStepCounts(es, k, id);
    } else {
      PaidCountFollowsPayload(es, k, n - 1, id);
      RunStepCounts(es, n - 1, id);
    }
  }
}
