/**
 What the entries array means over a whole run. The reference is one slot per user and tier, written
 by charges and marked or emptied by the events about the subscription it names. The array that
 billing and the sweep rewrite by filter, append and map holds exactly what the slots hold, so
 access over any run can be read off the slots.
 */
module Access {
  import opened Common
  import opened Runs
  import opened Tiers
  import opened Billing

  function Cut(e: Entry, now: Instant): Entry { e.(status := CANCELLED, expiresAt := Some(now)) }

  /** The step is a charge of this user and tier that is recorded for the first time. */
  predicate Captures(s: State, e: Step, u: UserId, t: PaidTier)
  {
    && e.Charged? && Known(s, e.charge.sub) && e.charge.pay !in s.payments
    && s.subs[e.charge.sub].user == u && s.subs[e.charge.sub].tier == t
  }

  /** What a step does to the slot of user `u` and tier `t`. */
  function NextSlot(s: State, e: Step, u: UserId, t: PaidTier, slot: Option<Entry>): Option<Entry>
  {
    if Captures(s, e, u, t) then Some(Entry(t, ACTIVE, e.charge.currentEnd, e.charge.sub))
    else if slot.None? then None
    else
      var x := slot.value;
      match e
      case Halted(id, now) => if x.sub == id then Some(Cut(x, now)) else slot
      case Cancelled(id, atCycleEnd, now) =>
        if x.sub != id then slot else if atCycleEnd then Some(x.(status := CANCELLED)) else Some(Cut(x, now))
      case Sweep(users, now, keepUnset) => if u in users && !Kept(x, now, keepUnset) then None else slot
      case _ => slot
  }

  ghost function Slot(es: seq<Step>, i: nat, u: UserId, t: PaidTier): Option<Entry>
    requires i <= |es|
  {
    if i == 0 then None else NextSlot(StateAt(es, i - 1), es[i - 1], u, t, Slot(es, i - 1, u, t))
  }

  // ----- the array rewrites, slot by slot -----

  /** The slot is the array's one entry of tier `t`. */
  ghost predicate Holds(a: seq<Entry>, t: PaidTier, slot: Option<Entry>)
  {
    forall x :: x in a && x.tier == t <==> slot == Some(x)
  }

  lemma UpsertHolds(a: seq<Entry>, t: PaidTier, slot: Option<Entry>, e: Entry)
    requires Holds(a, t, slot)
    ensures Holds(Upsert(a, e), t, if e.tier == t then Some(e) else slot)
  {
    assert forall x :: x in Upsert(a, e) <==> (x in a && x.tier != e.tier) || x == e;
  }

  /** A map that keeps tiers acts on the slot's entry alone. */
  lemma MapHolds(a: seq<Entry>, t: PaidTier, slot: Option<Entry>, f: Entry -> Entry)
    requires Holds(a, t, slot) && forall x :: f(x).tier == x.tier
    ensures Holds(Map(f, a), t, if slot.Some? then Some(f(slot.value)) else None)
  {
    MapMembers(f, a);
    if slot.Some? {
      assert slot.value in a;
      assert f(slot.value) in Map(f, a);
    }
    forall x | x in Map(f, a) && x.tier == t ensures slot.Some? && x == f(slot.value) {
      var y :| y in a && f(y) == x;
      assert y.tier == t;
    }
  }

  lemma MarkCancelledHolds(a: seq<Entry>, t: PaidTier, slot: Option<Entry>, id: SubId)
    requires Holds(a, t, slot)
    ensures Holds(MarkCancelled(a, id), t, if slot.Some? && slot.value.sub == id
            then Some(slot.value.(status := CANCELLED)) else slot)
  {
    MapHolds(a, t, slot, (x: Entry) => if x.sub == id then x.(status := CANCELLED) else x);
  }

  lemma MarkExpiredHolds(a: seq<Entry>, t: PaidTier, slot: Option<Entry>, id: SubId, now: Instant)
    requires Holds(a, t, slot)
    ensures Holds(MarkExpired(a, id, now), t, if slot.Some? && slot.value.sub == id then Some(Cut(slot.value, now))
            else slot)
  {
    MapHolds(a, t, slot, (x: Entry) => if x.sub == id then x.(status := CANCELLED, expiresAt := Some(now)) else x);
  }

  lemma SweepHolds(a: seq<Entry>, t: PaidTier, slot: Option<Entry>, now: Instant, keepUnset: bool)
    requires Holds(a, t, slot)
    ensures Holds(SweepFilter(a, now, keepUnset), t, if slot.Some? && !Kept(slot.value, now, keepUnset) then None
            else slot)
  {
  }

  // ----- every step moves the array as it moves the slot -----

  ghost predicate Mirrors(s: State, u: UserId, t: PaidTier, slot: Option<Entry>)
  {
    if u in s.entries then Holds(s.entries[u], t, slot) else slot.None?
  }

  lemma ChargeMirrors(s: State, ch: Charge, u: UserId, t: PaidTier, slot: Option<Entry>)
    requires Mirrors(s, u, t, slot)
    ensures Mirrors(OnCharged(s, ch), u, t, NextSlot(s, Charged(ch), u, t, slot))
  {
    if Known(s, ch.sub) && ch.pay !in s.payments && s.subs[ch.sub].user == u {
      UpsertHolds(s.entries[u], t, slot, Entry(s.subs[ch.sub].tier, ACTIVE, ch.currentEnd, ch.sub));
    }
  }

  /** A slot that names a subscription names one of its own user, so marks by subscription id reach it. */
  lemma SlotIsOwned(s: State, u: UserId, t: PaidTier, slot: Option<Entry>)
    requires Inv(s) && Mirrors(s, u, t, slot) && slot.Some?
    ensures u in s.entries && Known(s, slot.value.sub) && s.subs[slot.value.sub].user == u
  {
    assert slot.value in s.entries[u];
    assert EntryOk(s, u, slot.value);
  }

  lemma MarkMirrors(s: State, e: Step, u: UserId, t: PaidTier, slot: Option<Entry>)
    requires Inv(s) && Mirrors(s, u, t, slot) && (e.Halted? || e.Cancelled?)
    ensures Mirrors(Apply(s, e), u, t, NextSlot(s, e, u, t, slot))
  {
    if slot.Some? { SlotIsOwned(s, u, t, slot); }
    if u in s.entries {
      MarkCancelledHolds(s.entries[u], t, slot, e.sub);
      MarkExpiredHolds(s.entries[u], t, slot, e.sub, e.now);
    }
  }

  lemma StepMirrors(s: State, e: Step, u: UserId, t: PaidTier, slot: Option<Entry>)
    requires Inv(s) && Mirrors(s, u, t, slot)
    ensures Mirrors(Apply(s, e), u, t, NextSlot(s, e, u, t, slot))
  {
    if e.Charged? {
      ChargeMirrors(s, e.charge, u, t, slot);
    } else if e.Halted? || e.Cancelled? {
      MarkMirrors(s, e, u, t, slot);
    } else if e.Sweep? && u in s.entries {
      SweepHolds(s.entries[u], t, slot, e.now, e.keepUnset);
    }
  }

  /** In every run the array holds, for each tier, exactly what the slot holds. */
  lemma {:induction false} ArrayRefinesSlots(es: seq<Step>, i: nat, u: UserId, t: PaidTier)
    requires i <= |es|
    ensures Mirrors(StateAt(es, i), u, t, Slot(es, i, u, t))
  {
    if i > 0 {
      ArrayRefinesSlots(es, i - 1, u, t);
      ReachableInv(es, i - 1);
      AtStep(Apply, INIT, es, i - 1);
      StepMirrors(StateAt(es, i - 1), es[i - 1], u, t, Slot(es, i - 1, u, t));
    }
  }

  /** Access to a paid tier, at any time, is what the tier's slot grants. */
  lemma AccessIsTheSlots(es: seq<Step>, i: nat, u: UserId, t: PaidTier, now: Instant)
    requires i <= |es| && u in StateAt(es, i).entries
    ensures CanAccess(StateAt(es, i).entries[u], t, now) <==>
            Slot(es, i, u, t).Some? && IsActive(Slot(es, i, u, t).value, now)
  {
    ArrayRefinesSlots(es, i, u, t);
    var a := StateAt(es, i).entries[u];
    if Slot(es, i, u, t).Some? { assert Slot(es, i, u, t).value in a; }
  }

  /** Past the expiry that its slot shows, a tier is still granted exactly while the slot is ACTIVE. */
  lemma OverdueAccessIff(es: seq<Step>, i: nat, u: UserId, t: PaidTier, now: Instant)
    requires i <= |es| && u in StateAt(es, i).entries && Slot(es, i, u, t).Some?
    requires Slot(es, i, u, t).value.expiresAt.Some? && Slot(es, i, u, t).value.expiresAt.value <= now
    ensures CanAccess(StateAt(es, i).entries[u], t, now) <==> Slot(es, i, u, t).value.status == ACTIVE
  {
    AccessIsTheSlots(es, i, u, t, now);
  }

  // ----- access over runs -----

  /** The slot holds an entry that is paid at least until `until`. */
  ghost predicate Covers(slot: Option<Entry>, until: Instant)
  {
    && slot.Some? && slot.value.status in {ACTIVE, CANCELLED}
    && slot.value.expiresAt.Some? && slot.value.expiresAt.value >= until
  }

  /**
   The steps that cut a slot short of `until`: a charge of the tier for a shorter period or for none,
   an end without grace, before `until`, of the subscription that the slot names, and a sweep dated
   after the slot's expiry.
   */
  ghost predicate Cuts(s: State, e: Step, u: UserId, t: PaidTier, slot: Option<Entry>, until: Instant)
    requires slot.Some? && slot.value.expiresAt.Some?
  {
    match e
    case Charged(ch) => Captures(s, e, u, t) && (ch.currentEnd.None? || ch.currentEnd.value < until)
    case Halted(sub, now) => sub == slot.value.sub && now < until
    case Cancelled(sub, atCycleEnd, now) => sub == slot.value.sub && !atCycleEnd && now < until
    case Sweep(users, now, _) => u in users && slot.value.expiresAt.value < now
    case _ => false
  }

  lemma StepCoversIff(s: State, e: Step, u: UserId, t: PaidTier, slot: Option<Entry>, until: Instant)
    requires Covers(slot, until)
    ensures Covers(NextSlot(s, e, u, t, slot), until) <==> !Cuts(s, e, u, t, slot, until)
  {
  }

  /** The slot covers `until` at point `k`. */
  ghost predicate CoversAt(es: seq<Step>, k: nat, u: UserId, t: PaidTier, until: Instant)
    requires k <= |es|
  {
    Covers(Slot(es, k, u, t), until)
  }

  /** Step `k` cuts a slot that covers `until` at that point. */
  ghost predicate CutsAt(es: seq<Step>, k: nat, u: UserId, t: PaidTier, until: Instant)
    requires k < |es|
  {
    CoversAt(es, k, u, t, until) && Cuts(StateAt(es, k), es[k], u, t, Slot(es, k, u, t), until)
  }

  lemma RunStepCoversIff(es: seq<Step>, k: nat, u: UserId, t: PaidTier, until: Instant)
    requires k < |es| && CoversAt(es, k, u, t, until)
    ensures CoversAt(es, k + 1, u, t, until) <==> !CutsAt(es, k, u, t, until)
  {
    StepCoversIff(StateAt(es, k), es[k], u, t, Slot(es, k, u, t), until);
  }

  /** A covered period stays covered exactly as long as no step cuts it. */
  lemma CoverLastsIff(es: seq<Step>, i: nat, j: nat, u: UserId, t: PaidTier, until: Instant)
    requires i <= j <= |es| && CoversAt(es, i, u, t, until)
    ensures (forall k: nat | i <= k <= j :: CoversAt(es, k, u, t, until)) <==>
            (forall k: nat | i <= k < j :: !CutsAt(es, k, u, t, until))
  {
    var kept := (k: nat) => k <= j && CoversAt(es, k, u, t, until);
    var bad := (k: nat) => k < j && CutsAt(es, k, u, t, until);
    forall k: nat | i <= k < j && kept(k) ensures kept(k + 1) <==> !bad(k) { RunStepCoversIff(es, k, u, t, until); }
    KeptIffNeverBad(kept, bad, i, j);
    assert forall k: nat | i <= k <= j :: kept(k) <==> CoversAt(es, k, u, t, until);
    assert forall k: nat | i <= k < j :: bad(k) <==> CutsAt(es, k, u, t, until);
  }

  lemma EntriesStay(es: seq<Step>, i: nat, u: UserId, t: PaidTier)
    requires i <= |es| && Slot(es, i, u, t).Some?
    ensures u in StateAt(es, i).entries
  {
    ArrayRefinesSlots(es, i, u, t);
  }

  /**
   A paid period is honoured: from the charge that paid for it until its end, access lasts through
   renewals and other charges of the tier for no shorter a time, cancels at cycle end, ends that name
   another subscription or come after the period, events of other tiers and users, and sweeps dated
   no later than the expiry that holds when they come.
   */
  lemma PaidPeriodIsHonoured(es: seq<Step>, i: nat, j: nat, u: UserId, t: PaidTier, until: Instant, now: Instant)
    requires i < j <= |es| && Captures(StateAt(es, i), es[i], u, t) && es[i].charge.currentEnd == Some(until)
    requires now < until && forall k: nat | i < k < j :: !CutsAt(es, k, u, t, until)
    ensures u in StateAt(es, j).entries && CanAccess(StateAt(es, j).entries[u], t, now)
  {
    CoverLastsIff(es, i + 1, j, u, t, until);
    assert CoversAt(es, j, u, t, until);
    EntriesStay(es, j, u, t);
    AccessIsTheSlots(es, j, u, t, now);
  }

  /** The slot is empty, or names subscription `id` and grants nothing from `from` on. */
  ghost predicate Over(slot: Option<Entry>, id: SubId, from: Instant)
  {
    slot.None? || (slot.value.sub == id && slot.value.status != ACTIVE
        && (slot.value.expiresAt.None? || slot.value.expiresAt.value <= from))
  }

  /** No recorded charge of the tier, and no end of this very subscription dated after `from`. */
  predicate LeavesOver(s: State, e: Step, u: UserId, t: PaidTier, id: SubId, from: Instant)
  {
    !Captures(s, e, u, t) && ((e.Halted? || e.Cancelled?) && e.sub == id ==> e.now <= from)
  }

  lemma StepStaysOver(s: State, e: Step, u: UserId, t: PaidTier, slot: Option<Entry>, id: SubId, from: Instant)
    requires Over(slot, id, from) && LeavesOver(s, e, u, t, id, from)
    ensures Over(NextSlot(s, e, u, t, slot), id, from)
  {
  }

  lemma {:induction false} StaysOver(es: seq<Step>, i: nat, j: nat, u: UserId, t: PaidTier, id: SubId, from: Instant)
    requires i <= j <= |es| && Over(Slot(es, i, u, t), id, from)
    requires forall k | i <= k < j :: LeavesOver(StateAt(es, k), es[k], u, t, id, from)
    ensures Over(Slot(es, j, u, t), id, from)
    decreases j
  {
    if i < j {
      StaysOver(es, i, j - 1, u, t, id, from);
      StepStaysOver(StateAt(es, j - 1), es[j - 1], u, t, Slot(es, j - 1, u, t), id, from);
    }
  }

  /** A halt, or a cancel without grace. */
  predicate EndsAtOnce(e: Step, id: SubId) { (e.Halted? || (e.Cancelled? && !e.atCycleEnd)) && e.sub == id }

  /**
   An ended subscription is not revived: after a halt, or a cancel without grace, of the subscription
   that a tier's entry names, access to that tier is gone at every later time until the next recorded
   charge of the tier, whatever else happens up to then.
   */
  lemma EndedAccessStaysEnded(es: seq<Step>, i: nat, j: nat, u: UserId, t: PaidTier, id: SubId, now: Instant)
    requires i < j <= |es| && EndsAtOnce(es[i], id)
    requires Slot(es, i, u, t).Some? && Slot(es, i, u, t).value.sub == id && es[i].now <= now
    requires forall k | i < k < j :: LeavesOver(StateAt(es, k), es[k], u, t, id, now)
    ensures u in StateAt(es, j).entries ==> !CanAccess(StateAt(es, j).entries[u], t, now)
  {
    StaysOver(es, i + 1, j, u, t, id, now);
    if u in StateAt(es, j).entries { AccessIsTheSlots(es, j, u, t, now); }
  }
}
