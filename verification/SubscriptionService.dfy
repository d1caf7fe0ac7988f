/** The subscription webhook handlers over the rows they update, one transaction each. */
module SubscriptionService {
  import opened Common
  import opened Tiers
  import opened Billing

  /** Some entry grants the tier when those of subscription `id` grant it only until their expiry. */
  predicate GrantsAfterCancel(a: seq<Entry>, id: SubId, t: Tier, now: Instant)
  {
    exists e <- a :: e.tier == t && if e.sub == id then e.expiresAt.Some? && now < e.expiresAt.value
        else IsActive(e, now)
  }

  /** Some entry of another subscription grants the tier. */
  predicate GrantsAfterEnd(a: seq<Entry>, id: SubId, t: Tier, now: Instant)
  {
    exists e <- a :: e.tier == t && e.sub != id && IsActive(e, now)
  }

  class SubscriptionService {
    var payments: map<PaymentId, Payment>
    var subs: map<SubId, SubRow>
    var entries: map<UserId, seq<Entry>>

    ghost function View(): State
      reads this
    {
      State(payments, subs, entries)
    }

    constructor ()
      ensures View() == INIT
    {
      payments, subs, entries := map[], map[], map[];
    }

    method UpsertSubscriptionEntry(u: UserId, entry: Entry)
      modifies this`entries
      ensures entries == if u in old(entries) then old(entries)[u := Upsert(old(entries)[u], entry)] else old(entries)
      ensures u in entries ==> forall t, now :: CanAccess(entries[u], t, now) <==>
                if t == entry.tier then IsActive(entry, now) else CanAccess(old(entries)[u], t, now)
      ensures u in entries && DistinctKeys((x: Entry) => x.tier, old(entries)[u]) ==>
                DistinctKeys((x: Entry) => x.tier, entries[u])
    {
      if u in entries {
        forall t, now { UpsertAccess(entries[u], entry, t, now); }
        if DistinctKeys((x: Entry) => x.tier, entries[u]) { UpsertKeepsTiersApart(entries[u], entry); }
        entries := entries[u := Filter((x: Entry) => x.tier != entry.tier, entries[u]) + [entry]];
      }
    }

    method MarkEntryCancelledBySubId(u: UserId, id: SubId)
      modifies this`entries
      ensures entries == if u in old(entries) then old(entries)[u := MarkCancelled(old(entries)[u], id)]
              else old(entries)
      ensures u in entries ==> forall t, now | t != PUBLIC :: CanAccess(entries[u], t, now) <==>
              GrantsAfterCancel(old(entries)[u], id, t, now)
    {
      if u in entries {
        forall t, now | t != PUBLIC { CancelKeepsGrace(entries[u], id, t, now); }
        entries := entries[u := Map((x: Entry) => if x.sub == id then x.(status := CANCELLED) else x, entries[u])];
      }
    }

    method MarkEntryExpiredImmediatelyBySubId(u: UserId, id: SubId, now: Instant)
      modifies this`entries
      ensures entries == if u in old(entries) then old(entries)[u := MarkExpired(old(entries)[u], id, now)]
              else old(entries)
      ensures u in entries ==> forall t, later | t != PUBLIC && now <= later ::
                CanAccess(entries[u], t, later) <==> GrantsAfterEnd(old(entries)[u], id, t, later)
    {
      if u in entries {
        forall t, later | t != PUBLIC && now <= later { ExpireEndsAccess(entries[u], id, now, t, later); }
        entries := entries[u := Map((x: Entry) => if x.sub == id then x.(status := CANCELLED, expiresAt := Some(now))
            else x, entries[u])];
      }
    }

    /** `invoice` is the payment to enqueue an invoice for: a first-time capture and nothing else. */
    method OnCharged(ch: Charge) returns (invoice: Option<PaymentId>)
      requires Inv(View())
      modifies this
      ensures View() == Apply(old(View()), Charged(ch)) && Inv(View())
      ensures invoice == if ch.pay in payments && ch.pay !in old(payments) then Some(ch.pay) else None
      ensures !(ch.sub in old(subs) && old(subs)[ch.sub].user in old(entries)) || ch.pay in old(payments) ==>
              unchanged(this)
      ensures ch.sub in old(subs) && old(subs)[ch.sub].user in old(entries) && ch.pay !in old(payments) ==>
                var sub := old(subs)[ch.sub];
                && payments == old(payments)[ch.pay := Payment(ch.sub, sub.user, ch.amount)]
                && subs == old(subs)[ch.sub := SubRow(sub.user, sub.tier,
                     if ch.paidCount.Some? then ch.paidCount.value else sub.paidCount + 1)]
                && Entry(sub.tier, ACTIVE, ch.currentEnd, ch.sub) in entries[sub.user]
                && (forall u <- old(entries) | u != sub.user :: u in entries && entries[u] == old(entries)[u])
                && (forall e: Entry | e.tier != sub.tier :: e in entries[sub.user] <==> e in old(entries)[sub.user])
      ensures Known(old(View()), ch.sub) && ch.pay !in old(payments) ==>
                forall now :: CanAccess(entries[subs[ch.sub].user], subs[ch.sub].tier, now)
    {
      StepKeepsInv(View(), Charged(ch));
      if ch.sub !in subs || subs[ch.sub].user !in entries {
        return None;
      }
      var sub := subs[ch.sub];
      if ch.pay in payments {
        return None;
      }
      payments := payments[ch.pay := Payment(ch.sub, sub.user, ch.amount)];
      subs := subs[ch.sub := sub.(paidCount := if ch.paidCount.Some? then ch.paidCount.value else sub.paidCount + 1)];
      var entry := Entry(sub.tier, ACTIVE, ch.currentEnd, ch.sub);
      UpsertSubscriptionEntry(sub.user, entry);
      forall now ensures CanAccess(entries[sub.user], sub.tier, now) {
        UpsertAccess(old(entries)[sub.user], entry, sub.tier, now);
      }
      return Some(ch.pay);
    }

    method OnHalted(id: SubId, now: Instant)
      requires Inv(View())
      modifies this
      ensures View() == Apply(old(View()), Halted(id, now)) && Inv(View())
    {
      StepKeepsInv(View(), Halted(id, now));
      if id in subs {
        MarkEntryExpiredImmediatelyBySubId(subs[id].user, id, now);
      }
    }

    method OnCancelled(id: SubId, atCycleEnd: bool, now: Instant)
      requires Inv(View())
      modifies this
      ensures View() == Apply(old(View()), Cancelled(id, atCycleEnd, now)) && Inv(View())
    {
      StepKeepsInv(View(), Cancelled(id, atCycleEnd, now));
      if id in subs {
        if atCycleEnd {
          MarkEntryCancelledBySubId(subs[id].user, id);
        } else {
          MarkEntryExpiredImmediatelyBySubId(subs[id].user, id, now);
        }
      }
    }
  }
}
