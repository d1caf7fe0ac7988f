/** Tier access as a function of a user's subscription entries, and the array rewrites of billing and the sweep. */
module Tiers {
  import opened Common

  datatype Tier = PUBLIC | PRO | PRO_MAX

  type PaidTier = t: Tier | t != PUBLIC witness PRO

  type SubId = nat

  type Instant = int

  datatype EntryStatus = ACTIVE | CANCELLED | EXPIRED

  datatype Entry = Entry(tier: PaidTier, status: EntryStatus, expiresAt: Option<Instant>, sub: SubId)

  function Rank(t: Tier): nat { match t case PUBLIC => 0 case PRO => 1 case PRO_MAX => 2 }

  predicate IsActive(e: Entry, now: Instant)
  {
    e.status == ACTIVE || (e.status == CANCELLED && e.expiresAt.Some? && e.expiresAt.value > now)
  }

  predicate CanAccess(subs: seq<Entry>, t: Tier, now: Instant)
  {
    t == PUBLIC || exists e <- subs :: e.tier == t && IsActive(e, now)
  }

  /** The highest tier that access is granted to. */
  function CurrentTier(subs: seq<Entry>, now: Instant): (r: Tier)
    ensures CanAccess(subs, r, now) && forall t :: CanAccess(subs, t, now) ==> Rank(t) <= Rank(r)
  {
    if CanAccess(subs, PRO_MAX, now) then PRO_MAX else if CanAccess(subs, PRO, now) then PRO else PUBLIC
  }

  // ----- readers -----

  method UserCanAccessTier(subs: seq<Entry>, t: Tier, now: Instant) returns (r: bool)
    ensures r <==> CanAccess(subs, t, now)
    ensures r <==> t == PUBLIC || exists e <- subs ::
                e.tier == t && (e.status == ACTIVE
                    || (e.status == CANCELLED && e.expiresAt.Some? && now < e.expiresAt.value))
  {
    if t == PUBLIC { return true; }
    for i := 0 to |subs|
      invariant forall k | 0 <= k < i :: !(subs[k].tier == t && IsActive(subs[k], now))
    {
      if subs[i].tier == t && IsActive(subs[i], now) { return true; }
    }
    return false;
  }

  /** The derived tier is the highest one the access predicate grants. */
  method DeriveCurrentTier(subs: seq<Entry>, now: Instant) returns (r: Tier)
    ensures r == CurrentTier(subs, now)
    ensures CanAccess(subs, r, now)
    ensures forall t :: CanAccess(subs, t, now) ==> Rank(t) <= Rank(r)
  {
    var hasActivePro, hasActiveProMax := false, false;
    for i := 0 to |subs|
      invariant hasActiveProMax <==> exists k | 0 <= k < i :: subs[k].tier == PRO_MAX && IsActive(subs[k], now)
      invariant hasActivePro <==> exists k | 0 <= k < i :: subs[k].tier == PRO && IsActive(subs[k], now)
    {
      if IsActive(subs[i], now) {
        if subs[i].tier == PRO_MAX { hasActiveProMax := true; }
        else if subs[i].tier == PRO { hasActivePro := true; }
      }
    }
    r := if hasActiveProMax then PRO_MAX else if hasActivePro then PRO else PUBLIC;
  }

  method MaxExpiresAt(entries: seq<Entry>) returns (r: Option<Instant>)
    ensures r.None? <==> forall e <- entries :: e.expiresAt.None?
    ensures r.Some? ==> exists e <- entries :: e.expiresAt == r
    ensures r.Some? ==> forall e <- entries :: e.expiresAt.Some? ==> e.expiresAt.value <= r.value
  {
    r := None;
    for i := 0 to |entries|
      invariant r.None? <==> forall k | 0 <= k < i :: entries[k].expiresAt.None?
      invariant r.Some? ==> exists k | 0 <= k < i :: entries[k].expiresAt == r
      invariant r.Some? ==> forall k | 0 <= k < i ::
                entries[k].expiresAt.Some? ==> entries[k].expiresAt.value <= r.value
    {
      var x := entries[i].expiresAt;
      if x.Some? && (r.None? || x.value > r.value) { r := x; }
    }
  }

  /** `r` is the latest set expiry among the active entries of tier `t`, if any of them has one. */
  ghost predicate LatestExpiry(subs: seq<Entry>, t: Tier, now: Instant, r: Option<Instant>)
  {
    && (forall e <- subs :: e.tier == t && IsActive(e, now) && e.expiresAt.Some? ==>
          r.Some? && e.expiresAt.value <= r.value)
    && (r.Some? ==> exists e <- subs :: e.tier == t && IsActive(e, now) && e.expiresAt == r)
  }

  method DeriveTierExpiresAt(subs: seq<Entry>, now: Instant) returns (r: Option<Instant>)
    ensures LatestExpiry(subs, CurrentTier(subs, now), now, r)
  {
    var activeProMax := Filter((e: Entry) => e.tier == PRO_MAX && IsActive(e, now), subs);
    if |activeProMax| > 0 {
      assert activeProMax[0] in activeProMax;
      r := MaxExpiresAt(activeProMax);
      return;
    }
    var activePro := Filter((e: Entry) => e.tier == PRO && IsActive(e, now), subs);
    if |activePro| > 0 {
      assert activePro[0] in activePro;
      r := MaxExpiresAt(activePro);
      return;
    }
    r := None;
  }

  // ----- the array rewrites -----

  /** Replaces the entry of the same tier. */
  function Upsert(subs: seq<Entry>, e: Entry): seq<Entry>
  {
    Filter((x: Entry) => x.tier != e.tier, subs) + [e]
  }

  function MarkCancelled(subs: seq<Entry>, id: SubId): seq<Entry>
  {
    Map((x: Entry) => if x.sub == id then x.(status := CANCELLED) else x, subs)
  }

  function MarkExpired(subs: seq<Entry>, id: SubId, now: Instant): seq<Entry>
  {
    Map((x: Entry) => if x.sub == id then x.(status := CANCELLED, expiresAt := Some(now)) else x, subs)
  }

  /**
   The sweep keeps an entry whose expiry is not before `now`. Whether an entry without an expiry is
   kept depends on how the database compares a missing field with null, so that verdict is a parameter.
   */
  predicate Kept(e: Entry, now: Instant, keepUnset: bool)
  {
    if e.expiresAt.Some? then e.expiresAt.value >= now else keepUnset
  }

  function SweepFilter(subs: seq<Entry>, now: Instant, keepUnset: bool): seq<Entry>
  {
    Filter((x: Entry) => Kept(x, now, keepUnset), subs)
  }

  predicate HasExpired(subs: seq<Entry>, now: Instant)
  {
    exists e <- subs :: e.expiresAt.Some? && e.expiresAt.value < now
  }

  // ----- what they do to access -----

  lemma UpsertKeepsTiersApart(a: seq<Entry>, e: Entry)
    requires DistinctKeys((x: Entry) => x.tier, a)
    ensures DistinctKeys((x: Entry) => x.tier, Upsert(a, e))
  {
    FilterKeepsDistinct((x: Entry) => x.tier, (x: Entry) => x.tier != e.tier, a);
    var kept := Filter((x: Entry) => x.tier != e.tier, a);
    forall i | 0 <= i < |kept| ensures kept[i].tier != e.tier { assert kept[i] in kept; }
  }

  /** A charge grants its tier and leaves every other tier alone. */
  lemma UpsertAccess(subs: seq<Entry>, e: Entry, t: Tier, now: Instant)
    ensures CanAccess(Upsert(subs, e), t, now) <==> if t == e.tier then IsActive(e, now) else CanAccess(subs, t, now)
  {
    var u := Upsert(subs, e);
    assert forall x :: x in u <==> (x in subs && x.tier != e.tier) || x == e;
    if t == e.tier && IsActive(e, now) {
      assert e in u;
    }
  }

  /** Charges for different tiers commute as far as access can tell. */
  lemma ChargesCommute(subs: seq<Entry>, a: Entry, b: Entry, t: Tier, now: Instant)
    requires a.tier != b.tier
    ensures CanAccess(Upsert(Upsert(subs, a), b), t, now) == CanAccess(Upsert(Upsert(subs, b), a), t, now)
  {
    UpsertAccess(Upsert(subs, a), b, t, now);
    UpsertAccess(subs, a, t, now);
    UpsertAccess(Upsert(subs, b), a, t, now);
    UpsertAccess(subs, b, t, now);
  }

  lemma MapMembers<T, U>(f: T -> U, s: seq<T>)
    ensures forall y :: y in Map(f, s) <==> exists x <- s :: f(x) == y
  {
    forall y | y in Map(f, s) ensures exists x <- s :: f(x) == y {
      var i :| 0 <= i < |s| && Map(f, s)[i] == y;
      assert s[i] in s;
    }
    forall y | exists x <- s :: f(x) == y ensures y in Map(f, s) {
      var x :| x in s && f(x) == y;
      var i :| 0 <= i < |s| && s[i] == x;
      assert Map(f, s)[i] == y;
    }
  }

  /** After a cancel at cycle end the subscription's entries grant access exactly until their expiry. */
  lemma CancelKeepsGrace(subs: seq<Entry>, id: SubId, t: Tier, now: Instant)
    requires t != PUBLIC
    ensures CanAccess(MarkCancelled(subs, id), t, now) <==>
            exists e <- subs :: e.tier == t && if e.sub == id then e.expiresAt.Some? && now < e.expiresAt.value
                else IsActive(e, now)
  {
    var f := (x: Entry) => if x.sub == id then x.(status := CANCELLED) else x;
    MapMembers(f, subs);
    forall e <- subs ensures f(e) in Map(f, subs) { }
  }

  /** Cancelling ACTIVE entries with a set expiry changes nobody's access before that expiry. */
  lemma CancelUnchangedUntilExpiry(subs: seq<Entry>, id: SubId, t: Tier, now: Instant)
    requires forall e <- subs :: e.sub == id ==> e.status == ACTIVE && e.expiresAt.Some? && now < e.expiresAt.value
    ensures CanAccess(MarkCancelled(subs, id), t, now) == CanAccess(subs, t, now)
  {
    if t != PUBLIC {
      CancelKeepsGrace(subs, id, t, now);
    }
  }

  /** An immediate expiry ends the access its entries gave, from that moment on. */
  lemma ExpireEndsAccess(subs: seq<Entry>, id: SubId, now: Instant, t: Tier, later: Instant)
    requires now <= later && t != PUBLIC
    ensures CanAccess(MarkExpired(subs, id, now), t, later) <==> exists e <- subs ::
            e.tier == t && e.sub != id && IsActive(e, later)
  {
    var f := (x: Entry) => if x.sub == id then x.(status := CANCELLED, expiresAt := Some(now)) else x;
    MapMembers(f, subs);
    forall e <- subs ensures f(e) in Map(f, subs) { }
  }

  /**
   A sweep changes access to a tier, at any time from the sweep on, exactly when it drops an ACTIVE
   entry of that tier and no entry it keeps gives the access.
   */
  lemma SweepChangesAccessIff(subs: seq<Entry>, now: Instant, keepUnset: bool, t: Tier, later: Instant)
    requires now <= later
    ensures CanAccess(subs, t, later) != CanAccess(SweepFilter(subs, now, keepUnset), t, later) <==>
            && t != PUBLIC
            && (exists e <- subs :: e.tier == t && e.status == ACTIVE && !Kept(e, now, keepUnset))
            && (forall e <- subs :: e.tier == t && Kept(e, now, keepUnset) ==> !IsActive(e, later))
  {
  }

  /** Sweeping out only non-ACTIVE entries changes neither access nor the derived tier from the sweep on. */
  lemma SweepOfInactiveIsSilent(subs: seq<Entry>, now: Instant, keepUnset: bool, later: Instant)
    requires now <= later
    requires forall e <- subs :: e.status == ACTIVE ==> Kept(e, now, keepUnset)
    ensures forall t :: CanAccess(SweepFilter(subs, now, keepUnset), t, later) == CanAccess(subs, t, later)
    ensures CurrentTier(SweepFilter(subs, now, keepUnset), later) == CurrentTier(subs, later)
  {
    forall t ensures CanAccess(SweepFilter(subs, now, keepUnset), t, later) == CanAccess(subs, t, later) {
      SweepChangesAccessIff(subs, now, keepUnset, t, later);
    }
  }

  /** An ACTIVE entry past its expiry still gives access until a sweep takes it away. */
  lemma OverdueActiveEntryCounterexample()
    ensures var subs := [Entry(PRO, ACTIVE, Some(5), 0)];
            CanAccess(subs, PRO, 9) && !CanAccess(SweepFilter(subs, 9, true), PRO, 9)
  {
    var subs := [Entry(PRO, ACTIVE, Some(5), 0)];
    assert subs[0] in subs;
  }

  /** A sweep keeps exactly the entries whose expiry, when set, is not before it. */
  lemma SweepKeepsExactly(subs: seq<Entry>, now: Instant, keepUnset: bool, e: Entry)
    ensures e.expiresAt.Some? ==> (e in SweepFilter(subs, now, keepUnset) <==> e in subs && now <= e.expiresAt.value)
    ensures e.expiresAt.None? ==> (e in SweepFilter(subs, now, keepUnset) <==> e in subs && keepUnset)
  {
  }

  lemma SweepClears(subs: seq<Entry>, now: Instant, keepUnset: bool)
    ensures !HasExpired(SweepFilter(subs, now, keepUnset), now)
    ensures HasExpired(subs, now) ==> SweepFilter(subs, now, keepUnset) != subs
  {
  }
}
