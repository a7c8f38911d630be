/** How long a pin and a slot last, and who comes after them, told by the fields of sessions, slots and records. */
module PinLaws {
  import opened Common
  import opened Proxies
  import opened PoolSpec
  import opened PoolRuns
  import opened PoolCapacity
  import opened PoolLaws
  import opened LocalProxySpec

  // ----- who may be chosen -----

  /** Usable, allowed, not dropped, and on no proxy, server or known exit of the other sessions. */
  ghost predicate KeepsApart(cfg: Config, p: ProxyInfo, others: map<string, Session>, dropped: set<ProxyId>,
                             policy: ProxyPolicy)
  {
    && Usable(cfg, p) && policy.Allows(p) && p.id !in dropped
    && forall k :: k in others ==>
         && others[k].proxyId != p.id && others[k].host != p.host
         && (p.exitIp.Some? ==> others[k].exitIp != p.exitIp)
  }

  /** Usable, allowed, not dropped, and neither it nor its known exit was used lately. */
  ghost predicate NotLately(cfg: Config, p: ProxyInfo, recent: seq<UsedProxy>, dropped: set<ProxyId>,
                            policy: ProxyPolicy)
  {
    && Usable(cfg, p) && policy.Allows(p) && p.id !in dropped
    && forall i :: 0 <= i < |recent| ==> recent[i].id != p.id && (p.exitIp.Some? ==> recent[i].exitIp != p.exitIp)
  }

  lemma ApartIsEligible(cfg: Config, p: ProxyInfo, others: map<string, Session>, dropped: set<ProxyId>,
                        policy: ProxyPolicy)
    ensures Eligible(cfg, p, ApartFrom(others, dropped, policy)) <==> KeepsApart(cfg, p, others, dropped, policy)
  {
    var w := ApartFrom(others, dropped, policy);
    if Eligible(cfg, p, w) {
      forall k | k in others
        ensures others[k].proxyId != p.id && others[k].host != p.host
        ensures p.exitIp.Some? ==> others[k].exitIp != p.exitIp
      {
        assert ById(others[k].proxyId) in w.avoid && ByHost(others[k].host) in w.avoid;
        if others[k].exitIp.Some? {
          assert others[k].exitIp.value in w.exits;
        }
      }
      assert p.id in dropped ==> ById(p.id) in w.avoid;
    }
  }

  lemma NotLatelyIsEligible(cfg: Config, p: ProxyInfo, recent: seq<UsedProxy>, dropped: set<ProxyId>,
                            policy: ProxyPolicy)
    ensures Eligible(cfg, p, RecentlyUsed(recent, dropped, policy)) <==> NotLately(cfg, p, recent, dropped, policy)
  {
    var w := RecentlyUsed(recent, dropped, policy);
    if Eligible(cfg, p, w) {
      forall i | 0 <= i < |recent|
        ensures recent[i].id != p.id && (p.exitIp.Some? ==> recent[i].exitIp != p.exitIp)
      {
        assert ById(recent[i].id) in w.avoid;
        if recent[i].exitIp.Some? {
          assert recent[i].exitIp.value in w.exits;
        }
      }
      assert p.id in dropped ==> ById(p.id) in w.avoid;
    }
  }

  /** No record that keeps apart is worth more. */
  ghost predicate BestApart(cfg: Config, records: seq<ProxyInfo>, p: ProxyInfo, others: map<string, Session>,
                            dropped: set<ProxyId>, policy: ProxyPolicy, now: Time)
  {
    && p in records && KeepsApart(cfg, p, others, dropped, policy)
    && forall i :: 0 <= i < |records| && KeepsApart(cfg, records[i], others, dropped, policy) ==>
         EffectiveScore(cfg, records[i], now) <= EffectiveScore(cfg, p, now)
  }

  ghost predicate NobodyApart(cfg: Config, records: seq<ProxyInfo>, others: map<string, Session>,
                              dropped: set<ProxyId>, policy: ProxyPolicy)
  {
    forall i :: 0 <= i < |records| ==> !KeepsApart(cfg, records[i], others, dropped, policy)
  }

  ghost predicate BestNotLately(cfg: Config, records: seq<ProxyInfo>, p: ProxyInfo, recent: seq<UsedProxy>,
                                dropped: set<ProxyId>, policy: ProxyPolicy, now: Time)
  {
    && p in records && NotLately(cfg, p, recent, dropped, policy)
    && forall i :: 0 <= i < |records| && NotLately(cfg, records[i], recent, dropped, policy) ==>
         EffectiveScore(cfg, records[i], now) <= EffectiveScore(cfg, p, now)
  }

  ghost predicate EverybodyLately(cfg: Config, records: seq<ProxyInfo>, recent: seq<UsedProxy>,
                                  dropped: set<ProxyId>, policy: ProxyPolicy)
  {
    forall i :: 0 <= i < |records| ==> !NotLately(cfg, records[i], recent, dropped, policy)
  }

  lemma ChoiceIsBestApart(cfg: Config, records: seq<ProxyInfo>, others: map<string, Session>, dropped: set<ProxyId>,
                          policy: ProxyPolicy, now: Time)
    ensures var best := BestRecord(cfg, records, ApartFrom(others, dropped, policy), now);
            if NobodyApart(cfg, records, others, dropped, policy) then best.None?
            else best.Some? && BestApart(cfg, records, best.value, others, dropped, policy, now)
  {
    hide EffectiveScore, Best, Eligible, KeepsApart, ApartFrom;
    forall i | 0 <= i < |records|
      ensures Eligible(cfg, records[i], ApartFrom(others, dropped, policy))
              <==> KeepsApart(cfg, records[i], others, dropped, policy)
    {
      ApartIsEligible(cfg, records[i], others, dropped, policy);
    }
    BestIsTheHighest(cfg, records, ApartFrom(others, dropped, policy), now);
  }

  lemma ChoiceIsBestNotLately(cfg: Config, records: seq<ProxyInfo>, recent: seq<UsedProxy>, dropped: set<ProxyId>,
                              policy: ProxyPolicy, now: Time)
    ensures var best := BestRecord(cfg, records, RecentlyUsed(recent, dropped, policy), now);
            if EverybodyLately(cfg, records, recent, dropped, policy) then best.None?
            else best.Some? && BestNotLately(cfg, records, best.value, recent, dropped, policy, now)
  {
    hide EffectiveScore, Best, Eligible, NotLately, RecentlyUsed;
    forall i | 0 <= i < |records|
      ensures Eligible(cfg, records[i], RecentlyUsed(recent, dropped, policy))
              <==> NotLately(cfg, records[i], recent, dropped, policy)
    {
      NotLatelyIsEligible(cfg, records[i], recent, dropped, policy);
    }
    BestIsTheHighest(cfg, records, RecentlyUsed(recent, dropped, policy), now);
  }

  /** The record is what the pool has under this id, and the policy allows it. */
  ghost predicate HeldAndAllowed(records: seq<ProxyInfo>, id: ProxyId, policy: ProxyPolicy, p: ProxyInfo) {
    p in records && p.id == id && policy.Allows(p)
  }

  lemma HeldIsFound(records: seq<ProxyInfo>, id: ProxyId, policy: ProxyPolicy, p: ProxyInfo)
    requires UniqueIds(records) && HeldAndAllowed(records, id, policy, p)
    ensures Get(records, id) == Some(p) && Has(records, id)
  {
    var i :| 0 <= i < |records| && records[i] == p;
    SearchFinds(records, i);
  }

  lemma FoundIsHeld(records: seq<ProxyInfo>, id: ProxyId, policy: ProxyPolicy)
    requires Has(records, id) && policy.Allows(Get(records, id).value)
    ensures HeldAndAllowed(records, id, policy, Get(records, id).value)
  {
  }

  // ----- sticky sessions -----

  /** When a pin ends: so many seconds after it was made, or never. */
  predicate EndsAfter(expiresAt: Option<Time>, secs: nat, made: Time) {
    if secs == 0 then expiresAt.None? else expiresAt == Some(made + secs * 1_000_000_000)
  }

  /** The client is pinned anew to the best that keeps apart from the others, or to nobody and falls back. */
  ghost predicate PinnedAnew(cfg: Config, l: Local, pool: Pool, identity: string, policy: ProxyPolicy, now: Time,
                             pick: Pick)
  {
    var others := l.sessions - {identity};
    var dropped := if identity in l.avoided then l.avoided[identity] else {};
    && pick.local.avoided == l.avoided - {identity} && pick.local.slots == l.slots && pick.local.recent == l.recent
    && if NobodyApart(cfg, pool.records, others, dropped, policy) then
         pick.local.sessions == others && pick.proxy == Fallback(pool, policy)
       else
         && pick.proxy.Some? && BestApart(cfg, pool.records, pick.proxy.value, others, dropped, policy, now)
         && identity in pick.local.sessions
         && var p, session := pick.proxy.value, pick.local.sessions[identity];
            && pick.local.sessions == others[identity := session]
            && session.proxyId == p.id && session.host == p.host && session.exitIp == p.exitIp
            && EndsAfter(session.expiresAt, policy.stickySecs, now)
  }

  /**
   * A sticky pick, all of it: the pin is kept while it has not run out and the pool still has its proxy, one
   * the policy allows; otherwise the client is pinned anew.
   */
  lemma PinIsKeptOrMadeAnew(cfg: Config, l: Local, pool: Pool, identity: string, policy: ProxyPolicy, now: Time)
    requires UniqueIds(pool.records)
    ensures var pick := StickyPick(cfg, l, pool, identity, policy, now);
            if identity in l.sessions && (l.sessions[identity].expiresAt.Some? ==>
                 now < l.sessions[identity].expiresAt.value)
               && (exists p :: HeldAndAllowed(pool.records, l.sessions[identity].proxyId, policy, p)) then
              pick.local == l && pick.proxy.Some?
              && HeldAndAllowed(pool.records, l.sessions[identity].proxyId, policy, pick.proxy.value)
            else PinnedAnew(cfg, l, pool, identity, policy, now, pick)
  {
    hide ApartFrom, Best, BestRecord, Fallback, NobodyApart, BestApart, UniqueIds, Has, Get;
    if identity in l.sessions {
      var id := l.sessions[identity].proxyId;
      if p :| HeldAndAllowed(pool.records, id, policy, p) {
        HeldIsFound(pool.records, id, policy, p);
      } else if Has(pool.records, id) {
        HasIsGet(pool.records, id);
        if policy.Allows(Get(pool.records, id).value) {
          FoundIsHeld(pool.records, id, policy);
        }
      }
    }
    var others := l.sessions - {identity};
    ChoiceIsBestApart(cfg, pool.records, others, TurnedAway(l.avoided, identity), policy, now);
  }

  lemma HasIsGet(records: seq<ProxyInfo>, id: ProxyId)
    ensures Has(records, id) <==> Get(records, id).Some?
  {
  }

  /** A pin that has run out is gone after the next pick, whoever comes then. */
  lemma ExpiredPinIsReplaced(cfg: Config, l: Local, pool: Pool, identity: string, policy: ProxyPolicy, now: Time)
    requires UniqueIds(pool.records) && identity in l.sessions
    requires l.sessions[identity].expiresAt.Some? && l.sessions[identity].expiresAt.value <= now
    ensures var pick := StickyPick(cfg, l, pool, identity, policy, now);
            && PinnedAnew(cfg, l, pool, identity, policy, now, pick)
            && (identity in pick.local.sessions ==> pick.local.sessions[identity] != l.sessions[identity])
  {
    hide StickyPick, NobodyApart, BestApart, Fallback, UniqueIds;
    PinIsKeptOrMadeAnew(cfg, l, pool, identity, policy, now);
  }

  /**
   * A pin made for some seconds to a proxy the pool keeps and the policy allows: until they are over each
   * pick returns it and changes nothing, and from then on none does. A pin made for none never runs out.
   */
  lemma PinLastsItsSeconds(cfg: Config, l: Local, pool: Pool, identity: string, carried: ProxyInfo, secs: nat,
                           made: Time, policy: ProxyPolicy, now: Time, p: ProxyInfo)
    requires UniqueIds(pool.records) && HeldAndAllowed(pool.records, carried.id, policy, p)
    ensures var pinned := PinSession(l, identity, carried, secs, made);
            var pick := StickyPick(cfg, pinned, pool, identity, policy, now);
            && identity in pinned.sessions
            && if secs == 0 || now < made + secs * 1_000_000_000 then pick.local == pinned && pick.proxy == Some(p)
               else identity in pick.local.sessions ==> pick.local.sessions[identity] != pinned.sessions[identity]
  {
    hide StickyPick, PinnedAnew, UniqueIds;
    var pinned := PinSession(l, identity, carried, secs, made);
    PinIsKeptOrMadeAnew(cfg, pinned, pool, identity, policy, now);
    if secs == 0 || now < made + secs * 1_000_000_000 {
      var pick := StickyPick(cfg, pinned, pool, identity, policy, now);
      HeldIsFound(pool.records, carried.id, policy, p);
      HeldIsFound(pool.records, carried.id, policy, pick.proxy.value);
    } else {
      ExpiredPinIsReplaced(cfg, pinned, pool, identity, policy, now);
    }
  }

  // ----- timed slots -----

  /** Another proxy takes the place: the best not used lately, for a window of its own. */
  ghost predicate ReplacedInSlot(cfg: Config, l: Local, pool: Pool, name: string, policy: ProxyPolicy, now: Time,
                                 pick: Pick)
  {
    var dropped := if name in l.avoided then l.avoided[name] else {};
    && pick.local.avoided == l.avoided - {name} && pick.local.sessions == l.sessions
    && if EverybodyLately(cfg, pool.records, l.recent, dropped, policy) then
         pick.local.slots == l.slots && pick.local.recent == l.recent && pick.proxy == Fallback(pool, policy)
       else
         && pick.proxy.Some? && BestNotLately(cfg, pool.records, pick.proxy.value, l.recent, dropped, policy, now)
         && name in pick.local.slots
         && pick.local.slots == l.slots[name := pick.local.slots[name]]
         && pick.local.slots[name].proxyId == Some(pick.proxy.value.id)
         && pick.local.slots[name].changesAt
            == now + (if policy.rotateIntervalSecs == 0 then 1 else policy.rotateIntervalSecs) * 1_000_000_000
         && pick.local.recent == Remember(l.recent, pick.proxy.value)
  }

  /**
   * A timed pick, all of it: the slot serves until its window is over, while the pool has its proxy and the
   * policy allows it; otherwise another takes the place. An emptied slot looks for the empty id.
   */
  lemma SlotServesOrIsReplaced(cfg: Config, l: Local, pool: Pool, name: string, policy: ProxyPolicy, now: Time)
    requires UniqueIds(pool.records)
    ensures var pick := TimedPick(cfg, l, pool, name, policy, now);
            var id := if name in l.slots && l.slots[name].proxyId.Some? then l.slots[name].proxyId.value else "";
            if name in l.slots && now < l.slots[name].changesAt
               && (exists p :: HeldAndAllowed(pool.records, id, policy, p)) then
              pick.local == l && pick.proxy.Some? && HeldAndAllowed(pool.records, id, policy, pick.proxy.value)
            else ReplacedInSlot(cfg, l, pool, name, policy, now, pick)
  {
    hide RecentlyUsed, Best, BestRecord, Fallback, EverybodyLately, BestNotLately, UniqueIds, Has, Get, Remember;
    var id := if name in l.slots && l.slots[name].proxyId.Some? then l.slots[name].proxyId.value else "";
    if p :| HeldAndAllowed(pool.records, id, policy, p) {
      HeldIsFound(pool.records, id, policy, p);
    } else if Has(pool.records, id) {
      HasIsGet(pool.records, id);
      if policy.Allows(Get(pool.records, id).value) {
        FoundIsHeld(pool.records, id, policy);
      }
    }
    ChoiceIsBestNotLately(cfg, pool.records, l.recent, TurnedAway(l.avoided, name), policy, now);
  }

  /**
   * Who took the place at some moment serves every client of the policy for the whole window, a second at
   * least, while the pool has it and the policy allows it; when the window is over the slot is given away anew.
   */
  lemma SlotLastsItsWindow(cfg: Config, l: Local, pool: Pool, name: string, policy: ProxyPolicy, made: Time,
                           later: Pool, now: Time, p: ProxyInfo)
    requires UniqueIds(pool.records) && UniqueIds(later.records)
    requires TimedPick(cfg, l, pool, name, policy, made).remembered
    requires HeldAndAllowed(later.records, TimedPick(cfg, l, pool, name, policy, made).proxy.value.id, policy, p)
    ensures var kept := TimedPick(cfg, l, pool, name, policy, made).local;
            var secs := if policy.rotateIntervalSecs == 0 then 1 else policy.rotateIntervalSecs;
            var again := TimedPick(cfg, kept, later, name, policy, now);
            if now < made + secs * 1_000_000_000 then again.local == kept && again.proxy == Some(p)
            else ReplacedInSlot(cfg, kept, later, name, policy, now, again)
  {
    var pick := TimedPick(cfg, l, pool, name, policy, made);
    RememberedIsChosen(cfg, l, pool, name, policy, made);
    hide TimedPick, ReplacedInSlot, UniqueIds;
    SlotServesOrIsReplaced(cfg, pick.local, later, name, policy, now);
    var again := TimedPick(cfg, pick.local, later, name, policy, now);
    HeldIsFound(later.records, pick.proxy.value.id, policy, p);
    if again.local == pick.local && again.proxy.Some?
       && HeldAndAllowed(later.records, pick.proxy.value.id, policy, again.proxy.value) {
      HeldIsFound(later.records, pick.proxy.value.id, policy, again.proxy.value);
    }
  }

  lemma RememberedIsChosen(cfg: Config, l: Local, pool: Pool, name: string, policy: ProxyPolicy, now: Time)
    requires TimedPick(cfg, l, pool, name, policy, now).remembered
    ensures var pick := TimedPick(cfg, l, pool, name, policy, now);
            && pick.proxy.Some? && name in pick.local.slots
            && pick.local.slots[name].proxyId == Some(pick.proxy.value.id)
            && pick.local.slots[name].changesAt
               == now + (if policy.rotateIntervalSecs == 0 then 1 else policy.rotateIntervalSecs) * 1_000_000_000
  {
    hide RecentlyUsed, BestRecord, Remember;
  }

  // ----- a proxy per request -----

  /** A pick per request: the best not used lately, remembered; or the device's own selection, and nothing changes. */
  lemma RequestGetsTheBestNotLately(cfg: Config, l: Local, pool: Pool, policy: ProxyPolicy, now: Time)
    ensures var pick := PerRequestPick(cfg, l, pool, policy, now);
            if EverybodyLately(cfg, pool.records, l.recent, {}, policy) then
              pick.local == l && pick.proxy == Fallback(pool, policy)
            else
              && pick.proxy.Some? && BestNotLately(cfg, pool.records, pick.proxy.value, l.recent, {}, policy, now)
              && pick.local == l.(recent := Remember(l.recent, pick.proxy.value))
  {
    hide RecentlyUsed, BestRecord, Fallback, EverybodyLately, BestNotLately, Remember;
    ChoiceIsBestNotLately(cfg, pool.records, l.recent, {}, policy, now);
  }

  /** The fallback is the record in front if the policy allows it, and nobody otherwise. */
  lemma FallbackIsTheDevices(pool: Pool, policy: ProxyPolicy, p: ProxyInfo)
    requires UniqueIds(pool.records)
    ensures Fallback(pool, policy) == Some(p) <==> pool.active == Some(p.id) && p in pool.records && policy.Allows(p)
  {
    if pool.active == Some(p.id) && p in pool.records {
      var i :| 0 <= i < |pool.records| && pool.records[i] == p;
      SearchFinds(pool.records, i);
    }
  }

  // ----- whom a rotation avoids -----

  /** A rotation adds to whom the client was turned away from before; it forgets nobody. */
  lemma TurningAwayAddsUp(l: Local, identity: string, id: ProxyId)
    requires identity in l.sessions
    ensures var turned := RotateSession(l, identity);
            && identity !in turned.sessions && identity in turned.avoided
            && (id in turned.avoided[identity]
                <==> id == l.sessions[identity].proxyId || (identity in l.avoided && id in l.avoided[identity]))
            && (forall k :: k != identity ==> (k in turned.avoided <==> k in l.avoided))
            && (forall k :: k != identity && k in l.avoided ==> turned.avoided[k] == l.avoided[k])
  {
  }

  /** The same of every session of a credential at once, and of nobody else's. */
  lemma TurningACredentialAway(l: Local, credential: string, k: string, id: ProxyId)
    ensures var turned := RotateCredential(l, credential);
            var away := TurnedAway(turned.avoided, k);
            if k in l.sessions && credential + ":" <= k then
              k !in turned.sessions && (id in away <==> id == l.sessions[k].proxyId || id in TurnedAway(l.avoided, k))
            else
              && (k in turned.sessions <==> k in l.sessions)
              && (k in l.sessions ==> turned.sessions[k] == l.sessions[k])
              && away == TurnedAway(l.avoided, k)
  {
  }

  /** A failure takes the proxy from every session and slot that held it, and touches no other. */
  lemma FailureReleases(l: Local, id: ProxyId, k: string)
    ensures var after := ReleaseAll(l, {id});
            && after.avoided == l.avoided && after.recent == l.recent
            && (k in after.sessions <==> k in l.sessions && l.sessions[k].proxyId != id)
            && (k in after.sessions ==> after.sessions[k] == l.sessions[k])
            && (k in after.slots <==> k in l.slots)
            && (k in l.slots && l.slots[k].proxyId == Some(id) ==> after.slots[k] == Slot(None, l.slots[k].changesAt))
            && (k in l.slots && l.slots[k].proxyId != Some(id) ==> after.slots[k] == l.slots[k])
  {
  }
}
