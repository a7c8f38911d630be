/** What holds of the local proxy's choices over every run of requests, rotations, expiries and failures. */
module LocalProxyRuns {
  import opened Common
  import opened Proxies
  import opened PoolSpec
  import opened PoolRuns
  import opened LocalProxySpec

  // ----- the policy -----

  /** In every rotation mode, whoever carries the client is in the pool and allowed by the client's policy. */
  lemma ChoiceIsAllowed(cfg: Config, l: Local, pool: Pool, identity: string, policyName: string, policy: ProxyPolicy,
                        now: Time)
    ensures var r := ProxyFor(cfg, l, pool, identity, policyName, policy, now).proxy;
            r.Some? ==> policy.Allows(r.value) && r.value in pool.records
  {
  }

  // ----- sticky sessions stay apart -----

  /** Two sessions share neither a proxy, nor a server, nor an exit address both are known to have. */
  predicate Apart(a: Session, b: Session) {
    && a.proxyId != b.proxyId && a.host != b.host
    && (a.exitIp.Some? && b.exitIp.Some? ==> a.exitIp != b.exitIp)
  }

  ghost predicate AllApart(sessions: map<string, Session>) {
    forall j, k :: j in sessions && k in sessions && j != k ==> Apart(sessions[j], sessions[k])
  }

  lemma BestIsApart(cfg: Config, sessions: map<string, Session>, dropped: set<ProxyId>, policy: ProxyPolicy,
                    p: ProxyInfo, secs: nat, now: Time)
    requires Eligible(cfg, p, ApartFrom(sessions, dropped, policy))
    ensures forall k :: k in sessions ==>
              Apart(sessions[k], PinTo(p, secs, now)) && Apart(PinTo(p, secs, now), sessions[k])
    ensures p.id !in dropped
  {
    var w := ApartFrom(sessions, dropped, policy);
    forall k | k in sessions
      ensures Apart(sessions[k], PinTo(p, secs, now)) && Apart(PinTo(p, secs, now), sessions[k])
    {
      assert ById(sessions[k].proxyId) in w.avoid && ByHost(sessions[k].host) in w.avoid;
      if sessions[k].exitIp.Some? {
        assert sessions[k].exitIp.value in w.exits;
      }
    }
    assert ById(p.id) !in w.avoid;
  }

  lemma StickyStaysApart(cfg: Config, l: Local, pool: Pool, identity: string, policy: ProxyPolicy, now: Time)
    requires AllApart(l.sessions)
    ensures AllApart(StickyPick(cfg, l, pool, identity, policy, now).local.sessions)
  {
    hide Eligible, ApartFrom, Best;
    var sessions := l.sessions - {identity};
    var wanted := ApartFrom(sessions, TurnedAway(l.avoided, identity), policy);
    var best := BestRecord(cfg, pool.records, wanted, now);
    if best.Some? {
      BestIsApart(cfg, sessions, TurnedAway(l.avoided, identity), policy, best.value, policy.stickySecs, now);
    }
  }

  /** No other session is held on the proxy, its server or its known exit. */
  predicate Free(sessions: map<string, Session>, identity: string, carried: ProxyInfo) {
    forall k :: k in sessions && k != identity ==>
      && sessions[k].proxyId != carried.id && sessions[k].host != carried.host
      && !(carried.exitIp.Some? && sessions[k].exitIp == carried.exitIp)
  }

  /** Pinning a client to whoever carried it keeps the sessions apart exactly when that proxy was free. */
  lemma PinStaysApartIff(l: Local, identity: string, carried: ProxyInfo, secs: nat, now: Time)
    requires AllApart(l.sessions)
    ensures AllApart(PinSession(l, identity, carried, secs, now).sessions) <==> Free(l.sessions, identity, carried)
  {
    var sessions := PinSession(l, identity, carried, secs, now).sessions;
    if AllApart(sessions) {
      forall k | k in l.sessions && k != identity ensures Apart(sessions[k], sessions[identity]) {
      }
    }
  }

  predicate FreeIfPin(w: World, e: Event) {
    e.Pin? ==> Free(w.local.sessions, e.identity, e.carried)
  }

  lemma HappeningStaysApart(cfg: Config, w: World, e: Event)
    requires AllApart(w.local.sessions)
    ensures AllApart(Happens(cfg, w, e).local.sessions) <==> FreeIfPin(w, e)
  {
    hide StickyPick, Best, Apart, Free;
    match e {
      case PickFor(identity, policyName, policy, at) =>
        if policy.rotation.Sticky? {
          StickyStaysApart(cfg, w.local, w.pool, identity, policy, at);
        }
      case Pin(identity, carried, secs, at) => PinStaysApartIff(w.local, identity, carried, secs, at);
      case _ =>
    }
  }

  ghost predicate AlwaysApart(cfg: Config, w: World, events: seq<Event>)
    decreases |events|
  {
    AllApart(w.local.sessions) && (events != [] ==> AlwaysApart(cfg, Happens(cfg, w, events[0]), events[1..]))
  }

  ghost predicate AlwaysFree(cfg: Config, w: World, events: seq<Event>)
    decreases |events|
  {
    events == [] || (FreeIfPin(w, events[0]) && AlwaysFree(cfg, Happens(cfg, w, events[0]), events[1..]))
  }

  /**
   * Over every run of picks and pins in every mode, rotations, expiries, failures and changes of the
   * pool: at every moment no two sessions are held on one proxy, server or known exit address, if and
   * only if every pin was to a proxy that was free of the other sessions.
   */
  lemma {:induction false} SessionsStayApartIff(cfg: Config, w: World, events: seq<Event>)
    requires AllApart(w.local.sessions)
    ensures AlwaysApart(cfg, w, events) <==> AlwaysFree(cfg, w, events)
    decreases |events|
  {
    hide AllApart, Happens, FreeIfPin;
    if events != [] {
      HappeningStaysApart(cfg, w, events[0]);
      var n := Happens(cfg, w, events[0]);
      if AllApart(n.local.sessions) {
        SessionsStayApartIff(cfg, n, events[1..]);
      } else {
        assert !AlwaysApart(cfg, n, events[1..]);
      }
    }
  }

  /** What a sticky pick has just pinned is free to be pinned again when it has carried. */
  lemma OwnPinIsFree(cfg: Config, l: Local, pool: Pool, identity: string, policy: ProxyPolicy, now: Time)
    requires AllApart(l.sessions)
    requires !(identity in l.sessions && Stands(l.sessions[identity], pool, policy, now))
    ensures var pick := StickyPick(cfg, l, pool, identity, policy, now);
            identity in pick.local.sessions ==>
              pick.proxy.Some? && Free(pick.local.sessions, identity, pick.proxy.value)
  {
    hide Eligible, ApartFrom, Best, Stands;
    var sessions := l.sessions - {identity};
    var wanted := ApartFrom(sessions, TurnedAway(l.avoided, identity), policy);
    var best := BestRecord(cfg, pool.records, wanted, now);
    if best.Some? {
      BestIsApart(cfg, sessions, TurnedAway(l.avoided, identity), policy, best.value, policy.stickySecs, now);
    }
  }

  /** A pin that stood is free to be renewed exactly when its proxy has not moved onto another's server or exit. */
  lemma StandingPinIsFreeIff(cfg: Config, l: Local, pool: Pool, identity: string, policy: ProxyPolicy, now: Time)
    requires AllApart(l.sessions) && identity in l.sessions && Stands(l.sessions[identity], pool, policy, now)
    ensures var p := Get(pool.records, l.sessions[identity].proxyId).value;
            && StickyPick(cfg, l, pool, identity, policy, now).proxy == Some(p)
            && (Free(l.sessions, identity, p) <==>
                  forall k :: k in l.sessions && k != identity ==>
                    l.sessions[k].host != p.host && !(p.exitIp.Some? && l.sessions[k].exitIp == p.exitIp))
  {
    forall k | k in l.sessions && k != identity ensures Apart(l.sessions[k], l.sessions[identity]) {
    }
  }

  /** No failover is needed: a client that falls back on the device's selection is pinned to it as well. */
  lemma FallbackPinJoins(cfg: Config, p: ProxyInfo, policy: ProxyPolicy, now: Time)
    requires policy.rotation.Sticky? && policy.Allows(p)
    ensures var w := World(Local(map["a" := PinTo(p, 0, now)], map[], map[], []), Pool([p], Some(p.id), {}, {}));
            var pick := StickyPick(cfg, w.local, w.pool, "b", policy, now);
            && AllApart(w.local.sessions) && pick.proxy == Some(p) && "b" !in pick.local.sessions
            && !AllApart(Served(cfg, w.local, w.pool, "b", "", policy, now).sessions)
  {
    var l, pool := Local(map["a" := PinTo(p, 0, now)], map[], map[], []), Pool([p], Some(p.id), {}, {});
    assert l.sessions - {"b"} == l.sessions;
    var wanted := ApartFrom(l.sessions, {}, policy);
    assert "a" in l.sessions && ById(p.id) in wanted.avoid;
    assert [p][..0] == [] && Best(cfg, [p], wanted, now) == None;
    var sessions := Served(cfg, l, pool, "b", "", policy, now).sessions;
    assert "a" in sessions && "b" in sessions && "a" != "b" && !Apart(sessions["a"], sessions["b"]);
  }

  /** Nor sticky sessions: two clients of one timed slot are both pinned to the proxy in front. */
  lemma TimedPinsJoin(cfg: Config, p: ProxyInfo, policy: ProxyPolicy, now: Time)
    requires policy.rotation.Timed? && Eligible(cfg, p, Wanted({}, {}, Some(policy)))
    ensures var l, pool := Local(map[], map[], map[], []), Pool([p], None, {}, {});
            var first := Served(cfg, l, pool, "a", "t", policy, now);
            && AllApart(first.sessions) && first.sessions == map["a" := PinTo(p, policy.stickySecs, now)]
            && !AllApart(Served(cfg, first, pool, "b", "t", policy, now).sessions)
  {
    var l, pool := Local(map[], map[], map[], []), Pool([p], None, {}, {});
    var wanted := RecentlyUsed([], {}, policy);
    assert wanted == Wanted({}, {}, Some(policy));
    assert [p][..0] == [] && Best(cfg, [p], wanted, now) == Some(0);
    var first := Served(cfg, l, pool, "a", "t", policy, now);
    assert first.slots["t"].proxyId == Some(p.id) && now < first.slots["t"].changesAt;
    assert SlotServes(first.slots["t"], pool, policy, now);
    var sessions := Served(cfg, first, pool, "b", "t", policy, now).sessions;
    assert "a" in sessions && "b" in sessions && "a" != "b" && !Apart(sessions["a"], sessions["b"]);
  }

  /** The failover chooses without looking at the sessions, so two of them may end on one proxy. */
  lemma FailoverMayJoinSessions(cfg: Config, p: ProxyInfo, now: Time)
    requires Eligible(cfg, p, Wanted({}, {}, None))
    ensures var l := Local(map["a" := PinTo(p, 0, now)], map[], map[], []);
            && AllApart(l.sessions)
            && BestRecord(cfg, [p], Wanted({}, {}, None), now) == Some(p)
            && !AllApart(PinSession(l, "b", p, 0, now).sessions)
  {
    var sessions := PinSession(Local(map["a" := PinTo(p, 0, now)], map[], map[], []), "b", p, 0, now).sessions;
    assert "a" in sessions && "b" in sessions && "a" != "b" && !Apart(sessions["a"], sessions["b"]);
    assert [p][..0] == [];
  }

  /** An unexpired pin the policy still allows is returned as it is, and nothing moves. */
  lemma StandingPinIsKept(cfg: Config, l: Local, pool: Pool, identity: string, policy: ProxyPolicy, now: Time)
    requires identity in l.sessions && Stands(l.sessions[identity], pool, policy, now)
    ensures var pick := StickyPick(cfg, l, pool, identity, policy, now);
            pick.local == l && pick.proxy.Some? && pick.proxy.value.id == l.sessions[identity].proxyId
  {
  }

  /** A pick under a sticky policy touches no session but the client's own. */
  lemma PicksLeaveOthersAlone(cfg: Config, l: Local, pool: Pool, identity: string, policy: ProxyPolicy, now: Time,
                              other: string)
    requires other != identity
    ensures var after := StickyPick(cfg, l, pool, identity, policy, now).local.sessions;
            (other in after <==> other in l.sessions) && (other in after ==> after[other] == l.sessions[other])
  {
  }

  predicate FallsBackOn(pool: Pool, policy: ProxyPolicy, id: ProxyId) {
    Fallback(pool, policy).Some? && pool.active == Some(id)
  }

  /** The best that matches is this proxy, or nothing matches and the device routes through it. */
  predicate Chooses(cfg: Config, pool: Pool, wanted: Wanted, policy: ProxyPolicy, now: Time, id: ProxyId) {
    var best := BestRecord(cfg, pool.records, wanted, now);
    if best.Some? then best.value.id == id else FallsBackOn(pool, policy, id)
  }

  /**
   * When a client is led back to a proxy. Only the sticky mode leaves out whom the client was turned away
   * from; a slot goes on serving what is in front, and the choice per request knows the ring alone.
   */
  predicate LeadsBack(cfg: Config, l: Local, pool: Pool, identity: string, policyName: string, policy: ProxyPolicy,
                      now: Time, id: ProxyId) {
    match policy.rotation
    case Sticky =>
      && BestRecord(cfg, pool.records, ApartFrom(l.sessions, TurnedAway(l.avoided, identity), policy), now).None?
      && FallsBackOn(pool, policy, id)
    case Timed =>
      if policyName in l.slots && SlotServes(l.slots[policyName], pool, policy, now) then
        id == if l.slots[policyName].proxyId.Some? then l.slots[policyName].proxyId.value else ""
      else
        Chooses(cfg, pool, RecentlyUsed(l.recent, TurnedAway(l.avoided, policyName), policy), policy, now, id)
    case PerRequest => Chooses(cfg, pool, RecentlyUsed(l.recent, {}, policy), policy, now, id)
  }

  /**
   * The request after a session was turned over, in any mode: the pick itself never pins the dropped proxy
   * again, and the session ends on it, the proxy that was picked carrying, exactly when the mode leads back
   * to it.
   */
  lemma TurnedSessionMovesOnIff(cfg: Config, l: Local, pool: Pool, identity: string, policyName: string,
                                policy: ProxyPolicy, now: Time)
    requires identity in l.sessions
    ensures var dropped := l.sessions[identity].proxyId;
            var turned := RotateSession(l, identity);
            var picked := ProxyFor(cfg, turned, pool, identity, policyName, policy, now).local.sessions;
            var served := Served(cfg, turned, pool, identity, policyName, policy, now).sessions;
            && (identity in picked ==> picked[identity].proxyId != dropped)
            && ((identity in served && served[identity].proxyId == dropped)
                <==> LeadsBack(cfg, turned, pool, identity, policyName, policy, now, dropped))
  {
    hide Eligible, ApartFrom, RecentlyUsed, Best, Remember;
    var turned := RotateSession(l, identity);
    assert turned.sessions - {identity} == turned.sessions;
    if policy.rotation.Sticky? {
      var wanted := ApartFrom(turned.sessions, TurnedAway(turned.avoided, identity), policy);
      var best := BestRecord(cfg, pool.records, wanted, now);
      if best.Some? {
        BestIsApart(cfg, turned.sessions, TurnedAway(turned.avoided, identity), policy, best.value, policy.stickySecs,
                    now);
      }
    }
  }

  /** A slot whose window has not run out puts the client back on the dropped proxy, whoever else there is. */
  lemma TimedSlotLeadsBack(cfg: Config, p: ProxyInfo, q: ProxyInfo, policy: ProxyPolicy, now: Time)
    requires policy.rotation.Timed? && policy.Allows(p) && Eligible(cfg, q, Wanted({}, {}, Some(policy)))
    ensures var pool := Pool([p, q], None, {}, {});
            var l := Local(map["a" := PinTo(p, 0, now)], map["t" := Slot(Some(p.id), now + 1)], map[], []);
            Served(cfg, RotateSession(l, "a"), pool, "a", "t", policy, now).sessions
            == map["a" := PinTo(p, policy.stickySecs, now)]
  {
    var pool := Pool([p, q], None, {}, {});
    var l := Local(map["a" := PinTo(p, 0, now)], map["t" := Slot(Some(p.id), now + 1)], map[], []);
    assert Position(pool.records, p.id) == Some(0);
    var turned := RotateSession(l, "a");
    assert turned.sessions == map[] && turned.slots == l.slots;
    assert SlotServes(turned.slots["t"], pool, policy, now);
  }

  /** A proxy that is not in the ring, as one that carried after a failover is not, is chosen again at once. */
  lemma PerRequestLeadsBack(cfg: Config, p: ProxyInfo, q: ProxyInfo, policy: ProxyPolicy, now: Time)
    requires policy.rotation.PerRequest? && Eligible(cfg, p, Wanted({}, {}, Some(policy)))
    requires Eligible(cfg, q, Wanted({}, {}, Some(policy)))
    requires EffectiveScore(cfg, q, now) <= EffectiveScore(cfg, p, now)
    ensures var pool := Pool([q, p], None, {}, {});
            var l := Local(map["a" := PinTo(p, 0, now)], map[], map[], []);
            Served(cfg, RotateSession(l, "a"), pool, "a", "", policy, now).sessions
            == map["a" := PinTo(p, policy.stickySecs, now)]
  {
    var pool := Pool([q, p], None, {}, {});
    var turned := RotateSession(Local(map["a" := PinTo(p, 0, now)], map[], map[], []), "a");
    assert turned.sessions == map[];
    var wanted := RecentlyUsed([], {}, policy);
    assert wanted == Wanted({}, {}, Some(policy));
    assert [q, p][..1] == [q] && [q][..0] == [];
    assert Best(cfg, [q], wanted, now) == Some(0) && Best(cfg, [q, p], wanted, now) == Some(1);
  }

  // ----- between the two locks of a rotation -----

  /** The event may give the client a session. */
  predicate Touches(e: Event, identity: string) {
    (e.PickFor? && e.identity == identity && e.policy.rotation.Sticky?) || (e.Pin? && e.identity == identity)
  }

  lemma {:induction false} UntouchedStaysDropped(cfg: Config, w: World, identity: string, events: seq<Event>)
    requires identity !in w.local.sessions
    requires forall i :: 0 <= i < |events| ==> !Touches(events[i], identity)
    ensures identity !in Through(cfg, w, events).local.sessions
    decreases |events|
  {
    hide Happens;
    if events != [] {
      UntouchedByOne(cfg, w, identity, events[0]);
      UntouchedStaysDropped(cfg, Happens(cfg, w, events[0]), identity, events[1..]);
    }
  }

  lemma UntouchedByOne(cfg: Config, w: World, identity: string, e: Event)
    requires identity !in w.local.sessions && !Touches(e, identity)
    ensures identity !in Happens(cfg, w, e).local.sessions
  {
    hide Best, ApartFrom, RecentlyUsed, Remember, PoolSpec.ReportFailure;
  }

  /**
   * Whatever comes between the drop and the note, unless it is a pick or a pin for this client: the next
   * sticky pick does not pin the dropped proxy.
   */
  lemma TurnHoldsUnlessTouched(cfg: Config, w: World, identity: string, between: seq<Event>, policy: ProxyPolicy,
                               now: Time)
    requires identity in w.local.sessions
    requires forall i :: 0 <= i < |between| ==> !Touches(between[i], identity)
    ensures var dropped := w.local.sessions[identity].proxyId;
            var later := Through(cfg, Happens(cfg, w, SessionDropped(identity)), between);
            var turned := Happens(cfg, later, Avoiding(identity, dropped));
            var picked := StickyPick(cfg, turned.local, turned.pool, identity, policy, now).local.sessions;
            identity !in turned.local.sessions && (identity in picked ==> picked[identity].proxyId != dropped)
  {
    hide Through, Eligible, ApartFrom, Best;
    var dropped := w.local.sessions[identity].proxyId;
    var later := Through(cfg, Happens(cfg, w, SessionDropped(identity)), between);
    UntouchedStaysDropped(cfg, Happens(cfg, w, SessionDropped(identity)), identity, between);
    var turned := Happens(cfg, later, Avoiding(identity, dropped));
    var sessions, away := turned.local.sessions - {identity}, TurnedAway(turned.local.avoided, identity);
    var best := BestRecord(cfg, turned.pool.records, ApartFrom(sessions, away, policy), now);
    if best.Some? {
      BestIsApart(cfg, sessions, away, policy, best.value, policy.stickySecs, now);
    }
  }

  /** A sticky pick between the two pins the dropped proxy again exactly when it is the best that matches. */
  lemma PickBetweenIff(cfg: Config, l: Local, pool: Pool, identity: string, policy: ProxyPolicy, now: Time)
    requires identity in l.sessions
    ensures var dropped := l.sessions[identity].proxyId;
            var picked := StickyPick(cfg, DropSession(l, identity), pool, identity, policy, now).local;
            var turned := AvoidNext(picked, identity, dropped);
            var wanted := ApartFrom(l.sessions - {identity}, TurnedAway(l.avoided, identity), policy);
            var best := BestRecord(cfg, pool.records, wanted, now);
            (identity in turned.sessions && turned.sessions[identity].proxyId == dropped)
            <==> best.Some? && best.value.id == dropped
  {
    hide Eligible, ApartFrom, Best;
    assert l.sessions - {identity} - {identity} == l.sessions - {identity};
  }

  /** For one: with a single proxy, the client is on it again when the rotation is over. */
  lemma PickBetweenPinsTheDropped(cfg: Config, p: ProxyInfo, policy: ProxyPolicy, now: Time)
    requires Eligible(cfg, p, Wanted({}, {}, Some(policy)))
    ensures var l, pool := Local(map["a" := PinTo(p, 0, now)], map[], map[], []), Pool([p], None, {}, {});
            var picked := StickyPick(cfg, DropSession(l, "a"), pool, "a", policy, now).local;
            var turned := AvoidNext(picked, "a", p.id);
            "a" in turned.sessions && turned.sessions["a"].proxyId == p.id
  {
    var l, pool := Local(map["a" := PinTo(p, 0, now)], map[], map[], []), Pool([p], None, {}, {});
    assert l.sessions - {"a"} == map[];
    var wanted := ApartFrom(map[], {}, policy);
    assert wanted == Wanted({}, {}, Some(policy));
    assert [p][..0] == [] && Best(cfg, [p], wanted, now) == Some(0);
    PickBetweenIff(cfg, l, pool, "a", policy, now);
  }

  /** The same of a policy: the slot is not given the dropped proxy, which is used only as the device's selection. */
  lemma TurnedSlotMovesOnIff(cfg: Config, l: Local, pool: Pool, name: string, policy: ProxyPolicy, now: Time)
    requires name in l.slots && l.slots[name].proxyId.Some?
    ensures var dropped, turned := l.slots[name].proxyId.value, RotatePolicy(l, name);
            var pick := TimedPick(cfg, turned, pool, name, policy, now);
            var wanted := RecentlyUsed(l.recent, TurnedAway(turned.avoided, name), policy);
            && (name in pick.local.slots ==> pick.local.slots[name].proxyId != Some(dropped))
            && ((pick.proxy.Some? && pick.proxy.value.id == dropped)
                <==> BestRecord(cfg, pool.records, wanted, now).None? && FallsBackOn(pool, policy, dropped))
  {
    hide Eligible, RecentlyUsed, Best, Remember;
    var dropped, turned := l.slots[name].proxyId.value, RotatePolicy(l, name);
    var away := TurnedAway(turned.avoided, name);
    var best := BestRecord(cfg, pool.records, RecentlyUsed(l.recent, away, policy), now);
    if best.Some? {
      BestIsNotDropped(cfg, l.recent, away, policy, best.value);
    }
  }

  lemma BestIsNotDropped(cfg: Config, recent: seq<UsedProxy>, dropped: set<ProxyId>, policy: ProxyPolicy, p: ProxyInfo)
    requires Eligible(cfg, p, RecentlyUsed(recent, dropped, policy))
    ensures p.id !in dropped
  {
    assert ById(p.id) !in RecentlyUsed(recent, dropped, policy).avoid;
  }

  /** A pick between its two locks gives the slot the dropped proxy exactly when that is the best outside the ring. */
  lemma SlotPickBetweenIff(cfg: Config, l: Local, pool: Pool, name: string, policy: ProxyPolicy, now: Time)
    requires name in l.slots && l.slots[name].proxyId.Some?
    ensures var dropped := l.slots[name].proxyId.value;
            var picked := TimedPick(cfg, DropSlot(l, name), pool, name, policy, now).local;
            var turned := AvoidNext(picked, name, dropped);
            var wanted := RecentlyUsed(l.recent, TurnedAway(l.avoided, name), policy);
            var best := BestRecord(cfg, pool.records, wanted, now);
            (name in turned.slots && turned.slots[name].proxyId == Some(dropped))
            <==> best.Some? && best.value.id == dropped
  {
    hide Eligible, RecentlyUsed, Best, Remember;
  }

  /**
   * For one: with a single proxy that is also the device's selection, the request after a rotation falls
   * back on the dropped proxy, is pinned to it at once, and the avoidance is forgotten.
   */
  lemma TurnedSessionMayComeBack(cfg: Config, p: ProxyInfo, policy: ProxyPolicy, now: Time)
    requires policy.rotation.Sticky? && policy.Allows(p)
    ensures var pool := Pool([p], Some(p.id), {}, {});
            var l := Local(map["a" := PinTo(p, 0, now)], map[], map[], []);
            var served := Served(cfg, RotateSession(l, "a"), pool, "a", "", policy, now);
            served.sessions == map["a" := PinTo(p, policy.stickySecs, now)] && served.avoided == map[]
  {
    var pool := Pool([p], Some(p.id), {}, {});
    var l := Local(map["a" := PinTo(p, 0, now)], map[], map[], []);
    var turned := RotateSession(l, "a");
    assert turned.sessions == map[];
    assert TurnedAway(turned.avoided, "a") == {p.id} && turned.avoided == map["a" := {p.id}];
    var wanted := ApartFrom(map[], {p.id}, policy);
    assert ById(p.id) in wanted.avoid;
    assert [p][..0] == [] && Best(cfg, [p], wanted, now) == None;
    assert turned.sessions - {"a"} == map[] && turned.avoided - {"a"} == map[];
  }

  /** And after a failover the session may end on it too: the failover knows nothing of the rotation. */
  lemma FailoverMayComeBack(cfg: Config, first: ProxyInfo, dropped: ProxyInfo, now: Time)
    requires Eligible(cfg, dropped, Wanted({}, {}, None)) && first.id != dropped.id && first.host != dropped.host
    ensures var wanted := Wanted({ById(first.id), ByHost(first.host)}, {}, None);
            BestRecord(cfg, [first, dropped], wanted, now) == Some(dropped)
  {
    var wanted := Wanted({ById(first.id), ByHost(first.host)}, {}, None);
    assert [first, dropped][..1] == [first] && [first][..0] == [];
    assert Best(cfg, [first], wanted, now) == None;
  }

  // ----- spread over the pool -----

  /** What one event adds to the record of remembered picks. */
  function NewlyUsed(cfg: Config, w: World, e: Event): seq<UsedProxy> {
    if !e.PickFor? then []
    else
      var pick := ProxyFor(cfg, w.local, w.pool, e.identity, e.policyName, e.policy, e.at);
      if pick.remembered && pick.proxy.Some? then [UsedProxy(pick.proxy.value.id, pick.proxy.value.exitIp)] else []
  }

  /** The picks that were remembered, oldest first. */
  function Remembered(cfg: Config, w: World, events: seq<Event>): seq<UsedProxy>
    decreases |events|
  {
    if events == [] then []
    else NewlyUsed(cfg, w, events[0]) + Remembered(cfg, Happens(cfg, w, events[0]), events[1..])
  }

  predicate Differ(a: UsedProxy, b: UsedProxy) {
    a.id != b.id && (a.exitIp.Some? && b.exitIp.Some? ==> a.exitIp != b.exitIp)
  }

  /** Any two picks fewer than seventeen apart differ in id and in known exit. */
  ghost predicate Spread(log: seq<UsedProxy>) {
    forall i, j :: 0 <= i < j < |log| && j - i <= RING ==> Differ(log[i], log[j])
  }

  function Newest(log: seq<UsedProxy>): seq<UsedProxy> {
    if |log| > RING then log[|log| - RING..] else log
  }

  /** The ring holds the newest sixteen of what was remembered, and that is spread. */
  ghost predicate RingOf(log: seq<UsedProxy>, l: Local) {
    l.recent == Newest(log) && Spread(log)
  }

  lemma BestDiffersFromRecent(cfg: Config, recent: seq<UsedProxy>, dropped: set<ProxyId>, policy: ProxyPolicy,
                              p: ProxyInfo)
    requires Eligible(cfg, p, RecentlyUsed(recent, dropped, policy))
    ensures forall i :: 0 <= i < |recent| ==> Differ(recent[i], UsedProxy(p.id, p.exitIp))
  {
    var w := RecentlyUsed(recent, dropped, policy);
    forall i | 0 <= i < |recent| ensures Differ(recent[i], UsedProxy(p.id, p.exitIp)) {
      assert ById(recent[i].id) in w.avoid;
      if recent[i].exitIp.Some? {
        assert recent[i].exitIp.value in w.exits;
      }
    }
  }

  lemma SpreadExtends(log: seq<UsedProxy>, u: UsedProxy)
    requires Spread(log) && forall i :: 0 <= i < |Newest(log)| ==> Differ(Newest(log)[i], u)
    ensures Spread(log + [u])
  {
    var longer := log + [u];
    forall i, j | 0 <= i < j < |longer| && j - i <= RING ensures Differ(longer[i], longer[j]) {
      if j == |log| {
        assert longer[i] == Newest(log)[i - (|log| - |Newest(log)|)];
      } else {
        assert longer[i] == log[i] && longer[j] == log[j];
      }
    }
  }

  lemma NewestExtends(log: seq<UsedProxy>, p: ProxyInfo)
    ensures Remember(Newest(log), p) == Newest(log + [UsedProxy(p.id, p.exitIp)])
  {
  }

  lemma RememberKeepsRing(log: seq<UsedProxy>, l: Local, p: ProxyInfo, n: Local)
    requires RingOf(log, l) && n.recent == Remember(l.recent, p)
    requires forall i :: 0 <= i < |l.recent| ==> Differ(l.recent[i], UsedProxy(p.id, p.exitIp))
    ensures RingOf(log + [UsedProxy(p.id, p.exitIp)], n)
  {
    hide Spread, Newest, Remember;
    SpreadExtends(log, UsedProxy(p.id, p.exitIp));
    NewestExtends(log, p);
  }

  /** One event either leaves the ring alone or remembers one more pick that differs from all in it. */
  lemma HappeningKeepsRing(cfg: Config, w: World, e: Event, log: seq<UsedProxy>)
    requires RingOf(log, w.local)
    ensures RingOf(log + NewlyUsed(cfg, w, e), Happens(cfg, w, e).local)
  {
    hide Best, Eligible, RecentlyUsed, StickyPick, Remember;
    var l := w.local;
    if NewlyUsed(cfg, w, e) == [] {
      RecentIsKept(cfg, w, e);
      assert log + [] == log;
    } else {
      StickyRemembersNothing(cfg, l, w.pool, e.identity, e.policy, e.at);
      var dropped := if e.policy.rotation.Timed? then TurnedAway(l.avoided, e.policyName) else {};
      var best := BestRecord(cfg, w.pool.records, RecentlyUsed(l.recent, dropped, e.policy), e.at);
      BestDiffersFromRecent(cfg, l.recent, dropped, e.policy, best.value);
      RememberKeepsRing(log, l, best.value, Happens(cfg, w, e).local);
    }
  }

  lemma StickyRemembersNothing(cfg: Config, l: Local, pool: Pool, identity: string, policy: ProxyPolicy, now: Time)
    ensures var pick := StickyPick(cfg, l, pool, identity, policy, now);
            !pick.remembered && pick.local.recent == l.recent
  {
  }

  lemma RecentIsKept(cfg: Config, w: World, e: Event)
    requires NewlyUsed(cfg, w, e) == []
    ensures Happens(cfg, w, e).local.recent == w.local.recent
  {
    hide Best, RecentlyUsed, ApartFrom, Remember;
  }

  /**
   * Over every sequential run, the ring holds the newest sixteen remembered picks, and among any
   * seventeen in a row no id and no known exit address appears twice.
   */
  lemma {:induction false} PicksAreSpread(cfg: Config, w: World, events: seq<Event>, log: seq<UsedProxy>)
    requires RingOf(log, w.local)
    ensures RingOf(log + Remembered(cfg, w, events), Through(cfg, w, events).local)
    ensures |Through(cfg, w, events).local.recent| == Min(16, |log + Remembered(cfg, w, events)|)
    decreases |events|
  {
    hide Happens, NewlyUsed, Spread;
    if events == [] {
      assert log + [] == log;
    } else {
      var e, n := events[0], Happens(cfg, w, events[0]);
      HappeningKeepsRing(cfg, w, e, log);
      var step, later := NewlyUsed(cfg, w, e), Remembered(cfg, n, events[1..]);
      PicksAreSpread(cfg, n, events[1..], log + step);
      assert log + (step + later) == (log + step) + later;
    }
  }
}
