/** The local proxy as it runs: its maps updated in place, its counters, and the failover loop. */
module LocalProxies {
  import opened Common
  import opened Proxies
  import opened PoolSpec
  import opened PoolLaws
  import PoolRuns
  import opened ProxyPools
  import opened LocalProxySpec

  class LocalProxy {
    const pool: ProxyPool
    const maxAttempts: nat
    var sessions: map<string, Session>
    var slots: map<string, Slot>
    var avoided: map<string, set<ProxyId>>
    var recent: seq<UsedProxy>
    var failures: nat
    var rotations: nat
    /** Whom the pool was told of as failed, oldest first. */
    ghost var blamed: seq<ProxyId>

    ghost function View(): Local
      reads this
    {
      Local(sessions, slots, avoided, recent)
    }

    constructor (pool: ProxyPool, maxAttempts: nat)
      ensures this.pool == pool && this.maxAttempts == maxAttempts
      ensures View() == Local(map[], map[], map[], []) && failures == 0 && rotations == 0
    {
      this.pool, this.maxAttempts := pool, maxAttempts;
      sessions, slots, avoided, recent, failures, rotations := map[], map[], map[], [], 0, 0;
      blamed := [];
    }

    /** Take the proxies a client was turned away from; they are left out once. */
    method TakeAvoided(name: string) returns (dropped: set<ProxyId>)
      modifies this`avoided
      ensures dropped == TurnedAway(old(avoided), name) && avoided == old(avoided) - {name}
    {
      dropped := TurnedAway(avoided, name);
      avoided := avoided - {name};
    }

    method StickyProxy(identity: string, policy: ProxyPolicy, now: Time) returns (r: Option<ProxyInfo>)
      requires pool.Valid()
      modifies this`sessions, this`avoided
      ensures View() == StickyPick(pool.cfg, old(View()), pool.View(), identity, policy, now).local
      ensures r == StickyPick(pool.cfg, old(View()), pool.View(), identity, policy, now).proxy
    {
      hide ApartFrom, BestRecord, Eligible, Position, PinTo, TurnedAway, Indexes;
      if identity in sessions {
        var session := sessions[identity];
        if !(session.expiresAt.Some? && now >= session.expiresAt.value) {
          var proxy := pool.Lookup(session.proxyId);
          if proxy.Some? && policy.Allows(proxy.value) {
            return proxy;
          }
        }
        sessions := sessions - {identity};
      }
      assert sessions == old(sessions) - {identity};
      var dropped := TakeAvoided(identity);
      var best := BestRecord(pool.cfg, pool.proxies, ApartFrom(sessions, dropped, policy), now);
      if best.None? {
        r := pool.Active();
        return if r.Some? && policy.Allows(r.value) then r else None;
      }
      sessions := sessions[identity := PinTo(best.value, policy.stickySecs, now)];
      r := best;
    }

    method TimedProxy(name: string, policy: ProxyPolicy, now: Time) returns (r: Option<ProxyInfo>)
      requires pool.Valid()
      modifies this`slots, this`avoided, this`recent
      ensures View() == TimedPick(pool.cfg, old(View()), pool.View(), name, policy, now).local
      ensures r == TimedPick(pool.cfg, old(View()), pool.View(), name, policy, now).proxy
    {
      hide RecentlyUsed, BestRecord, Eligible, Remember, Position, TurnedAway, Indexes;
      if name in slots && now < slots[name].changesAt {
        var proxy := pool.Lookup(if slots[name].proxyId.Some? then slots[name].proxyId.value else "");
        if proxy.Some? && policy.Allows(proxy.value) {
          return proxy;
        }
      }
      var dropped := TakeAvoided(name);
      var best := BestRecord(pool.cfg, pool.proxies, RecentlyUsed(recent, dropped, policy), now);
      if best.None? {
        r := pool.Active();
        return if r.Some? && policy.Allows(r.value) then r else None;
      }
      slots := slots[name := Slot(Some(best.value.id), now + Max(policy.rotateIntervalSecs, 1) * SECOND)];
      RememberUsed(best.value);
      r := best;
    }

    method PerRequestProxy(policy: ProxyPolicy, now: Time) returns (r: Option<ProxyInfo>)
      requires pool.Valid()
      modifies this`recent
      ensures View() == PerRequestPick(pool.cfg, old(View()), pool.View(), policy, now).local
      ensures r == PerRequestPick(pool.cfg, old(View()), pool.View(), policy, now).proxy
    {
      var best := BestRecord(pool.cfg, pool.proxies, RecentlyUsed(recent, {}, policy), now);
      if best.None? {
        r := pool.Active();
        return if r.Some? && policy.Allows(r.value) then r else None;
      }
      RememberUsed(best.value);
      r := best;
    }

    /** Push the newest, pop the oldest while there are more than sixteen. */
    method RememberUsed(proxy: ProxyInfo)
      modifies this`recent
      ensures recent == Remember(old(recent), proxy)
    {
      ghost var longer := recent + [UsedProxy(proxy.id, proxy.exitIp)];
      recent := recent + [UsedProxy(proxy.id, proxy.exitIp)];
      while |recent| > RING
        invariant |recent| <= |longer| && recent == longer[|longer| - |recent|..]
        invariant |recent| >= Min(|longer|, RING)
      {
        recent := recent[1..];
      }
    }

    method RotateSession(identity: string) returns (turned: bool)
      modifies this`sessions, this`avoided
      ensures turned == (identity in old(sessions))
      ensures View() == LocalProxySpec.RotateSession(old(View()), identity)
    {
      if identity !in sessions {
        return false;
      }
      var proxyId := sessions[identity].proxyId;
      sessions := sessions - {identity};
      avoided := avoided[identity := TurnedAway(avoided, identity) + {proxyId}];
      turned := true;
    }

    method RotatePolicy(name: string) returns (turned: bool)
      modifies this`slots, this`avoided
      ensures turned == (name in old(slots) && old(slots)[name].proxyId.Some?)
      ensures View() == LocalProxySpec.RotatePolicy(old(View()), name)
    {
      if name !in slots {
        return false;
      }
      var dropped := slots[name].proxyId;
      slots := slots - {name};
      if dropped.None? {
        return false;
      }
      avoided := avoided[name := TurnedAway(avoided, name) + {dropped.value}];
      turned := true;
    }

    /** Turn over every session whose key starts with the credential and a colon, one key at a time. */
    method RotateCredential(credential: string) returns (turned: nat)
      modifies this`sessions, this`avoided
      ensures turned == |SessionsOf(old(sessions), credential)|
      ensures View() == LocalProxySpec.RotateCredential(old(View()), credential)
    {
      hide TurnKeys, SessionsOf;
      var keys := SessionsOf(sessions, credential);
      TurnsNone(View(), keys);
      turned := |keys|;
      ghost var before := View();
      var left := keys;
      while left != {}
        invariant left <= keys <= before.sessions.Keys
        invariant View() == TurnKeys(before, keys - left)
        decreases left
      {
        var key :| key in left;
        TurnsOneMore(before, keys - left, key);
        var proxyId := sessions[key].proxyId;
        sessions := sessions - {key};
        avoided := avoided[key := TurnedAway(avoided, key) + {proxyId}];
        assert (keys - left) + {key} == keys - (left - {key});
        left := left - {key};
      }
      assert keys - left == keys;
    }

    method PinSession(identity: string, proxy: ProxyInfo, stickySecs: nat, now: Time)
      modifies this`sessions
      ensures View() == LocalProxySpec.PinSession(old(View()), identity, proxy, stickySecs, now)
    {
      sessions := sessions[identity := PinTo(proxy, stickySecs, now)];
    }

    /** Blame the proxy in the pool, release its sessions and empty its slots. */
    method RecordFailure(proxy: ProxyInfo, now: Time)
      requires pool.Valid()
      modifies this`sessions, this`slots, this`blamed, pool
      ensures blamed == old(blamed) + [proxy.id]
      ensures pool.Valid() && pool.View() == PoolSpec.ReportFailure(pool.cfg, old(pool.View()), proxy.id, now)
      ensures View() == ReleaseAll(old(View()), {proxy.id})
    {
      hide PoolSpec.ReportFailure, ReleaseAll;
      pool.ReportFailure(proxy.id, now);
      blamed := blamed + [proxy.id];
      ReleasesOne(View(), proxy.id);
      sessions := map k | k in sessions && sessions[k].proxyId != proxy.id :: sessions[k];
      slots := map k | k in slots ::
        if slots[k].proxyId == Some(proxy.id) then slots[k].(proxyId := None) else slots[k];
    }

    /** One attempt: it carries, or its proxy is blamed, its sessions are released and a replacement is looked for. */
    method Attempt(current: ProxyInfo, avoid: set<Avoid>, exits: set<IpAddr>, now: Time)
      returns (carries: bool, next: Option<ProxyInfo>)
      requires pool.Valid()
      modifies this`sessions, this`slots, this`failures, this`blamed, pool
      ensures pool.Valid()
      ensures View() == if carries then old(View()) else ReleaseAll(old(View()), {current.id})
      ensures failures == old(failures) + if carries then 0 else 1
      ensures blamed == old(blamed) + if carries then [] else [current.id]
      ensures carries ==> next.None?
      ensures var tried := avoid + {ById(current.id), ByHost(current.host)};
              !carries ==>
                if NoCandidate(pool.cfg, pool.proxies, tried, exits) then next.None?
                else next.Some? && WorthMost(pool.cfg, pool.proxies, next.value, tried, exits, now)
    {
      hide Eligible, Best, BestRecord, ReleaseAll, PoolSpec.ReportFailure, NoCandidate, WorthMost;
      carries := *;
      pool.OthersAct();
      if carries {
        return true, None;
      }
      failures := failures + 1;
      RecordFailure(current, now);
      pool.OthersAct();
      var tried := avoid + {ById(current.id), ByHost(current.host)};
      next := BestRecord(pool.cfg, pool.proxies, Wanted(tried, exits, None), now);
      ChoiceIsWorthMost(pool.cfg, pool.proxies, tried, exits, now);
    }

    /**
     * Open a tunnel, moving on when a proxy is dead. Whether an attempt carries, when the budget runs
     * out, and what the rest of the engine does to the pool meanwhile, are all left open.
     */
    method OpenTunnel(proxy: ProxyInfo, now: Time)
      returns (carried: Option<ProxyInfo>, attempts: seq<ProxyInfo>, spent: bool)
      requires pool.Valid()
      modifies this`sessions, this`slots, this`failures, this`rotations, this`blamed, pool
      ensures pool.Valid()
      ensures |attempts| <= Max(1, maxAttempts)
      ensures attempts != [] ==> attempts[0] == proxy
      ensures PairwiseOther(attempts)
      ensures AvoidExits(attempts, old(recent))
      ensures failures == old(failures) + |attempts| - (if carried.Some? then 1 else 0)
      ensures carried.Some? ==>
                && attempts != [] && carried.value == attempts[|attempts| - 1]
                && rotations == old(rotations) + |attempts| - 1
      ensures carried.None? ==> 0 <= old(rotations) + |attempts| - rotations <= 1
      ensures blamed == old(blamed) + PoolRuns.IdList(if carried.Some? then attempts[..|attempts| - 1] else attempts)
      ensures spent ==> carried.None? && |attempts| < Max(1, maxAttempts) && rotations == old(rotations) + |attempts|
      ensures attempts == [] ==> spent
      ensures carried.None? && !spent && |attempts| < Max(1, maxAttempts) ==>
                NoCandidate(pool.cfg, pool.proxies, AvoidAll(attempts), RecentExits(old(recent)))
      ensures View() == ReleaseAll(old(View()),
                                   FailedIds(if carried.Some? then attempts[..|attempts| - 1] else attempts))
    {
      hide Candidate, AvoidAll, Tried, PairwiseOther, AvoidExits, FailedIds, ReleaseAll, RecentExits, NoCandidate,
           WorthMost, PoolRuns.IdList;
      spent := false;
      var avoid: set<Avoid> := {};
      var exits := RecentExits(recent);
      var current, left := proxy, Max(1, maxAttempts);
      attempts := [];
      NothingTried(proxy, recent, View());
      while left > 0
        invariant pool.Valid() && recent == old(recent) && !spent
        invariant Tried(proxy, attempts, current, avoid, recent)
        invariant 0 <= left && |attempts| + left == Max(1, maxAttempts)
        invariant failures == old(failures) + |attempts| && rotations == old(rotations) + |attempts|
        invariant View() == ReleaseAll(old(View()), FailedIds(attempts))
        invariant blamed == old(blamed) + PoolRuns.IdList(attempts)
      {
        TriedSoFar(proxy, attempts, current, avoid, recent);
        var budgetSpent: bool := *;
        if budgetSpent {
          return None, attempts, true;
        }
        left := left - 1;
        var carries, next := Attempt(current, avoid, exits, now);
        if carries {
          return Some(current), attempts + [current], false;
        }
        FailedOnceMore(old(View()), attempts, current);
        assert blamed == old(blamed) + PoolRuns.IdList(attempts + [current]);
        AvoidAllExtends(attempts, current);
        if next.None? {
          return None, attempts + [current], false;
        }
        var avoidMore := avoid + {ById(current.id), ByHost(current.host)};
        MostIsCandidate(pool.cfg, pool.proxies, next.value, avoidMore, exits, now);
        TriedOneMore(pool.cfg, proxy, attempts, current, avoid, recent, next.value);
        avoid := avoidMore;
        rotations := rotations + 1;
        attempts := attempts + [current];
        current := next.value;
      }
      TriedSoFar(proxy, attempts, current, avoid, recent);
      carried := None;
    }

    /** How the proxy is chosen is the policy's decision. */
    method ProxyFor(identity: string, policyName: string, policy: ProxyPolicy, now: Time)
      returns (r: Option<ProxyInfo>)
      requires pool.Valid()
      modifies this`sessions, this`slots, this`avoided, this`recent
      ensures View() == LocalProxySpec.ProxyFor(pool.cfg, old(View()), pool.View(), identity, policyName, policy,
                                                now).local
      ensures r == LocalProxySpec.ProxyFor(pool.cfg, old(View()), pool.View(), identity, policyName, policy,
                                           now).proxy
    {
      hide StickyPick, TimedPick, PerRequestPick;
      match policy.rotation {
        case Sticky => r := StickyProxy(identity, policy, now);
        case Timed => r := TimedProxy(policyName, policy, now);
        case PerRequest => r := PerRequestProxy(policy, now);
      }
    }

    /** A request that needs a tunnel: choose, open, and pin the session to whoever carried, in every mode. */
    method ServeTunnel(identity: string, policyName: string, policy: ProxyPolicy, now: Time)
      returns (carried: Option<ProxyInfo>, attempts: seq<ProxyInfo>, spent: bool)
      requires pool.Valid()
      modifies this, pool
      ensures pool.Valid()
      ensures var pick := LocalProxySpec.ProxyFor(pool.cfg, old(View()), old(pool.View()), identity, policyName,
                                                  policy, now);
              && (pick.proxy.None? ==> carried.None? && attempts == [] && !spent)
              && (pick.proxy.Some? && attempts == [] ==> spent)
              && (pick.proxy.Some? && carried.None? && !spent && |attempts| < Max(1, maxAttempts) ==>
                    NoCandidate(pool.cfg, pool.proxies, AvoidAll(attempts), RecentExits(pick.local.recent)))
              && (attempts != [] ==> pick.proxy == Some(attempts[0]))
              && (carried.None? ==> View() == ReleaseAll(pick.local, FailedIds(attempts)))
              && (carried.Some? ==>
                    && attempts != [] && carried.value == attempts[|attempts| - 1]
                    && View() == LocalProxySpec.PinSession(
                         ReleaseAll(pick.local, FailedIds(attempts[..|attempts| - 1])),
                         identity, carried.value, policy.stickySecs, now))
      ensures failures == old(failures) + |attempts| - (if carried.Some? then 1 else 0)
      ensures var failed := |attempts| - if carried.Some? && attempts != [] then 1 else 0;
              blamed == old(blamed) + PoolRuns.IdList(attempts[..failed])
      ensures carried.Some? && |attempts| == 1 ==>
                View() == Served(pool.cfg, old(View()), old(pool.View()), identity, policyName, policy, now)
    {
      hide LocalProxySpec.ProxyFor, ReleaseAll, FailedIds, NoCandidate, AvoidAll, RecentExits;
      var proxy := ProxyFor(identity, policyName, policy, now);
      ghost var picked := View();
      ReleaseNone(picked);
      if proxy.None? {
        assert PoolRuns.IdList([]) == [];
        return None, [], false;
      }
      carried, attempts, spent := OpenTunnel(proxy.value, now);
      assert attempts[..|attempts|] == attempts;
      if carried.Some? {
        assert |attempts| == 1 ==> attempts[..0] == [];
        PinSession(identity, carried.value, policy.stickySecs, now);
      }
    }
  }

  lemma ReleasesOne(l: Local, id: ProxyId)
    ensures ReleaseAll(l, {id})
            == l.(sessions := map k | k in l.sessions && l.sessions[k].proxyId != id :: l.sessions[k],
                  slots := map k | k in l.slots ::
                    if l.slots[k].proxyId == Some(id) then l.slots[k].(proxyId := None) else l.slots[k])
  {
    var released := ReleaseAll(l, {id});
    assert released.sessions == map k | k in l.sessions && l.sessions[k].proxyId != id :: l.sessions[k];
    assert released.slots
           == map k | k in l.slots ::
             if l.slots[k].proxyId == Some(id) then l.slots[k].(proxyId := None) else l.slots[k];
  }

  lemma ReleaseNone(l: Local)
    ensures ReleaseAll(l, FailedIds([])) == l
  {
    assert FailedIds([]) == {};
    assert ReleaseAll(l, {}).sessions == l.sessions && ReleaseAll(l, {}).slots == l.slots;
  }

  // ----- turning over one key at a time -----

  lemma TurnsNone(l: Local, keys: set<string>)
    ensures TurnKeys(l, keys - keys) == l
    ensures forall c :: SessionsOf(l.sessions, c) <= l.sessions.Keys
  {
    assert keys - keys == {};
    assert TurnKeys(l, {}).sessions == l.sessions;
    assert TurnKeys(l, {}).avoided == l.avoided;
  }

  lemma TurnsOneMore(l: Local, done: set<string>, key: string)
    requires done <= l.sessions.Keys && key in l.sessions && key !in done
    ensures key in TurnKeys(l, done).sessions && TurnKeys(l, done).sessions[key] == l.sessions[key]
    ensures TurnKeys(l, done + {key})
            == TurnKeys(l, done).(
                 sessions := TurnKeys(l, done).sessions - {key},
                 avoided := TurnKeys(l, done).avoided[
                   key := TurnedAway(TurnKeys(l, done).avoided, key) + {l.sessions[key].proxyId}])
  {
    AvoidsOneMore(l, done, key);
    var a, b := TurnKeys(l, done), TurnKeys(l, done + {key});
    assert b.sessions == a.sessions - {key};
  }

  lemma AvoidsOneMore(l: Local, done: set<string>, key: string)
    requires done <= l.sessions.Keys && key in l.sessions && key !in done
    ensures var avoided := TurnKeys(l, done).avoided;
            TurnKeys(l, done + {key}).avoided == avoided[key := TurnedAway(avoided, key) + {l.sessions[key].proxyId}]
  {
    var a, b := TurnKeys(l, done).avoided, TurnKeys(l, done + {key}).avoided;
    var c := a[key := TurnedAway(a, key) + {l.sessions[key].proxyId}];
    assert TurnedAway(a, key) == TurnedAway(l.avoided, key);
    assert b.Keys == c.Keys;
    forall k | k in b ensures b[k] == c[k] {
      if k != key {
        assert k in a;
      }
    }
  }

  // ----- what the failover remembers -----

  function FailedIds(attempts: seq<ProxyInfo>): set<ProxyId> {
    set i | 0 <= i < |attempts| :: attempts[i].id
  }

  function AvoidAll(attempts: seq<ProxyInfo>): set<Avoid> {
    (set i | 0 <= i < |attempts| :: ById(attempts[i].id)) + (set i | 0 <= i < |attempts| :: ByHost(attempts[i].host))
  }

  /** No proxy is tried twice, and no server. */
  ghost predicate PairwiseOther(attempts: seq<ProxyInfo>) {
    forall i, j :: 0 <= i < j < |attempts| ==> attempts[i].id != attempts[j].id && attempts[i].host != attempts[j].host
  }

  /** Every replacement leaves by an address that was not used lately. */
  ghost predicate AvoidExits(attempts: seq<ProxyInfo>, recent: seq<UsedProxy>) {
    forall i, k :: 0 < i < |attempts| && 0 <= k < |recent| && recent[k].exitIp.Some? ==>
      attempts[i].exitIp != recent[k].exitIp
  }

  function RecentExits(recent: seq<UsedProxy>): set<IpAddr> {
    set i | 0 <= i < |recent| && recent[i].exitIp.Some? :: recent[i].exitIp.value
  }

  /** What the loop knows of the attempts behind it and the one it is about to make. */
  ghost predicate Tried(first: ProxyInfo, attempts: seq<ProxyInfo>, current: ProxyInfo, avoid: set<Avoid>,
                        recent: seq<UsedProxy>) {
    && (attempts + [current])[0] == first
    && avoid == AvoidAll(attempts)
    && PairwiseOther(attempts + [current])
    && AvoidExits(attempts + [current], recent)
  }

  lemma NothingTried(proxy: ProxyInfo, recent: seq<UsedProxy>, l: Local)
    ensures Tried(proxy, [], proxy, {}, recent) && PoolRuns.IdList([]) == []
    ensures ReleaseAll(l, FailedIds([])) == l
  {
    ReleaseNone(l);
  }

  lemma TriedSoFar(first: ProxyInfo, attempts: seq<ProxyInfo>, current: ProxyInfo, avoid: set<Avoid>,
                   recent: seq<UsedProxy>)
    requires Tried(first, attempts, current, avoid, recent)
    ensures avoid == AvoidAll(attempts)
    ensures PairwiseOther(attempts) && AvoidExits(attempts, recent) && (attempts != [] ==> attempts[0] == first)
    ensures PairwiseOther(attempts + [current]) && AvoidExits(attempts + [current], recent)
    ensures (attempts + [current])[0] == first && (attempts + [current])[..|attempts|] == attempts
  {
    var longer := attempts + [current];
    assert forall i :: 0 <= i < |attempts| ==> longer[i] == attempts[i];
  }

  lemma AvoidAllExtends(attempts: seq<ProxyInfo>, p: ProxyInfo)
    ensures AvoidAll(attempts + [p]) == AvoidAll(attempts) + {ById(p.id), ByHost(p.host)}
  {
    var longer := attempts + [p];
    assert longer[|attempts|] == p;
    forall a | a in AvoidAll(attempts) ensures a in AvoidAll(longer) {
      var i :| 0 <= i < |attempts| && (a == ById(attempts[i].id) || a == ByHost(attempts[i].host));
      assert longer[i] == attempts[i];
    }
  }

  /** The replacement is a proxy and a server not tried before, at an exit not used lately. */
  lemma TriedOneMore(cfg: Config, first: ProxyInfo, attempts: seq<ProxyInfo>, current: ProxyInfo, avoid: set<Avoid>,
                     recent: seq<UsedProxy>, next: ProxyInfo)
    requires Tried(first, attempts, current, avoid, recent)
    requires Candidate(cfg, next, avoid + {ById(current.id), ByHost(current.host)}, RecentExits(recent))
    ensures Tried(first, attempts + [current], next, avoid + {ById(current.id), ByHost(current.host)}, recent)
  {
    var tried := attempts + [current];
    AvoidAllExtends(attempts, current);
    forall i | 0 <= i < |tried| ensures tried[i].id != next.id && tried[i].host != next.host {
      assert ById(tried[i].id) in AvoidAll(tried) && ByHost(tried[i].host) in AvoidAll(tried);
    }
    forall k | 0 <= k < |recent| && recent[k].exitIp.Some? ensures next.exitIp != recent[k].exitIp {
      assert recent[k].exitIp.value in RecentExits(recent);
    }
  }

  lemma FailedIdsExtends(attempts: seq<ProxyInfo>, p: ProxyInfo)
    ensures FailedIds(attempts + [p]) == FailedIds(attempts) + {p.id}
  {
    var longer := attempts + [p];
    assert longer[|attempts|] == p;
    forall id | id in FailedIds(attempts) ensures id in FailedIds(longer) {
      var i :| 0 <= i < |attempts| && attempts[i].id == id;
      assert longer[i] == attempts[i];
    }
  }

  lemma FailedOnceMore(l: Local, attempts: seq<ProxyInfo>, p: ProxyInfo)
    ensures ReleaseAll(ReleaseAll(l, FailedIds(attempts)), {p.id}) == ReleaseAll(l, FailedIds(attempts + [p]))
    ensures PoolRuns.IdList(attempts + [p]) == PoolRuns.IdList(attempts) + [p.id]
  {
    hide ReleaseAll, FailedIds;
    ReleasedTwice(l, FailedIds(attempts), p.id);
    FailedIdsExtends(attempts, p);
  }

  lemma ReleasedTwice(l: Local, failed: set<ProxyId>, id: ProxyId)
    ensures ReleaseAll(ReleaseAll(l, failed), {id}) == ReleaseAll(l, failed + {id})
  {
    var a, b := ReleaseAll(ReleaseAll(l, failed), {id}), ReleaseAll(l, failed + {id});
    assert a.sessions == b.sessions;
    assert a.slots == b.slots;
  }
}
