/** How the local proxy chooses who carries a client: sticky sessions, timed slots, a proxy per request. */
module LocalProxySpec {
  import opened Common
  import opened Proxies
  import opened PoolSpec

  datatype UsedProxy = UsedProxy(id: ProxyId, exitIp: Option<IpAddr>)

  datatype Session = Session(proxyId: ProxyId, exitIp: Option<IpAddr>, host: Host, expiresAt: Option<Time>)

  datatype Slot = Slot(proxyId: Option<ProxyId>, changesAt: Time)

  datatype Local = Local(
    sessions: map<string, Session>,
    slots: map<string, Slot>,
    avoided: map<string, set<ProxyId>>,
    recent: seq<UsedProxy>)

  /** A choice, what it leaves behind, and whether it was remembered as recently used. */
  datatype Pick = Pick(local: Local, proxy: Option<ProxyInfo>, remembered: bool)

  const RING: nat := 16

  function Expiry(secs: nat, now: Time): Option<Time> {
    if secs > 0 then Some(now + secs * SECOND) else None
  }

  function PinTo(p: ProxyInfo, secs: nat, now: Time): Session {
    Session(p.id, p.exitIp, p.host, Expiry(secs, now))
  }

  /** The newest sixteen. */
  function Remember(recent: seq<UsedProxy>, p: ProxyInfo): seq<UsedProxy> {
    var r := recent + [UsedProxy(p.id, p.exitIp)];
    if |r| > RING then r[|r| - RING..] else r
  }

  /** When nothing matches, the device's own selection is used, if the policy allows it. */
  function Fallback(pool: Pool, policy: ProxyPolicy): (r: Option<ProxyInfo>)
    ensures r.Some? ==> policy.Allows(r.value)
  {
    var active := ActiveRecord(pool);
    if active.Some? && policy.Allows(active.value) then active else None
  }

  // ----- sticky sessions -----

  /** The pin still stands: not expired, the proxy still in the pool, the policy still content with it. */
  predicate Stands(session: Session, pool: Pool, policy: ProxyPolicy, now: Time) {
    && !(session.expiresAt.Some? && now >= session.expiresAt.value)
    && Has(pool.records, session.proxyId)
    && policy.Allows(Get(pool.records, session.proxyId).value)
  }

  function TurnedAway(avoided: map<string, set<ProxyId>>, name: string): set<ProxyId> {
    if name in avoided then avoided[name] else {}
  }

  /** What a new pin keeps clear of: the other sessions' proxies, servers and exits, and who was just dropped. */
  function ApartFrom(sessions: map<string, Session>, dropped: set<ProxyId>, policy: ProxyPolicy): Wanted {
    Wanted((set k | k in sessions :: ById(sessions[k].proxyId))
           + (set k | k in sessions :: ByHost(sessions[k].host))
           + (set id | id in dropped :: ById(id)),
           set k | k in sessions && sessions[k].exitIp.Some? :: sessions[k].exitIp.value,
           Some(policy))
  }

  function StickyPick(cfg: Config, l: Local, pool: Pool, identity: string, policy: ProxyPolicy, now: Time): Pick {
    if identity in l.sessions && Stands(l.sessions[identity], pool, policy, now) then
      Pick(l, Get(pool.records, l.sessions[identity].proxyId), false)
    else
      var sessions := l.sessions - {identity};
      var wanted := ApartFrom(sessions, TurnedAway(l.avoided, identity), policy);
      var rest := l.(sessions := sessions, avoided := l.avoided - {identity});
      var best := BestRecord(cfg, pool.records, wanted, now);
      if best.None? then Pick(rest, Fallback(pool, policy), false)
      else Pick(rest.(sessions := sessions[identity := PinTo(best.value, policy.stickySecs, now)]), best, false)
  }

  // ----- rotation by time and per request -----

  function RecentlyUsed(recent: seq<UsedProxy>, dropped: set<ProxyId>, policy: ProxyPolicy): Wanted {
    Wanted((set i | 0 <= i < |recent| :: ById(recent[i].id)) + (set id | id in dropped :: ById(id)),
           set i | 0 <= i < |recent| && recent[i].exitIp.Some? :: recent[i].exitIp.value,
           Some(policy))
  }

  /** The slot still serves its window: an emptied slot looks for the empty id. */
  predicate SlotServes(slot: Slot, pool: Pool, policy: ProxyPolicy, now: Time) {
    var id := if slot.proxyId.Some? then slot.proxyId.value else "";
    now < slot.changesAt && Has(pool.records, id) && policy.Allows(Get(pool.records, id).value)
  }

  function TimedPick(cfg: Config, l: Local, pool: Pool, name: string, policy: ProxyPolicy, now: Time): Pick {
    if name in l.slots && SlotServes(l.slots[name], pool, policy, now) then
      Pick(l, Get(pool.records, if l.slots[name].proxyId.Some? then l.slots[name].proxyId.value else ""), false)
    else
      var rest := l.(avoided := l.avoided - {name});
      var best := BestRecord(cfg, pool.records, RecentlyUsed(l.recent, TurnedAway(l.avoided, name), policy), now);
      if best.None? then Pick(rest, Fallback(pool, policy), false)
      else
        var slot := Slot(Some(best.value.id), now + Max(policy.rotateIntervalSecs, 1) * SECOND);
        Pick(rest.(slots := l.slots[name := slot], recent := Remember(l.recent, best.value)), best, true)
  }

  function PerRequestPick(cfg: Config, l: Local, pool: Pool, policy: ProxyPolicy, now: Time): Pick {
    var best := BestRecord(cfg, pool.records, RecentlyUsed(l.recent, {}, policy), now);
    if best.None? then Pick(l, Fallback(pool, policy), false)
    else Pick(l.(recent := Remember(l.recent, best.value)), best, true)
  }

  /** How the proxy is chosen is the policy's decision. */
  function ProxyFor(cfg: Config, l: Local, pool: Pool, identity: string, policyName: string, policy: ProxyPolicy,
                    now: Time): Pick {
    match policy.rotation
    case Sticky => StickyPick(cfg, l, pool, identity, policy, now)
    case Timed => TimedPick(cfg, l, pool, policyName, policy, now)
    case PerRequest => PerRequestPick(cfg, l, pool, policy, now)
  }

  // ----- turning over, failing, pinning -----

  function Avoided(l: Local, name: string, id: ProxyId): map<string, set<ProxyId>> {
    l.avoided[name := TurnedAway(l.avoided, name) + {id}]
  }

  // A rotation drops under one lock and notes who is to be avoided under another.

  function DropSession(l: Local, identity: string): Local {
    l.(sessions := l.sessions - {identity})
  }

  function DropSlot(l: Local, name: string): Local {
    l.(slots := l.slots - {name})
  }

  function AvoidNext(l: Local, name: string, id: ProxyId): Local {
    l.(avoided := Avoided(l, name, id))
  }

  function RotateSession(l: Local, identity: string): Local {
    if identity !in l.sessions then l
    else AvoidNext(DropSession(l, identity), identity, l.sessions[identity].proxyId)
  }

  function RotatePolicy(l: Local, name: string): Local {
    if name !in l.slots then l
    else if l.slots[name].proxyId.None? then DropSlot(l, name)
    else AvoidNext(DropSlot(l, name), name, l.slots[name].proxyId.value)
  }

  /** The sessions held under a key that starts with the credential and a colon. */
  function SessionsOf(sessions: map<string, Session>, credential: string): set<string> {
    set k | k in sessions && credential + ":" <= k
  }

  /** These sessions are dropped, and each client is turned away from the proxy it had. */
  function TurnKeys(l: Local, keys: set<string>): Local
    requires keys <= l.sessions.Keys
  {
    l.(sessions := l.sessions - keys,
       avoided := map k | k in l.avoided.Keys + keys ::
         if k in keys then TurnedAway(l.avoided, k) + {l.sessions[k].proxyId} else l.avoided[k])
  }

  function RotateCredential(l: Local, credential: string): Local {
    TurnKeys(l, SessionsOf(l.sessions, credential))
  }

  /** Whoever is pinned to a failed proxy is released, and the slots that had it in front are emptied. */
  function ReleaseAll(l: Local, failed: set<ProxyId>): Local {
    l.(sessions := map k | k in l.sessions && l.sessions[k].proxyId !in failed :: l.sessions[k],
       slots := map k | k in l.slots ::
         if l.slots[k].proxyId.Some? && l.slots[k].proxyId.value in failed then l.slots[k].(proxyId := None)
         else l.slots[k])
  }

  function PinSession(l: Local, identity: string, proxy: ProxyInfo, stickySecs: nat, now: Time): Local {
    l.(sessions := l.sessions[identity := PinTo(proxy, stickySecs, now)])
  }

  // ----- a whole request -----

  /** A request whose first choice carries: whatever the mode was, the session is pinned to who carried. */
  function Served(cfg: Config, l: Local, pool: Pool, identity: string, policyName: string, policy: ProxyPolicy,
                  now: Time): Local {
    var pick := ProxyFor(cfg, l, pool, identity, policyName, policy, now);
    if pick.proxy.None? then pick.local
    else PinSession(pick.local, identity, pick.proxy.value, policy.stickySecs, now)
  }

  // ----- whole runs -----

  datatype Event =
    | PickFor(identity: string, policyName: string, policy: ProxyPolicy, at: Time)
    | SessionDropped(identity: string)
    | SlotDropped(policyName: string)
    | Avoiding(name: string, id: ProxyId)
    | TurnCredential(credential: string)
    | Failure(id: ProxyId, at: Time)
    | Pin(identity: string, carried: ProxyInfo, secs: nat, at: Time)
    | PoolMoves(pool: Pool)

  /** The local proxy and the pool it chooses from. */
  datatype World = World(local: Local, pool: Pool)

  function Happens(cfg: Config, w: World, e: Event): World {
    match e
    case PickFor(identity, policyName, policy, at) =>
      w.(local := ProxyFor(cfg, w.local, w.pool, identity, policyName, policy, at).local)
    case SessionDropped(identity) => w.(local := DropSession(w.local, identity))
    case SlotDropped(policyName) => w.(local := DropSlot(w.local, policyName))
    case Avoiding(name, id) => w.(local := AvoidNext(w.local, name, id))
    case TurnCredential(credential) => w.(local := RotateCredential(w.local, credential))
    case Failure(id, at) => World(ReleaseAll(w.local, {id}), ReportFailure(cfg, w.pool, id, at))
    case Pin(identity, carried, secs, at) => w.(local := PinSession(w.local, identity, carried, secs, at))
    case PoolMoves(pool) => w.(pool := pool)
  }

  function Through(cfg: Config, w: World, events: seq<Event>): World
    decreases |events|
  {
    if events == [] then w else Through(cfg, Happens(cfg, w, events[0]), events[1..])
  }
}
