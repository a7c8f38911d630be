/**
 * What the proxy pool means: a list of records with distinct ids, at most one of them selected by
 * its id, the ids waiting for the next sweep and the ids that must not come back. There is no id
 * index here and no position of the selection; `ProxyPool` keeps both and is proved to agree.
 */
module PoolSpec {
  import opened Common
  import opened Proxies

  datatype Pool = Pool(
    records: seq<ProxyInfo>,
    active: Option<ProxyId>,
    pending: set<ProxyId>,
    condemned: set<ProxyId>)

  /** `freshness` is the weight of a score whose proxy last worked that many seconds ago. */
  datatype Config = Config(minScore: real, schedule: ProbeSchedule, freshness: nat -> real)

  /** Linear search. */
  function Position(records: seq<ProxyInfo>, id: ProxyId): (r: Option<nat>)
    ensures r.Some? ==> r.value < |records| && records[r.value].id == id
    ensures r.None? ==> forall i :: 0 <= i < |records| ==> records[i].id != id
  {
    if records == [] then None
    else if records[0].id == id then Some(0)
    else
      var rest := Position(records[1..], id);
      assert rest.None? ==> forall i :: 1 <= i < |records| ==> records[i] == records[1..][i - 1];
      if rest.Some? then Some(rest.value + 1) else None
  }

  predicate Has(records: seq<ProxyInfo>, id: ProxyId) {
    Position(records, id).Some?
  }

  function Get(records: seq<ProxyInfo>, id: ProxyId): Option<ProxyInfo> {
    var i := Position(records, id);
    if i.Some? then Some(records[i.value]) else None
  }

  ghost predicate UniqueIds(records: seq<ProxyInfo>) {
    forall i, j :: 0 <= i < j < |records| ==> records[i].id != records[j].id
  }

  ghost predicate WellFormed(s: Pool) {
    UniqueIds(s.records) && (s.active.Some? ==> Has(s.records, s.active.value))
  }

  // ----- folding records in -----

  /** A known proxy keeps its health; a source may only correct what describes it. */
  function Refreshed(known: ProxyInfo, offered: ProxyInfo): ProxyInfo {
    known.(anonymity := offered.anonymity,
           country := if known.country.None? then offered.country else known.country)
  }

  function MergeOne(s: Pool, p: ProxyInfo, now: Time): Pool {
    if p.id in s.condemned then s
    else
      match Position(s.records, p.id)
      case Some(i) => s.(records := s.records[i := Refreshed(s.records[i], p)])
      case None => s.(records := s.records + [p.Discovered(now)])
  }

  function Merge(s: Pool, discovered: seq<ProxyInfo>, now: Time): Pool {
    if discovered == [] then s
    else
      var n := |discovered| - 1;
      MergeOne(Merge(s, discovered[..n], now), discovered[n], now)
  }

  function RestoreOne(s: Pool, p: ProxyInfo): Pool {
    if Has(s.records, p.id) then s else s.(records := s.records + [p])
  }

  function Restore(s: Pool, saved: seq<ProxyInfo>): Pool {
    if saved == [] then s
    else
      var n := |saved| - 1;
      RestoreOne(Restore(s, saved[..n]), saved[n])
  }

  function Add(s: Pool, p: ProxyInfo, now: Time): Pool {
    match Position(s.records, p.id)
    case Some(i) => s.(records := s.records[i := p.Discovered(now)])
    case None => s.(records := s.records + [p.Discovered(now)])
  }

  // ----- taking records out -----

  function Without(records: seq<ProxyInfo>, doomed: set<ProxyId>): seq<ProxyInfo> {
    if records == [] then []
    else
      var n := |records| - 1;
      Without(records[..n], doomed) + if records[n].id in doomed then [] else [records[n]]
  }

  /** The selection belongs to an id: it survives exactly when the id does. */
  function Retain(s: Pool, doomed: set<ProxyId>): Pool {
    s.(records := Without(s.records, doomed),
       active := if s.active.Some? && s.active.value in doomed then None else s.active)
  }

  function Remove(s: Pool, id: ProxyId): Pool {
    if Has(s.records, id) then Retain(s, {id}) else s
  }

  function EvictPending(s: Pool): Pool {
    Retain(s, s.pending).(pending := {}, condemned := s.condemned + s.pending)
  }

  // ----- the capacity cut -----

  /** What the capacity cut ranks a record by. */
  datatype RankKey = RankKey(lastSuccess: Option<Time>, latency: Option<nat>, score: real)

  /** `Option::cmp`: nothing sorts before something. */
  predicate OptionLess(a: Option<int>, b: Option<int>) {
    b.Some? && (a.None? || a.value < b.value)
  }

  /** The comparator of the cut: last success descending, then latency ascending, then score descending. */
  predicate Ahead(a: RankKey, b: RankKey) {
    OptionLess(b.lastSuccess, a.lastSuccess)
    || (a.lastSuccess == b.lastSuccess
        && (OptionLess(a.latency, b.latency) || (a.latency == b.latency && a.score > b.score)))
  }

  function Keys(records: seq<ProxyInfo>): (keys: seq<RankKey>)
    ensures |keys| == |records|
  {
    seq(|records|, i requires 0 <= i < |records| =>
      RankKey(records[i].lastSuccess, records[i].latency, records[i].score))
  }

  predicate Within(order: seq<nat>, n: nat) {
    forall i :: 0 <= i < |order| ==> order[i] < n
  }

  /** Put `k` after everything that is not strictly behind it: the sort is stable. */
  function InsertRank(keys: seq<RankKey>, order: seq<nat>, k: nat): (r: seq<nat>)
    requires k < |keys| && Within(order, |keys|)
    ensures |r| == |order| + 1 && Within(r, |keys|)
  {
    if order == [] then [k]
    else
      var n := |order| - 1;
      if Ahead(keys[k], keys[order[n]]) then InsertRank(keys, order[..n], k) + [order[n]]
      else order + [k]
  }

  /** The positions `0..n` ranked by usefulness, the most useful first. */
  function Ranking(keys: seq<RankKey>, n: nat): (r: seq<nat>)
    requires n <= |keys|
    ensures |r| == n && Within(r, |keys|)
  {
    if n == 0 then [] else InsertRank(keys, Ranking(keys, n - 1), n - 1)
  }

  /** The ids at the front of the ranking, as many as the pool is over its capacity. */
  function Doomed(records: seq<ProxyInfo>, max: nat): set<ProxyId> {
    if |records| <= max then {}
    else
      var ranking := Ranking(Keys(records), |records|);
      set i | 0 <= i < |records| - max :: records[ranking[i]].id
  }

  function EnforceCapacity(s: Pool, max: nat): Pool {
    if |s.records| <= max then s else Retain(s, Doomed(s.records, max))
  }

  // ----- selection -----

  /** What a caller wants from a selection: who to leave out, and the policy if it has one. */
  datatype Wanted = Wanted(avoid: set<Avoid>, exits: set<IpAddr>, policy: Option<ProxyPolicy>)

  predicate Eligible(cfg: Config, p: ProxyInfo, w: Wanted) {
    && ById(p.id) !in w.avoid
    && ByHost(p.host) !in w.avoid
    && !(p.exitIp.Some? && p.exitIp.value in w.exits)
    && p.IsWorking()
    && p.supportsTunnel
    && p.score >= cfg.minScore
    && (w.policy.Some? ==> w.policy.value.Allows(p))
  }

  function EffectiveScore(cfg: Config, p: ProxyInfo, now: Time): real {
    if p.lastSuccess.None? then 0.0
    else p.score * cfg.freshness(Max(SecondsBetween(now, p.lastSuccess.value), 0))
  }

  /** `filter(..).max_by(..)`: the last of the highest scoring eligible records. */
  function Best(cfg: Config, records: seq<ProxyInfo>, w: Wanted, now: Time): (r: Option<nat>)
    ensures r.Some? ==> r.value < |records| && Eligible(cfg, records[r.value], w)
  {
    if records == [] then None
    else
      var n := |records| - 1;
      var best := Best(cfg, records[..n], w, now);
      if !Eligible(cfg, records[n], w) then best
      else if best.Some? && EffectiveScore(cfg, records[best.value], now) > EffectiveScore(cfg, records[n], now)
      then best
      else Some(n)
  }

  function BestRecord(cfg: Config, records: seq<ProxyInfo>, w: Wanted, now: Time): (r: Option<ProxyInfo>)
    ensures r.Some? ==> Eligible(cfg, r.value, w)
  {
    var i := Best(cfg, records, w, now);
    if i.Some? then Some(records[i.value]) else None
  }

  function SetActive(s: Pool, id: ProxyId): Pool {
    if Has(s.records, id) then s.(active := Some(id)) else s
  }

  function ActivateBest(cfg: Config, s: Pool, w: Wanted, now: Time): Pool {
    var i := Best(cfg, s.records, w, now);
    if i.Some? then s.(active := Some(s.records[i.value].id)) else s
  }

  function Rotate(s: Pool): Pool {
    if s.records == [] then s
    else
      var at := if s.active.Some? then Position(s.records, s.active.value) else None;
      var next := if at.Some? then (at.value + 1) % |s.records| else 0;
      s.(active := Some(s.records[next].id))
  }

  function ActiveRecord(s: Pool): Option<ProxyInfo> {
    if s.active.Some? then Get(s.records, s.active.value) else None
  }

  // ----- health -----

  /** A failure, whoever found it: the streak grows, the score halves, the next probe is put off. */
  function Blamed(p: ProxyInfo, schedule: ProbeSchedule, now: Time): ProxyInfo {
    var failures := SaturatingSucc(p.consecutiveFailures);
    p.(lastChecked := Some(now), consecutiveFailures := failures, score := p.score * 0.5,
       nextProbeAt := now + schedule.FailedBackoff(failures) * SECOND)
  }

  function Probed(p: ProxyInfo, r: HealthResult, schedule: ProbeSchedule, now: Time): ProxyInfo {
    match r.verdict
    case Working =>
      p.(latency := Some(r.latency), score := ScoreFor(r.latency), lastChecked := Some(now),
         lastSuccess := Some(now), consecutiveFailures := 0,
         exitIp := if r.exitIp.Some? then r.exitIp else p.exitIp,
         supportsTunnel := r.tunneled,
         anonymity := if r.anonymity.Some? then r.anonymity.value else p.anonymity,
         nextProbeAt := now + schedule.workingIntervalSecs * SECOND)
    case Inconclusive =>
      p.(lastChecked := Some(now), nextProbeAt := now + schedule.inconclusiveBackoffSecs * SECOND)
    case Failed => Blamed(p, schedule, now)
  }

  /** How long an unverified proxy has been in the pool, in whole seconds. */
  function AgeSeconds(p: ProxyInfo, now: Time): nat {
    var d := SecondsBetween(now, p.firstSeen);
    if d >= 0 then d else -d
  }

  /** Whether this result condemns the proxy it is about. */
  predicate Condemns(p: ProxyInfo, r: HealthResult, policy: EvictionPolicy, now: Time) {
    r.verdict.Failed?
    && (SaturatingSucc(p.consecutiveFailures) >= policy.maxConsecutiveFailures
        || (p.lastSuccess.None? && AgeSeconds(p, now) >= policy.unverifiedTtlSecs))
  }

  function ApplyResult(s: Pool, r: HealthResult, policy: EvictionPolicy, schedule: ProbeSchedule, now: Time): Pool {
    match Position(s.records, r.proxyId)
    case None => s
    case Some(i) =>
      s.(records := s.records[i := Probed(s.records[i], r, schedule, now)],
         pending := if Condemns(s.records[i], r, policy, now) then s.pending + {r.proxyId} else s.pending)
  }

  function ReportFailure(cfg: Config, s: Pool, id: ProxyId, now: Time): Pool {
    match Position(s.records, id)
    case None => s
    case Some(i) => s.(records := s.records[i := Blamed(s.records[i], cfg.schedule, now)])
  }

  // ----- what is due -----

  function Due(records: seq<ProxyInfo>, now: Time): seq<ProxyInfo> {
    if records == [] then []
    else
      var n := |records| - 1;
      Due(records[..n], now) + if records[n].nextProbeAt <= now then [records[n]] else []
  }

  /** The first `max` due records, in pool order. */
  function DueBatch(records: seq<ProxyInfo>, now: Time, max: nat): (r: seq<ProxyInfo>)
    ensures |r| <= max
  {
    var due := Due(records, now);
    if |due| <= max then due else due[..max]
  }

  // ----- whole runs -----

  datatype Op =
    | MergeOp(discovered: seq<ProxyInfo>, at: Time)
    | RestoreOp(saved: seq<ProxyInfo>)
    | AddOp(proxy: ProxyInfo, at: Time)
    | RemoveOp(id: ProxyId)
    | EnforceCapacityOp(max: nat)
    | EvictPendingOp
    | SetActiveOp(id: ProxyId)
    | ActivateBestOp(wanted: Wanted, at: Time)
    | ClearActiveOp
    | RotateOp
    | ResultOp(result: HealthResult, policy: EvictionPolicy, schedule: ProbeSchedule, at: Time)
    | TrafficFailureOp(id: ProxyId, at: Time)
    | RememberCondemnedOp(ids: set<ProxyId>)

  function Apply(cfg: Config, s: Pool, op: Op): Pool {
    match op
    case MergeOp(discovered, at) => Merge(s, discovered, at)
    case RestoreOp(saved) => Restore(s, saved)
    case AddOp(proxy, at) => Add(s, proxy, at)
    case RemoveOp(id) => Remove(s, id)
    case EnforceCapacityOp(max) => EnforceCapacity(s, max)
    case EvictPendingOp => EvictPending(s)
    case SetActiveOp(id) => SetActive(s, id)
    case ActivateBestOp(wanted, at) => ActivateBest(cfg, s, wanted, at)
    case ClearActiveOp => s.(active := None)
    case RotateOp => Rotate(s)
    case ResultOp(result, policy, schedule, at) => ApplyResult(s, result, policy, schedule, at)
    case TrafficFailureOp(id, at) => ReportFailure(cfg, s, id, at)
    case RememberCondemnedOp(ids) => s.(condemned := s.condemned + ids)
  }

  function Run(cfg: Config, s: Pool, ops: seq<Op>): Pool
    decreases |ops|
  {
    if ops == [] then s else Run(cfg, Apply(cfg, s, ops[0]), ops[1..])
  }
}
