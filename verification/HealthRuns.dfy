/** The health machine over timed runs: what an inconclusive probe may change, and what a streak counts. */
module HealthRuns {
  import opened Common
  import opened Proxies
  import opened PoolSpec
  import opened PoolRuns

  // ----- inconclusive probes are transparent -----

  /** A record without the two fields that only say when it was and will be looked at. */
  function Scrub(p: ProxyInfo): ProxyInfo {
    p.(lastChecked := None, nextProbeAt := 0)
  }

  ghost predicate AlikeRecords(a: seq<ProxyInfo>, b: seq<ProxyInfo>) {
    |a| == |b| && forall i :: 0 <= i < |a| ==> Scrub(a[i]) == Scrub(b[i])
  }

  /** The same proxies in the same state, selection, pending evictions and condemned; only the probe times differ. */
  ghost predicate Alike(s: Pool, t: Pool) {
    && AlikeRecords(s.records, t.records)
    && s.active == t.active && s.pending == t.pending && s.condemned == t.condemned
  }

  lemma {:induction false} AlikePosition(a: seq<ProxyInfo>, b: seq<ProxyInfo>, id: ProxyId)
    requires AlikeRecords(a, b)
    ensures Position(a, id) == Position(b, id)
  {
    if a != [] {
      assert Scrub(a[0]).id == Scrub(b[0]).id;
      AlikePosition(a[1..], b[1..], id);
    }
  }

  lemma {:induction false} AlikeWithout(a: seq<ProxyInfo>, b: seq<ProxyInfo>, doomed: set<ProxyId>)
    requires AlikeRecords(a, b)
    ensures AlikeRecords(Without(a, doomed), Without(b, doomed))
  {
    if a != [] {
      var n := |a| - 1;
      AlikeWithout(a[..n], b[..n], doomed);
      assert Scrub(a[n]).id == Scrub(b[n]).id;
    }
  }

  lemma AlikeKeys(a: seq<ProxyInfo>, b: seq<ProxyInfo>)
    requires AlikeRecords(a, b)
    ensures Keys(a) == Keys(b)
  {
    forall i | 0 <= i < |a| ensures Keys(a)[i] == Keys(b)[i] {
      assert Scrub(a[i]) == Scrub(b[i]);
      assert a[i].lastSuccess == Scrub(a[i]).lastSuccess && b[i].lastSuccess == Scrub(b[i]).lastSuccess;
      assert a[i].latency == Scrub(a[i]).latency && b[i].latency == Scrub(b[i]).latency;
      assert a[i].score == Scrub(a[i]).score && b[i].score == Scrub(b[i]).score;
    }
  }

  lemma AlikeDoomed(a: seq<ProxyInfo>, b: seq<ProxyInfo>, max: nat)
    requires AlikeRecords(a, b)
    ensures Doomed(a, max) == Doomed(b, max)
  {
    AlikeKeys(a, b);
    if |a| > max {
      var ranking := Ranking(Keys(a), |a|);
      forall i | 0 <= i < |a| - max ensures a[ranking[i]].id == b[ranking[i]].id {
        assert Scrub(a[ranking[i]]) == Scrub(b[ranking[i]]);
      }
    }
  }

  /** Neither eligibility nor the score looks at when a proxy was probed. */
  lemma AlikeEligible(cfg: Config, p: ProxyInfo, q: ProxyInfo, w: Wanted, now: Time)
    requires Scrub(p) == Scrub(q)
    ensures Eligible(cfg, p, w) == Eligible(cfg, q, w)
    ensures EffectiveScore(cfg, p, now) == EffectiveScore(cfg, q, now)
  {
    assert q == p.(lastChecked := q.lastChecked, nextProbeAt := q.nextProbeAt);
  }

  lemma {:induction false} AlikeBest(cfg: Config, a: seq<ProxyInfo>, b: seq<ProxyInfo>, w: Wanted, now: Time)
    requires AlikeRecords(a, b)
    ensures Best(cfg, a, w, now) == Best(cfg, b, w, now)
  {
    if a != [] {
      var n := |a| - 1;
      AlikeBest(cfg, a[..n], b[..n], w, now);
      AlikeEligible(cfg, a[n], b[n], w, now);
      var best := Best(cfg, a[..n], w, now);
      if best.Some? {
        AlikeEligible(cfg, a[best.value], b[best.value], w, now);
      }
    }
  }

  lemma AlikeUpdate(a: seq<ProxyInfo>, b: seq<ProxyInfo>, i: nat, p: ProxyInfo, q: ProxyInfo)
    requires AlikeRecords(a, b) && i < |a| && Scrub(p) == Scrub(q)
    ensures AlikeRecords(a[i := p], b[i := q])
  {
  }

  lemma AlikeAppend(a: seq<ProxyInfo>, b: seq<ProxyInfo>, p: ProxyInfo)
    requires AlikeRecords(a, b)
    ensures AlikeRecords(a + [p], b + [p])
  {
  }

  lemma {:induction false} AlikeMerge(s: Pool, t: Pool, discovered: seq<ProxyInfo>, now: Time)
    requires Alike(s, t)
    ensures Alike(Merge(s, discovered, now), Merge(t, discovered, now))
  {
    if discovered != [] {
      var n := |discovered| - 1;
      AlikeMerge(s, t, discovered[..n], now);
      var s1, t1, p := Merge(s, discovered[..n], now), Merge(t, discovered[..n], now), discovered[n];
      AlikePosition(s1.records, t1.records, p.id);
      var i := Position(s1.records, p.id);
      if i.Some? {
        var a, b := s1.records[i.value], t1.records[i.value];
        assert b == a.(lastChecked := b.lastChecked, nextProbeAt := b.nextProbeAt) by {
          assert Scrub(a) == Scrub(b);
        }
        AlikeUpdate(s1.records, t1.records, i.value, Refreshed(a, p), Refreshed(b, p));
      } else {
        AlikeAppend(s1.records, t1.records, p.Discovered(now));
      }
    }
  }

  lemma {:induction false} AlikeRestore(s: Pool, t: Pool, saved: seq<ProxyInfo>)
    requires Alike(s, t)
    ensures Alike(Restore(s, saved), Restore(t, saved))
  {
    if saved != [] {
      var n := |saved| - 1;
      AlikeRestore(s, t, saved[..n]);
      var s1, t1 := Restore(s, saved[..n]), Restore(t, saved[..n]);
      AlikePosition(s1.records, t1.records, saved[n].id);
      AlikeAppend(s1.records, t1.records, saved[n]);
    }
  }

  lemma AlikeProbed(p: ProxyInfo, q: ProxyInfo, r: HealthResult, policy: EvictionPolicy,
                    schedule: ProbeSchedule, now: Time)
    requires Scrub(p) == Scrub(q)
    ensures Scrub(Probed(p, r, schedule, now)) == Scrub(Probed(q, r, schedule, now))
    ensures Scrub(Blamed(p, schedule, now)) == Scrub(Blamed(q, schedule, now))
    ensures Condemns(p, r, policy, now) == Condemns(q, r, policy, now)
  {
    assert q == p.(lastChecked := q.lastChecked, nextProbeAt := q.nextProbeAt);
  }

  lemma AlikeAt(a: seq<ProxyInfo>, b: seq<ProxyInfo>, i: nat)
    requires AlikeRecords(a, b) && i < |a|
    ensures Scrub(a[i]) == Scrub(b[i]) && a[i].id == b[i].id
  {
    assert Scrub(a[i]).id == Scrub(b[i]).id;
  }

  lemma AlikeHealth(cfg: Config, s: Pool, t: Pool, op: Op)
    requires Alike(s, t) && (op.ResultOp? || op.TrafficFailureOp?)
    ensures Alike(Apply(cfg, s, op), Apply(cfg, t, op))
  {
    hide AlikeRecords, Scrub, Probed, Blamed, Condemns;
    match op {
      case ResultOp(r, policy, schedule, at) =>
        AlikePosition(s.records, t.records, r.proxyId);
        var i := Position(s.records, r.proxyId);
        if i.Some? {
          AlikeAt(s.records, t.records, i.value);
          var p, q := s.records[i.value], t.records[i.value];
          AlikeProbed(p, q, r, policy, schedule, at);
          AlikeUpdate(s.records, t.records, i.value, Probed(p, r, schedule, at), Probed(q, r, schedule, at));
        }
      case TrafficFailureOp(id, at) =>
        AlikePosition(s.records, t.records, id);
        var i := Position(s.records, id);
        if i.Some? {
          AlikeAt(s.records, t.records, i.value);
          var p, q := s.records[i.value], t.records[i.value];
          AlikeProbed(p, q, HealthResult(id, Failed, 0, false, None, None), EvictionPolicy(0, 0), cfg.schedule, at);
          AlikeUpdate(s.records, t.records, i.value, Blamed(p, cfg.schedule, at), Blamed(q, cfg.schedule, at));
        }
    }
  }

  lemma AlikeSelection(cfg: Config, s: Pool, t: Pool, op: Op)
    requires Alike(s, t) && Selects(op)
    ensures Alike(Apply(cfg, s, op), Apply(cfg, t, op))
  {
    hide AlikeRecords, Scrub;
    match op {
      case SetActiveOp(id) => AlikePosition(s.records, t.records, id);
      case ActivateBestOp(w, at) =>
        AlikeBest(cfg, s.records, t.records, w, at);
        var i := Best(cfg, s.records, w, at);
        if i.Some? {
          AlikeAt(s.records, t.records, i.value);
        }
      case ClearActiveOp =>
      case RotateOp =>
        AlikeLength(s.records, t.records);
        if s.records != [] {
          if s.active.Some? {
            AlikePosition(s.records, t.records, s.active.value);
          }
          var at := if s.active.Some? then Position(s.records, s.active.value) else None;
          AlikeAt(s.records, t.records, if at.Some? then (at.value + 1) % |s.records| else 0);
        }
    }
  }

  lemma AlikeLength(a: seq<ProxyInfo>, b: seq<ProxyInfo>)
    requires AlikeRecords(a, b)
    ensures |a| == |b|
  {
  }

  /** No operation of the pool can tell two alike pools apart. */
  lemma AlikeAfter(cfg: Config, s: Pool, t: Pool, op: Op)
    requires Alike(s, t)
    ensures Alike(Apply(cfg, s, op), Apply(cfg, t, op))
  {
    hide AlikeRecords, Scrub, Merge, Restore, Doomed;
    AlikeLength(s.records, t.records);
    match op {
      case MergeOp(discovered, at) => AlikeMerge(s, t, discovered, at);
      case RestoreOp(saved) => AlikeRestore(s, t, saved);
      case AddOp(p, at) =>
        AlikePosition(s.records, t.records, p.id);
        var i := Position(s.records, p.id);
        if i.Some? {
          AlikeUpdate(s.records, t.records, i.value, p.Discovered(at), p.Discovered(at));
        } else {
          AlikeAppend(s.records, t.records, p.Discovered(at));
        }
      case RemoveOp(id) =>
        AlikePosition(s.records, t.records, id);
        AlikeWithout(s.records, t.records, {id});
      case EnforceCapacityOp(max) =>
        AlikeDoomed(s.records, t.records, max);
        AlikeWithout(s.records, t.records, Doomed(s.records, max));
      case EvictPendingOp => AlikeWithout(s.records, t.records, s.pending);
      case RememberCondemnedOp(ids) =>
      case _ =>
        if Selects(op) {
          AlikeSelection(cfg, s, t, op);
        } else {
          AlikeHealth(cfg, s, t, op);
        }
    }
  }

  predicate IsInconclusive(op: Op) {
    op.ResultOp? && op.result.verdict.Inconclusive?
  }

  function DropInconclusive(ops: seq<Op>): seq<Op> {
    if ops == [] then []
    else (if IsInconclusive(ops[0]) then [] else [ops[0]]) + DropInconclusive(ops[1..])
  }

  /** An inconclusive result leaves a pool alike to what it was. */
  lemma InconclusiveChangesNothing(cfg: Config, s: Pool, op: Op)
    requires IsInconclusive(op)
    ensures Alike(Apply(cfg, s, op), s)
  {
  }

  /**
   * Deleting the inconclusive results from any run of the pool leaves every streak, score, success,
   * exit address, pending eviction, condemned id and selection as it would have been.
   */
  lemma {:induction false} InconclusiveIsTransparent(cfg: Config, s: Pool, t: Pool, ops: seq<Op>)
    requires Alike(s, t)
    ensures Alike(Run(cfg, s, ops), Run(cfg, t, DropInconclusive(ops)))
    decreases |ops|
  {
    if ops != [] {
      var rest := DropInconclusive(ops[1..]);
      if IsInconclusive(ops[0]) {
        InconclusiveChangesNothing(cfg, s, ops[0]);
        InconclusiveIsTransparent(cfg, Apply(cfg, s, ops[0]), t, ops[1..]);
        assert DropInconclusive(ops) == rest;
      } else {
        AlikeAfter(cfg, s, t, ops[0]);
        InconclusiveIsTransparent(cfg, Apply(cfg, s, ops[0]), Apply(cfg, t, ops[0]), ops[1..]);
        assert DropInconclusive(ops) == [ops[0]] + rest;
      }
    }
  }

  // ----- what a streak counts -----

  predicate FailureOf(op: Op, id: ProxyId) {
    (op.ResultOp? && op.result.verdict.Failed? && op.result.proxyId == id) || (op.TrafficFailureOp? && op.id == id)
  }

  predicate SuccessOf(op: Op, id: ProxyId) {
    op.ResultOp? && op.result.verdict.Working? && op.result.proxyId == id
  }

  /** A manual add asserts the proxy afresh, whatever was known of it. */
  predicate AddOf(op: Op, id: ProxyId) {
    op.AddOp? && op.proxy.id == id
  }

  /** Failures of the proxy since it last worked or was added by hand. */
  function FailuresSince(ops: seq<Op>, id: ProxyId): nat {
    if ops == [] then 0
    else
      var n := |ops| - 1;
      if SuccessOf(ops[n], id) || AddOf(ops[n], id) then 0
      else FailuresSince(ops[..n], id) + if FailureOf(ops[n], id) then 1 else 0
  }

  predicate StartedOver(ops: seq<Op>, id: ProxyId) {
    exists k :: 0 <= k < |ops| && (SuccessOf(ops[k], id) || AddOf(ops[k], id))
  }

  /** Whether the proxy worked at some point since it was last added by hand. */
  function HasWorked(ops: seq<Op>, id: ProxyId, before: bool): bool {
    if ops == [] then before
    else
      var n := |ops| - 1;
      if SuccessOf(ops[n], id) then true
      else if AddOf(ops[n], id) then false
      else HasWorked(ops[..n], id, before)
  }

  lemma GetAfterUpdate(records: seq<ProxyInfo>, i: nat, p: ProxyInfo, id: ProxyId)
    requires UniqueIds(records) && i < |records| && p.id == records[i].id
    ensures Get(records[i := p], id) == if id == p.id then Some(p) else Get(records, id)
  {
    var changed := records[i := p];
    assert forall j :: 0 <= j < |records| ==> changed[j].id == records[j].id;
    SearchFinds(changed, i);
    var at := Position(records, id);
    if at.Some? {
      SearchFinds(changed, at.value);
    }
    var now := Position(changed, id);
    if now.Some? {
      SearchFinds(records, now.value);
    }
  }

  lemma GetAfterAppend(records: seq<ProxyInfo>, p: ProxyInfo, id: ProxyId)
    requires UniqueIds(records) && !Has(records, p.id)
    ensures Get(records + [p], id) == if id == p.id then Some(p) else Get(records, id)
  {
    var longer := records + [p];
    SearchFinds(longer, |records|);
    var at := Position(records, id);
    if at.Some? {
      SearchFinds(longer, at.value);
    }
    var now := Position(longer, id);
    if now.Some? && now.value < |records| {
      SearchFinds(records, now.value);
    }
  }

  lemma GetAfterWithout(records: seq<ProxyInfo>, doomed: set<ProxyId>, id: ProxyId)
    requires UniqueIds(records)
    ensures UniqueIds(Without(records, doomed))
    ensures Get(Without(records, doomed), id) == if id in doomed then None else Get(records, id)
  {
    RetainKeeps(Pool(records, None, {}, {}), doomed);
    var kept := Without(records, doomed);
    var at := Position(kept, id);
    if at.Some? {
      WithoutTakesFrom(records, doomed, at.value);
      var i :| 0 <= i < |records| && records[i] == kept[at.value];
      SearchFinds(records, i);
    }
  }

  lemma {:induction false} WithoutTakesFrom(records: seq<ProxyInfo>, doomed: set<ProxyId>, k: nat)
    requires k < |Without(records, doomed)|
    ensures exists i :: 0 <= i < |records| && records[i] == Without(records, doomed)[k]
  {
    var n := |records| - 1;
    if k < |Without(records[..n], doomed)| {
      WithoutTakesFrom(records[..n], doomed, k);
    } else {
      assert records[n] == Without(records, doomed)[k];
    }
  }

  /** What a probe, a failure or a manual add may change, and nothing else does. */
  ghost predicate SameTrack(p: ProxyInfo, q: ProxyInfo) {
    && p.consecutiveFailures == q.consecutiveFailures && p.lastSuccess == q.lastSuccess && p.firstSeen == q.firstSeen
    && p.score == q.score
  }

  lemma {:induction false} MergeKeepsTrack(s: Pool, discovered: seq<ProxyInfo>, now: Time, id: ProxyId)
    requires WellFormed(s) && Has(s.records, id)
    ensures Has(Merge(s, discovered, now).records, id)
    ensures SameTrack(Get(Merge(s, discovered, now).records, id).value, Get(s.records, id).value)
  {
    if discovered != [] {
      var n := |discovered| - 1;
      MergeKeepsTrack(s, discovered[..n], now, id);
      MergeExtends(s, discovered[..n], now);
      var t, p := Merge(s, discovered[..n], now), discovered[n];
      var i := Position(t.records, p.id);
      if i.Some? {
        GetAfterUpdate(t.records, i.value, Refreshed(t.records[i.value], p), id);
      } else {
        GetAfterAppend(t.records, p.Discovered(now), id);
      }
    }
  }

  lemma {:induction false} RestoreKeepsTrack(s: Pool, saved: seq<ProxyInfo>, id: ProxyId)
    requires WellFormed(s) && Has(s.records, id)
    ensures Get(Restore(s, saved).records, id) == Get(s.records, id)
  {
    if saved != [] {
      var n := |saved| - 1;
      RestoreKeepsTrack(s, saved[..n], id);
      RestoreExtends(s, saved[..n]);
      var t := Restore(s, saved[..n]);
      if !Has(t.records, saved[n].id) {
        GetAfterAppend(t.records, saved[n], id);
      }
    }
  }

  /** One operation seen from one proxy that is in the pool before and after it. */
  lemma TrackAfter(cfg: Config, s: Pool, op: Op, id: ProxyId)
    requires WellFormed(s) && Has(s.records, id) && Has(Apply(cfg, s, op).records, id)
    ensures var p, q := Get(s.records, id).value, Get(Apply(cfg, s, op).records, id).value;
            if SuccessOf(op, id) then
              && q.consecutiveFailures == 0 && q.lastSuccess == Some(op.at) && q.firstSeen == p.firstSeen
              && q.score == ScoreFor(op.result.latency)
            else if AddOf(op, id) then
              q.consecutiveFailures == 0 && q.lastSuccess == None && q.firstSeen == op.at && q.score == 0.0
            else if FailureOf(op, id) then
              && q.consecutiveFailures == SaturatingSucc(p.consecutiveFailures)
              && q.lastSuccess == p.lastSuccess && q.firstSeen == p.firstSeen && q.score == p.score * 0.5
            else SameTrack(q, p)
  {
    hide Doomed, Without, Best, Merge, Restore, Position, ScoreFor;
    match op {
      case MergeOp(discovered, at) => MergeKeepsTrack(s, discovered, at, id);
      case RestoreOp(saved) => RestoreKeepsTrack(s, saved, id);
      case AddOp(p, at) =>
        var i := Position(s.records, p.id);
        if i.Some? {
          GetAfterUpdate(s.records, i.value, p.Discovered(at), id);
        } else {
          GetAfterAppend(s.records, p.Discovered(at), id);
        }
      case RemoveOp(gone) => GetAfterWithout(s.records, {gone}, id);
      case EnforceCapacityOp(max) => GetAfterWithout(s.records, Doomed(s.records, max), id);
      case EvictPendingOp => GetAfterWithout(s.records, s.pending, id);
      case ResultOp(r, policy, schedule, at) =>
        var i := Position(s.records, r.proxyId);
        if i.Some? {
          GetAfterUpdate(s.records, i.value, Probed(s.records[i.value], r, schedule, at), id);
        }
      case TrafficFailureOp(failed, at) =>
        var i := Position(s.records, failed);
        if i.Some? {
          GetAfterUpdate(s.records, i.value, Blamed(s.records[i.value], cfg.schedule, at), id);
        }
      case _ =>
    }
  }

  lemma {:induction false} RunLast(cfg: Config, s: Pool, ops: seq<Op>)
    requires ops != []
    ensures Run(cfg, s, ops) == Apply(cfg, Run(cfg, s, ops[..|ops| - 1]), ops[|ops| - 1])
    decreases |ops|
  {
    var n := |ops| - 1;
    if n > 0 {
      RunLast(cfg, Apply(cfg, s, ops[0]), ops[1..]);
      assert ops[1..][..n - 1] == ops[..n][1..];
    }
  }

  lemma RunNothing(cfg: Config, s: Pool)
    ensures Run(cfg, s, []) == s
  {
  }

  /** The proxy is in the pool at every moment of the run. */
  ghost predicate Stays(cfg: Config, s: Pool, ops: seq<Op>, id: ProxyId) {
    forall k :: 0 <= k <= |ops| ==> Has(Run(cfg, s, ops[..k]).records, id)
  }

  /**
   * The streak of a proxy is the number of its failures since it last worked, saturated at the
   * largest `u32`, and it counts as never having worked exactly when no probe confirmed it.
   */
  lemma {:induction false} StreakCountsFailures(cfg: Config, s: Pool, ops: seq<Op>, id: ProxyId)
    requires WellFormed(s) && Stays(cfg, s, ops, id)
    ensures Has(s.records, id) && Has(Run(cfg, s, ops).records, id)
    ensures var p, q := Get(s.records, id).value, Get(Run(cfg, s, ops).records, id).value;
            && q.consecutiveFailures
               == Min((if StartedOver(ops, id) then 0 else p.consecutiveFailures) + FailuresSince(ops, id), 0xFFFF_FFFF)
            && q.lastSuccess.Some? == HasWorked(ops, id, p.lastSuccess.Some?)
  {
    hide Run, Apply, UniqueIds, Position, ScoreFor;
    assert ops[..0] == [] && ops[..|ops|] == ops;
    RunNothing(cfg, s);
    if ops != [] {
      var n := |ops| - 1;
      var init := ops[..n];
      assert forall k :: 0 <= k <= n ==> init[..k] == ops[..k];
      StreakCountsFailures(cfg, s, init, id);
      RunLast(cfg, s, ops);
      PoolStaysWellFormed(cfg, s, init);
      TrackAfter(cfg, Run(cfg, s, init), ops[n], id);
      StartedOverLast(ops, id);
    }
  }

  lemma StartedOverLast(ops: seq<Op>, id: ProxyId)
    requires ops != []
    ensures var n := |ops| - 1;
            StartedOver(ops, id) <==> StartedOver(ops[..n], id) || SuccessOf(ops[n], id) || AddOf(ops[n], id)
  {
    var n := |ops| - 1;
    assert forall k :: 0 <= k < n ==> ops[k] == ops[..n][k];
  }

  // ----- backing off and decaying -----

  /** The schedule an operation goes by: a probe result brings its own, a failure in traffic uses the pool's. */
  function ScheduleOf(cfg: Config, op: Op): ProbeSchedule {
    if op.ResultOp? then op.schedule else cfg.schedule
  }

  /** What one failure makes of the record it is about. */
  lemma FailureMarks(cfg: Config, s: Pool, op: Op, id: ProxyId)
    requires WellFormed(s) && Has(s.records, id) && FailureOf(op, id)
    ensures Has(Apply(cfg, s, op).records, id)
    ensures var p, q := Get(s.records, id).value, Get(Apply(cfg, s, op).records, id).value;
            var list := ScheduleOf(cfg, op).failedBackoffSecs;
            var k := Min(p.consecutiveFailures + 1, 0xFFFF_FFFF);
            && q.score + q.score == p.score && q.lastChecked == Some(op.at)
            && q.nextProbeAt == op.at + (if list == [] then 3600 else list[Min(k, |list|) - 1]) * 1_000_000_000
  {
    hide Position, UniqueIds;
    var i := Position(s.records, id).value;
    GetAfterUpdate(s.records, i, Blamed(s.records[i], ScheduleOf(cfg, op), op.at), id);
  }

  /** The streak it came with counts until it works or is added by hand. */
  function StreakBrought(s: Pool, ops: seq<Op>, id: ProxyId): nat
    requires Has(s.records, id)
  {
    if StartedOver(ops, id) then 0 else Get(s.records, id).value.consecutiveFailures
  }

  /**
   * Over any run: after the k-th failure since the proxy last worked or was added, its next probe is put
   * off by the k-th entry of the backoff list, the last entry serving every further failure and an hour an
   * empty list, and its score is half of what it was.
   */
  lemma BackoffFollowsTheStreak(cfg: Config, s: Pool, ops: seq<Op>, id: ProxyId)
    requires WellFormed(s) && Stays(cfg, s, ops, id) && ops != [] && FailureOf(ops[|ops| - 1], id)
    ensures Has(s.records, id) && Has(Run(cfg, s, ops).records, id) && Has(Run(cfg, s, ops[..|ops| - 1]).records, id)
    ensures var last := ops[|ops| - 1];
            var p, q := Get(Run(cfg, s, ops[..|ops| - 1]).records, id).value, Get(Run(cfg, s, ops).records, id).value;
            var k := Min(StreakBrought(s, ops, id) + FailuresSince(ops, id), 0xFFFF_FFFF);
            var list := ScheduleOf(cfg, last).failedBackoffSecs;
            && k >= 1 && q.consecutiveFailures == k && q.score + q.score == p.score
            && q.nextProbeAt == last.at + (if list == [] then 3600 else list[Min(k, |list|) - 1]) * 1_000_000_000
  {
    hide Run, Apply, UniqueIds, Position;
    var n := |ops| - 1;
    var init := ops[..n];
    assert ops[..0] == [] && ops[..|ops|] == ops && Run(cfg, s, []) == s by {
      RunNothing(cfg, s);
    }
    assert forall k :: 0 <= k <= n ==> init[..k] == ops[..k];
    assert init[..n] == init;
    StreakCountsFailures(cfg, s, init, id);
    StreakCountsFailures(cfg, s, ops, id);
    RunLast(cfg, s, ops);
    PoolStaysWellFormed(cfg, s, init);
    StartedOverLast(ops, id);
    FailureMarks(cfg, Run(cfg, s, init), ops[n], id);
  }

  /** A score halved so many times. */
  function Halved(score: real, times: nat): real {
    if times == 0 then score else Halved(score, times - 1) * 0.5
  }

  /** What the proxy last started over with: the score of its latency, or none. */
  function FullScore(ops: seq<Op>, id: ProxyId, before: real): real {
    if ops == [] then before
    else
      var n := |ops| - 1;
      if SuccessOf(ops[n], id) then ScoreFor(ops[n].result.latency)
      else if AddOf(ops[n], id) then 0.0
      else FullScore(ops[..n], id, before)
  }

  /** Over any run, the score is what the last success measured, halved once for every failure since. */
  lemma {:induction false} ScoreDecays(cfg: Config, s: Pool, ops: seq<Op>, id: ProxyId)
    requires WellFormed(s) && Stays(cfg, s, ops, id)
    ensures Has(s.records, id) && Has(Run(cfg, s, ops).records, id)
    ensures Get(Run(cfg, s, ops).records, id).value.score
            == Halved(FullScore(ops, id, Get(s.records, id).value.score), FailuresSince(ops, id))
  {
    hide Run, Apply, UniqueIds, Position, ScoreFor;
    assert ops[..0] == [] && ops[..|ops|] == ops;
    RunNothing(cfg, s);
    if ops != [] {
      var n := |ops| - 1;
      var init := ops[..n];
      assert forall k :: 0 <= k <= n ==> init[..k] == ops[..k];
      ScoreDecays(cfg, s, init, id);
      RunLast(cfg, s, ops);
      PoolStaysWellFormed(cfg, s, init);
      TrackAfter(cfg, Run(cfg, s, init), ops[n], id);
    }
  }

  /** A measured score is a thousand over the milliseconds, at most a hundred; a latency of zero is worth nothing. */
  lemma ScoreOfLatency(latency: nat)
    ensures latency == 0 ==> ScoreFor(latency) == 0.0
    ensures 0 < latency <= 10 ==> ScoreFor(latency) == 100.0
    ensures latency >= 10 ==> ScoreFor(latency) * (latency as real) == 1000.0
    ensures ScoreFor(100) == 10.0 && ScoreFor(1000) == 1.0 && ScoreFor(5000) == 0.2
  {
    if 0 < latency {
      var x := 1000.0 / (latency as real);
      assert x * (latency as real) == 1000.0;
      assert (x - 100.0) * (latency as real) == 1000.0 - 100.0 * (latency as real);
    }
  }

  /** The age of an unverified proxy is the whole seconds between then and now, whichever way the clock went. */
  lemma AgeIsMeasured(p: ProxyInfo, now: Time)
    ensures var d, age := if now >= p.firstSeen then now - p.firstSeen else p.firstSeen - now, AgeSeconds(p, now);
            age * 1_000_000_000 <= d < (age + 1) * 1_000_000_000
  {
  }

  /** What a result that is no failure makes of its record: all of it, or the times of its probes alone. */
  lemma ResultMarks(cfg: Config, s: Pool, op: Op, id: ProxyId)
    requires WellFormed(s) && Has(s.records, id) && op.ResultOp? && op.result.proxyId == id
    ensures Has(Apply(cfg, s, op).records, id)
    ensures var p, q, r := Get(s.records, id).value, Get(Apply(cfg, s, op).records, id).value, op.result;
            && (r.verdict.Working? ==>
                  && q.IsWorking() && q.latency == Some(r.latency) && q.score == ScoreFor(r.latency)
                  && q.supportsTunnel == r.tunneled && q.lastSuccess == q.lastChecked == Some(op.at)
                  && (r.exitIp.Some? ==> q.exitIp == r.exitIp) && (r.exitIp.None? ==> q.exitIp == p.exitIp)
                  && (r.anonymity.Some? ==> q.anonymity == r.anonymity.value)
                  && (r.anonymity.None? ==> q.anonymity == p.anonymity)
                  && q.nextProbeAt == op.at + op.schedule.workingIntervalSecs * 1_000_000_000)
            && (r.verdict.Inconclusive? ==>
                  && q.(lastChecked := p.lastChecked, nextProbeAt := p.nextProbeAt) == p && q.lastChecked == Some(op.at)
                  && q.nextProbeAt == op.at + op.schedule.inconclusiveBackoffSecs * 1_000_000_000)
  {
    hide Position, UniqueIds, ScoreFor;
    var i := Position(s.records, id).value;
    GetAfterUpdate(s.records, i, Probed(s.records[i], op.result, op.schedule, op.at), id);
  }

  // ----- who becomes pending -----

  /** The failure at step `k` meets the streak limit, or the age limit of a proxy that never worked. */
  ghost predicate CondemnedAt(cfg: Config, s: Pool, ops: seq<Op>, id: ProxyId, k: nat)
    requires k < |ops|
  {
    var before := Run(cfg, s, ops[..k]);
    && ops[k].ResultOp? && ops[k].result.proxyId == id && Has(before.records, id)
    && Condemns(Get(before.records, id).value, ops[k].result, ops[k].policy, ops[k].at)
  }

  lemma PendingAfter(cfg: Config, s: Pool, op: Op, id: ProxyId)
    requires !op.EvictPendingOp?
    ensures id in Apply(cfg, s, op).pending
            <==> id in s.pending || CondemnedAt(cfg, s, [op], id, 0)
  {
    assert Run(cfg, s, [op][..0]) == s;
    match op {
      case MergeOp(discovered, at) => MergeKeepsPending(s, discovered, at);
      case RestoreOp(saved) => RestoreKeepsPending(s, saved);
      case _ =>
    }
  }

  lemma {:induction false} MergeKeepsPending(s: Pool, discovered: seq<ProxyInfo>, now: Time)
    ensures Merge(s, discovered, now).pending == s.pending
  {
    if discovered != [] {
      MergeKeepsPending(s, discovered[..|discovered| - 1], now);
    }
  }

  lemma {:induction false} RestoreKeepsPending(s: Pool, saved: seq<ProxyInfo>)
    ensures Restore(s, saved).pending == s.pending
  {
    if saved != [] {
      RestoreKeepsPending(s, saved[..|saved| - 1]);
    }
  }

  /**
   * Between two sweeps, the ids waiting for eviction are exactly those some failed probe condemned:
   * nothing else condemns, and nothing takes a condemnation back, not even a later success.
   */
  lemma {:induction false} PendingIsWhoWasCondemned(cfg: Config, s: Pool, ops: seq<Op>, id: ProxyId)
    requires forall k :: 0 <= k < |ops| ==> !ops[k].EvictPendingOp?
    ensures id in Run(cfg, s, ops).pending
            <==> id in s.pending || exists k :: 0 <= k < |ops| && CondemnedAt(cfg, s, ops, id, k)
  {
    if ops != [] {
      var n := |ops| - 1;
      var init := ops[..n];
      PendingIsWhoWasCondemned(cfg, s, init, id);
      RunLast(cfg, s, ops);
      var before := Run(cfg, s, init);
      PendingAfter(cfg, before, ops[n], id);
      assert Run(cfg, before, [ops[n]][..0]) == before;
      assert CondemnedAt(cfg, before, [ops[n]], id, 0) <==> CondemnedAt(cfg, s, ops, id, n);
      forall k | 0 <= k < n ensures CondemnedAt(cfg, s, init, id, k) <==> CondemnedAt(cfg, s, ops, id, k) {
        assert init[..k] == ops[..k];
      }
    }
  }

  /** So a proxy that came back working after the failure that condemned it is swept out all the same. */
  lemma LaterSuccessIsStillEvicted(cfg: Config, p: ProxyInfo, failure: HealthResult, success: HealthResult,
                                   policy: EvictionPolicy, schedule: ProbeSchedule, at: Time, later: Time)
    requires failure.proxyId == p.id == success.proxyId && success.verdict.Working?
    requires Condemns(p, failure, policy, at)
    ensures var s := Pool([p], None, {}, {});
            var t := ApplyResult(ApplyResult(s, failure, policy, schedule, at), success, policy, schedule, later);
            && Get(t.records, p.id).Some? && Get(t.records, p.id).value.IsWorking()
            && EvictPending(t) == Pool([], None, {}, {p.id})
  {
    var s := Pool([p], None, {}, {});
    assert Position(s.records, p.id) == Some(0);
    var failed := Probed(p, failure, schedule, at);
    var u := ApplyResult(s, failure, policy, schedule, at);
    assert u == Pool([failed], None, {p.id}, {}) && Position(u.records, p.id) == Some(0);
    var working := Probed(failed, success, schedule, later);
    var t := ApplyResult(u, success, policy, schedule, later);
    assert t == Pool([working], None, {p.id}, {}) && Position(t.records, p.id) == Some(0);
    assert [working][..0] == [];
    assert Without([working], {p.id}) == [];
  }

  /**
   * When a failed probe condemns, in terms of the run: the failures since the proxy last worked have
   * reached the limit, those it came with included, or it never worked and is old enough.
   */
  lemma CondemnationIsCounted(cfg: Config, s: Pool, ops: seq<Op>, id: ProxyId, r: HealthResult,
                              policy: EvictionPolicy, schedule: ProbeSchedule, now: Time)
    requires WellFormed(s) && Stays(cfg, s, ops, id) && Has(s.records, id)
    requires r.proxyId == id && r.verdict.Failed?
    ensures Has(Run(cfg, s, ops).records, id)
    ensures var q := Get(Run(cfg, s, ops).records, id).value;
            Condemns(q, r, policy, now)
            <==> (if StartedOver(ops, id) then 0 else Get(s.records, id).value.consecutiveFailures)
                 + FailuresSince(ops + [ResultOp(r, policy, schedule, now)], id) >= policy.maxConsecutiveFailures
                 || (!HasWorked(ops, id, Get(s.records, id).value.lastSuccess.Some?)
                     && AgeSeconds(q, now) >= policy.unverifiedTtlSecs)
  {
    hide Run, Position, UniqueIds, Stays;
    StreakCountsFailures(cfg, s, ops, id);
    var longer := ops + [ResultOp(r, policy, schedule, now)];
    assert longer[..|longer| - 1] == ops;
  }
}
