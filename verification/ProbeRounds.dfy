/** The round loop of a probe batch: what is handed out, when it stops, and what it never probes twice. */
module ProbeRounds {
  import opened Common
  import opened Proxies
  import opened PoolSpec
  import opened PoolRuns
  import opened ProxyPools

  /** A probe result and the instant it was folded into the pool. */
  datatype Stamped = Stamped(result: HealthResult, at: Time)

  /** One pass of the loop: when the pool was asked for work, and the results in their order of arrival. */
  datatype Round = Round(askedAt: Time, results: seq<Stamped>)

  datatype Setup = Setup(max: nat, deadline: Time, policy: EvictionPolicy, schedule: ProbeSchedule)

  datatype CheckCounts = CheckCounts(working: nat, failed: nat, inconclusive: nat)

  function Total(c: CheckCounts): nat {
    c.working + c.failed + c.inconclusive
  }

  /** How many of the results have this verdict. */
  function Tally(results: seq<Stamped>, verdict: Verdict): nat {
    if results == [] then 0
    else
      var n := |results| - 1;
      Tally(results[..n], verdict) + if results[n].result.verdict == verdict then 1 else 0
  }

  lemma {:induction false} TalliesAddUp(results: seq<Stamped>)
    ensures Tally(results, Working) + Tally(results, Failed) + Tally(results, Inconclusive) == |results|
  {
    if results != [] {
      TalliesAddUp(results[..|results| - 1]);
    }
  }

  function ApplyResults(s: Pool, results: seq<Stamped>, setup: Setup): Pool {
    if results == [] then s
    else
      var n := |results| - 1;
      ApplyResult(ApplyResults(s, results[..n], setup), results[n].result, setup.policy, setup.schedule, results[n].at)
  }

  function ResultIds(results: seq<Stamped>): (ids: seq<ProxyId>)
    ensures |ids| == |results|
  {
    seq(|results|, i requires 0 <= i < |results| => results[i].result.proxyId)
  }

  /** The batch stops before this round: the deadline has passed, or nothing is due. */
  predicate Stops(s: Pool, r: Round, setup: Setup) {
    r.askedAt >= setup.deadline || DueBatch(s.records, r.askedAt, setup.max) == []
  }

  /** The pool when the rounds are over. */
  function AfterRounds(s: Pool, rounds: seq<Round>, setup: Setup): Pool
    decreases |rounds|
  {
    if rounds == [] || Stops(s, rounds[0], setup) then s
    else AfterRounds(ApplyResults(s, rounds[0].results, setup), rounds[1..], setup)
  }

  /** The ids each round handed out to be probed. */
  function HandedOut(s: Pool, rounds: seq<Round>, setup: Setup): seq<seq<ProxyId>>
    decreases |rounds|
  {
    if rounds == [] || Stops(s, rounds[0], setup) then []
    else
      [IdList(DueBatch(s.records, rounds[0].askedAt, setup.max))]
      + HandedOut(ApplyResults(s, rounds[0].results, setup), rounds[1..], setup)
  }

  function Concat(batches: seq<seq<ProxyId>>): seq<ProxyId> {
    if batches == [] then [] else batches[0] + Concat(batches[1..])
  }

  /** Every proxy of the batch comes back with one result, in whatever order. */
  ghost predicate OneEach(batch: seq<ProxyInfo>, results: seq<Stamped>) {
    Distinct(ResultIds(results)) && forall id :: id in ResultIds(results) <==> id in IdList(batch)
  }

  ghost predicate Answered(s: Pool, rounds: seq<Round>, setup: Setup)
    decreases |rounds|
  {
    rounds == [] || Stops(s, rounds[0], setup)
    || (OneEach(DueBatch(s.records, rounds[0].askedAt, setup.max), rounds[0].results)
        && Answered(ApplyResults(s, rounds[0].results, setup), rounds[1..], setup))
  }

  // ----- the loop -----

  predicate FirstConclusive(answers: seq<HealthResult>, k: nat) {
    && k < |answers| && !answers[k].verdict.Inconclusive?
    && forall i :: 0 <= i < k ==> answers[i].verdict.Inconclusive?
  }

  /**
   * One proxy against the targets in their order, until one of them settles it: the first conclusive
   * result, or the last inconclusive one, or an inconclusive one of its own when nothing was tried.
   */
  method ProbeTargets(proxyId: ProxyId, answers: seq<HealthResult>, maxTargets: nat) returns (r: HealthResult)
    requires forall i :: 0 <= i < |answers| ==> answers[i].proxyId == proxyId
    ensures r.proxyId == proxyId
    ensures r.verdict.Inconclusive?
            <==> forall i :: 0 <= i < Min(|answers|, maxTargets) ==> answers[i].verdict.Inconclusive?
    ensures forall k: nat :: FirstConclusive(answers, k) && k < maxTargets ==> r == answers[k]
    ensures r.verdict.Inconclusive? ==>
              var tried := Min(|answers|, maxTargets);
              r == if tried > 0 then answers[tried - 1] else HealthResult(proxyId, Inconclusive, 0, false, None, None)
  {
    var inconclusive: Option<HealthResult> := None;
    for k := 0 to Min(|answers|, maxTargets)
      invariant forall i :: 0 <= i < k ==> answers[i].verdict.Inconclusive?
      invariant inconclusive == if k == 0 then None else Some(answers[k - 1])
    {
      if !answers[k].verdict.Inconclusive? {
        return answers[k];
      }
      inconclusive := Some(answers[k]);
    }
    r := if inconclusive.Some? then inconclusive.value
         else HealthResult(proxyId, Inconclusive, 0, false, None, None);
  }

  /** Fold the results of one round in, and count them. */
  method CheckBatch(pool: ProxyPool, results: seq<Stamped>, setup: Setup) returns (counts: CheckCounts)
    requires pool.Valid()
    modifies pool
    ensures pool.Valid() && pool.View() == ApplyResults(old(pool.View()), results, setup)
    ensures counts.working == Tally(results, Working) && counts.failed == Tally(results, Failed)
    ensures counts.inconclusive == Tally(results, Inconclusive) && Total(counts) == |results|
  {
    counts := CheckCounts(0, 0, 0);
    for k := 0 to |results|
      invariant pool.Valid() && pool.View() == ApplyResults(old(pool.View()), results[..k], setup)
      invariant counts.working == Tally(results[..k], Working) && counts.failed == Tally(results[..k], Failed)
      invariant counts.inconclusive == Tally(results[..k], Inconclusive)
    {
      assert results[..k + 1][..k] == results[..k];
      match results[k].result.verdict {
        case Working => counts := counts.(working := counts.working + 1);
        case Failed => counts := counts.(failed := counts.failed + 1);
        case Inconclusive => counts := counts.(inconclusive := counts.inconclusive + 1);
      }
      var evicted := pool.ApplyHealthResult(results[k].result, setup.policy, setup.schedule, results[k].at);
    }
    assert results[..|results|] == results;
    TalliesAddUp(results);
  }

  /** The results of all the rounds the batch runs. */
  function ResultsOf(s: Pool, rounds: seq<Round>, setup: Setup): seq<Stamped>
    decreases |rounds|
  {
    if rounds == [] || Stops(s, rounds[0], setup) then []
    else rounds[0].results + ResultsOf(ApplyResults(s, rounds[0].results, setup), rounds[1..], setup)
  }

  /** When every proxy handed out comes back with one result, there are as many as were handed out. */
  lemma {:induction false} AnsweredIsAsMany(s: Pool, rounds: seq<Round>, setup: Setup)
    requires WellFormed(s)
    ensures Answered(s, rounds, setup) ==>
              |ResultsOf(s, rounds, setup)| == |Concat(HandedOut(s, rounds, setup))|
    decreases |rounds|
  {
    hide Due, DueBatch, ApplyResults;
    if Answered(s, rounds, setup) && rounds != [] && !Stops(s, rounds[0], setup) {
      var batch := DueBatch(s.records, rounds[0].askedAt, setup.max);
      var t := ApplyResults(s, rounds[0].results, setup);
      DueIsDistinct(s.records, rounds[0].askedAt);
      OneEachIsAsMany(batch, rounds[0].results);
      ResultsActRecordwise(s, rounds[0].results, setup);
      AnsweredIsAsMany(t, rounds[1..], setup);
      ConcatCons(IdList(batch), HandedOut(t, rounds[1..], setup));
    }
  }

  /** How far a batch has come after `k` rounds: what is behind it and what is ahead make up the whole. */
  ghost predicate Underway(before: Pool, now: Pool, rounds: seq<Round>, k: nat, setup: Setup,
                           handedOut: seq<seq<ProxyId>>, checked: nat)
    requires k <= |rounds|
  {
    && AfterRounds(before, rounds, setup) == AfterRounds(now, rounds[k..], setup)
    && HandedOut(before, rounds, setup) == handedOut + HandedOut(now, rounds[k..], setup)
    && |ResultsOf(before, rounds, setup)| == checked + |ResultsOf(now, rounds[k..], setup)|
  }

  lemma RoundStep(before: Pool, now: Pool, rounds: seq<Round>, k: nat, setup: Setup,
                  handedOut: seq<seq<ProxyId>>, checked: nat, batch: seq<ProxyInfo>)
    requires k < |rounds| && !Stops(now, rounds[k], setup)
    requires batch == DueBatch(now.records, rounds[k].askedAt, setup.max)
    requires Underway(before, now, rounds, k, setup, handedOut, checked)
    ensures Underway(before, ApplyResults(now, rounds[k].results, setup), rounds, k + 1, setup,
                     handedOut + [IdList(batch)], checked + |rounds[k].results|)
  {
    assert rounds[k..][0] == rounds[k] && rounds[k..][1..] == rounds[k + 1..];
    var rest := HandedOut(ApplyResults(now, rounds[k].results, setup), rounds[k + 1..], setup);
    assert handedOut + ([IdList(batch)] + rest) == (handedOut + [IdList(batch)]) + rest;
  }

  lemma BatchStarts(before: Pool, rounds: seq<Round>, setup: Setup)
    ensures Underway(before, before, rounds, 0, setup, [], 0)
  {
    assert rounds[0..] == rounds;
    assert [] + HandedOut(before, rounds, setup) == HandedOut(before, rounds, setup);
  }

  lemma RoundsEnd(before: Pool, now: Pool, rounds: seq<Round>, k: nat, setup: Setup,
                  handedOut: seq<seq<ProxyId>>, checked: nat)
    requires k <= |rounds| && (k < |rounds| ==> Stops(now, rounds[k], setup))
    requires Underway(before, now, rounds, k, setup, handedOut, checked)
    ensures AfterRounds(before, rounds, setup) == now && HandedOut(before, rounds, setup) == handedOut
    ensures checked == |ResultsOf(before, rounds, setup)|
  {
  }

  /**
   * The whole batch: rounds until the deadline or until nothing is due, and one sweep at the end. A round
   * has whatever results come in: none at all when no probe target is configured.
   */
  method ProbeBatch(pool: ProxyPool, rounds: seq<Round>, setup: Setup)
    returns (handedOut: seq<seq<ProxyId>>, checked: nat, evicted: nat)
    requires pool.Valid()
    modifies pool
    ensures pool.Valid()
    ensures pool.View() == EvictPending(AfterRounds(old(pool.View()), rounds, setup))
    ensures handedOut == HandedOut(old(pool.View()), rounds, setup)
    ensures checked == |ResultsOf(old(pool.View()), rounds, setup)|
    ensures Answered(old(pool.View()), rounds, setup) ==> checked == |Concat(handedOut)|
    ensures evicted == |AfterRounds(old(pool.View()), rounds, setup).pending|
  {
    hide Underway, Answered, HandedOut, AfterRounds, ResultsOf, Concat, DueBatch, ApplyResults, EvictPending;
    handedOut, checked := [], 0;
    ValidIsWellFormed(pool);
    var k := 0;
    ghost var before := pool.View();
    ghost var now := before;
    BatchStarts(before, rounds, setup);
    while k < |rounds|
      invariant k <= |rounds| && pool.Valid() && now == pool.View()
      invariant Underway(before, now, rounds, k, setup, handedOut, checked)
    {
      var batch := DueBatch(pool.proxies, rounds[k].askedAt, setup.max);
      if rounds[k].askedAt >= setup.deadline || batch == [] {
        break;
      }
      RoundStep(before, now, rounds, k, setup, handedOut, checked, batch);
      var counts := CheckBatch(pool, rounds[k].results, setup);
      now := ApplyResults(now, rounds[k].results, setup);
      handedOut := handedOut + [IdList(batch)];
      checked := checked + Total(counts);
      k := k + 1;
    }
    RoundsEnd(before, now, rounds, k, setup, handedOut, checked);
    AnsweredIsAsMany(before, rounds, setup);
    evicted := pool.EvictPending();
  }

  lemma OneEachIsAsMany(batch: seq<ProxyInfo>, results: seq<Stamped>)
    requires OneEach(batch, results) && Distinct(IdList(batch))
    ensures |results| == |batch|
  {
    DistinctCardinality(ResultIds(results));
    DistinctCardinality(IdList(batch));
    assert (set x | x in ResultIds(results)) == (set x | x in IdList(batch));
  }

  // ----- the due list -----

  lemma {:induction false} DueMembers(records: seq<ProxyInfo>, now: Time, p: ProxyInfo)
    ensures p in Due(records, now) <==> p in records && p.nextProbeAt <= now
  {
    if records != [] {
      var n := |records| - 1;
      DueMembers(records[..n], now, p);
      assert records == records[..n] + [records[n]];
    }
  }

  lemma {:induction false} DueIsDistinct(records: seq<ProxyInfo>, now: Time)
    requires UniqueIds(records)
    ensures Distinct(IdList(Due(records, now)))
    ensures forall max: nat :: Distinct(IdList(DueBatch(records, now, max)))
  {
    if records != [] {
      var n := |records| - 1;
      DueIsDistinct(records[..n], now);
      var due := Due(records[..n], now);
      forall i | 0 <= i < |due| ensures due[i].id != records[n].id {
        DueMembers(records[..n], now, due[i]);
      }
      assert IdList(Due(records, now))
             == IdList(due) + if records[n].nextProbeAt <= now then [records[n].id] else [];
    }
    forall max: nat ensures Distinct(IdList(DueBatch(records, now, max))) {
      var ids, batch := IdList(Due(records, now)), IdList(DueBatch(records, now, max));
      assert forall i :: 0 <= i < |batch| ==> batch[i] == ids[i];
    }
  }

  // ----- one round, record by record -----

  /** What the results do to one record. */
  function After(p: ProxyInfo, results: seq<Stamped>, setup: Setup): (q: ProxyInfo)
    ensures q.id == p.id
  {
    if results == [] then p
    else
      var n := |results| - 1;
      var q := After(p, results[..n], setup);
      if results[n].result.proxyId == p.id then Probed(q, results[n].result, setup.schedule, results[n].at) else q
  }

  /** The results touch every record on its own, and move none. */
  lemma {:induction false} ResultsActRecordwise(s: Pool, results: seq<Stamped>, setup: Setup)
    requires WellFormed(s)
    ensures WellFormed(ApplyResults(s, results, setup))
    ensures |ApplyResults(s, results, setup).records| == |s.records|
    ensures forall i :: 0 <= i < |s.records| ==>
              ApplyResults(s, results, setup).records[i] == After(s.records[i], results, setup)
  {
    if results != [] {
      var n := |results| - 1;
      ResultsActRecordwise(s, results[..n], setup);
      var t, r := ApplyResults(s, results[..n], setup), results[n];
      var at := Position(t.records, r.result.proxyId);
      if at.Some? {
        UpdateExtends(t, at.value, Probed(t.records[at.value], r.result, setup.schedule, r.at));
      }
      forall i | 0 <= i < |s.records|
        ensures ApplyResults(s, results, setup).records[i] == After(s.records[i], results, setup)
      {
        SearchFinds(t.records, i);
      }
    }
  }

  lemma {:induction false} AfterUntouched(p: ProxyInfo, results: seq<Stamped>, setup: Setup)
    requires p.id !in ResultIds(results)
    ensures After(p, results, setup) == p
  {
    if results != [] {
      var n := |results| - 1;
      assert ResultIds(results)[n] == results[n].result.proxyId;
      assert forall i :: 0 <= i < n ==> ResultIds(results[..n])[i] == ResultIds(results)[i];
      AfterUntouched(p, results[..n], setup);
    }
  }

  /** How long a verdict puts the next probe off; the streak is the one before the result. */
  function WaitSeconds(p: ProxyInfo, verdict: Verdict, schedule: ProbeSchedule): nat {
    match verdict
    case Working => schedule.workingIntervalSecs
    case Inconclusive => schedule.inconclusiveBackoffSecs
    case Failed => schedule.FailedBackoff(SaturatingSucc(p.consecutiveFailures))
  }

  lemma {:induction false} AfterItsResult(p: ProxyInfo, results: seq<Stamped>, setup: Setup, k: nat)
    requires Distinct(ResultIds(results)) && k < |results| && results[k].result.proxyId == p.id
    ensures After(p, results, setup) == Probed(p, results[k].result, setup.schedule, results[k].at)
    ensures After(p, results, setup).nextProbeAt
            == results[k].at + WaitSeconds(p, results[k].result.verdict, setup.schedule) * SECOND
  {
    var n := |results| - 1;
    var ids := ResultIds(results);
    assert forall i :: 0 <= i < n ==> ResultIds(results[..n])[i] == ids[i];
    if k == n {
      assert ids[n] == p.id;
      AfterUntouched(p, results[..n], setup);
    } else {
      AfterItsResult(p, results[..n], setup, k);
      assert ids[k] != ids[n];
    }
  }

  // ----- the due clock held -----

  lemma WaitIsPositive(p: ProxyInfo, verdict: Verdict, schedule: ProbeSchedule)
    requires PositiveWaits(schedule)
    ensures WaitSeconds(p, verdict, schedule) > 0
  {
  }

  ghost predicate PositiveWaits(schedule: ProbeSchedule) {
    && schedule.workingIntervalSecs > 0 && schedule.inconclusiveBackoffSecs > 0
    && forall i :: 0 <= i < |schedule.failedBackoffSecs| ==> schedule.failedBackoffSecs[i] > 0
  }

  /** All of the batch happens at one instant. */
  ghost predicate HeldAt(rounds: seq<Round>, now: Time) {
    forall i :: 0 <= i < |rounds| ==>
      rounds[i].askedAt == now && forall k :: 0 <= k < |rounds[i].results| ==> rounds[i].results[k].at == now
  }

  lemma {:induction false} DueLessThoseProbed(records: seq<ProxyInfo>, changed: seq<ProxyInfo>, now: Time,
                                               probed: set<ProxyId>)
    requires |changed| == |records|
    requires forall i :: 0 <= i < |records| ==>
               changed[i].id == records[i].id
               && (changed[i].nextProbeAt <= now <==> records[i].nextProbeAt <= now && records[i].id !in probed)
    ensures IdList(Due(changed, now)) == DropIds(IdList(Due(records, now)), probed)
  {
    if records != [] {
      var n := |records| - 1;
      DueLessThoseProbed(records[..n], changed[..n], now, probed);
      var d, e := Due(records[..n], now), Due(changed[..n], now);
      assert IdList(Due(changed, now)) == IdList(e) + if changed[n].nextProbeAt <= now then [records[n].id] else [];
      if records[n].nextProbeAt <= now {
        assert IdList(Due(records, now)) == IdList(d) + [records[n].id];
        assert IdList(Due(records, now))[..|d|] == IdList(d);
      } else {
        assert Due(records, now) == d;
      }
    }
  }

  lemma {:induction false} DropPrefix(ids: seq<ProxyId>, m: nat)
    requires Distinct(ids) && m <= |ids|
    ensures DropIds(ids, set x | x in ids[..m]) == ids[m..]
    decreases |ids|
  {
    var gone := set x | x in ids[..m];
    if |ids| > m {
      var n := |ids| - 1;
      DropPrefix(ids[..n], m);
      assert ids[..n][..m] == ids[..m];
      assert ids[n] !in gone;
      assert ids[m..] == ids[m..n] + [ids[n]];
    } else {
      assert ids[..m] == ids && ids[m..] == [];
      DropAll(ids, gone);
    }
  }

  lemma {:induction false} DropAll(ids: seq<ProxyId>, gone: set<ProxyId>)
    requires forall i :: 0 <= i < |ids| ==> ids[i] in gone
    ensures DropIds(ids, gone) == []
  {
    if ids != [] {
      DropAll(ids[..|ids| - 1], gone);
    }
  }

  /** One round at a held clock takes its batch off the front of the due list and leaves the rest. */
  lemma RoundShortensDue(s: Pool, r: Round, setup: Setup, now: Time)
    requires WellFormed(s) && PositiveWaits(setup.schedule) && HeldAt([r], now)
    requires OneEach(DueBatch(s.records, now, setup.max), r.results)
    ensures IdList(Due(ApplyResults(s, r.results, setup).records, now))
            == IdList(Due(s.records, now))[|DueBatch(s.records, now, setup.max)|..]
  {
    hide Due, WaitSeconds, PositiveWaits, ApplyResults;
    var due, batch := Due(s.records, now), DueBatch(s.records, now, setup.max);
    var changed := ApplyResults(s, r.results, setup).records;
    var probed := set x | x in IdList(batch);
    ResultsActRecordwise(s, r.results, setup);
    assert HeldAt([r], now) && [r][0] == r;
    forall i | 0 <= i < |s.records|
      ensures changed[i].nextProbeAt <= now <==> s.records[i].nextProbeAt <= now && s.records[i].id !in probed
    {
      var p := s.records[i];
      if p.id in ResultIds(r.results) {
        var k :| 0 <= k < |r.results| && ResultIds(r.results)[k] == p.id;
        AfterItsResult(p, r.results, setup, k);
        WaitIsPositive(p, r.results[k].result.verdict, setup.schedule);
      } else {
        AfterUntouched(p, r.results, setup);
      }
    }
    DueLessThoseProbed(s.records, changed, now, probed);
    DueIsDistinct(s.records, now);
    assert IdList(batch) == IdList(due)[..|batch|];
    DropPrefix(IdList(due), |batch|);
  }

  /** How many batches of at most `max` it takes to hand out `due` proxies. */
  function RoundsFor(due: nat, max: nat): nat
    requires max > 0
  {
    if due == 0 then 0 else 1 + RoundsFor(if due <= max then 0 else due - max, max)
  }

  /** That is `due / max` rounded up. */
  lemma {:induction false} RoundsForIsCeiling(due: nat, max: nat)
    requires max > 0
    ensures due <= RoundsFor(due, max) * max < due + max
  {
    if due > max {
      RoundsForIsCeiling(due - max, max);
      var k := RoundsFor(due - max, max);
      assert (1 + k) * max == max + k * max;
    } else if due > 0 {
      assert RoundsFor(due, max) == 1;
    }
  }

  lemma NothingDue(s: Pool, rounds: seq<Round>, setup: Setup, now: Time)
    requires HeldAt(rounds, now) && Due(s.records, now) == []
    ensures HandedOut(s, rounds, setup) == [] && Concat([]) == [] && AfterRounds(s, rounds, setup) == s
  {
    assert rounds == [] || Stops(s, rounds[0], setup);
  }

  lemma FirstRound(s: Pool, rounds: seq<Round>, setup: Setup)
    requires rounds != [] && !Stops(s, rounds[0], setup) && Answered(s, rounds, setup)
    ensures var t := ApplyResults(s, rounds[0].results, setup);
            && OneEach(DueBatch(s.records, rounds[0].askedAt, setup.max), rounds[0].results)
            && Answered(t, rounds[1..], setup)
            && AfterRounds(s, rounds, setup) == AfterRounds(t, rounds[1..], setup)
            && HandedOut(s, rounds, setup)
               == [IdList(DueBatch(s.records, rounds[0].askedAt, setup.max))] + HandedOut(t, rounds[1..], setup)
  {
  }

  /**
   * With the clock held and positive waits, the rounds hand out the due list from front to back, so
   * each due proxy is probed exactly once and nothing else is, and they stop after as many rounds
   * as batches of the maximal size are needed.
   */
  lemma {:induction false} HeldClockProbesEachDueOnce(s: Pool, rounds: seq<Round>, setup: Setup, now: Time)
    requires WellFormed(s) && PositiveWaits(setup.schedule) && setup.max > 0 && now < setup.deadline
    requires HeldAt(rounds, now) && Answered(s, rounds, setup)
    requires |rounds| >= RoundsFor(|Due(s.records, now)|, setup.max)
    ensures Concat(HandedOut(s, rounds, setup)) == IdList(Due(s.records, now))
    ensures |HandedOut(s, rounds, setup)| == RoundsFor(|Due(s.records, now)|, setup.max)
    ensures Due(AfterRounds(s, rounds, setup).records, now) == []
    decreases |rounds|
  {
    hide HandedOut, AfterRounds, Answered, ApplyResults, Due, PositiveWaits, OneEach, Concat;
    var due := Due(s.records, now);
    if due == [] {
      NothingDue(s, rounds, setup, now);
    } else {
      var batch := DueBatch(s.records, now, setup.max);
      var t := ApplyResults(s, rounds[0].results, setup);
      FirstRound(s, rounds, setup);
      assert HeldAt([rounds[0]], now) && HeldAt(rounds[1..], now);
      RoundShortensDue(s, rounds[0], setup, now);
      ResultsActRecordwise(s, rounds[0].results, setup);
      assert |Due(t.records, now)| == |IdList(Due(t.records, now))|;
      HeldClockProbesEachDueOnce(t, rounds[1..], setup, now);
      assert IdList(due) == IdList(batch) + IdList(due)[|batch|..];
      ConcatCons(IdList(batch), HandedOut(t, rounds[1..], setup));
    }
  }

  lemma ConcatCons(first: seq<ProxyId>, rest: seq<seq<ProxyId>>)
    ensures Concat([first] + rest) == first + Concat(rest)
  {
    assert ([first] + rest)[1..] == rest;
  }

  // ----- the clock moving -----

  /** What is handed out is in the pool and due. */
  lemma HandedOutIsDue(records: seq<ProxyInfo>, now: Time, max: nat, id: ProxyId)
    requires id in IdList(DueBatch(records, now, max))
    ensures exists i :: 0 <= i < |records| && records[i].id == id && records[i].nextProbeAt <= now
  {
    var batch := DueBatch(records, now, max);
    var k :| 0 <= k < |batch| && IdList(batch)[k] == id;
    assert batch[k] == Due(records, now)[k];
    DueMembers(records, now, batch[k]);
  }

  /** A proxy whose next probe lies past the deadline is not handed out any more. */
  lemma {:induction false} NotDueNotHandedOut(s: Pool, rounds: seq<Round>, setup: Setup, i: nat, b: nat)
    requires WellFormed(s) && Answered(s, rounds, setup)
    requires i < |s.records| && s.records[i].nextProbeAt >= setup.deadline
    requires b < |HandedOut(s, rounds, setup)|
    ensures s.records[i].id !in HandedOut(s, rounds, setup)[b]
    decreases |rounds|
  {
    var p, now := s.records[i], rounds[0].askedAt;
    var batch := DueBatch(s.records, now, setup.max);
    if p.id in IdList(batch) {
      HandedOutIsDue(s.records, now, setup.max, p.id);
      assert false;
    }
    if b > 0 {
      var t := ApplyResults(s, rounds[0].results, setup);
      ResultsActRecordwise(s, rounds[0].results, setup);
      AfterUntouched(p, rounds[0].results, setup);
      NotDueNotHandedOut(t, rounds[1..], setup, i, b - 1);
    }
  }

  /** The proxy's result says it works, and arrived no earlier than `since`. */
  ghost predicate CameBackWorking(results: seq<Stamped>, id: ProxyId, since: Time) {
    exists k :: 0 <= k < |results|
      && results[k].result.proxyId == id && results[k].result.verdict.Working? && results[k].at >= since
  }

  /**
   * On a moving clock, and with nobody else touching the pool, a proxy that came back working is
   * never handed out again in the same batch, because the deadline is one working interval after
   * the start.
   */
  lemma {:induction false} WorkingIsProbedOnce(s: Pool, rounds: seq<Round>, setup: Setup, start: Time,
                                               a: nat, b: nat, id: ProxyId)
    requires WellFormed(s) && Answered(s, rounds, setup)
    requires setup.deadline == start + setup.schedule.workingIntervalSecs * SECOND
    requires a < b < |HandedOut(s, rounds, setup)| <= |rounds|
    requires id in HandedOut(s, rounds, setup)[a]
    requires CameBackWorking(rounds[a].results, id, start)
    ensures id !in HandedOut(s, rounds, setup)[b]
    decreases |rounds|
  {
    hide ApplyResults, DueBatch;
    var results := rounds[0].results;
    var t := ApplyResults(s, results, setup);
    ResultsActRecordwise(s, results, setup);
    if a > 0 {
      WorkingIsProbedOnce(t, rounds[1..], setup, start, a - 1, b - 1, id);
    } else {
      HandedOutIsDue(s.records, rounds[0].askedAt, setup.max, id);
      var i :| 0 <= i < |s.records| && s.records[i].id == id && s.records[i].nextProbeAt <= rounds[0].askedAt;
      WorkingIsPutOff(s.records[i], results, setup, start);
      NotDueNotHandedOut(t, rounds[1..], setup, i, b - 1);
    }
  }

  lemma WorkingIsPutOff(p: ProxyInfo, results: seq<Stamped>, setup: Setup, start: Time)
    requires Distinct(ResultIds(results)) && CameBackWorking(results, p.id, start)
    ensures After(p, results, setup).nextProbeAt >= start + setup.schedule.workingIntervalSecs * SECOND
  {
    var k :| 0 <= k < |results| && results[k].result.proxyId == p.id
             && results[k].result.verdict.Working? && results[k].at >= start;
    AfterItsResult(p, results, setup, k);
  }
}
