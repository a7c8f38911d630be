/** What single operations of the pool come to, told by the fields of the records they leave. */
module PoolLaws {
  import opened Common
  import opened Proxies
  import opened PoolSpec
  import opened PoolRuns
  import opened PoolCapacity
  import opened HealthRuns

  // ----- a scrape -----

  ghost predicate Offered(list: seq<ProxyInfo>, id: ProxyId) {
    exists k :: 0 <= k < |list| && list[k].id == id
  }

  function FirstOffer(list: seq<ProxyInfo>, id: ProxyId): Option<ProxyInfo> {
    if list == [] then None
    else
      var n := |list| - 1;
      var first := FirstOffer(list[..n], id);
      if first.None? && list[n].id == id then Some(list[n]) else first
  }

  lemma OfferedLast(list: seq<ProxyInfo>, id: ProxyId)
    requires list != []
    ensures Offered(list, id) <==> Offered(list[..|list| - 1], id) || list[|list| - 1].id == id
  {
    var n := |list| - 1;
    assert forall k :: 0 <= k < n ==> list[..n][k] == list[k];
    if list[n].id == id {
      assert Offered(list, id);
    }
  }

  /** A proxy is in the pool after a scrape if and only if it was there, or was offered and is not condemned. */
  lemma {:induction false} MergeContents(s: Pool, list: seq<ProxyInfo>, now: Time, id: ProxyId)
    requires WellFormed(s)
    ensures Has(Merge(s, list, now).records, id) <==> Has(s.records, id) || (id !in s.condemned && Offered(list, id))
  {
    hide UniqueIds, Position, Offered;
    if list == [] {
      NothingOffered(id);
    } else {
      var n := |list| - 1;
      var t, p := Merge(s, list[..n], now), list[n];
      MergeContents(s, list[..n], now, id);
      MergeExtends(s, list[..n], now);
      OfferedLast(list, id);
      var i := Position(t.records, p.id);
      if i.Some? {
        PositionOf(t.records, p.id);
        GetAfterUpdate(t.records, i.value, Refreshed(t.records[i.value], p), id);
      } else {
        GetAfterAppend(t.records, p.Discovered(now), id);
      }
    }
  }

  lemma NothingOffered(id: ProxyId)
    ensures !Offered([], id)
  {
  }

  lemma PositionOf(records: seq<ProxyInfo>, id: ProxyId)
    requires Position(records, id).Some?
    ensures Position(records, id).value < |records| && records[Position(records, id).value].id == id
  {
  }

  /**
   * A new proxy has the endpoint of its first offer, the anonymity of its last, the first country any offer
   * claimed, and no health of its own; it is due at once.
   */
  lemma {:induction false} NewcomerStartsAfresh(s: Pool, list: seq<ProxyInfo>, now: Time, id: ProxyId)
    requires WellFormed(s) && !Has(s.records, id) && id !in s.condemned && Offered(list, id)
    ensures FirstOffer(list, id).Some? && LastOffer(list, id).Some?
    ensures var first, last := FirstOffer(list, id).value, LastOffer(list, id).value;
            Get(Merge(s, list, now).records, id)
            == Some(ProxyInfo(id, first.host, first.port, first.protocol, last.anonymity, first.latency,
                              FirstCountry(list, id), None, None, now, now, true, first.exitIp, 0, 0.0))
  {
    hide UniqueIds, Position, Offered;
    if list == [] {
      NothingOffered(id);
    } else {
      var n := |list| - 1;
      var t, p := Merge(s, list[..n], now), list[n];
      MergeContents(s, list[..n], now, id);
      MergeExtends(s, list[..n], now);
      MergeKeepsSets(s, list[..n], now);
      OfferedLast(list, id);
      if Offered(list[..n], id) {
        NewcomerStartsAfresh(s, list[..n], now, id);
      } else {
        NotOffered(list[..n], id);
      }
      var i := Position(t.records, p.id);
      if i.Some? {
        PositionOf(t.records, p.id);
        GetAfterUpdate(t.records, i.value, Refreshed(t.records[i.value], p), id);
      } else {
        GetAfterAppend(t.records, p.Discovered(now), id);
      }
    }
  }

  lemma {:induction false} NotOffered(list: seq<ProxyInfo>, id: ProxyId)
    requires !Offered(list, id)
    ensures FirstOffer(list, id).None? && LastOffer(list, id).None? && FirstCountry(list, id).None?
  {
    if list != [] {
      OfferedLast(list, id);
      NotOffered(list[..|list| - 1], id);
    }
  }

  /** The ids a scrape brings in: offered, not condemned, and not in the pool yet. */
  function Newcomers(s: Pool, list: seq<ProxyInfo>): set<ProxyId> {
    set k | 0 <= k < |list| && list[k].id !in s.condemned && !Has(s.records, list[k].id) :: list[k].id
  }

  /** The pool grows by as many as there are distinct new ids. */
  lemma {:induction false} MergeCounts(s: Pool, list: seq<ProxyInfo>, now: Time)
    requires WellFormed(s)
    ensures |Merge(s, list, now).records| == |s.records| + |Newcomers(s, list)|
  {
    hide UniqueIds, Position, Has;
    if list != [] {
      var n := |list| - 1;
      var t, p := Merge(s, list[..n], now), list[n];
      MergeCounts(s, list[..n], now);
      MergeContents(s, list[..n], now, p.id);
      MergeKeepsSets(s, list[..n], now);
      NewcomersLast(s, list);
      HasMeansFound(t.records, p.id);
      var before := Newcomers(s, list[..n]);
      var grows := p.id !in s.condemned && !Has(t.records, p.id);
      assert |Merge(s, list, now).records| == |t.records| + if grows then 1 else 0;
      if grows {
        assert Newcomers(s, list) == before + {p.id} && p.id !in before;
      } else {
        assert Newcomers(s, list) == before;
      }
    } else {
      assert Newcomers(s, list) == {};
    }
  }

  lemma HasMeansFound(records: seq<ProxyInfo>, id: ProxyId)
    ensures Has(records, id) <==> Position(records, id).Some?
  {
  }

  lemma NewcomersLast(s: Pool, list: seq<ProxyInfo>)
    requires list != []
    ensures var n := |list| - 1;
            var before, id := Newcomers(s, list[..n]), list[n].id;
            && (id in before <==> id !in s.condemned && !Has(s.records, id) && Offered(list[..n], id))
            && Newcomers(s, list) == before + if id in s.condemned || Has(s.records, id) then {} else {id}
  {
    hide Has;
    var n := |list| - 1;
    var before, id := Newcomers(s, list[..n]), list[n].id;
    assert forall k :: 0 <= k < n ==> list[..n][k] == list[k];
    if id !in s.condemned && !Has(s.records, id) && Offered(list[..n], id) {
      var k :| 0 <= k < n && list[..n][k].id == id;
      assert id in before;
    }
    forall x ensures x in Newcomers(s, list) <==>
      x in before + if id in s.condemned || Has(s.records, id) then {} else {id}
    {
      if x in before {
        var k :| 0 <= k < n && list[..n][k].id == x;
        assert list[k].id == x;
      }
      if x in Newcomers(s, list) {
        var k :| 0 <= k <= n && list[k].id == x && x !in s.condemned && !Has(s.records, x);
        assert k < n ==> list[..n][k].id == x;
      }
    }
  }

  // ----- restoring and adding -----

  /** The saved ids the pool lacks. */
  function Returning(s: Pool, saved: seq<ProxyInfo>): set<ProxyId> {
    Newcomers(s.(condemned := {}), saved)
  }

  /** A restored proxy is the first record saved for its id, as it was saved. */
  lemma {:induction false} RestoredAsSaved(s: Pool, saved: seq<ProxyInfo>, id: ProxyId)
    requires WellFormed(s)
    ensures Get(Restore(s, saved).records, id)
            == if Has(s.records, id) then Get(s.records, id) else FirstOffer(saved, id)
  {
    hide UniqueIds, Position;
    if saved != [] {
      var n := |saved| - 1;
      var t, p := Restore(s, saved[..n]), saved[n];
      RestoredAsSaved(s, saved[..n], id);
      RestoreExtends(s, saved[..n]);
      if !Has(t.records, p.id) {
        GetAfterAppend(t.records, p, id);
      }
    }
  }

  lemma {:induction false} FirstOfferIff(list: seq<ProxyInfo>, id: ProxyId)
    ensures FirstOffer(list, id).Some? <==> Offered(list, id)
  {
    if list != [] {
      OfferedLast(list, id);
      FirstOfferIff(list[..|list| - 1], id);
    }
  }

  lemma {:induction false} RestoreCounts(s: Pool, saved: seq<ProxyInfo>)
    requires WellFormed(s)
    ensures |Restore(s, saved).records| == |s.records| + |Returning(s, saved)|
  {
    hide UniqueIds, Position, Has;
    if saved != [] {
      var n := |saved| - 1;
      var t, p := Restore(s, saved[..n]), saved[n];
      RestoreCounts(s, saved[..n]);
      RestoredAsSaved(s, saved[..n], p.id);
      FirstOfferIff(saved[..n], p.id);
      NewcomersLast(s.(condemned := {}), saved);
      GetMeansHas(t.records, p.id);
      GetMeansHas(s.records, p.id);
      var before := Returning(s, saved[..n]);
      assert |Restore(s, saved).records| == |t.records| + if Has(t.records, p.id) then 0 else 1;
      if Has(t.records, p.id) {
        assert Returning(s, saved) == before;
      } else {
        assert Returning(s, saved) == before + {p.id} && p.id !in before;
      }
    } else {
      assert Returning(s, saved) == {};
    }
  }

  lemma GetMeansHas(records: seq<ProxyInfo>, id: ProxyId)
    ensures Has(records, id) <==> Get(records, id).Some?
  {
  }

  /** Adding by hand leaves the proxy as it was given, with no health and due at once, and every other as it was. */
  lemma AddedStartsAfresh(s: Pool, p: ProxyInfo, now: Time, id: ProxyId)
    requires WellFormed(s)
    ensures Get(Add(s, p, now).records, id)
            == if id != p.id then Get(s.records, id)
               else Some(ProxyInfo(p.id, p.host, p.port, p.protocol, p.anonymity, p.latency, p.country, None, None, now,
                                   now, true, p.exitIp, 0, 0.0))
  {
    hide UniqueIds, Position;
    var i := Position(s.records, p.id);
    if i.Some? {
      PositionOf(s.records, p.id);
      GetAfterUpdate(s.records, i.value, p.Discovered(now), id);
    } else {
      GetAfterAppend(s.records, p.Discovered(now), id);
    }
  }

  // ----- taking out -----

  /** What is removed is gone, and every other proxy is as it was. */
  lemma RemovedIsGone(s: Pool, gone: ProxyId, id: ProxyId)
    requires WellFormed(s)
    ensures Get(Remove(s, gone).records, id) == if id == gone then None else Get(s.records, id)
    ensures Remove(s, gone).pending == s.pending && Remove(s, gone).condemned == s.condemned
  {
    hide UniqueIds, Position;
    GetAfterWithout(s.records, {gone}, id);
  }

  /** A sweep takes out what pends and nothing else; it is condemned from then on, and nothing pends. */
  lemma SweepTakesThePending(s: Pool, id: ProxyId)
    requires WellFormed(s)
    ensures var t := EvictPending(s);
            && Get(t.records, id) == (if id in s.pending then None else Get(s.records, id))
            && id !in t.pending && (id in t.condemned <==> id in s.condemned || id in s.pending)
  {
    hide UniqueIds, Position;
    GetAfterWithout(s.records, s.pending, id);
  }

  /** Who survives a capacity cut is untouched by it. */
  lemma SurvivorsAreUntouched(s: Pool, max: nat, id: ProxyId)
    requires WellFormed(s) && Has(EnforceCapacity(s, max).records, id)
    ensures Get(EnforceCapacity(s, max).records, id) == Get(s.records, id)
  {
    hide UniqueIds, Position, Doomed;
    if |s.records| > max {
      GetAfterWithout(s.records, Doomed(s.records, max), id);
    }
  }

  /** Who is ahead: the later success, then the smaller latency with none before any, then the higher score. */
  lemma WhoIsAhead(p: ProxyInfo, q: ProxyInfo)
    ensures var ahead := Ahead(Keys([p, q])[0], Keys([p, q])[1]);
            && (p.lastSuccess.Some? && (q.lastSuccess.None? || q.lastSuccess.value < p.lastSuccess.value) ==> ahead)
            && (q.lastSuccess.Some? && (p.lastSuccess.None? || p.lastSuccess.value < q.lastSuccess.value) ==> !ahead)
            && (p.lastSuccess == q.lastSuccess ==>
                  && (q.latency.Some? && (p.latency.None? || p.latency.value < q.latency.value) ==> ahead)
                  && (p.latency.Some? && (q.latency.None? || q.latency.value < p.latency.value) ==> !ahead)
                  && (p.latency == q.latency ==> (ahead <==> p.score > q.score)))
  {
  }

  // ----- selecting -----

  /** Able to carry a client at all: confirmed and not failing since, opens tunnels, not below the floor. */
  predicate Usable(cfg: Config, p: ProxyInfo) {
    p.lastSuccess.Some? && p.consecutiveFailures == 0 && p.supportsTunnel && p.score >= cfg.minScore
  }

  /** A candidate is usable, and neither its id nor its server nor its known exit is to be avoided. */
  predicate Candidate(cfg: Config, p: ProxyInfo, avoid: set<Avoid>, exits: set<IpAddr>) {
    && Usable(cfg, p) && ById(p.id) !in avoid && ByHost(p.host) !in avoid
    && (p.exitIp.Some? ==> p.exitIp.value !in exits)
  }

  ghost predicate NoCandidate(cfg: Config, records: seq<ProxyInfo>, avoid: set<Avoid>, exits: set<IpAddr>) {
    forall i :: 0 <= i < |records| ==> !Candidate(cfg, records[i], avoid, exits)
  }

  /** The record is a candidate, none is worth more, and of those worth as much it is the last. */
  ghost predicate WorthMost(cfg: Config, records: seq<ProxyInfo>, p: ProxyInfo, avoid: set<Avoid>, exits: set<IpAddr>,
                            now: Time)
  {
    exists b :: 0 <= b < |records| && records[b] == p && Candidate(cfg, p, avoid, exits)
      && forall i :: 0 <= i < |records| && Candidate(cfg, records[i], avoid, exits) ==>
           && EffectiveScore(cfg, records[i], now) <= EffectiveScore(cfg, p, now)
           && (b < i ==> EffectiveScore(cfg, records[i], now) < EffectiveScore(cfg, p, now))
  }

  /** The choice without a policy is a candidate worth the most, and there is none only without candidates. */
  lemma ChoiceIsWorthMost(cfg: Config, records: seq<ProxyInfo>, avoid: set<Avoid>, exits: set<IpAddr>, now: Time)
    ensures var best := BestRecord(cfg, records, Wanted(avoid, exits, None), now);
            if NoCandidate(cfg, records, avoid, exits) then best.None?
            else best.Some? && WorthMost(cfg, records, best.value, avoid, exits, now)
  {
    hide EffectiveScore, Best, Eligible, Candidate;
    var w := Wanted(avoid, exits, None);
    forall i | 0 <= i < |records| ensures Eligible(cfg, records[i], w) <==> Candidate(cfg, records[i], avoid, exits) {
      CandidateIsEligible(cfg, records[i], avoid, exits);
    }
    BestIsTheHighest(cfg, records, w, now);
  }

  lemma MostIsCandidate(cfg: Config, records: seq<ProxyInfo>, p: ProxyInfo, avoid: set<Avoid>, exits: set<IpAddr>,
                        now: Time)
    requires WorthMost(cfg, records, p, avoid, exits, now)
    ensures Candidate(cfg, p, avoid, exits)
  {
  }

  lemma CandidateIsEligible(cfg: Config, p: ProxyInfo, avoid: set<Avoid>, exits: set<IpAddr>)
    ensures Eligible(cfg, p, Wanted(avoid, exits, None)) <==> Candidate(cfg, p, avoid, exits)
  {
  }

  /** A score loses weight with every whole second since the last success, whenever the last check was. */
  lemma WorthIsTheAgedScore(cfg: Config, p: ProxyInfo, now: Time, seconds: nat, rest: nat)
    requires rest < 1_000_000_000 && p.lastSuccess == Some(now - seconds * 1_000_000_000 - rest)
    ensures EffectiveScore(cfg, p, now) == p.score * cfg.freshness(seconds)
  {
    assert (now - p.lastSuccess.value) / SECOND == seconds;
  }

  /** A success in the future, as a clock set back makes it, counts as one of this moment. */
  lemma FutureSuccessIsFresh(cfg: Config, p: ProxyInfo, now: Time)
    requires p.lastSuccess.Some? && p.lastSuccess.value > now
    ensures EffectiveScore(cfg, p, now) == p.score * cfg.freshness(0)
  {
  }

  /** With a weight that is positive and falls, the fresher of two equal scores wins, and the better of two as fresh. */
  lemma FresherWins(cfg: Config, p: ProxyInfo, q: ProxyInfo, now: Time, young: nat, aged: nat)
    requires forall a: nat, b: nat :: a < b ==> cfg.freshness(a) > cfg.freshness(b) > 0.0
    requires p.lastSuccess == Some(now - young * SECOND) && q.lastSuccess == Some(now - aged * SECOND)
    ensures p.score == q.score > 0.0 && young < aged ==> EffectiveScore(cfg, p, now) > EffectiveScore(cfg, q, now)
    ensures young == aged ==> (EffectiveScore(cfg, p, now) > EffectiveScore(cfg, q, now) <==> p.score > q.score)
  {
    WorthIsTheAgedScore(cfg, p, now, young, 0);
    WorthIsTheAgedScore(cfg, q, now, aged, 0);
    var x, y := cfg.freshness(young), cfg.freshness(aged);
    assert cfg.freshness(young) > cfg.freshness(young + 1) > 0.0;
    assert p.score * y - q.score * y == (p.score - q.score) * y;
    if young < aged {
      assert x > y;
      assert p.score * x - p.score * y == p.score * (x - y);
    }
  }

  /**
   * Making the best proxy the active one: the selection becomes a candidate worth the most, and stays as it
   * was when there is none.
   */
  lemma TheBestBecomesTheSelection(cfg: Config, s: Pool, avoid: set<Avoid>, exits: set<IpAddr>, now: Time)
    requires WellFormed(s)
    ensures var t := ActivateBest(cfg, s, Wanted(avoid, exits, None), now);
            && t.records == s.records && t.pending == s.pending && t.condemned == s.condemned
            && if NoCandidate(cfg, s.records, avoid, exits) then t.active == s.active
               else ActiveRecord(t).Some? && WorthMost(cfg, s.records, ActiveRecord(t).value, avoid, exits, now)
  {
    hide WorthMost, NoCandidate, Position;
    var i := Best(cfg, s.records, Wanted(avoid, exits, None), now);
    ChoiceIsWorthMost(cfg, s.records, avoid, exits, now);
    if i.Some? {
      SearchFinds(s.records, i.value);
    }
  }

  /** Selecting by id puts that record in front, and an unknown id changes nothing. */
  lemma SelectedIsInFront(s: Pool, id: ProxyId)
    ensures SetActive(s, id).records == s.records
    ensures if Has(s.records, id) then ActiveRecord(SetActive(s, id)) == Get(s.records, id) else SetActive(s, id) == s
    ensures Get(s.records, id).Some? ==> Get(s.records, id).value.id == id && Get(s.records, id).value in s.records
  {
  }

  // ----- what a policy allows -----

  /** A policy that names nothing asks for its score alone; countries and protocols named narrow it down. */
  lemma PolicyNarrowsDown(policy: ProxyPolicy, p: ProxyInfo)
    ensures policy.countries == [] && policy.protocols == [] ==> (policy.Allows(p) <==> p.score >= policy.minScore)
    ensures p.score < policy.minScore ==> !policy.Allows(p)
    ensures policy.protocols != [] && p.protocol !in policy.protocols ==> !policy.Allows(p)
    ensures policy.countries != [] && p.country.None? && "" !in policy.countries ==> !policy.Allows(p)
    ensures (p.country.Some? && p.country.value in policy.countries && p.protocol in policy.protocols
             && p.score >= policy.minScore) ==> policy.Allows(p)
    ensures policy.countries == ["de"] && p.country == Some("FR") ==> !policy.Allows(p)
    ensures (policy.countries == ["de"] && p.country == Some("DE") && policy.protocols == []
             && p.score >= policy.minScore) ==> policy.Allows(p)
  {
    if p.country.None? && policy.Allows(p) && policy.countries != [] {
      var i :| 0 <= i < |policy.countries| && EqIgnoreCase(policy.countries[i], "");
      assert policy.countries[i] == "";
    }
    if policy.countries == ["de"] {
      assert policy.countries[0] == "de" && Lower('D') == 'd' && Lower('E') == 'e' && Lower('F') == 'f';
      assert EqIgnoreCase("de", "DE");
      assert "de"[0] == 'd' && "FR"[0] == 'F' && !EqIgnoreCase("de", "FR");
    }
  }

  // ----- what is due -----

  function NotDue(records: seq<ProxyInfo>, now: Time): set<ProxyId> {
    set i | 0 <= i < |records| && now < records[i].nextProbeAt :: records[i].id
  }

  /** The due list is the pool in its own order, less those whose next probe lies ahead. */
  lemma {:induction false} DueInPoolOrder(records: seq<ProxyInfo>, now: Time)
    requires UniqueIds(records)
    ensures IdList(Due(records, now)) == DropIds(IdList(records), NotDue(records, now))
  {
    if records != [] {
      var n := |records| - 1;
      var rest, front := records[..n], IdList(records[..n]);
      DueInPoolOrder(rest, now);
      NotDueLast(records, now);
      DropIdsAgree(front, NotDue(records, now), NotDue(rest, now));
      assert IdList(records)[..n] == front;
      assert IdList(Due(records, now)) == IdList(Due(rest, now)) + if records[n].nextProbeAt <= now then [records[n].id]
                                                                  else [];
    }
  }

  lemma NotDueLast(records: seq<ProxyInfo>, now: Time)
    requires UniqueIds(records) && records != []
    ensures var n := |records| - 1;
            && (records[n].id in NotDue(records, now) <==> now < records[n].nextProbeAt)
            && forall i :: 0 <= i < n ==>
                 (records[i].id in NotDue(records, now) <==> records[i].id in NotDue(records[..n], now))
  {
    var n := |records| - 1;
    var rest := records[..n];
    forall i | 0 <= i < n ensures records[i].id in NotDue(records, now) <==> records[i].id in NotDue(rest, now) {
      assert rest[i] == records[i];
      if records[i].id in NotDue(records, now) {
        var k :| 0 <= k <= n && now < records[k].nextProbeAt && records[k].id == records[i].id;
        assert k == i;
      }
      if records[i].id in NotDue(rest, now) {
        var k :| 0 <= k < n && now < rest[k].nextProbeAt && rest[k].id == records[i].id;
        assert records[k] == rest[k];
      }
    }
  }
}
