/**
 * The pool as the engine holds it: a vector of records, a hash index from id to position, the
 * position of the selected record, and the two sets of ids. Every method is proved against the
 * function of `PoolSpec` that says what it means for a plain list.
 */
module ProxyPools {
  import opened Common
  import opened Proxies
  import opened PoolSpec
  import PoolLaws

  class ProxyPool {
    const cfg: Config
    var proxies: seq<ProxyInfo>
    var index: map<ProxyId, nat>
    var activeIndex: Option<nat>
    var pendingEviction: set<ProxyId>
    var condemned: set<ProxyId>

    /** The index agrees with the vector in both directions, and the selection is a position in it. */
    ghost predicate Valid()
      reads this
    {
      && Indexes(index, proxies)
      && (activeIndex.Some? ==> activeIndex.value < |proxies|)
    }

    /** The list the pool stands for; the selection is known by its id. */
    ghost function View(): Pool
      reads this
      requires Valid()
    {
      Pool(proxies,
           if activeIndex.Some? then Some(proxies[activeIndex.value].id) else None,
           pendingEviction, condemned)
    }

    constructor (cfg: Config)
      ensures Valid() && this.cfg == cfg
      ensures View() == Pool([], None, {}, {})
    {
      this.cfg := cfg;
      proxies, index, activeIndex, pendingEviction, condemned := [], map[], None, {}, {};
    }

    method Push(proxy: ProxyInfo)
      requires Valid() && proxy.id !in index
      modifies this`proxies, this`index
      ensures Valid()
      ensures View() == old(View()).(records := old(proxies) + [proxy])
    {
      index := index[proxy.id := |proxies|];
      proxies := proxies + [proxy];
    }

    method Replace(i: nat, proxy: ProxyInfo)
      requires Valid() && i < |proxies| && proxy.id == proxies[i].id
      modifies this`proxies
      ensures Valid()
      ensures View() == old(View()).(records := old(proxies)[i := proxy])
    {
      proxies := proxies[i := proxy];
    }

    /** One offered proxy: turned away, refreshed, or new. */
    method MergeOne(proxy: ProxyInfo, now: Time) returns (isNew: bool)
      requires Valid()
      modifies this`proxies, this`index
      ensures Valid()
      ensures View() == PoolSpec.MergeOne(old(View()), proxy, now)
      ensures |proxies| == |old(proxies)| + if isNew then 1 else 0
    {
      IndexIsSearch(index, proxies, proxy.id);
      isNew := false;
      if proxy.id !in condemned {
        if proxy.id in index {
          var i := index[proxy.id];
          Replace(i, Refreshed(proxies[i], proxy));
        } else {
          Push(proxy.Discovered(now));
          isNew := true;
        }
      }
    }

    method Merge(discovered: seq<ProxyInfo>, now: Time) returns (added: nat)
      requires Valid()
      modifies this`proxies, this`index
      ensures Valid()
      ensures View() == PoolSpec.Merge(old(View()), discovered, now)
      ensures |proxies| == |old(proxies)| + added && added == |PoolLaws.Newcomers(old(View()), discovered)|
    {
      hide Indexes, PoolLaws.Newcomers, PoolSpec.MergeOne;
      ValidIsWellFormed(this);
      PoolLaws.MergeCounts(View(), discovered, now);
      added := 0;
      for k := 0 to |discovered|
        invariant Valid()
        invariant View() == PoolSpec.Merge(old(View()), discovered[..k], now)
        invariant |proxies| == |old(proxies)| + added
      {
        assert discovered[..k + 1][..k] == discovered[..k];
        var isNew := MergeOne(discovered[k], now);
        added := added + if isNew then 1 else 0;
      }
      assert discovered[..|discovered|] == discovered;
    }

    method Restore(saved: seq<ProxyInfo>) returns (added: nat)
      requires Valid()
      modifies this`proxies, this`index
      ensures Valid()
      ensures View() == PoolSpec.Restore(old(View()), saved)
      ensures |proxies| == |old(proxies)| + added && added == |PoolLaws.Returning(old(View()), saved)|
    {
      hide Indexes, PoolLaws.Returning;
      ValidIsWellFormed(this);
      PoolLaws.RestoreCounts(View(), saved);
      added := 0;
      for k := 0 to |saved|
        invariant Valid()
        invariant View() == PoolSpec.Restore(old(View()), saved[..k])
        invariant |proxies| == |old(proxies)| + added
      {
        var proxy := saved[k];
        assert saved[..k + 1][..k] == saved[..k];
        IndexIsSearch(index, proxies, proxy.id);
        if proxy.id !in index {
          Push(proxy);
          added := added + 1;
        }
      }
      assert saved[..|saved|] == saved;
    }

    method Add(proxy: ProxyInfo, now: Time)
      requires Valid()
      modifies this`proxies, this`index
      ensures Valid()
      ensures View() == PoolSpec.Add(old(View()), proxy, now)
    {
      IndexIsSearch(index, proxies, proxy.id);
      if proxy.id in index {
        Replace(index[proxy.id], proxy.Discovered(now));
      } else {
        Push(proxy.Discovered(now));
      }
    }

    /** Drop the doomed in one pass, rebuilding the index and repairing the selection by identity. */
    method Retain(doomed: set<ProxyId>)
      requires Valid()
      modifies this`proxies, this`index, this`activeIndex
      ensures Valid()
      ensures View() == PoolSpec.Retain(old(View()), doomed)
    {
      var activeId := if activeIndex.Some? then Some(proxies[activeIndex.value].id) else None;
      var kept: seq<ProxyInfo>, rebuilt: map<ProxyId, nat> := [], map[];
      var records, positions := proxies, index;
      for k := 0 to |records|
        invariant unchanged(this)
        invariant Rebuilt(rebuilt, kept, positions, records, k, doomed)
      {
        RebuiltOneMore(rebuilt, kept, positions, records, k, doomed);
        hide Rebuilt;
        if records[k].id !in doomed {
          rebuilt := rebuilt[records[k].id := |kept|];
          kept := kept + [records[k]];
        }
      }
      assert records[..|records|] == records;
      proxies, index := kept, rebuilt;
      activeIndex := if activeId.Some? && activeId.value in index then Some(index[activeId.value]) else None;
      assert activeIndex.Some? <==> activeId.Some? && activeId.value !in doomed;
    }

    method Remove(id: ProxyId) returns (removed: bool)
      requires Valid()
      modifies this`proxies, this`index, this`activeIndex
      ensures Valid()
      ensures removed == Has(old(proxies), id)
      ensures View() == PoolSpec.Remove(old(View()), id)
    {
      IndexIsSearch(index, proxies, id);
      removed := id in index;
      if removed {
        Retain({id});
      }
    }

    method EvictPending() returns (count: nat)
      requires Valid()
      modifies this
      ensures Valid()
      ensures count == |old(pendingEviction)|
      ensures View() == PoolSpec.EvictPending(old(View()))
    {
      count := |pendingEviction|;
      if pendingEviction == {} {
        WithoutNothing(proxies);
      } else {
        var swept := pendingEviction;
        pendingEviction, condemned := {}, condemned + swept;
        Retain(swept);
      }
    }

    method EnforceCapacity(max: nat) returns (removed: nat)
      requires Valid()
      modifies this`proxies, this`index, this`activeIndex
      ensures Valid()
      ensures View() == PoolSpec.EnforceCapacity(old(View()), max)
      ensures removed == |Doomed(old(proxies), max)|
    {
      if |proxies| <= max {
        return 0;
      }
      var doomed := Doomed(proxies, max);
      removed := |doomed|;
      Retain(doomed);
    }

    method SetActive(id: ProxyId) returns (r: Option<ProxyInfo>)
      requires Valid()
      modifies this`activeIndex
      ensures Valid()
      ensures View() == PoolSpec.SetActive(old(View()), id)
      ensures r == Get(proxies, id)
    {
      IndexIsSearch(index, proxies, id);
      if id !in index {
        return None;
      }
      activeIndex := Some(index[id]);
      r := Some(proxies[index[id]]);
    }

    method ActivateBestAvoiding(wanted: Wanted, now: Time) returns (r: Option<ProxyInfo>)
      requires Valid()
      modifies this`activeIndex
      ensures Valid()
      ensures View() == ActivateBest(cfg, old(View()), wanted, now)
      ensures r == BestRecord(cfg, proxies, wanted, now)
    {
      var best := Best(cfg, proxies, wanted, now);
      if best.None? {
        return None;
      }
      var candidate := proxies[best.value];
      activeIndex := Some(index[candidate.id]);
      r := Some(candidate);
    }

    method ClearActive()
      requires Valid()
      modifies this`activeIndex
      ensures Valid()
      ensures View() == old(View()).(active := None)
    {
      activeIndex := None;
    }

    method Rotate() returns (r: Option<ProxyInfo>)
      requires Valid()
      modifies this`activeIndex
      ensures Valid()
      ensures View() == PoolSpec.Rotate(old(View()))
      ensures r == if proxies == [] then None else ActiveRecord(View())
    {
      if proxies == [] {
        return None;
      }
      if activeIndex.Some? {
        IndexIsSearch(index, proxies, proxies[activeIndex.value].id);
      }
      var next := if activeIndex.Some? then (activeIndex.value + 1) % |proxies| else 0;
      activeIndex := Some(next);
      r := Some(proxies[next]);
      IndexIsSearch(index, proxies, proxies[next].id);
    }

    /** One probe result, applied as soon as it arrives; true when it condemned the proxy. */
    method ApplyHealthResult(result: HealthResult, policy: EvictionPolicy, schedule: ProbeSchedule, now: Time)
      returns (evicted: bool)
      requires Valid()
      modifies this`proxies, this`pendingEviction
      ensures Valid()
      ensures View() == ApplyResult(old(View()), result, policy, schedule, now)
      ensures evicted <==> Has(old(proxies), result.proxyId)
                           && Condemns(Get(old(proxies), result.proxyId).value, result, policy, now)
    {
      IndexIsSearch(index, proxies, result.proxyId);
      if result.proxyId !in index {
        return false;
      }
      var i := index[result.proxyId];
      var updated;
      updated, evicted := FoldIn(proxies[i], result, policy, schedule, now);
      Replace(i, updated);
      if evicted {
        pendingEviction := pendingEviction + {result.proxyId};
      }
    }

    method ReportFailure(id: ProxyId, now: Time)
      requires Valid()
      modifies this`proxies
      ensures Valid()
      ensures View() == PoolSpec.ReportFailure(cfg, old(View()), id, now)
    {
      IndexIsSearch(index, proxies, id);
      if id in index {
        Replace(index[id], Blamed(proxies[index[id]], cfg.schedule, now));
      }
    }

    /** Other tasks hold the pool between two of our steps; all that is known afterwards is that it is valid. */
    method OthersAct()
      requires Valid()
      modifies this
      ensures Valid()
    {
    }

    /** The proxy with this id, if the pool still has it. */
    function Lookup(id: ProxyId): (r: Option<ProxyInfo>)
      reads this
      requires Valid()
      ensures r == Get(proxies, id)
    {
      IndexIsSearch(index, proxies, id);
      if id in index then Some(proxies[index[id]]) else None
    }

    function Active(): (r: Option<ProxyInfo>)
      reads this
      requires Valid()
      ensures r == ActiveRecord(View())
    {
      if activeIndex.Some? then
        IndexIsSearch(index, proxies, proxies[activeIndex.value].id);
        Some(proxies[activeIndex.value])
      else None
    }
  }

  /** What one result does to the record it is about, field by field. */
  method FoldIn(known: ProxyInfo, result: HealthResult, policy: EvictionPolicy, schedule: ProbeSchedule, now: Time)
    returns (proxy: ProxyInfo, condemned: bool)
    ensures proxy == Probed(known, result, schedule, now)
    ensures condemned <==> Condemns(known, result, policy, now)
  {
    proxy, condemned := known, false;
    match result.verdict {
      case Working =>
        proxy := proxy.(latency := Some(result.latency), score := ScoreFor(result.latency),
                        lastChecked := Some(now), lastSuccess := Some(now), consecutiveFailures := 0);
        if result.exitIp.Some? {
          proxy := proxy.(exitIp := result.exitIp);
        }
        proxy := proxy.(supportsTunnel := result.tunneled);
        if result.anonymity.Some? {
          proxy := proxy.(anonymity := result.anonymity.value);
        }
        proxy := proxy.(nextProbeAt := now + schedule.workingIntervalSecs * SECOND);
      case Inconclusive =>
        proxy := proxy.(lastChecked := Some(now),
                        nextProbeAt := now + schedule.inconclusiveBackoffSecs * SECOND);
      case Failed =>
        proxy := proxy.(lastChecked := Some(now),
                        consecutiveFailures := SaturatingSucc(proxy.consecutiveFailures),
                        score := proxy.score * 0.5);
        var exhausted := proxy.consecutiveFailures >= policy.maxConsecutiveFailures;
        var stale := proxy.lastSuccess.None? && AgeSeconds(proxy, now) >= policy.unverifiedTtlSecs;
        proxy := proxy.(nextProbeAt := now + schedule.FailedBackoff(proxy.consecutiveFailures) * SECOND);
        condemned := exhausted || stale;
    }
  }

  ghost predicate Indexes(index: map<ProxyId, nat>, records: seq<ProxyInfo>) {
    && (forall i :: 0 <= i < |records| ==> records[i].id in index && index[records[i].id] == i)
    && (forall id :: id in index ==> index[id] < |records| && records[index[id]].id == id)
  }

  /** The hash index answers what a linear search would. */
  lemma IndexIsSearch(index: map<ProxyId, nat>, records: seq<ProxyInfo>, id: ProxyId)
    requires Indexes(index, records)
    ensures Position(records, id) == if id in index then Some(index[id]) else None
  {
    if id in index {
      assert records[index[id]].id == id;
    }
    var p := Position(records, id);
    if p.Some? {
      assert records[p.value].id in index;
    }
  }

  /** The first `k` records have been gone through, and those to keep are back with an index of their own. */
  ghost predicate Rebuilt(rebuilt: map<ProxyId, nat>, kept: seq<ProxyInfo>, index: map<ProxyId, nat>,
                          proxies: seq<ProxyInfo>, k: nat, doomed: set<ProxyId>)
    requires k <= |proxies|
  {
    && kept == Without(proxies[..k], doomed)
    && Indexes(rebuilt, kept)
    && forall id :: id in rebuilt <==> id !in doomed && id in index && index[id] < k
  }

  lemma RebuiltOneMore(rebuilt: map<ProxyId, nat>, kept: seq<ProxyInfo>, index: map<ProxyId, nat>,
                       proxies: seq<ProxyInfo>, k: nat, doomed: set<ProxyId>)
    requires k < |proxies| && Indexes(index, proxies) && Rebuilt(rebuilt, kept, index, proxies, k, doomed)
    ensures if proxies[k].id in doomed then Rebuilt(rebuilt, kept, index, proxies, k + 1, doomed)
            else Rebuilt(rebuilt[proxies[k].id := |kept|], kept + [proxies[k]], index, proxies, k + 1, doomed)
  {
    assert proxies[..k + 1][..k] == proxies[..k];
    assert index[proxies[k].id] == k;
  }

  lemma {:induction false} WithoutNothing(records: seq<ProxyInfo>)
    ensures Without(records, {}) == records
  {
    if records != [] {
      var n := |records| - 1;
      WithoutNothing(records[..n]);
      assert records == records[..n] + [records[n]];
    }
  }

  /** A pool whose index agrees with its vector has distinct ids and a selection it holds. */
  lemma ValidIsWellFormed(pool: ProxyPool)
    requires pool.Valid()
    ensures WellFormed(pool.View())
  {
    if pool.activeIndex.Some? {
      IndexIsSearch(pool.index, pool.proxies, pool.proxies[pool.activeIndex.value].id);
    }
  }
}
