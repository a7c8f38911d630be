/** What the capacity cut and the selection of the best proxy do, against what they are for. */
module PoolCapacity {
  import opened Common
  import opened Proxies
  import opened PoolSpec
  import opened PoolRuns

  // ----- the ranking is a stable sort -----

  ghost predicate Ranked(keys: seq<RankKey>, order: seq<nat>)
    requires Within(order, |keys|)
  {
    forall i, j :: 0 <= i < j < |order| ==> !Ahead(keys[order[j]], keys[order[i]])
  }

  lemma NotAheadChains(a: RankKey, b: RankKey, c: RankKey)
    requires !Ahead(b, a) && !Ahead(c, b)
    ensures !Ahead(c, a)
  {
  }

  lemma AheadIsAsymmetric(a: RankKey, b: RankKey)
    requires Ahead(a, b)
    ensures !Ahead(b, a)
  {
  }

  lemma {:induction false} InsertMembers(keys: seq<RankKey>, order: seq<nat>, k: nat)
    requires k < |keys| && Within(order, |keys|)
    ensures forall x :: x in InsertRank(keys, order, k) <==> x in order || x == k
  {
    if order != [] {
      var n := |order| - 1;
      InsertMembers(keys, order[..n], k);
      assert order == order[..n] + [order[n]];
    }
  }

  lemma {:induction false} InsertKeepsRanked(keys: seq<RankKey>, order: seq<nat>, k: nat)
    requires k < |keys| && Within(order, |keys|) && Ranked(keys, order)
    ensures Ranked(keys, InsertRank(keys, order, k))
  {
    if order != [] {
      var n := |order| - 1;
      if Ahead(keys[k], keys[order[n]]) {
        InsertKeepsRanked(keys, order[..n], k);
        InsertMembers(keys, order[..n], k);
        var r := InsertRank(keys, order[..n], k);
        forall i | 0 <= i < |r| ensures !Ahead(keys[order[n]], keys[r[i]]) {
          assert r[i] in r;
          AheadIsAsymmetric(keys[k], keys[order[n]]);
        }
      } else {
        forall i | 0 <= i < n ensures !Ahead(keys[k], keys[order[i]]) {
          NotAheadChains(keys[order[i]], keys[order[n]], keys[k]);
        }
      }
    }
  }

  lemma {:induction false} InsertKeepsDistinct(keys: seq<RankKey>, order: seq<nat>, k: nat)
    requires k < |keys| && Within(order, |keys|)
    requires Distinct(order) && k !in order
    ensures Distinct(InsertRank(keys, order, k))
  {
    if order != [] {
      var n := |order| - 1;
      if Ahead(keys[k], keys[order[n]]) {
        InsertKeepsDistinct(keys, order[..n], k);
        InsertMembers(keys, order[..n], k);
        var r := InsertRank(keys, order[..n], k);
        forall i | 0 <= i < |r| ensures r[i] != order[n] {
          assert r[i] in r;
        }
      }
    }
  }

  /** Every position below `n` appears in the ranking once, and no later one beats an earlier one. */
  lemma {:induction false} RankingSorts(keys: seq<RankKey>, n: nat)
    requires n <= |keys|
    ensures Ranked(keys, Ranking(keys, n)) && Distinct(Ranking(keys, n))
    ensures forall x :: x in Ranking(keys, n) <==> 0 <= x < n
  {
    if n > 0 {
      RankingSorts(keys, n - 1);
      InsertKeepsRanked(keys, Ranking(keys, n - 1), n - 1);
      InsertKeepsDistinct(keys, Ranking(keys, n - 1), n - 1);
      InsertMembers(keys, Ranking(keys, n - 1), n - 1);
    }
  }

  // ----- how many go -----

  lemma HasBeforeTheLast(records: seq<ProxyInfo>, id: ProxyId)
    requires records != [] && Has(records, id) && records[|records| - 1].id != id
    ensures Has(records[..|records| - 1], id)
  {
    var n := |records| - 1;
    var at := Position(records, id).value;
    assert records[..n][at].id == id;
  }

  lemma NothingHas(id: ProxyId)
    ensures !Has([], id)
  {
  }

  lemma {:induction false} WithoutCounts(records: seq<ProxyInfo>, doomed: set<ProxyId>)
    requires UniqueIds(records)
    requires forall id :: id in doomed ==> Has(records, id)
    ensures |Without(records, doomed)| + |doomed| == |records|
  {
    hide Has;
    if records == [] {
      forall id | id in doomed ensures false {
        NothingHas(id);
      }
    } else {
      var n := |records| - 1;
      var rest := doomed - {records[n].id};
      forall id | id in rest ensures Has(records[..n], id) {
        HasBeforeTheLast(records, id);
      }
      WithoutCounts(records[..n], rest);
      WithoutIgnores(records[..n], doomed, rest);
    }
  }

  lemma {:induction false} WithoutIgnores(records: seq<ProxyInfo>, a: set<ProxyId>, b: set<ProxyId>)
    requires forall i :: 0 <= i < |records| ==> (records[i].id in a <==> records[i].id in b)
    ensures Without(records, a) == Without(records, b)
  {
    if records != [] {
      WithoutIgnores(records[..|records| - 1], a, b);
    }
  }

  lemma FrontIsDistinct(records: seq<ProxyInfo>, ranking: seq<nat>, cut: nat)
    requires UniqueIds(records) && Within(ranking, |records|) && Distinct(ranking) && cut <= |ranking|
    ensures |set i | 0 <= i < cut :: records[ranking[i]].id| == cut
  {
    var ids := seq(cut, i requires 0 <= i < cut => records[ranking[i]].id);
    forall i, j | 0 <= i < j < cut ensures ids[i] != ids[j] {
      assert ranking[i] != ranking[j];
    }
    DistinctCardinality(ids);
    var front := set i | 0 <= i < cut :: records[ranking[i]].id;
    forall id ensures id in front <==> id in set x | x in ids {
      if id in front {
        var i :| 0 <= i < cut && records[ranking[i]].id == id;
        assert ids[i] == id;
      }
    }
    assert front == set x | x in ids;
  }

  lemma DoomedCount(records: seq<ProxyInfo>, max: nat)
    requires UniqueIds(records)
    ensures |Doomed(records, max)| == Max(|records| - max, 0)
    ensures forall id :: id in Doomed(records, max) ==> Has(records, id)
  {
    if |records| > max {
      var ranking := Ranking(Keys(records), |records|);
      RankingSorts(Keys(records), |records|);
      var cut := |records| - max;
      FrontIsDistinct(records, ranking, cut);
      forall id | id in Doomed(records, max) ensures Has(records, id) {
        var i :| 0 <= i < cut && records[ranking[i]].id == id;
        SearchFinds(records, ranking[i]);
      }
    }
  }

  /** The cut brings the pool down to its capacity and not below it. */
  lemma CutIsExact(s: Pool, max: nat)
    requires UniqueIds(s.records)
    ensures |EnforceCapacity(s, max).records| == Min(|s.records|, max)
    ensures |Doomed(s.records, max)| == |s.records| - |EnforceCapacity(s, max).records|
  {
    DoomedCount(s.records, max);
    if |s.records| > max {
      WithoutCounts(s.records, Doomed(s.records, max));
    }
  }

  // ----- who goes -----

  predicate Dropped(records: seq<ProxyInfo>, max: nat, i: nat)
    requires i < |records|
  {
    records[i].id in Doomed(records, max)
  }

  /** The cut takes the front of the ranking: no survivor is more useful than any proxy it dropped. */
  lemma CutTakesTheMostUseful(records: seq<ProxyInfo>, max: nat, gone: nat, kept: nat)
    requires UniqueIds(records) && gone < |records| && kept < |records|
    requires Dropped(records, max, gone) && !Dropped(records, max, kept)
    ensures !Ahead(Keys(records)[kept], Keys(records)[gone])
  {
    var ranking := Ranking(Keys(records), |records|);
    RankingSorts(Keys(records), |records|);
    var g :| 0 <= g < |records| - max && records[ranking[g]].id == records[gone].id;
    assert kept in ranking;
    var k :| 0 <= k < |ranking| && ranking[k] == kept;
    assert k >= |records| - max;
  }

  /** What the cut is documented to do: nothing that is dropped is more useful than something kept. */
  ghost predicate KeepsTheMoreUseful(records: seq<ProxyInfo>, max: nat) {
    forall gone, kept :: 0 <= gone < |records| && 0 <= kept < |records|
      && Dropped(records, max, gone) && !Dropped(records, max, kept)
      ==> !Ahead(Keys(records)[gone], Keys(records)[kept])
  }

  ghost predicate AllTied(records: seq<ProxyInfo>) {
    forall i, j :: 0 <= i < |records| && 0 <= j < |records| ==> Keys(records)[i] == Keys(records)[j]
  }

  lemma NeitherAheadIsTied(a: RankKey, b: RankKey)
    ensures !Ahead(a, b) && !Ahead(b, a) <==> a == b
  {
  }

  /** The cut does what it is documented to do only where there is nothing to choose between. */
  lemma CutKeepsTheMoreUsefulIff(records: seq<ProxyInfo>, max: nat)
    requires UniqueIds(records)
    ensures KeepsTheMoreUseful(records, max) <==> |records| <= max || max == 0 || AllTied(records)
  {
    var keys := Keys(records);
    var ranking := Ranking(keys, |records|);
    RankingSorts(keys, |records|);
    if |records| > max {
      forall i | 0 <= i < |records|
        ensures Dropped(records, max, i) <==> exists g :: 0 <= g < |records| - max && ranking[g] == i
      {
        if Dropped(records, max, i) {
          var g :| 0 <= g < |records| - max && records[ranking[g]].id == records[i].id;
          assert ranking[g] == i;
        }
      }
      if max == 0 {
        forall i | 0 <= i < |records| ensures Dropped(records, max, i) {
          assert i in ranking;
        }
      } else {
        var first, last := ranking[0], ranking[|records| - 1];
        assert Dropped(records, max, first);
        assert !Dropped(records, max, last);
        if KeepsTheMoreUseful(records, max) {
          forall i | 0 <= i < |records| ensures keys[i] == keys[first] == keys[last] {
            CutTakesTheMostUseful(records, max, first, last);
            NeitherAheadIsTied(keys[first], keys[last]);
            if Dropped(records, max, i) {
              CutTakesTheMostUseful(records, max, i, last);
              NeitherAheadIsTied(keys[i], keys[last]);
            } else {
              CutTakesTheMostUseful(records, max, first, i);
              NeitherAheadIsTied(keys[first], keys[i]);
            }
          }
        }
      }
    }
  }

  /** Two proxies, one that works and one that never did: cut to one, the working one goes. */
  lemma CutDropsTheWorkingProxy(never: ProxyInfo, works: ProxyInfo)
    requires never.id != works.id && never.lastSuccess.None? && works.lastSuccess.Some?
    ensures EnforceCapacity(Pool([never, works], None, {}, {}), 1).records == [never]
    ensures !KeepsTheMoreUseful([never, works], 1)
  {
    var records := [never, works];
    var keys := Keys(records);
    assert Ahead(keys[1], keys[0]);
    assert Ranking(keys, 1) == InsertRank(keys, [], 0) == [0];
    assert Ranking(keys, 2) == InsertRank(keys, [0], 1) == InsertRank(keys, [], 1) + [0] == [1, 0];
    var ranking := Ranking(Keys(records), |records|);
    assert ranking[0] == 1 && records[ranking[0]].id == works.id;
    assert Doomed(records, 1) == {works.id};
    assert records[..1] == [never];
    assert Without([never], {works.id}) == [never];
    assert Without(records, {works.id}) == [never];
    assert Dropped(records, 1, 1) && !Dropped(records, 1, 0);
  }

  // ----- the best proxy -----

  /**
   * Whatever the freshness weight is, the selection is an eligible proxy of the highest effective
   * score, the last of those that tie, and there is none exactly when nobody is eligible.
   */
  lemma {:induction false} BestIsTheHighest(cfg: Config, records: seq<ProxyInfo>, w: Wanted, now: Time)
    ensures Best(cfg, records, w, now).None?
            <==> forall i :: 0 <= i < |records| ==> !Eligible(cfg, records[i], w)
    ensures Best(cfg, records, w, now).Some? ==>
              var b := Best(cfg, records, w, now).value;
              forall i :: 0 <= i < |records| && Eligible(cfg, records[i], w) ==>
                && EffectiveScore(cfg, records[i], now) <= EffectiveScore(cfg, records[b], now)
                && (b < i ==> EffectiveScore(cfg, records[i], now) < EffectiveScore(cfg, records[b], now))
  {
    if records != [] {
      var n := |records| - 1;
      BestIsTheHighest(cfg, records[..n], w, now);
      assert forall i :: 0 <= i < n ==> records[..n][i] == records[i];
    }
  }
}
