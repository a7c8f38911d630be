/** The distribution of the pool, counted in one pass over the records. */
module Statistics {
  import opened Common
  import opened Proxies
  import PoolSpec

  // ----- what is counted -----

  datatype Class =
    | Works
    | Unverified
    | TunnelCapable(minScore: real)
    | BelowThreshold(minScore: real)
    | TooSlow(minScore: real)
    | DueBy(now: Time)
    | OfProtocol(protocol: Protocol)
    | OfAnonymity(anonymity: Anonymity)
    | OfCountry(country: string)
    | InBucket(bucket: nat)
    | Measured
    | NeverConfirmed
    | Everyone
    | Placed
    | Both(one: Class, other: Class)

  predicate In(p: ProxyInfo, c: Class) {
    match c
    case Works => p.IsWorking()
    case Unverified => !p.IsWorking()
    case TunnelCapable(minScore) => p.IsWorking() && p.supportsTunnel && p.score >= minScore
    case BelowThreshold(minScore) => p.IsWorking() && !(p.supportsTunnel && p.score >= minScore)
    case TooSlow(minScore) => p.IsWorking() && p.score < minScore
    case DueBy(now) => p.nextProbeAt <= now
    case OfProtocol(protocol) => p.protocol == protocol
    case OfAnonymity(anonymity) => p.anonymity == anonymity
    case OfCountry(country) => p.country == Some(country)
    case InBucket(bucket) => p.latency.Some? && bucket < |BUCKETS| && Holds(BUCKETS[bucket], p.latency.value)
    case Measured => p.latency.Some?
    case NeverConfirmed => p.lastSuccess.None?
    case Everyone => true
    case Placed => p.country.Some?
    case Both(one, other) => In(p, one) && In(p, other)
  }

  /** How many of the records are in a class. */
  function Count(records: seq<ProxyInfo>, c: Class): nat {
    if records == [] then 0
    else
      var n := |records| - 1;
      Count(records[..n], c) + if In(records[n], c) then 1 else 0
  }

  ghost function Filtered(records: seq<ProxyInfo>, c: Class): set<nat> {
    set i: nat | i < |records| && In(records[i], c)
  }

  lemma FilteredOneMore(records: seq<ProxyInfo>, c: Class)
    requires records != []
    ensures |Filtered(records, c)|
            == |Filtered(records[..|records| - 1], c)| + if In(records[|records| - 1], c) then 1 else 0
  {
    hide In;
    var n := |records| - 1;
    if In(records[n], c) {
      assert Filtered(records, c) == Filtered(records[..n], c) + {n};
    } else {
      assert Filtered(records, c) == Filtered(records[..n], c);
    }
  }

  /** Counting is the cardinality of the filter. */
  lemma {:induction false} CountIsCardinality(records: seq<ProxyInfo>, c: Class)
    ensures Count(records, c) == |Filtered(records, c)|
  {
    hide In;
    if records == [] {
      assert Filtered(records, c) == {};
    } else {
      CountIsCardinality(records[..|records| - 1], c);
      FilteredOneMore(records, c);
    }
  }

  // ----- the latency ranges -----

  /** In milliseconds, from the first bound up to but not including the second. */
  datatype Bucket = Bucket(from: nat, to: Option<nat>)

  const BUCKETS: seq<Bucket> := [
    Bucket(0, Some(100)), Bucket(100, Some(300)), Bucket(300, Some(600)), Bucket(600, Some(1000)),
    Bucket(1000, Some(2000)), Bucket(2000, Some(5000)), Bucket(5000, None)]

  predicate Holds(b: Bucket, latency: nat) {
    latency >= b.from && (b.to.Some? ==> latency < b.to.value)
  }

  /** The first range that holds the value, as `position` finds it; the last one if none does. */
  method BucketOf(latency: nat) returns (index: nat)
    ensures index < |BUCKETS| && Holds(BUCKETS[index], latency)
    ensures forall i :: 0 <= i < |BUCKETS| && Holds(BUCKETS[i], latency) ==> i == index
    ensures index == if latency < 100 then 0 else if latency < 300 then 1 else if latency < 600 then 2
                     else if latency < 1000 then 3 else if latency < 2000 then 4 else if latency < 5000 then 5 else 6
  {
    BucketsPartition(latency);
    index := |BUCKETS| - 1;
    for i := 0 to |BUCKETS|
      invariant forall j :: 0 <= j < i ==> !Holds(BUCKETS[j], latency)
    {
      if Holds(BUCKETS[i], latency) {
        return i;
      }
    }
    assert false;
  }

  /** Every latency is in exactly one range. */
  lemma BucketsPartition(latency: nat)
    ensures exists i :: 0 <= i < |BUCKETS| && Holds(BUCKETS[i], latency)
    ensures forall i, j :: 0 <= i < j < |BUCKETS| ==> !(Holds(BUCKETS[i], latency) && Holds(BUCKETS[j], latency))
  {
    assert Holds(BUCKETS[0], latency) || Holds(BUCKETS[1], latency) || Holds(BUCKETS[2], latency)
        || Holds(BUCKETS[3], latency) || Holds(BUCKETS[4], latency) || Holds(BUCKETS[5], latency)
        || Holds(BUCKETS[6], latency);
  }

  // ----- tallies by key -----

  datatype Tally = Tally(count: nat, working: nat)

  datatype Row<K> = Row(key: K, tally: Tally)

  function Bumped<K>(m: map<K, Tally>, key: K, working: bool): map<K, Tally> {
    var entry := if key in m then m[key] else Tally(0, 0);
    m[key := Tally(entry.count + 1, entry.working + if working then 1 else 0)]
  }

  function ProtocolClass(p: Protocol): Class { OfProtocol(p) }

  function AnonymityClass(a: Anonymity): Class { OfAnonymity(a) }

  function CountryClass(c: string): Class { OfCountry(c) }

  function TallyOf(records: seq<ProxyInfo>, c: Class): Tally {
    Tally(Count(records, c), Count(records, Both(c, Works)))
  }

  /** The map has an entry for each class that is not empty, and it is that class's tally. */
  ghost predicate Tallied<K(!new)>(m: map<K, Tally>, records: seq<ProxyInfo>, classOf: K -> Class) {
    && (forall k :: k in m ==> m[k] == TallyOf(records, classOf(k)))
    && (forall k :: Count(records, classOf(k)) > 0 ==> k in m)
    && (forall k :: k in m ==> m[k].count > 0)
  }

  lemma BumpKeepsTallied<K(!new)>(m: map<K, Tally>, records: seq<ProxyInfo>, classOf: K -> Class, p: ProxyInfo, key: K)
    requires Tallied(m, records, classOf)
    requires forall k :: In(p, classOf(k)) <==> k == key
    ensures Tallied(Bumped(m, key, p.IsWorking()), records + [p], classOf)
  {
    hide Count;
    forall k ensures Count(records + [p], classOf(k)) == Count(records, classOf(k)) + (if k == key then 1 else 0)
             ensures Count(records + [p], Both(classOf(k), Works))
                     == Count(records, Both(classOf(k), Works)) + (if k == key && p.IsWorking() then 1 else 0) {
      CountOneMore(records, p, classOf(k));
      CountOneMore(records, p, Both(classOf(k), Works));
    }
    BothIsFewer(records, classOf(key), Works);
  }

  lemma NoKeyKeepsTallied<K(!new)>(m: map<K, Tally>, records: seq<ProxyInfo>, classOf: K -> Class, p: ProxyInfo)
    requires Tallied(m, records, classOf)
    requires forall k :: !In(p, classOf(k))
    ensures Tallied(m, records + [p], classOf)
  {
    hide Count;
    forall k ensures TallyOf(records + [p], classOf(k)) == TallyOf(records, classOf(k)) {
      CountOneMore(records, p, classOf(k));
      CountOneMore(records, p, Both(classOf(k), Works));
    }
  }

  lemma CountOneMore(records: seq<ProxyInfo>, p: ProxyInfo, c: Class)
    ensures Count(records + [p], c) == Count(records, c) + if In(p, c) then 1 else 0
  {
    assert (records + [p])[..|records|] == records;
  }

  lemma {:induction false} BothIsFewer(records: seq<ProxyInfo>, c: Class, d: Class)
    ensures Count(records, Both(c, d)) <= Count(records, c)
  {
    if records != [] {
      BothIsFewer(records[..|records| - 1], c, d);
    }
  }

  // ----- rows, the largest first -----

  ghost predicate Descending<K>(rows: seq<Row<K>>) {
    forall i, j :: 0 <= i < j < |rows| ==> rows[i].tally.count >= rows[j].tally.count
  }

  ghost predicate KeysOnce<K>(rows: seq<Row<K>>) {
    forall i, j :: 0 <= i < j < |rows| ==> rows[i].key != rows[j].key
  }

  /** The rows give exactly these keys, each with its entry in the map. */
  ghost predicate Lists<K(!new)>(rows: seq<Row<K>>, m: map<K, Tally>, keys: set<K>) {
    && KeysOnce(rows)
    && (forall i :: 0 <= i < |rows| ==> rows[i].key in keys && rows[i].key in m && rows[i].tally == m[rows[i].key])
    && (forall k :: k in keys ==> exists i :: 0 <= i < |rows| && rows[i].key == k)
  }

  /** A hash map gives its entries in any order; they are then sorted by count. */
  method Ranked<K(==, !new)>(m: map<K, Tally>) returns (rows: seq<Row<K>>)
    ensures Lists(rows, m, m.Keys) && Descending(rows)
  {
    rows := [];
    var left := m.Keys;
    assert m.Keys - left == {};
    while left != {}
      invariant left <= m.Keys && Lists(rows, m, m.Keys - left) && Descending(rows)
      decreases |left|
    {
      hide Lists, Descending, Inserted;
      var key :| key in left;
      var at := PlaceFor(rows, m[key].count);
      InsertedRow(rows, m, m.Keys - left, key, at);
      InsertedDescends(rows, Row(key, m[key]), at);
      rows := Inserted(rows, Row(key, m[key]), at);
      assert m.Keys - (left - {key}) == m.Keys - left + {key};
      left := left - {key};
    }
    assert m.Keys - left == m.Keys;
  }

  /** The first place from the end that keeps the counts descending. */
  method PlaceFor<K>(rows: seq<Row<K>>, count: nat) returns (at: nat)
    requires Descending(rows)
    ensures at <= |rows| && (at > 0 ==> rows[at - 1].tally.count >= count)
    ensures forall i :: at <= i < |rows| ==> rows[i].tally.count < count
  {
    at := |rows|;
    while at > 0 && rows[at - 1].tally.count < count
      invariant at <= |rows| && forall i :: at <= i < |rows| ==> rows[i].tally.count < count
    {
      at := at - 1;
    }
  }

  function Inserted<K>(rows: seq<Row<K>>, row: Row<K>, at: nat): (r: seq<Row<K>>)
    requires at <= |rows|
    ensures |r| == |rows| + 1
    ensures forall i :: 0 <= i < |r| ==> r[i] == if i < at then rows[i] else if i == at then row else rows[i - 1]
  {
    rows[..at] + [row] + rows[at..]
  }

  lemma InsertedRow<K(!new)>(rows: seq<Row<K>>, m: map<K, Tally>, keys: set<K>, key: K, at: nat)
    requires at <= |rows| && Lists(rows, m, keys) && key !in keys && key in m
    ensures Lists(Inserted(rows, Row(key, m[key]), at), m, keys + {key})
  {
    InsertedOnce(rows, Row(key, m[key]), at);
    hide KeysOnce;
    var r := Inserted(rows, Row(key, m[key]), at);
    forall i | 0 <= i < |r|
      ensures r[i].key in keys + {key} && r[i].key in m && r[i].tally == m[r[i].key] {
      assert i != at ==> r[i] in rows;
    }
    forall k | k in keys + {key} ensures exists i :: 0 <= i < |r| && r[i].key == k {
      if k == key {
        assert r[at].key == k;
      } else {
        var i :| 0 <= i < |rows| && rows[i].key == k;
        assert r[if i < at then i else i + 1].key == k;
      }
    }
  }

  lemma InsertedOnce<K>(rows: seq<Row<K>>, row: Row<K>, at: nat)
    requires at <= |rows| && KeysOnce(rows) && forall i :: 0 <= i < |rows| ==> rows[i].key != row.key
    ensures KeysOnce(Inserted(rows, row, at))
  {
  }

  lemma InsertedDescends<K>(rows: seq<Row<K>>, row: Row<K>, at: nat)
    requires at <= |rows| && Descending(rows)
    requires at > 0 ==> rows[at - 1].tally.count >= row.tally.count
    requires forall i :: at <= i < |rows| ==> rows[i].tally.count < row.tally.count
    ensures Descending(Inserted(rows, row, at))
  {
  }

  // ----- the pass -----

  datatype PoolStatistics = PoolStatistics(
    poolSize: nat, working: nat, tunnelCapable: nat, unverified: nat, belowThreshold: nat, due: nat,
    byProtocol: seq<Row<Protocol>>,
    byAnonymity: seq<Row<Anonymity>>,
    byCountry: seq<Row<string>>,
    latency: seq<nat>,
    distinctExits: nat)

  const COUNTRY_ROWS: nat := 20

  function Exits(records: seq<ProxyInfo>): set<IpAddr> {
    set p | p in records && p.exitIp.Some? :: p.exitIp.value
  }

  ghost predicate Bucketed(latency: seq<nat>, records: seq<ProxyInfo>) {
    |latency| == |BUCKETS| && forall i :: 0 <= i < |BUCKETS| ==> latency[i] == Count(records, InBucket(i))
  }

  ghost predicate Rows<K(!new)>(rows: seq<Row<K>>, records: seq<ProxyInfo>, classOf: K -> Class) {
    && KeysOnce(rows) && Descending(rows)
    && (forall i :: 0 <= i < |rows| ==> rows[i].tally == TallyOf(records, classOf(rows[i].key)))
    && (forall k :: Count(records, classOf(k)) > 0 <==> exists i :: 0 <= i < |rows| && rows[i].key == k)
  }

  lemma ListsAreRows<K(!new)>(rows: seq<Row<K>>, m: map<K, Tally>, records: seq<ProxyInfo>, classOf: K -> Class)
    requires Lists(rows, m, m.Keys) && Descending(rows) && Tallied(m, records, classOf)
    ensures Rows(rows, records, classOf)
  {
  }

  /** What the pass keeps while it runs. */
  datatype Counters = Counters(
    working: nat, tunnelCapable: nat, unverified: nat, belowThreshold: nat, due: nat,
    protocols: map<Protocol, Tally>, anonymities: map<Anonymity, Tally>, countries: map<string, Tally>,
    latency: seq<nat>, exits: set<IpAddr>)

  ghost predicate Counted(c: Counters, records: seq<ProxyInfo>, minScore: real, now: Time) {
    && c.working == Count(records, Works)
    && c.unverified == Count(records, Unverified)
    && c.tunnelCapable == Count(records, TunnelCapable(minScore))
    && c.belowThreshold == Count(records, BelowThreshold(minScore))
    && c.due == Count(records, DueBy(now))
    && Tallied(c.protocols, records, ProtocolClass)
    && Tallied(c.anonymities, records, AnonymityClass)
    && Tallied(c.countries, records, CountryClass)
    && Bucketed(c.latency, records)
    && c.exits == Exits(records)
  }

  method CountPool(records: seq<ProxyInfo>, minScore: real, now: Time)
    returns (s: PoolStatistics, ghost countries: seq<Row<string>>)
    ensures s.poolSize == |records|
    ensures s.working == Count(records, Works)
    ensures s.unverified == Count(records, Unverified)
    ensures s.tunnelCapable == Count(records, TunnelCapable(minScore))
    ensures s.belowThreshold == Count(records, BelowThreshold(minScore))
    ensures s.due == Count(records, DueBy(now))
    ensures Rows(s.byProtocol, records, ProtocolClass)
    ensures Rows(s.byAnonymity, records, AnonymityClass)
    ensures Rows(countries, records, CountryClass)
    ensures s.byCountry == countries[..Min(20, |countries|)]
    ensures Bucketed(s.latency, records)
    ensures s.distinctExits == |Exits(records)|
  {
    hide Tallied, Bucketed, Count, Rows, Exits, Lists, Descending;
    var c := Counters(0, 0, 0, 0, 0, map[], map[], map[], seq(|BUCKETS|, _ => 0), {});
    NothingCounted(c, minScore, now);
    assert records[..0] == [];
    for k := 0 to |records|
      invariant Counted(c, records[..k], minScore, now)
    {
      assert records[..k + 1] == records[..k] + [records[k]];
      c := CountNext(c, records[k], minScore, now, records[..k]);
    }
    assert records[..|records|] == records;
    var byProtocol := Ranked(c.protocols);
    ListsAreRows(byProtocol, c.protocols, records, ProtocolClass);
    var byAnonymity := Ranked(c.anonymities);
    ListsAreRows(byAnonymity, c.anonymities, records, AnonymityClass);
    var byCountry := Ranked(c.countries);
    countries := byCountry;
    ListsAreRows(countries, c.countries, records, CountryClass);
    s := PoolStatistics(|records|, c.working, c.tunnelCapable, c.unverified, c.belowThreshold, c.due, byProtocol,
                        byAnonymity, byCountry[..Min(COUNTRY_ROWS, |byCountry|)], c.latency, |c.exits|);
  }

  /** One turn of the loop. */
  method CountNext(c0: Counters, p: ProxyInfo, minScore: real, now: Time, ghost seen: seq<ProxyInfo>)
    returns (c: Counters)
    requires Counted(c0, seen, minScore, now)
    ensures Counted(c, seen + [p], minScore, now)
  {
    hide Tallied, Bumped, Bucketed, Count, Exits;
    var working, tunnelCapable, unverified, belowThreshold, due :=
      CountOne(p, minScore, now, c0.working, c0.tunnelCapable, c0.unverified, c0.belowThreshold, c0.due);
    CountOneMore(seen, p, Works);
    CountOneMore(seen, p, Unverified);
    CountOneMore(seen, p, TunnelCapable(minScore));
    CountOneMore(seen, p, BelowThreshold(minScore));
    CountOneMore(seen, p, DueBy(now));
    var protocols := Bumped(c0.protocols, p.protocol, p.IsWorking());
    var anonymities := Bumped(c0.anonymities, p.anonymity, p.IsWorking());
    var countries := c0.countries;
    if p.country.Some? {
      countries := Bumped(countries, p.country.value, p.IsWorking());
    }
    OneMoreTallied(c0.protocols, c0.anonymities, c0.countries, seen, p);
    var latency := CountLatency(p, c0.latency, seen);
    var exits := c0.exits;
    if p.exitIp.Some? {
      exits := exits + {p.exitIp.value};
    }
    OneMoreExit(seen, p);
    c := Counters(working, tunnelCapable, unverified, belowThreshold, due, protocols, anonymities, countries, latency,
                  exits);
  }

  /** The part of the pass that keeps plain counters. */
  method CountOne(p: ProxyInfo, minScore: real, now: Time, working0: nat, tunnelCapable0: nat, unverified0: nat,
                  belowThreshold0: nat, due0: nat)
    returns (working: nat, tunnelCapable: nat, unverified: nat, belowThreshold: nat, due: nat)
    ensures working == working0 + if In(p, Works) then 1 else 0
    ensures unverified == unverified0 + if In(p, Unverified) then 1 else 0
    ensures tunnelCapable == tunnelCapable0 + if In(p, TunnelCapable(minScore)) then 1 else 0
    ensures belowThreshold == belowThreshold0 + if In(p, BelowThreshold(minScore)) then 1 else 0
    ensures due == due0 + if In(p, DueBy(now)) then 1 else 0
  {
    working, tunnelCapable, unverified, belowThreshold, due :=
      working0, tunnelCapable0, unverified0, belowThreshold0, due0;
    if p.IsWorking() {
      working := working + 1;
      if p.supportsTunnel && p.score >= minScore {
        tunnelCapable := tunnelCapable + 1;
      } else {
        belowThreshold := belowThreshold + 1;
      }
    } else {
      unverified := unverified + 1;
    }
    if p.nextProbeAt <= now {
      due := due + 1;
    }
  }

  /** The part that keeps the latency ranges. */
  method CountLatency(p: ProxyInfo, latency0: seq<nat>, ghost seen: seq<ProxyInfo>) returns (latency: seq<nat>)
    requires Bucketed(latency0, seen)
    ensures Bucketed(latency, seen + [p])
  {
    hide Count;
    latency := latency0;
    if p.latency.Some? {
      var index := BucketOf(p.latency.value);
      BucketKeeps(latency, seen, p, index);
      latency := latency[index := latency[index] + 1];
    } else {
      NoBucketKeeps(latency, seen, p);
    }
  }

  lemma NothingCounted(c: Counters, minScore: real, now: Time)
    requires c == Counters(0, 0, 0, 0, 0, map[], map[], map[], seq(|BUCKETS|, _ => 0), {})
    ensures Counted(c, [], minScore, now)
  {
  }

  lemma OneMoreTallied(protocols: map<Protocol, Tally>, anonymities: map<Anonymity, Tally>,
                       countries: map<string, Tally>, records: seq<ProxyInfo>, p: ProxyInfo)
    requires Tallied(protocols, records, ProtocolClass) && Tallied(anonymities, records, AnonymityClass)
    requires Tallied(countries, records, CountryClass)
    ensures Tallied(Bumped(protocols, p.protocol, p.IsWorking()), records + [p], ProtocolClass)
    ensures Tallied(Bumped(anonymities, p.anonymity, p.IsWorking()), records + [p], AnonymityClass)
    ensures Tallied(if p.country.Some? then Bumped(countries, p.country.value, p.IsWorking()) else countries,
                    records + [p], CountryClass)
  {
    hide Tallied, Bumped, Count;
    BumpKeepsTallied(protocols, records, ProtocolClass, p, p.protocol);
    BumpKeepsTallied(anonymities, records, AnonymityClass, p, p.anonymity);
    if p.country.Some? {
      BumpKeepsTallied(countries, records, CountryClass, p, p.country.value);
    } else {
      NoKeyKeepsTallied(countries, records, CountryClass, p);
    }
  }

  lemma OneMoreExit(records: seq<ProxyInfo>, p: ProxyInfo)
    ensures Exits(records + [p]) == Exits(records) + if p.exitIp.Some? then {p.exitIp.value} else {}
  {
    forall x | x in Exits(records) ensures x in Exits(records + [p]) {
      var q :| q in records && q.exitIp.Some? && q.exitIp.value == x;
      assert q in records + [p];
    }
    assert p in records + [p];
  }

  lemma BucketKeeps(latency: seq<nat>, records: seq<ProxyInfo>, p: ProxyInfo, index: nat)
    requires Bucketed(latency, records) && p.latency.Some?
    requires index < |BUCKETS|
    requires forall i :: 0 <= i < |BUCKETS| ==> (Holds(BUCKETS[i], p.latency.value) <==> i == index)
    ensures index < |latency| && Bucketed(latency[index := latency[index] + 1], records + [p])
  {
    forall i | 0 <= i < |BUCKETS|
      ensures Count(records + [p], InBucket(i)) == Count(records, InBucket(i)) + if i == index then 1 else 0 {
      CountOneMore(records, p, InBucket(i));
    }
  }

  lemma NoBucketKeeps(latency: seq<nat>, records: seq<ProxyInfo>, p: ProxyInfo)
    requires Bucketed(latency, records) && p.latency.None?
    ensures Bucketed(latency, records + [p])
  {
    forall i | 0 <= i < |BUCKETS| ensures Count(records + [p], InBucket(i)) == Count(records, InBucket(i)) {
      CountOneMore(records, p, InBucket(i));
    }
  }

  // ----- what the numbers add up to -----

  lemma {:induction false} WorkingSplitsThePool(records: seq<ProxyInfo>, minScore: real)
    ensures Count(records, Works) + Count(records, Unverified) == |records|
    ensures Count(records, TunnelCapable(minScore)) + Count(records, BelowThreshold(minScore)) == Count(records, Works)
  {
    if records != [] {
      WorkingSplitsThePool(records[..|records| - 1], minScore);
    }
  }

  /** The number of proxies that are due is the length of the list a probe batch is taken from. */
  lemma {:induction false} DueIsTheDueList(records: seq<ProxyInfo>, now: Time)
    ensures Count(records, DueBy(now)) == |PoolSpec.Due(records, now)|
  {
    if records != [] {
      DueIsTheDueList(records[..|records| - 1], now);
    }
  }

  /** `unverified` is the number never confirmed to work exactly when none that was is failing now. */
  lemma {:induction false} UnverifiedIsNeverConfirmedIff(records: seq<ProxyInfo>)
    ensures Count(records, NeverConfirmed) <= Count(records, Unverified)
    ensures Count(records, Unverified) == Count(records, NeverConfirmed)
            <==> forall i :: 0 <= i < |records| && records[i].lastSuccess.Some? ==> records[i].consecutiveFailures == 0
  {
    if records != [] {
      UnverifiedIsNeverConfirmedIff(records[..|records| - 1]);
    }
  }

  /** One proxy that worked once and is failing now counts as unverified, and was confirmed. */
  lemma FailingCountsAsUnverified(p: ProxyInfo)
    requires p.lastSuccess.Some? && p.consecutiveFailures > 0
    ensures Count([p], Unverified) == 1 && Count([p], NeverConfirmed) == 0
  {
    assert [p][..0] == [];
    assert Count([p][..0], Unverified) == 0 && Count([p][..0], NeverConfirmed) == 0;
  }

  /** `below_threshold` is the number of working proxies too slow to select exactly when all others of them tunnel. */
  lemma {:induction false} BelowThresholdIsTooSlowIff(records: seq<ProxyInfo>, minScore: real)
    ensures Count(records, TooSlow(minScore)) <= Count(records, BelowThreshold(minScore))
    ensures Count(records, BelowThreshold(minScore)) == Count(records, TooSlow(minScore))
            <==> forall i :: 0 <= i < |records| && records[i].IsWorking() && records[i].score >= minScore ==>
                   records[i].supportsTunnel
  {
    if records != [] {
      BelowThresholdIsTooSlowIff(records[..|records| - 1], minScore);
    }
  }

  /** One working proxy that is fast enough but opens no tunnel counts as below the threshold. */
  lemma FastWithoutTunnelCountsAsBelow(p: ProxyInfo, minScore: real)
    requires p.IsWorking() && p.score >= minScore && !p.supportsTunnel
    ensures Count([p], BelowThreshold(minScore)) == 1 && Count([p], TooSlow(minScore)) == 0
  {
    assert [p][..0] == [];
    assert Count([p][..0], BelowThreshold(minScore)) == 0 && Count([p][..0], TooSlow(minScore)) == 0;
  }

  function Total<K>(rows: seq<Row<K>>): Tally {
    if rows == [] then Tally(0, 0)
    else
      var n := |rows| - 1;
      var rest := Total(rows[..n]);
      Tally(rest.count + rows[n].tally.count, rest.working + rows[n].tally.working)
  }

  function Sum<K>(keys: seq<K>, records: seq<ProxyInfo>, classOf: K -> Class): Tally {
    if keys == [] then Tally(0, 0)
    else
      var n := |keys| - 1;
      var rest := Sum(keys[..n], records, classOf);
      Tally(rest.count + Count(records, classOf(keys[n])), rest.working + Count(records, Both(classOf(keys[n]), Works)))
  }

  ghost predicate InOneOf<K>(keys: seq<K>, p: ProxyInfo, classOf: K -> Class) {
    exists i :: 0 <= i < |keys| && In(p, classOf(keys[i]))
  }

  lemma InOneOfLast<K>(keys: seq<K>, p: ProxyInfo, classOf: K -> Class)
    requires keys != []
    ensures var n := |keys| - 1;
            InOneOf(keys, p, classOf) <==> InOneOf(keys[..n], p, classOf) || In(p, classOf(keys[n]))
  {
    hide In;
    var n := |keys| - 1;
    if i :| 0 <= i < n && In(p, classOf(keys[i])) {
      assert keys[..n][i] == keys[i];
    }
  }

  lemma {:induction false} SumOneMore<K(!new)>(keys: seq<K>, records: seq<ProxyInfo>, p: ProxyInfo, classOf: K -> Class)
    requires Distinct(keys)
    requires forall k, l :: In(p, classOf(k)) && In(p, classOf(l)) ==> k == l
    ensures var hit := InOneOf(keys, p, classOf);
            var before, after := Sum(keys, records, classOf), Sum(keys, records + [p], classOf);
            && after.count == before.count + (if hit then 1 else 0)
            && after.working == before.working + (if hit && p.IsWorking() then 1 else 0)
  {
    hide In, Count;
    if keys != [] {
      var n := |keys| - 1;
      SumOneMore(keys[..n], records, p, classOf);
      CountOneMore(records, p, classOf(keys[n]));
      CountOneMore(records, p, Both(classOf(keys[n]), Works));
      BothWorks(p, classOf(keys[n]));
      InOneOfLast(keys, p, classOf);
    }
  }

  /** The classes of these keys cut the records of `whole` into parts: no two overlap and none is missed. */
  ghost predicate Partition<K(!new)>(keys: seq<K>, records: seq<ProxyInfo>, classOf: K -> Class, whole: Class) {
    && Distinct(keys)
    && (forall p, k, l :: p in records && In(p, classOf(k)) && In(p, classOf(l)) ==> k == l)
    && (forall p :: p in records ==> (In(p, whole) <==> InOneOf(keys, p, classOf)))
  }

  lemma {:induction false} PartsAddUp<K(!new)>(keys: seq<K>, records: seq<ProxyInfo>, classOf: K -> Class, whole: Class)
    requires Partition(keys, records, classOf, whole)
    ensures Sum(keys, records, classOf) == TallyOf(records, whole)
  {
    hide In, Count;
    if records == [] {
      assert TallyOf([], whole) == Tally(0, 0) by { NothingIsCounted(whole); }
      NothingToSum(keys, classOf);
    } else {
      var n := |records| - 1;
      var p := records[n];
      assert records == records[..n] + [p] && p in records;
      assert forall q :: q in records[..n] ==> q in records;
      PartsAddUp(keys, records[..n], classOf, whole);
      SumOneMore(keys, records[..n], p, classOf);
      CountOneMore(records[..n], p, whole);
      CountOneMore(records[..n], p, Both(whole, Works));
      BothWorks(p, whole);
    }
  }

  lemma NothingIsCounted(c: Class)
    ensures TallyOf([], c) == Tally(0, 0)
  {
  }

  lemma BothWorks(p: ProxyInfo, c: Class)
    ensures In(p, Both(c, Works)) <==> In(p, c) && p.IsWorking()
  {
  }

  lemma {:induction false} NothingToSum<K(!new)>(keys: seq<K>, classOf: K -> Class)
    ensures Sum(keys, [], classOf) == Tally(0, 0)
  {
    if keys != [] {
      NothingToSum(keys[..|keys| - 1], classOf);
    }
  }

  function KeysOf<K>(rows: seq<Row<K>>): (keys: seq<K>)
    ensures |keys| == |rows| && forall i :: 0 <= i < |rows| ==> keys[i] == rows[i].key
  {
    seq(|rows|, i requires 0 <= i < |rows| => rows[i].key)
  }

  lemma {:induction false} TotalIsSum<K(!new)>(rows: seq<Row<K>>, records: seq<ProxyInfo>, classOf: K -> Class)
    requires forall i :: 0 <= i < |rows| ==> rows[i].tally == TallyOf(records, classOf(rows[i].key))
    ensures Total(rows) == Sum(KeysOf(rows), records, classOf)
  {
    if rows != [] {
      var n := |rows| - 1;
      TotalIsSum(rows[..n], records, classOf);
      assert KeysOf(rows)[..n] == KeysOf(rows[..n]);
    }
  }

  /** Whatever a record's key is, its class is not empty. */
  lemma {:induction false} MemberIsCounted(records: seq<ProxyInfo>, p: ProxyInfo, c: Class)
    requires p in records && In(p, c)
    ensures Count(records, c) > 0
  {
    var n := |records| - 1;
    if records[n] != p {
      assert records == records[..n] + [records[n]];
      MemberIsCounted(records[..n], p, c);
    }
  }

  lemma MemberIsListed<K(!new)>(rows: seq<Row<K>>, records: seq<ProxyInfo>, classOf: K -> Class, p: ProxyInfo, k: K)
    returns (i: nat)
    requires Rows(rows, records, classOf) && p in records && In(p, classOf(k))
    ensures i < |rows| && rows[i].key == k
  {
    hide In;
    MemberIsCounted(records, p, classOf(k));
    i :| 0 <= i < |rows| && rows[i].key == k;
  }

  /** A record is in the class of its key and of no other, and in the whole if it has one. */
  ghost predicate KeyedBy<K(!new)>(classOf: K -> Class, keyOf: ProxyInfo -> Option<K>, whole: Class) {
    && (forall p, k {:trigger In(p, classOf(k))} :: In(p, classOf(k)) <==> keyOf(p) == Some(k))
    && (forall p {:trigger In(p, whole)} :: In(p, whole) <==> keyOf(p).Some?)
  }

  lemma RowsPartition<K(!new)>(rows: seq<Row<K>>, records: seq<ProxyInfo>, classOf: K -> Class,
                               keyOf: ProxyInfo -> Option<K>, whole: Class)
    requires Rows(rows, records, classOf) && KeyedBy(classOf, keyOf, whole)
    ensures Partition(KeysOf(rows), records, classOf, whole)
  {
    hide In, Descending;
    var keys := KeysOf(rows);
    forall p | p in records ensures In(p, whole) <==> InOneOf(keys, p, classOf) {
      if In(p, whole) {
        var k := keyOf(p).value;
        assert In(p, classOf(k));
        var i := MemberIsListed(rows, records, classOf, p, k);
        assert keys[i] == k;
      }
    }
  }

  lemma RowsAddUp<K(!new)>(rows: seq<Row<K>>, records: seq<ProxyInfo>, classOf: K -> Class,
                           keyOf: ProxyInfo -> Option<K>, whole: Class)
    requires Rows(rows, records, classOf) && KeyedBy(classOf, keyOf, whole)
    ensures Total(rows) == TallyOf(records, whole)
  {
    TotalIsSum(rows, records, classOf);
    hide Rows, KeyedBy, Partition, In, Sum, Total, Count;
    RowsPartition(rows, records, classOf, keyOf, whole);
    PartsAddUp(KeysOf(rows), records, classOf, whole);
  }

  function ProtocolOf(p: ProxyInfo): Option<Protocol> { Some(p.protocol) }

  function AnonymityOf(p: ProxyInfo): Option<Anonymity> { Some(p.anonymity) }

  function PlaceOf(p: ProxyInfo): Option<string> { p.country }

  /** The protocols and the anonymity classes add up to the pool, the countries to what has a country. */
  lemma ClassesAddUp(records: seq<ProxyInfo>, protocols: seq<Row<Protocol>>, anonymities: seq<Row<Anonymity>>,
                     countries: seq<Row<string>>)
    requires Rows(protocols, records, ProtocolClass) && Rows(anonymities, records, AnonymityClass)
    requires Rows(countries, records, CountryClass)
    ensures Total(protocols) == Tally(|records|, Count(records, Works))
    ensures Total(anonymities) == Tally(|records|, Count(records, Works))
    ensures Total(countries) == TallyOf(records, Placed)
  {
    hide Rows, Total, TallyOf;
    RowsAddUp(protocols, records, ProtocolClass, ProtocolOf, Everyone);
    RowsAddUp(anonymities, records, AnonymityClass, AnonymityOf, Everyone);
    RowsAddUp(countries, records, CountryClass, PlaceOf, Placed);
    EveryoneIsCounted(records);
  }

  lemma {:induction false} EveryoneIsCounted(records: seq<ProxyInfo>)
    ensures TallyOf(records, Everyone) == Tally(|records|, Count(records, Works))
  {
    if records != [] {
      EveryoneIsCounted(records[..|records| - 1]);
    }
  }

  /** A country left out of the shown rows has no more proxies than any that is shown. */
  lemma ShownCountriesAreLargest(countries: seq<Row<string>>, records: seq<ProxyInfo>, country: string, i: nat)
    requires Rows(countries, records, CountryClass)
    requires i < Min(20, |countries|)
    requires forall j :: 0 <= j < Min(20, |countries|) ==> countries[j].key != country
    ensures Count(records, OfCountry(country)) <= countries[i].tally.count
  {
    if Count(records, CountryClass(country)) > 0 {
      var j :| 0 <= j < |countries| && countries[j].key == country;
      assert countries[j].tally == TallyOf(records, CountryClass(country));
    }
  }

  function SumOf(latency: seq<nat>): nat {
    if latency == [] then 0 else SumOf(latency[..|latency| - 1]) + latency[|latency| - 1]
  }

  /** The ranges add up to the proxies with a measured latency. */
  lemma BucketsAddUp(records: seq<ProxyInfo>, latency: seq<nat>)
    requires Bucketed(latency, records)
    ensures SumOf(latency) == Count(records, Measured)
  {
    SevenTerms(latency);
    BucketCounts(records);
  }

  lemma OneTerm(s: seq<nat>, i: nat)
    requires i < |s|
    ensures SumOf(s[..i + 1]) == SumOf(s[..i]) + s[i]
  {
    assert s[..i + 1][..i] == s[..i];
  }

  lemma NoTerms()
    ensures SumOf([]) == 0
  {
  }

  lemma SevenTerms(s: seq<nat>)
    requires |s| == 7
    ensures SumOf(s) == s[0] + s[1] + s[2] + s[3] + s[4] + s[5] + s[6]
  {
    hide SumOf;
    NoTerms();
    OneTerm(s, 0);
    OneTerm(s, 1);
    OneTerm(s, 2);
    OneTerm(s, 3);
    OneTerm(s, 4);
    OneTerm(s, 5);
    OneTerm(s, 6);
    assert s[..0] == [] && s[..7] == s;
  }

  function Indicator(b: bool): nat {
    if b then 1 else 0
  }

  lemma OneBucketEach(p: ProxyInfo)
    ensures Indicator(In(p, InBucket(0))) + Indicator(In(p, InBucket(1))) + Indicator(In(p, InBucket(2)))
            + Indicator(In(p, InBucket(3))) + Indicator(In(p, InBucket(4))) + Indicator(In(p, InBucket(5)))
            + Indicator(In(p, InBucket(6))) == Indicator(In(p, Measured))
  {
  }

  lemma {:induction false} BucketCounts(records: seq<ProxyInfo>)
    ensures Count(records, InBucket(0)) + Count(records, InBucket(1)) + Count(records, InBucket(2))
            + Count(records, InBucket(3)) + Count(records, InBucket(4)) + Count(records, InBucket(5))
            + Count(records, InBucket(6)) == Count(records, Measured)
  {
    hide In;
    if records != [] {
      OneBucketEach(records[|records| - 1]);
      BucketCounts(records[..|records| - 1]);
    }
  }
}
