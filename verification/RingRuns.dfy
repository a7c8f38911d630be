/** The ring of recently used proxies when picks interleave: reading it and remembering in it are two locks. */
module RingRuns {
  import opened Common
  import opened Proxies
  import opened PoolSpec
  import opened LocalProxySpec
  import opened LocalProxies
  import opened LocalProxyRuns

  /** What a client read of the ring, and how many picks had been remembered by then. */
  datatype Look = Look(snapshot: seq<UsedProxy>, since: nat)

  /** The ring, every pick remembered so far, and the clients between reading and remembering. */
  datatype Ring = Ring(recent: seq<UsedProxy>, log: seq<UsedProxy>, looks: map<nat, Look>)

  /** The pool a client chooses from is whatever the rest of the engine has made of it by then. */
  datatype Step =
    | Reads(client: nat)
    | Remembers(client: nat, pool: Pool, dropped: set<ProxyId>, policy: ProxyPolicy, at: Time)

  function Chosen(cfg: Config, r: Ring, s: Step): Option<ProxyInfo>
    requires s.Remembers?
  {
    if s.client !in r.looks then None
    else BestRecord(cfg, s.pool.records, RecentlyUsed(r.looks[s.client].snapshot, s.dropped, s.policy), s.at)
  }

  function Take(cfg: Config, r: Ring, s: Step): Ring {
    match s
    case Reads(client) => r.(looks := r.looks[client := Look(r.recent, |r.log|)])
    case Remembers(client, _, _, _, _) =>
      var chosen := Chosen(cfg, r, s);
      var looks := r.looks - {client};
      if chosen.None? then r.(looks := looks)
      else Ring(Remember(r.recent, chosen.value), r.log + [UsedProxy(chosen.value.id, chosen.value.exitIp)], looks)
  }

  function TakeAll(cfg: Config, r: Ring, steps: seq<Step>): Ring
    decreases |steps|
  {
    if steps == [] then r else TakeAll(cfg, Take(cfg, r, steps[0]), steps[1..])
  }

  /** The ring is the newest of what was remembered, and what a client read was so when it read it. */
  ghost predicate RingInv(r: Ring) {
    && r.recent == Newest(r.log)
    && forall c :: c in r.looks ==>
         r.looks[c].since <= |r.log| && r.looks[c].snapshot == Newest(r.log[..r.looks[c].since])
  }

  /** What is about to be remembered differs from the picks remembered since its ring was read, sixteen at most. */
  ghost predicate Fresh(cfg: Config, r: Ring, s: Step) {
    s.Remembers? && Chosen(cfg, r, s).Some? ==>
      var p := Chosen(cfg, r, s).value;
      forall i :: Max(r.looks[s.client].since, |r.log| - RING) <= i < |r.log| ==>
        Differ(r.log[i], UsedProxy(p.id, p.exitIp))
  }

  ghost predicate AllFresh(cfg: Config, r: Ring, steps: seq<Step>)
    decreases |steps|
  {
    steps == [] || (Fresh(cfg, r, steps[0]) && AllFresh(cfg, Take(cfg, r, steps[0]), steps[1..]))
  }

  lemma TakeKeepsRing(cfg: Config, r: Ring, s: Step)
    requires RingInv(r)
    ensures RingInv(Take(cfg, r, s)) && r.log <= Take(cfg, r, s).log
  {
    hide RecentlyUsed, BestRecord, Remember, Newest;
    var n := Take(cfg, r, s);
    match s {
      case Reads(client) => assert r.log[..|r.log|] == r.log;
      case Remembers(client, _, _, _, _) =>
        if Chosen(cfg, r, s).Some? {
          NewestExtends(r.log, Chosen(cfg, r, s).value);
          forall c | c in n.looks ensures n.log[..n.looks[c].since] == r.log[..r.looks[c].since] {
          }
        }
    }
  }

  lemma NewestAt(log: seq<UsedProxy>, i: nat)
    requires |log| - RING <= i < |log|
    ensures |Newest(log)| <= |log| && i >= |log| - |Newest(log)|
    ensures Newest(log)[i - (|log| - |Newest(log)|)] == log[i]
  {
  }

  /** What was read of the ring leaves out the newest sixteen of what had been remembered by then. */
  lemma ChosenDiffersFromWhatWasRead(cfg: Config, r: Ring, s: Step, i: nat)
    requires RingInv(r) && s.Remembers? && Chosen(cfg, r, s).Some?
    requires |r.log| - RING <= i < r.looks[s.client].since
    ensures var p := Chosen(cfg, r, s).value; Differ(r.log[i], UsedProxy(p.id, p.exitIp))
  {
    hide RecentlyUsed, Eligible, BestRecord, Newest, Differ;
    var look, p := r.looks[s.client], Chosen(cfg, r, s).value;
    BestDiffersFromRecent(cfg, look.snapshot, s.dropped, s.policy, p);
    NewestAt(r.log[..look.since], i);
  }

  lemma SpreadExtendsIff(log: seq<UsedProxy>, u: UsedProxy)
    requires Spread(log)
    ensures Spread(log + [u]) <==> forall i :: Max(0, |log| - RING) <= i < |log| ==> Differ(log[i], u)
  {
    var longer := log + [u];
    if Spread(longer) {
      forall i | Max(0, |log| - RING) <= i < |log| ensures Differ(log[i], u) {
        assert Differ(longer[i], longer[|log|]);
      }
    }
    if forall i :: Max(0, |log| - RING) <= i < |log| ==> Differ(log[i], u) {
      forall i, j | 0 <= i < j < |longer| && j - i <= RING ensures Differ(longer[i], longer[j]) {
        assert longer[i] == log[i];
        if j < |log| {
          assert longer[j] == log[j];
        }
      }
    }
  }

  lemma StepSpreadsIff(cfg: Config, r: Ring, s: Step)
    requires RingInv(r) && Spread(r.log)
    ensures Spread(Take(cfg, r, s).log) <==> Fresh(cfg, r, s)
  {
    hide BestRecord, Remember, Spread, RingInv, Differ;
    if s.Remembers? && Chosen(cfg, r, s).Some? {
      var p := Chosen(cfg, r, s).value;
      SpreadExtendsIff(r.log, UsedProxy(p.id, p.exitIp));
      forall i: nat | |r.log| - RING <= i < r.looks[s.client].since && i < |r.log|
        ensures Differ(r.log[i], UsedProxy(p.id, p.exitIp))
      {
        ChosenDiffersFromWhatWasRead(cfg, r, s, i);
      }
    }
  }

  lemma PrefixIsSpread(a: seq<UsedProxy>, b: seq<UsedProxy>)
    requires a <= b && Spread(b)
    ensures Spread(a)
  {
    forall i, j | 0 <= i < j < |a| && j - i <= RING ensures Differ(a[i], a[j]) {
      assert a[i] == b[i] && a[j] == b[j];
    }
  }

  lemma {:induction false} LogGrows(cfg: Config, r: Ring, steps: seq<Step>)
    requires RingInv(r)
    ensures r.log <= TakeAll(cfg, r, steps).log
    decreases |steps|
  {
    hide Take, RingInv;
    if steps != [] {
      TakeKeepsRing(cfg, r, steps[0]);
      LogGrows(cfg, Take(cfg, r, steps[0]), steps[1..]);
    }
  }

  /**
   * However reads and remembers of any number of clients interleave, and whatever becomes of the pool
   * meanwhile: any seventeen picks in a row differ in id and in known exit if and only if each of them
   * differs from those that were remembered since its client read the ring.
   */
  lemma {:induction false} InterleavedPicksAreSpreadIff(cfg: Config, r: Ring, steps: seq<Step>)
    requires RingInv(r) && Spread(r.log)
    ensures Spread(TakeAll(cfg, r, steps).log) <==> AllFresh(cfg, r, steps)
    ensures RingInv(TakeAll(cfg, r, steps)) && |TakeAll(cfg, r, steps).recent| <= RING
    decreases |steps|
  {
    hide Take, Spread, Fresh;
    if steps != [] {
      var n := Take(cfg, r, steps[0]);
      TakeKeepsRing(cfg, r, steps[0]);
      StepSpreadsIff(cfg, r, steps[0]);
      if Spread(n.log) {
        InterleavedPicksAreSpreadIff(cfg, n, steps[1..]);
      } else {
        RingStays(cfg, n, steps[1..]);
        LogGrows(cfg, n, steps[1..]);
        if Spread(TakeAll(cfg, n, steps[1..]).log) {
          PrefixIsSpread(n.log, TakeAll(cfg, n, steps[1..]).log);
        }
      }
    }
  }

  lemma {:induction false} RingStays(cfg: Config, r: Ring, steps: seq<Step>)
    requires RingInv(r)
    ensures RingInv(TakeAll(cfg, r, steps))
    decreases |steps|
  {
    hide Take, RingInv;
    if steps != [] {
      TakeKeepsRing(cfg, r, steps[0]);
      RingStays(cfg, Take(cfg, r, steps[0]), steps[1..]);
    }
  }

  /** A client between whose two locks nobody remembers anything is always fresh. */
  lemma UninterruptedIsFresh(cfg: Config, r: Ring, s: Step)
    requires s.Remembers? && s.client in r.looks && r.looks[s.client].since == |r.log|
    ensures Fresh(cfg, r, s)
  {
  }

  /** A remembered pick of one step is the two steps taken one after the other. */
  lemma PickReadsThenRemembers(cfg: Config, w: World, e: Event, log: seq<UsedProxy>, looks: map<nat, Look>,
                               client: nat)
    requires e.PickFor? && NewlyUsed(cfg, w, e) != []
    ensures var dropped := if e.policy.rotation.Timed? then TurnedAway(w.local.avoided, e.policyName) else {};
            var both := [Reads(client), Remembers(client, w.pool, dropped, e.policy, e.at)];
            var r := TakeAll(cfg, Ring(w.local.recent, log, looks), both);
            r.recent == Happens(cfg, w, e).local.recent && r.log == log + NewlyUsed(cfg, w, e)
  {
    hide Best, RecentlyUsed, ApartFrom, Remember;
    var dropped := if e.policy.rotation.Timed? then TurnedAway(w.local.avoided, e.policyName) else {};
    var both := [Reads(client), Remembers(client, w.pool, dropped, e.policy, e.at)];
    var r := Ring(w.local.recent, log, looks);
    StickyRemembersNothing(cfg, w.local, w.pool, e.identity, e.policy, e.at);
    TakesFirst(cfg, r, both[0], [both[1]]);
    TakesFirst(cfg, Take(cfg, r, both[0]), both[1], []);
    assert both == [both[0]] + [both[1]] && [both[1]] == [both[1]] + [];
  }

  /** For one: two requests that both read the ring before either remembers are given the same proxy. */
  lemma InterleavedPicksMeet(cfg: Config, p: ProxyInfo, policy: ProxyPolicy, now: Time)
    requires Eligible(cfg, p, Wanted({}, {}, Some(policy)))
    ensures var pool, u := Pool([p], None, {}, {}), UsedProxy(p.id, p.exitIp);
            var both := [Remembers(0, pool, {}, policy, now), Remembers(1, pool, {}, policy, now)];
            var r := TakeAll(cfg, Ring([], [], map[]), [Reads(0), Reads(1)] + both);
            r.log == [u, u] && !Spread(r.log)
  {
    hide BestRecord, RecentlyUsed, TakeAll, Remember;
    var pool, u := Pool([p], None, {}, {}), UsedProxy(p.id, p.exitIp);
    var s2, s3 := Remembers(0, pool, {}, policy, now), Remembers(1, pool, {}, policy, now);
    OnlyChoice(cfg, p, policy, now);
    var r0 := Ring([], [], map[]);
    FourSteps(cfg, r0, Reads(0), Reads(1), s2, s3);
    var r2 := Take(cfg, Take(cfg, r0, Reads(0)), Reads(1));
    assert r2 == Ring([], [], map[0 := Look([], 0), 1 := Look([], 0)]);
    var r3 := Take(cfg, r2, s2);
    assert r3.log == [u] && 1 in r3.looks && r3.looks[1] == Look([], 0);
    var log := Take(cfg, r3, s3).log;
    assert log == [u, u] && !Differ(log[0], log[1]);
  }

  lemma FourSteps(cfg: Config, r: Ring, a: Step, b: Step, c: Step, d: Step)
    ensures TakeAll(cfg, r, [a, b] + [c, d]) == Take(cfg, Take(cfg, Take(cfg, Take(cfg, r, a), b), c), d)
  {
    hide Take;
    var rb := Take(cfg, Take(cfg, r, a), b);
    TakesFirst(cfg, Take(cfg, rb, c), d, []);
    TakesFirst(cfg, rb, c, [d]);
    TakesFirst(cfg, Take(cfg, r, a), b, [c, d]);
    TakesFirst(cfg, r, a, [b] + [c, d]);
    assert [d] + [] == [d] && [c] + [d] == [c, d] && [a] + ([b] + [c, d]) == [a, b] + [c, d];
  }

  lemma OnlyChoice(cfg: Config, p: ProxyInfo, policy: ProxyPolicy, now: Time)
    requires Eligible(cfg, p, Wanted({}, {}, Some(policy)))
    ensures BestRecord(cfg, [p], RecentlyUsed([], {}, policy), now) == Some(p)
  {
    assert RecentlyUsed([], {}, policy) == Wanted({}, {}, Some(policy));
    assert [p][..0] == [];
  }

  lemma TakesFirst(cfg: Config, r: Ring, s: Step, rest: seq<Step>)
    ensures TakeAll(cfg, r, [s] + rest) == TakeAll(cfg, Take(cfg, r, s), rest)
  {
    hide Take;
    assert ([s] + rest)[1..] == rest;
  }

  /**
   * Nor is it remembered who carried after a failover: with nobody else about, the request after it is given
   * that very proxy again.
   */
  lemma FailoverIsPickedNext(cfg: Config, first: ProxyInfo, q: ProxyInfo, policy: ProxyPolicy, now: Time)
    requires Eligible(cfg, first, Wanted({}, {}, Some(policy))) && Eligible(cfg, q, Wanted({}, {}, Some(policy)))
    requires q.id != first.id && q.host != first.host && (q.exitIp.Some? ==> q.exitIp != first.exitIp)
    requires EffectiveScore(cfg, q, now) <= EffectiveScore(cfg, first, now)
    ensures var pool := Pool([q, first], None, {}, {});
            var pick := PerRequestPick(cfg, Local(map[], map[], map[], []), pool, policy, now);
            var failed := ReportFailure(cfg, pool, first.id, now);
            var away := Wanted({ById(first.id), ByHost(first.host)}, RecentExits(pick.local.recent), None);
            var after := PinSession(ReleaseAll(pick.local, {first.id}), "a", q, policy.stickySecs, now);
            && pick.proxy == Some(first)
            && BestRecord(cfg, failed.records, away, now) == Some(q)
            && PerRequestPick(cfg, after, failed, policy, now).proxy == Some(q)
  {
    hide Eligible, EffectiveScore, Best, BestRecord, RecentlyUsed, Remember, Blamed, RecentExits;
    PicksTheSecond(cfg, q, first, policy, now);
    FailsTheSecond(cfg, q, first, now);
    var used := [UsedProxy(first.id, first.exitIp)];
    AwayFromTheFirst(cfg, q, first, used, policy);
    var away := Wanted({ById(first.id), ByHost(first.host)}, RecentExits(used), None);
    OnlyOneWorks(cfg, q, first, away, now);
    OnlyOneWorks(cfg, q, first, RecentlyUsed(used, {}, policy), now);
  }

  lemma PicksTheSecond(cfg: Config, q: ProxyInfo, first: ProxyInfo, policy: ProxyPolicy, now: Time)
    requires Eligible(cfg, first, Wanted({}, {}, Some(policy))) && Eligible(cfg, q, Wanted({}, {}, Some(policy)))
    requires EffectiveScore(cfg, q, now) <= EffectiveScore(cfg, first, now)
    ensures PerRequestPick(cfg, Local(map[], map[], map[], []), Pool([q, first], None, {}, {}), policy, now)
            == Pick(Local(map[], map[], map[], [UsedProxy(first.id, first.exitIp)]), Some(first), true)
  {
    hide Eligible, EffectiveScore;
    assert RecentlyUsed([], {}, policy) == Wanted({}, {}, Some(policy));
    BestOfTwo(cfg, [q, first], Wanted({}, {}, Some(policy)), now);
  }

  lemma FailsTheSecond(cfg: Config, q: ProxyInfo, first: ProxyInfo, now: Time)
    requires q.id != first.id
    ensures ReportFailure(cfg, Pool([q, first], None, {}, {}), first.id, now).records
            == [q, Blamed(first, cfg.schedule, now)]
  {
    hide Blamed;
  }

  lemma AwayFromTheFirst(cfg: Config, q: ProxyInfo, first: ProxyInfo, used: seq<UsedProxy>, policy: ProxyPolicy)
    requires Eligible(cfg, q, Wanted({}, {}, Some(policy))) && used == [UsedProxy(first.id, first.exitIp)]
    requires q.id != first.id && q.host != first.host && (q.exitIp.Some? ==> q.exitIp != first.exitIp)
    ensures Eligible(cfg, q, Wanted({ById(first.id), ByHost(first.host)}, RecentExits(used), None))
    ensures Eligible(cfg, q, RecentlyUsed(used, {}, policy))
  {
  }

  lemma OnlyOneWorks(cfg: Config, q: ProxyInfo, first: ProxyInfo, w: Wanted, now: Time)
    requires Eligible(cfg, q, w)
    ensures BestRecord(cfg, [q, Blamed(first, cfg.schedule, now)], w, now) == Some(q)
  {
    hide BestRecord;
    BestOfTwo(cfg, [q, Blamed(first, cfg.schedule, now)], w, now);
  }

  lemma BestOfTwo(cfg: Config, records: seq<ProxyInfo>, w: Wanted, now: Time)
    requires |records| == 2 && Eligible(cfg, records[0], w)
    ensures Eligible(cfg, records[1], w) && EffectiveScore(cfg, records[0], now) <= EffectiveScore(cfg, records[1], now)
            ==> BestRecord(cfg, records, w, now) == Some(records[1])
    ensures !Eligible(cfg, records[1], w) ==> BestRecord(cfg, records, w, now) == Some(records[0])
  {
    hide Eligible, EffectiveScore;
    var one := records[..1];
    assert one[..0] == [] && one[0] == records[0];
    assert Best(cfg, one, w, now) == Some(0);
  }
}
