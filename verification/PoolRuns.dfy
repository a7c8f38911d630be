/** What holds of the pool over every sequence of operations. */
module PoolRuns {
  import opened Common
  import opened Proxies
  import opened PoolSpec

  function IdList(records: seq<ProxyInfo>): (ids: seq<ProxyId>)
    ensures |ids| == |records|
  {
    seq(|records|, i requires 0 <= i < |records| => records[i].id)
  }

  function DropIds(ids: seq<ProxyId>, gone: set<ProxyId>): seq<ProxyId> {
    if ids == [] then []
    else
      var n := |ids| - 1;
      DropIds(ids[..n], gone) + if ids[n] in gone then [] else [ids[n]]
  }

  /** The ids that were in the pool before and are not in it after. */
  function Gone(s: Pool, t: Pool): set<ProxyId> {
    set i | 0 <= i < |s.records| && !Has(t.records, s.records[i].id) :: s.records[i].id
  }

  /** The ids that left the pool at some point of a run, whether or not they came back. */
  function LeftDuring(cfg: Config, s: Pool, ops: seq<Op>): set<ProxyId>
    decreases |ops|
  {
    if ops == [] then {}
    else
      var t := Apply(cfg, s, ops[0]);
      Gone(s, t) + LeftDuring(cfg, t, ops[1..])
  }

  // ----- searching -----

  lemma SearchFinds(records: seq<ProxyInfo>, i: nat)
    requires UniqueIds(records) && i < |records|
    ensures Position(records, records[i].id) == Some(i)
  {
    var p := Position(records, records[i].id);
  }

  lemma HasIsMembership(records: seq<ProxyInfo>, id: ProxyId)
    ensures Has(records, id) <==> id in IdList(records)
  {
    var p := Position(records, id);
    if p.Some? {
      assert IdList(records)[p.value] == id;
    }
  }

  // ----- the fold operations only append -----

  /** Nothing leaves, nothing moves, and neither the selection nor the id sets are touched. */
  ghost predicate Extends(s: Pool, t: Pool) {
    && IdList(s.records) <= IdList(t.records)
    && t.active == s.active && t.pending == s.pending && t.condemned == s.condemned
  }

  lemma UpdateKeepsIds(records: seq<ProxyInfo>, i: nat, p: ProxyInfo)
    requires i < |records| && p.id == records[i].id
    ensures IdList(records[i := p]) == IdList(records)
  {
  }

  lemma AppendExtends(s: Pool, p: ProxyInfo)
    requires WellFormed(s) && !Has(s.records, p.id)
    ensures WellFormed(s.(records := s.records + [p])) && Extends(s, s.(records := s.records + [p]))
  {
    var t := s.(records := s.records + [p]);
    assert IdList(t.records) == IdList(s.records) + [p.id];
    if s.active.Some? {
      HasIsMembership(s.records, s.active.value);
      HasIsMembership(t.records, s.active.value);
    }
  }

  lemma UpdateExtends(s: Pool, i: nat, p: ProxyInfo)
    requires WellFormed(s) && i < |s.records| && p.id == s.records[i].id
    ensures WellFormed(s.(records := s.records[i := p])) && Extends(s, s.(records := s.records[i := p]))
  {
    UpdateKeepsIds(s.records, i, p);
    if s.active.Some? {
      HasIsMembership(s.records, s.active.value);
      HasIsMembership(s.records[i := p], s.active.value);
    }
  }

  lemma {:induction false} MergeExtends(s: Pool, discovered: seq<ProxyInfo>, now: Time)
    requires WellFormed(s)
    ensures WellFormed(Merge(s, discovered, now)) && Extends(s, Merge(s, discovered, now))
  {
    if discovered != [] {
      var n := |discovered| - 1;
      var t := Merge(s, discovered[..n], now);
      var p := discovered[n];
      MergeExtends(s, discovered[..n], now);
      var i := Position(t.records, p.id);
      if p.id !in t.condemned {
        if i.Some? {
          UpdateExtends(t, i.value, Refreshed(t.records[i.value], p));
        } else {
          AppendExtends(t, p.Discovered(now));
        }
      }
    }
  }

  lemma {:induction false} RestoreExtends(s: Pool, saved: seq<ProxyInfo>)
    requires WellFormed(s)
    ensures WellFormed(Restore(s, saved)) && Extends(s, Restore(s, saved))
  {
    if saved != [] {
      var n := |saved| - 1;
      RestoreExtends(s, saved[..n]);
      var t := Restore(s, saved[..n]);
      if !Has(t.records, saved[n].id) {
        AppendExtends(t, saved[n]);
      }
    }
  }

  // ----- removal -----

  lemma {:induction false} WithoutFilters(records: seq<ProxyInfo>, doomed: set<ProxyId>)
    ensures IdList(Without(records, doomed)) == DropIds(IdList(records), doomed)
  {
    if records != [] {
      var n := |records| - 1;
      WithoutFilters(records[..n], doomed);
      assert IdList(records)[..n] == IdList(records[..n]);
    }
  }

  lemma {:induction false} DropIdsMembers(ids: seq<ProxyId>, gone: set<ProxyId>, id: ProxyId)
    ensures id in DropIds(ids, gone) <==> id in ids && id !in gone
  {
    if ids != [] {
      var n := |ids| - 1;
      DropIdsMembers(ids[..n], gone, id);
      assert ids == ids[..n] + [ids[n]];
    }
  }

  lemma {:induction false} DropIdsDistinct(ids: seq<ProxyId>, gone: set<ProxyId>)
    requires Distinct(ids)
    ensures Distinct(DropIds(ids, gone))
  {
    if ids != [] {
      var n := |ids| - 1;
      DropIdsDistinct(ids[..n], gone);
      DropIdsMembers(ids[..n], gone, ids[n]);
    }
  }

  /** Only what is in the list matters to a removal. */
  lemma {:induction false} DropIdsAgree(ids: seq<ProxyId>, a: set<ProxyId>, b: set<ProxyId>)
    requires forall i :: 0 <= i < |ids| ==> (ids[i] in a <==> ids[i] in b)
    ensures DropIds(ids, a) == DropIds(ids, b)
  {
    if ids != [] {
      DropIdsAgree(ids[..|ids| - 1], a, b);
    }
  }

  lemma {:induction false} DropIdsConcat(x: seq<ProxyId>, y: seq<ProxyId>, gone: set<ProxyId>)
    ensures DropIds(x + y, gone) == DropIds(x, gone) + DropIds(y, gone)
  {
    if y == [] {
      assert x + y == x;
    } else {
      var n := |y| - 1;
      DropIdsConcat(x, y[..n], gone);
      assert (x + y)[..|x + y| - 1] == x + y[..n];
    }
  }

  lemma {:induction false} DropIdsTwice(ids: seq<ProxyId>, a: set<ProxyId>, b: set<ProxyId>)
    ensures DropIds(DropIds(ids, a), b) == DropIds(ids, a + b)
  {
    if ids != [] {
      var n := |ids| - 1;
      DropIdsTwice(ids[..n], a, b);
      DropIdsConcat(DropIds(ids[..n], a), if ids[n] in a then [] else [ids[n]], b);
    }
  }

  lemma RetainKeeps(s: Pool, doomed: set<ProxyId>)
    requires WellFormed(s)
    ensures WellFormed(Retain(s, doomed))
    ensures forall id :: Has(Retain(s, doomed).records, id) <==> Has(s.records, id) && id !in doomed
    ensures IdList(Retain(s, doomed).records) == DropIds(IdList(s.records), doomed)
  {
    var t := Retain(s, doomed);
    WithoutFilters(s.records, doomed);
    forall id ensures Has(t.records, id) <==> Has(s.records, id) && id !in doomed {
      HasIsMembership(s.records, id);
      HasIsMembership(t.records, id);
      DropIdsMembers(IdList(s.records), doomed, id);
    }
    assert Distinct(IdList(s.records));
    DropIdsDistinct(IdList(s.records), doomed);
    forall i, j | 0 <= i < j < |t.records| ensures t.records[i].id != t.records[j].id {
      assert IdList(t.records)[i] != IdList(t.records)[j];
    }
  }

  // ----- every operation -----

  predicate Selects(op: Op) {
    op.SetActiveOp? || op.ActivateBestOp? || op.ClearActiveOp? || op.RotateOp?
  }

  /** What one operation may do to membership, order and selection. */
  ghost predicate Lawful(s: Pool, op: Op, t: Pool) {
    && WellFormed(t)
    && DropIds(IdList(s.records), Gone(s, t)) <= IdList(t.records)
    && (!Selects(op) ==>
          t.active == if s.active.Some? && s.active.value in Gone(s, t) then None else s.active)
  }

  lemma NothingGone(s: Pool, t: Pool)
    requires WellFormed(s) && IdList(s.records) <= IdList(t.records)
    ensures Gone(s, t) == {} && DropIds(IdList(s.records), Gone(s, t)) == IdList(s.records)
  {
    forall i | 0 <= i < |s.records| ensures Has(t.records, s.records[i].id) {
      assert IdList(t.records)[i] == IdList(s.records)[i] == s.records[i].id;
      HasIsMembership(t.records, s.records[i].id);
    }
    DropNothing(IdList(s.records));
  }

  /** An operation that only appends, and touches the selection only if it may, is lawful. */
  lemma AppendingIsLawful(s: Pool, op: Op, t: Pool)
    requires WellFormed(s) && WellFormed(t) && IdList(s.records) <= IdList(t.records)
    requires Selects(op) || t.active == s.active
    ensures Lawful(s, op, t)
  {
    NothingGone(s, t);
  }

  lemma {:induction false} DropNothing(ids: seq<ProxyId>)
    ensures DropIds(ids, {}) == ids
  {
    if ids != [] {
      var n := |ids| - 1;
      DropNothing(ids[..n]);
      assert ids == ids[..n] + [ids[n]];
    }
  }

  lemma RetainIsLawful(s: Pool, op: Op, t: Pool, doomed: set<ProxyId>)
    requires WellFormed(s) && !Selects(op)
    requires t.records == Retain(s, doomed).records && t.active == Retain(s, doomed).active
    ensures Lawful(s, op, t)
  {
    RetainKeeps(s, doomed);
    forall i | 0 <= i < |s.records|
      ensures IdList(s.records)[i] in doomed <==> IdList(s.records)[i] in Gone(s, t)
    {
      SearchFinds(s.records, i);
    }
    DropIdsAgree(IdList(s.records), doomed, Gone(s, t));
    if s.active.Some? {
      var p := Position(s.records, s.active.value);
      assert IdList(s.records)[p.value] == s.active.value;
    }
  }

  /** Every operation keeps ids distinct, removals keep the order, and the selection follows its id. */
  lemma EveryOperationIsLawful(cfg: Config, s: Pool, op: Op)
    requires WellFormed(s)
    ensures Lawful(s, op, Apply(cfg, s, op))
  {
    hide Lawful, Gone, DropIds, Merge, Restore;
    var t := Apply(cfg, s, op);
    match op {
      case RemoveOp(id) =>
        if Has(s.records, id) {
          RetainIsLawful(s, op, t, {id});
        } else {
          AppendingIsLawful(s, op, t);
        }
      case EnforceCapacityOp(max) =>
        if |s.records| <= max {
          AppendingIsLawful(s, op, t);
        } else {
          RetainIsLawful(s, op, t, Doomed(s.records, max));
        }
      case EvictPendingOp => RetainIsLawful(s, op, t, s.pending);
      case _ =>
        if Selects(op) {
          SelectionStaysInside(cfg, s, op);
        } else {
          FoldingOnlyAppends(cfg, s, op);
        }
        AppendingIsLawful(s, op, t);
    }
  }

  lemma FoldingOnlyAppends(cfg: Config, s: Pool, op: Op)
    requires WellFormed(s) && !Selects(op) && !op.RemoveOp? && !op.EnforceCapacityOp? && !op.EvictPendingOp?
    ensures WellFormed(Apply(cfg, s, op)) && IdList(s.records) <= IdList(Apply(cfg, s, op).records)
    ensures Apply(cfg, s, op).active == s.active
  {
    hide UniqueIds;
    match op {
      case MergeOp(discovered, at) => MergeExtends(s, discovered, at);
      case RestoreOp(saved) => RestoreExtends(s, saved);
      case AddOp(proxy, at) =>
        var i := Position(s.records, proxy.id);
        if i.Some? {
          UpdateExtends(s, i.value, proxy.Discovered(at));
        } else {
          AppendExtends(s, proxy.Discovered(at));
        }
      case ResultOp(result, policy, schedule, at) =>
        var i := Position(s.records, result.proxyId);
        if i.Some? {
          UpdateExtends(s, i.value, Probed(s.records[i.value], result, schedule, at));
        }
      case TrafficFailureOp(id, at) =>
        var i := Position(s.records, id);
        if i.Some? {
          UpdateExtends(s, i.value, Blamed(s.records[i.value], cfg.schedule, at));
        }
      case RememberCondemnedOp(ids) =>
    }
  }

  lemma SelectionStaysInside(cfg: Config, s: Pool, op: Op)
    requires WellFormed(s) && Selects(op)
    ensures WellFormed(Apply(cfg, s, op)) && Apply(cfg, s, op).records == s.records
  {
    match op {
      case ActivateBestOp(wanted, at) =>
        var i := Best(cfg, s.records, wanted, at);
        if i.Some? {
          SearchFinds(s.records, i.value);
        }
      case RotateOp =>
        if s.records != [] {
          var at := if s.active.Some? then Position(s.records, s.active.value) else None;
          SearchFinds(s.records, if at.Some? then (at.value + 1) % |s.records| else 0);
        }
      case _ =>
    }
  }

  /** The index can always be rebuilt: ids stay distinct and the selection stays inside, whatever happens. */
  lemma {:induction false} PoolStaysWellFormed(cfg: Config, s: Pool, ops: seq<Op>)
    requires WellFormed(s)
    ensures WellFormed(Run(cfg, s, ops))
    decreases |ops|
  {
    if ops != [] {
      EveryOperationIsLawful(cfg, s, ops[0]);
      PoolStaysWellFormed(cfg, Apply(cfg, s, ops[0]), ops[1..]);
    }
  }

  /** The proxies that never left stay at the front of the pool, in the order they had. */
  lemma {:induction false} SurvivorsKeepTheirOrder(cfg: Config, s: Pool, ops: seq<Op>)
    requires WellFormed(s)
    ensures DropIds(IdList(s.records), LeftDuring(cfg, s, ops)) <= IdList(Run(cfg, s, ops).records)
    decreases |ops|
  {
    hide Apply, Gone, DropIds, UniqueIds, Position;
    var ids := IdList(s.records);
    if ops == [] {
      DropNothing(ids);
    } else {
      var t := Apply(cfg, s, ops[0]);
      EveryOperationIsLawful(cfg, s, ops[0]);
      SurvivorsKeepTheirOrder(cfg, t, ops[1..]);
      var front := DropIds(ids, Gone(s, t));
      var later := LeftDuring(cfg, t, ops[1..]);
      assert IdList(t.records) == front + IdList(t.records)[|front|..];
      DropIdsConcat(front, IdList(t.records)[|front|..], later);
      DropIdsTwice(ids, Gone(s, t), later);
    }
  }

  /**
   * Over any run that makes no selection of its own, the selection stays on the same proxy, and is
   * given up exactly when that proxy left.
   */
  lemma {:induction false} SelectionFollowsItsProxy(cfg: Config, s: Pool, ops: seq<Op>)
    requires WellFormed(s)
    requires forall k :: 0 <= k < |ops| ==> !Selects(ops[k])
    ensures Run(cfg, s, ops).active
            == if s.active.Some? && s.active.value in LeftDuring(cfg, s, ops) then None else s.active
    decreases |ops|
  {
    if ops != [] {
      var t := Apply(cfg, s, ops[0]);
      EveryOperationIsLawful(cfg, s, ops[0]);
      SelectionFollowsItsProxy(cfg, t, ops[1..]);
    }
  }

  // ----- no return of the condemned -----

  ghost predicate NoCondemnedInside(s: Pool) {
    forall i :: 0 <= i < |s.records| ==> s.records[i].id !in s.condemned
  }

  /** The one check `merge` makes and the other ways in do not. */
  ghost predicate Screened(s: Pool, op: Op) {
    match op
    case AddOp(proxy, _) => proxy.id !in s.condemned
    case RestoreOp(saved) => forall k :: 0 <= k < |saved| ==> saved[k].id !in s.condemned
    case RememberCondemnedOp(ids) => forall i :: 0 <= i < |s.records| ==> s.records[i].id !in ids
    case _ => true
  }

  lemma {:induction false} MergeScreens(s: Pool, discovered: seq<ProxyInfo>, now: Time)
    requires NoCondemnedInside(s)
    ensures NoCondemnedInside(Merge(s, discovered, now)) && Merge(s, discovered, now).condemned == s.condemned
  {
    if discovered != [] {
      MergeScreens(s, discovered[..|discovered| - 1], now);
    }
  }

  lemma {:induction false} RestoreContents(s: Pool, saved: seq<ProxyInfo>, id: ProxyId)
    ensures id in IdList(Restore(s, saved).records)
            <==> id in IdList(s.records) || exists k :: 0 <= k < |saved| && saved[k].id == id
    ensures Restore(s, saved).condemned == s.condemned
  {
    if saved != [] {
      var n := |saved| - 1;
      var t := Restore(s, saved[..n]);
      RestoreContents(s, saved[..n], id);
      HasIsMembership(t.records, saved[n].id);
      assert IdList(t.records + [saved[n]]) == IdList(t.records) + [saved[n].id];
      assert forall k :: 0 <= k < n ==> saved[..n][k] == saved[k];
      assert saved[n].id == id ==> exists k :: 0 <= k < |saved| && saved[k].id == id;
    }
  }

  lemma RestoreScreens(s: Pool, saved: seq<ProxyInfo>)
    requires NoCondemnedInside(s)
    ensures NoCondemnedInside(Restore(s, saved)) <==> Screened(s, RestoreOp(saved))
  {
    var t := Restore(s, saved);
    forall id ensures id in IdList(t.records) <==>
      id in IdList(s.records) || exists k :: 0 <= k < |saved| && saved[k].id == id
    {
      RestoreContents(s, saved, id);
    }
    RestoreContents(s, saved, "");
    if Screened(s, RestoreOp(saved)) {
      forall i | 0 <= i < |t.records| ensures t.records[i].id !in t.condemned {
        var id := t.records[i].id;
        assert IdList(t.records)[i] == id;
        if id in IdList(s.records) {
          HasIsMembership(s.records, id);
        }
      }
    }
    if NoCondemnedInside(t) {
      forall k | 0 <= k < |saved| ensures saved[k].id !in s.condemned {
        assert saved[k].id in IdList(t.records);
      }
    }
  }

  lemma {:induction false} WithoutScreens(records: seq<ProxyInfo>, doomed: set<ProxyId>, condemned: set<ProxyId>)
    requires forall i :: 0 <= i < |records| ==> records[i].id !in condemned
    ensures forall i :: 0 <= i < |Without(records, doomed)| ==>
              Without(records, doomed)[i].id !in condemned + doomed
  {
    if records != [] {
      WithoutScreens(records[..|records| - 1], doomed, condemned);
    }
  }

  /** An operation lets a condemned proxy in exactly when it is one that does not screen, and had to. */
  lemma CondemnedReturnsUnlessScreened(cfg: Config, s: Pool, op: Op)
    requires NoCondemnedInside(s)
    ensures NoCondemnedInside(Apply(cfg, s, op)) <==> Screened(s, op)
    ensures s.condemned <= Apply(cfg, s, op).condemned
  {
    match op {
      case MergeOp(discovered, at) => MergeScreens(s, discovered, at);
      case RestoreOp(saved) =>
        RestoreScreens(s, saved);
        RestoreContents(s, saved, "");
      case AddOp(proxy, at) =>
        var t := Add(s, proxy, at);
        var i := Position(s.records, proxy.id);
        assert t.records[if i.Some? then i.value else |s.records|].id == proxy.id;
      case RemoveOp(id) => WithoutScreens(s.records, {id}, s.condemned);
      case EnforceCapacityOp(max) => WithoutScreens(s.records, Doomed(s.records, max), s.condemned);
      case EvictPendingOp => WithoutScreens(s.records, s.pending, s.condemned);
      case _ =>
    }
  }

  ghost predicate AllScreened(cfg: Config, s: Pool, ops: seq<Op>)
    decreases |ops|
  {
    ops == [] || (Screened(s, ops[0]) && AllScreened(cfg, Apply(cfg, s, ops[0]), ops[1..]))
  }

  ghost predicate NeverInside(cfg: Config, s: Pool, ops: seq<Op>)
    decreases |ops|
  {
    NoCondemnedInside(s) && (ops != [] ==> NeverInside(cfg, Apply(cfg, s, ops[0]), ops[1..]))
  }

  /** No condemned proxy is ever in the pool, over a whole run, exactly when every way in was screened. */
  lemma {:induction false} NoReturnOfTheCondemned(cfg: Config, s: Pool, ops: seq<Op>)
    requires NoCondemnedInside(s)
    ensures NeverInside(cfg, s, ops) <==> AllScreened(cfg, s, ops)
    ensures s.condemned <= Run(cfg, s, ops).condemned
    decreases |ops|
  {
    if ops != [] {
      var t := Apply(cfg, s, ops[0]);
      CondemnedReturnsUnlessScreened(cfg, s, ops[0]);
      if NoCondemnedInside(t) {
        NoReturnOfTheCondemned(cfg, t, ops[1..]);
      } else {
        CondemnedOnlyGrows(cfg, t, ops[1..]);
      }
    }
  }

  /** `add` does not ask: it brings back a proxy that was condemned. */
  lemma AddBringsBackTheCondemned(cfg: Config, p: ProxyInfo, at: Time)
    ensures var s := Pool([], None, {}, {p.id});
            NoCondemnedInside(s) && !NoCondemnedInside(Apply(cfg, s, AddOp(p, at)))
  {
    var s := Pool([], None, {}, {p.id});
    CondemnedReturnsUnlessScreened(cfg, s, AddOp(p, at));
  }

  lemma {:induction false} CondemnedOnlyGrows(cfg: Config, s: Pool, ops: seq<Op>)
    ensures s.condemned <= Run(cfg, s, ops).condemned
    decreases |ops|
  {
    if ops != [] {
      var t := Apply(cfg, s, ops[0]);
      match ops[0] {
        case MergeOp(discovered, at) => MergeKeepsSets(s, discovered, at);
        case RestoreOp(saved) => RestoreContents(s, saved, "");
        case _ =>
      }
      CondemnedOnlyGrows(cfg, t, ops[1..]);
    }
  }

  lemma {:induction false} MergeKeepsSets(s: Pool, discovered: seq<ProxyInfo>, now: Time)
    ensures Merge(s, discovered, now).condemned == s.condemned
  {
    if discovered != [] {
      MergeKeepsSets(s, discovered[..|discovered| - 1], now);
    }
  }

  // ----- merge and health -----

  /** Everything a probe learns about a proxy: all of the record but the country, which follows from the exit. */
  function Health(p: ProxyInfo): ProxyInfo {
    p.(country := None)
  }

  /** What the last offer of this id in the list says about it. */
  function LastOffer(discovered: seq<ProxyInfo>, id: ProxyId): Option<ProxyInfo> {
    if discovered == [] then None
    else
      var n := |discovered| - 1;
      if discovered[n].id == id then Some(discovered[n]) else LastOffer(discovered[..n], id)
  }

  /** The first country the list claims for this id. */
  function FirstCountry(discovered: seq<ProxyInfo>, id: ProxyId): Option<string> {
    if discovered == [] then None
    else
      var n := |discovered| - 1;
      var first := FirstCountry(discovered[..n], id);
      if first.None? && discovered[n].id == id then discovered[n].country else first
  }

  /** What a scrape leaves of a known record: the list's last word on its anonymity, and a country if it had none. */
  function Corrected(s: Pool, p: ProxyInfo, discovered: seq<ProxyInfo>): ProxyInfo {
    var offer := if p.id in s.condemned then None else LastOffer(discovered, p.id);
    p.(anonymity := if offer.Some? then offer.value.anonymity else p.anonymity,
       country := if p.country.Some? || p.id in s.condemned then p.country else FirstCountry(discovered, p.id))
  }

  lemma {:induction false} MergeCorrects(s: Pool, discovered: seq<ProxyInfo>, now: Time, i: nat)
    requires WellFormed(s) && i < |s.records|
    ensures i < |Merge(s, discovered, now).records|
    ensures Merge(s, discovered, now).records[i] == Corrected(s, s.records[i], discovered)
  {
    if discovered != [] {
      var n := |discovered| - 1;
      var t, offered := Merge(s, discovered[..n], now), discovered[n];
      MergeCorrects(s, discovered[..n], now, i);
      MergeExtends(s, discovered[..n], now);
      if offered.id == s.records[i].id {
        SearchFinds(t.records, i);
      }
    }
  }

  /**
   * A scrape keeps all that a probe learned about a known proxy, and its place, exactly when the last
   * offer of its id that is not turned away carries the anonymity already held.
   */
  lemma MergeKeepsHealthIff(s: Pool, discovered: seq<ProxyInfo>, now: Time, i: nat)
    requires WellFormed(s) && i < |s.records|
    ensures i < |Merge(s, discovered, now).records|
    ensures Health(Merge(s, discovered, now).records[i]) == Health(s.records[i])
            <==> var p := s.records[i];
                 var offer := LastOffer(discovered, p.id);
                 p.id in s.condemned || offer.None? || offer.value.anonymity == p.anonymity
  {
    MergeCorrects(s, discovered, now, i);
  }

  /** For one: a link never says how anonymous its proxy is, so a scrape forgets what a probe has measured. */
  lemma MergeForgetsTheMeasuredAnonymity(p: ProxyInfo, r: HealthResult, policy: EvictionPolicy, schedule: ProbeSchedule,
                                         at: Time, later: Time)
    requires r.proxyId == p.id && r.verdict.Working? && r.anonymity == Some(Elite)
    ensures var probed := ApplyResult(Pool([p], None, {}, {}), r, policy, schedule, at);
            var merged := Merge(probed, [p.(anonymity := Unknown)], later);
            && |probed.records| == 1 && probed.records[0].anonymity == Elite
            && |merged.records| == 1 && merged.records[0].anonymity == Unknown
  {
    assert Position([p], p.id) == Some(0);
    var probed := ApplyResult(Pool([p], None, {}, {}), r, policy, schedule, at);
    var offered := [p.(anonymity := Unknown)];
    assert probed == Pool([Probed(p, r, schedule, at)], None, {}, {});
    assert offered[..0] == [] && Merge(probed, [], later) == probed;
    assert Position(probed.records, p.id) == Some(0);
  }

  // ----- rotation -----

  function Rotated(s: Pool, k: nat): Pool {
    if k == 0 then s else Rotate(Rotated(s, k - 1))
  }

  /** The proxies `k` successive rotations put in front, in order. */
  function Visited(s: Pool, k: nat): seq<Option<ProxyId>> {
    seq(k, i requires 0 <= i < k => Rotated(s, i + 1).active)
  }

  /** The position the rotation counts from: one before the first record when nothing is selected. */
  function StartOf(s: Pool): nat
    requires s.records != []
  {
    var at := if s.active.Some? then Position(s.records, s.active.value) else None;
    if at.Some? then at.value else |s.records| - 1
  }

  /** One past a position, around the end. */
  lemma NextModulo(x: nat, n: nat)
    requires x < n
    ensures (x + 1) % n == if x + 1 == n then 0 else x + 1
  {
  }

  /** `k` steps on from a position, around the end at most once. */
  function Wrapped(a: nat, k: nat, n: nat): (r: nat)
    requires a < n && k <= n
    ensures r < n
  {
    if a + k < n then a + k else a + k - n
  }

  /** One rotation, from a selection whose position is known. */
  lemma RotateMovesOn(s: Pool, at: nat)
    requires UniqueIds(s.records) && at < |s.records|
    requires s.active == Some(s.records[at].id) || (at == |s.records| - 1 && s.active.None?)
    ensures Rotate(s) == s.(active := Some(s.records[Wrapped(at, 1, |s.records|)].id))
  {
    SearchFinds(s.records, at);
    NextModulo(at, |s.records|);
  }

  lemma {:induction false} RotatedPosition(s: Pool, k: nat)
    requires WellFormed(s) && s.records != [] && 0 < k <= |s.records|
    ensures Rotated(s, k) == s.(active := Some(s.records[Wrapped(StartOf(s), k, |s.records|)].id))
  {
    hide Rotate;
    if k == 1 {
      assert Rotated(s, 0) == s;
      RotateMovesOn(s, StartOf(s));
    } else {
      RotatedPosition(s, k - 1);
      RotateMovesOn(Rotated(s, k - 1), Wrapped(StartOf(s), k - 1, |s.records|));
    }
  }

  /** As many rotations as there are proxies visit every proxy, and each of them once. */
  lemma RotationVisitsEveryProxyOnce(s: Pool)
    requires WellFormed(s) && s.records != []
    ensures Distinct(Visited(s, |s.records|))
    ensures forall i :: 0 <= i < |s.records| ==> Some(s.records[i].id) in Visited(s, |s.records|)
  {
    var n, a := |s.records|, StartOf(s);
    var v := Visited(s, n);
    forall i | 0 <= i < n ensures v[i] == Some(s.records[Wrapped(a, i + 1, n)].id) {
      RotatedPosition(s, i + 1);
    }
    forall i, j | 0 <= i < j < n ensures v[i] != v[j] {
      assert Wrapped(a, i + 1, n) != Wrapped(a, j + 1, n);
    }
    forall i | 0 <= i < n ensures Some(s.records[i].id) in v {
      var k := if i > a then i - a else i - a + n;
      assert Wrapped(a, k, n) == i;
      assert v[k - 1] == Some(s.records[i].id);
    }
  }
}
