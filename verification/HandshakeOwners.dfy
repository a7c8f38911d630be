/**
 * One opener per flow and one tunnel per flow: when they hold, when they do not, and that every handshake
 * comes to an end.
 */
module HandshakeOwners {
  import opened Common
  import opened Packets
  import opened TcpPath
  import opened Proxies
  import opened PoolSpec
  import opened PoolLaws
  import opened HealthRuns
  import opened Handshakes

  /** A handshake that is opening a tunnel for its flow, or has one in hand that is not tracked yet. */
  predicate Live(h: Handshake) {
    Holds(h) || h.phase == Released(true)
  }

  /** No flow has two openers, nor an opener beside the tunnel it already has. */
  ghost predicate SingleOwner(s: State) {
    && (forall t, u :: 0 <= t < u < |s.handshakes| && Live(s.handshakes[t]) && Live(s.handshakes[u]) ==>
          s.handshakes[t].key != s.handshakes[u].key)
    && (forall t :: 0 <= t < |s.handshakes| && Live(s.handshakes[t]) ==> s.handshakes[t].key !in s.tracker)
  }

  /** What the insertion into `pending` would have to check besides: the tracker, and tunnels on their way to it. */
  ghost predicate Clear(s: State, a: Action) {
    a.Insert? && s.thread.Checked? && s.thread.key !in s.pending ==>
      && s.thread.key !in s.tracker
      && forall t :: 0 <= t < |s.handshakes| && s.handshakes[t].phase == Released(true) ==>
           s.handshakes[t].key != s.thread.key
  }

  lemma MoveKeepsOwner(s: State, n: State, t: nat, h: Handshake)
    requires SingleOwner(s) && MovesOn(s, n, t, h) && (Live(h) ==> Live(s.handshakes[t]))
    requires forall key :: key in n.tracker ==> key in s.tracker || (key == h.key && Live(s.handshakes[t]) && !Live(h))
    ensures SingleOwner(n)
  {
  }

  lemma StepsOfHandshakesKeepOwner(cfg: Config, s: State, a: Action)
    requires Inv(s) && SingleOwner(s) && Enabled(s, a) && (CanAct(s, a) || a.Decide?)
    ensures SingleOwner(Next(cfg, s, a))
  {
    hide TcpPacket, ReportFailure, EachIsWell, ResendsTheSame, PendingIsExact, SingleOwner, Best, ActiveRecord;
    var n := Next(cfg, s, a);
    var t := if a.Decide? then s.thread.ticket else a.ticket;
    MoveKeepsOwner(s, n, t, n.handshakes[t]);
  }

  /** An admission keeps one owner per flow exactly when it was clear; every other step keeps it anyway. */
  lemma OwnershipBreaksOnlyUnclear(cfg: Config, s: State, a: Action)
    requires Inv(s) && SingleOwner(s) && Enabled(s, a)
    ensures SingleOwner(Next(cfg, s, a)) <==> Clear(s, a)
  {
    hide SynAck, OnConnect, OnReplace, OnAnswer, OnDecide;
    if CanAct(s, a) || a.Decide? {
      StepsOfHandshakesKeepOwner(cfg, s, a);
    } else if a.Insert? && s.thread.key !in s.pending {
      InsertOwns(s);
    }
  }

  lemma InsertOwns(s: State)
    requires PendingIsExact(s) && SingleOwner(s) && s.thread.Checked? && s.thread.key !in s.pending
    ensures SingleOwner(OnInsert(s)) <==> Clear(s, Insert)
  {
    var n, last := OnInsert(s), |s.handshakes|;
    assert Live(n.handshakes[last]) && n.handshakes[last].key == s.thread.key;
    forall t | 0 <= t < last && Live(s.handshakes[t]) && s.handshakes[t].key == s.thread.key
      ensures s.handshakes[t].phase == Released(true)
    {
      if Holds(s.handshakes[t]) {
        assert false;
      }
    }
    if Clear(s, Insert) {
      forall t, u | 0 <= t < u < |n.handshakes| && Live(n.handshakes[t]) && Live(n.handshakes[u])
        ensures n.handshakes[t].key != n.handshakes[u].key
      {
        assert n.handshakes[t] == s.handshakes[t];
        if u < last {
          assert n.handshakes[u] == s.handshakes[u];
        }
      }
    }
    if SingleOwner(n) {
      forall t | 0 <= t < last && s.handshakes[t].phase == Released(true)
        ensures s.handshakes[t].key != s.thread.key
      {
        assert n.handshakes[t] == s.handshakes[t] && Live(n.handshakes[t]);
      }
    }
  }

  ghost predicate AlwaysSingle(cfg: Config, s: State, actions: seq<Action>)
    requires Behaves(cfg, s, actions)
    decreases |actions|
  {
    SingleOwner(s) && (actions != [] ==> AlwaysSingle(cfg, Next(cfg, s, actions[0]), actions[1..]))
  }

  ghost predicate AlwaysClear(cfg: Config, s: State, actions: seq<Action>)
    requires Behaves(cfg, s, actions)
    decreases |actions|
  {
    actions == [] || (Clear(s, actions[0]) && AlwaysClear(cfg, Next(cfg, s, actions[0]), actions[1..]))
  }

  /** A behaviour keeps one opener per flow throughout exactly when every admission in it was clear. */
  lemma {:induction false} OneOpenerPerFlowIff(cfg: Config, s: State, actions: seq<Action>)
    requires Inv(s) && SingleOwner(s) && Behaves(cfg, s, actions)
    ensures AlwaysSingle(cfg, s, actions) <==> AlwaysClear(cfg, s, actions)
    decreases |actions|
  {
    hide Inv, SingleOwner, Clear, Next;
    if actions != [] {
      OwnershipBreaksOnlyUnclear(cfg, s, actions[0]);
      var n := Next(cfg, s, actions[0]);
      NextKeepsInv(cfg, s, actions[0]);
      if SingleOwner(n) {
        OneOpenerPerFlowIff(cfg, n, actions[1..]);
      } else {
        assert !AlwaysSingle(cfg, n, actions[1..]);
      }
    }
  }

  // ----- tunnels proper -----

  /** A handshake with a connection in hand that is not tracked yet. */
  predicate HasTunnel(h: Handshake) {
    h.phase.Connected? || h.phase == Released(true)
  }

  /** No flow has two connections, in hand or tracked. */
  ghost predicate SingleTunnel(s: State) {
    && (forall t, u :: 0 <= t < u < |s.handshakes| && HasTunnel(s.handshakes[t]) && HasTunnel(s.handshakes[u]) ==>
          s.handshakes[t].key != s.handshakes[u].key)
    && (forall t :: 0 <= t < |s.handshakes| && HasTunnel(s.handshakes[t]) ==> s.handshakes[t].key !in s.tracker)
  }

  lemma OneOpenerIsOneTunnel(s: State)
    requires SingleOwner(s)
    ensures SingleTunnel(s)
  {
  }

  /** These actions admit nobody. */
  ghost predicate NoAdmission(actions: seq<Action>) {
    forall i :: 0 <= i < |actions| ==> !actions[i].Insert?
  }

  /** From here, with what has been admitted so far, some flow may come to have two connections. */
  ghost predicate MayDouble(cfg: Config, s: State) {
    exists more ::
      NoAdmission(more) && Behaves(cfg, s, more) && !SingleTunnel(After(cfg, s, more))
  }

  ghost predicate NeverDoubles(cfg: Config, s: State, actions: seq<Action>)
    requires Behaves(cfg, s, actions)
    decreases |actions|
  {
    !MayDouble(cfg, s) && (actions != [] ==> NeverDoubles(cfg, Next(cfg, s, actions[0]), actions[1..]))
  }

  lemma {:induction false} NoAdmissionIsClear(cfg: Config, s: State, more: seq<Action>)
    requires NoAdmission(more) && Behaves(cfg, s, more)
    ensures AlwaysClear(cfg, s, more)
    decreases |more|
  {
    hide Next;
    if more != [] {
      NoAdmissionIsClear(cfg, Next(cfg, s, more[0]), more[1..]);
    }
  }

  lemma {:induction false} AlwaysSingleAtEnd(cfg: Config, s: State, actions: seq<Action>)
    requires Behaves(cfg, s, actions) && AlwaysSingle(cfg, s, actions)
    ensures SingleOwner(After(cfg, s, actions))
    decreases |actions|
  {
    hide Next, SingleOwner;
    if actions != [] {
      AlwaysSingleAtEnd(cfg, Next(cfg, s, actions[0]), actions[1..]);
    }
  }

  /** With one opener per flow, nothing that was admitted ends in a second connection. */
  lemma OneOpenerNeverDoubles(cfg: Config, s: State)
    requires Inv(s) && SingleOwner(s)
    ensures !MayDouble(cfg, s)
  {
    hide Inv, SingleOwner, SingleTunnel;
    forall more | NoAdmission(more) && Behaves(cfg, s, more) ensures SingleTunnel(After(cfg, s, more)) {
      NoAdmissionIsClear(cfg, s, more);
      OneOpenerPerFlowIff(cfg, s, more);
      AlwaysSingleAtEnd(cfg, s, more);
      OneOpenerIsOneTunnel(After(cfg, s, more));
    }
  }

  /** How an admitted handshake gets its connection: a proxy in front, the decision, an attempt that succeeds. */
  function Connecting(t: nat, decision: Decision, p: ProxyInfo): seq<Action> {
    [PoolChange(Pool([p], Some(p.id), {}, {})), Decide(decision), Connect(t, true, 0)]
  }

  lemma AdmittedMayConnect(cfg: Config, n: State, t: nat, decision: Decision, p: ProxyInfo)
    requires t < |n.handshakes| && n.thread == Serving(t) && n.handshakes[t].phase == Deciding
    ensures NoAdmission(Connecting(t, decision, p)) && Behaves(cfg, n, Connecting(t, decision, p))
    ensures var e := After(cfg, n, Connecting(t, decision, p));
            && e.tracker == n.tracker && |e.handshakes| == |n.handshakes|
            && (forall u :: 0 <= u < |n.handshakes| && u != t ==> e.handshakes[u] == n.handshakes[u])
            && e.handshakes[t].key == n.handshakes[t].key && HasTunnel(e.handshakes[t])
  {
    hide TcpPacket;
    var more := Connecting(t, decision, p);
    var n1 := Next(cfg, n, more[0]);
    assert ActiveRecord(n1.pool) == Some(p);
    var n2 := Next(cfg, n1, more[1]);
    assert n2.handshakes[t].phase.Trying?;
    var n3 := Next(cfg, n2, more[2]);
    StepThen(cfg, n2, more[2], []);
    StepThen(cfg, n1, more[1], [more[2]]);
    StepThen(cfg, n, more[0], [more[1], more[2]]);
  }

  lemma StepThen(cfg: Config, s: State, a: Action, rest: seq<Action>)
    requires Enabled(s, a) && Behaves(cfg, Next(cfg, s, a), rest)
    ensures Behaves(cfg, s, [a] + rest)
    ensures After(cfg, s, [a] + rest) == After(cfg, Next(cfg, s, a), rest)
  {
    hide Next, Enabled;
    assert ([a] + rest)[1..] == rest;
  }

  /**
   * After an unclear admission the flow can come to have a second connection, however the policy decides
   * about it and whichever proxy it goes through.
   */
  lemma UnclearMayDouble(cfg: Config, s: State, decision: Decision, p: ProxyInfo)
    requires Inv(s) && Enabled(s, Insert) && !Clear(s, Insert)
    ensures var n, more := Next(cfg, s, Insert), Connecting(|s.handshakes|, decision, p);
            NoAdmission(more) && Behaves(cfg, n, more) && !SingleTunnel(After(cfg, n, more))
  {
    hide TcpPacket, Connecting, OnDecide, OnConnect, After, Behaves;
    var n, t := Next(cfg, s, Insert), |s.handshakes|;
    assert n.thread == Serving(t) && n.handshakes[t].phase == Deciding;
    AdmittedMayConnect(cfg, n, t, decision, p);
    var e := After(cfg, n, Connecting(t, decision, p));
    if s.thread.key !in s.tracker {
      var u :| 0 <= u < |s.handshakes| && s.handshakes[u].phase == Released(true)
        && s.handshakes[u].key == s.thread.key;
      assert e.handshakes[u] == s.handshakes[u] && HasTunnel(e.handshakes[u]);
    }
  }

  /**
   * One tunnel per flow: along a behaviour no flow can ever come to have two connections from what has
   * been admitted so far, if and only if every admission in it was clear.
   */
  lemma {:induction false} OneTunnelPerFlowIff(cfg: Config, s: State, actions: seq<Action>)
    requires Inv(s) && SingleOwner(s) && Behaves(cfg, s, actions)
    ensures NeverDoubles(cfg, s, actions) <==> AlwaysClear(cfg, s, actions)
    decreases |actions|
  {
    hide Inv, SingleOwner, Clear, Next, MayDouble;
    OneOpenerNeverDoubles(cfg, s);
    if actions != [] {
      var n := Next(cfg, s, actions[0]);
      OwnershipBreaksOnlyUnclear(cfg, s, actions[0]);
      NextKeepsInv(cfg, s, actions[0]);
      if Clear(s, actions[0]) {
        OneTunnelPerFlowIff(cfg, n, actions[1..]);
      } else {
        UnclearDoubles(cfg, s, actions[0]);
        assert !NeverDoubles(cfg, n, actions[1..]);
      }
    }
  }

  lemma UnclearDoubles(cfg: Config, s: State, a: Action)
    requires Inv(s) && Enabled(s, a) && !Clear(s, a)
    ensures MayDouble(cfg, Next(cfg, s, a))
  {
    hide Inv, Next, SingleTunnel;
    var p: ProxyInfo := *;
    UnclearMayDouble(cfg, s, Direct, p);
  }

  // ----- the two check-then-act sequences taken as one step each -----

  /** What has been looked up is inserted, and what has been removed is tracked, before anything else happens. */
  ghost predicate Prompt(s: State, a: Action) {
    && (s.thread.Checked? ==> a.Insert?)
    && (forall t :: 0 <= t < |s.handshakes| && s.handshakes[t].phase == Released(true) ==> a.Track? && a.ticket == t)
  }

  ghost predicate AlwaysPrompt(cfg: Config, s: State, actions: seq<Action>)
    requires Behaves(cfg, s, actions)
    decreases |actions|
  {
    actions == [] || (Prompt(s, actions[0]) && AlwaysPrompt(cfg, Next(cfg, s, actions[0]), actions[1..]))
  }

  /** What was looked up is still untracked. */
  predicate LookIsFresh(s: State) {
    s.thread.Checked? ==> s.thread.key !in s.tracker
  }

  lemma PromptIsClear(cfg: Config, s: State, a: Action)
    requires LookIsFresh(s) && Enabled(s, a) && Prompt(s, a)
    ensures Clear(s, a) && LookIsFresh(Next(cfg, s, a))
  {
    hide TcpPacket, ReportFailure, Best, ActiveRecord;
  }

  lemma {:induction false} AlwaysPromptIsClear(cfg: Config, s: State, actions: seq<Action>)
    requires LookIsFresh(s) && Behaves(cfg, s, actions) && AlwaysPrompt(cfg, s, actions)
    ensures AlwaysClear(cfg, s, actions)
    decreases |actions|
  {
    hide LookIsFresh, Prompt, Clear, Next;
    if actions != [] {
      PromptIsClear(cfg, s, actions[0]);
      AlwaysPromptIsClear(cfg, Next(cfg, s, actions[0]), actions[1..]);
    }
  }

  /**
   * With the look and the insertion taken as one step, and the removal and the tracking as another,
   * every behaviour keeps one opener and one tunnel per flow.
   */
  lemma AtomicStepsKeepOneTunnel(cfg: Config, pool: Pool, actions: seq<Action>)
    requires Behaves(cfg, Start(pool), actions) && AlwaysPrompt(cfg, Start(pool), actions)
    ensures AlwaysSingle(cfg, Start(pool), actions) && NeverDoubles(cfg, Start(pool), actions)
  {
    StartIsInv(pool);
    AlwaysPromptIsClear(cfg, Start(pool), actions);
    OneOpenerPerFlowIff(cfg, Start(pool), actions);
    OneTunnelPerFlowIff(cfg, Start(pool), actions);
  }

  /** A direct flow is opened and its handshake taken off `pending`; its tunnel is not tracked yet. */
  function OpenOne(key: FlowKey, ticket: nat): seq<Action> {
    [Syn(key, 7), Insert, Decide(Direct), Connect(ticket, true, 0)]
  }

  /** The state after the SYN of an untracked flow, after its admission, and after the decision for it. */
  function Looked(s: State, key: FlowKey): State {
    s.(thread := Checked(key, 7))
  }

  function Admitted(s: State, key: FlowKey): State {
    s.(pending := s.pending + {key},
       handshakes := s.handshakes + [Handshake(key, 7, None, [], 0, Deciding, [])],
       thread := Serving(|s.handshakes|))
  }

  function Opening(s: State, key: FlowKey, directs: nat, phase: Phase): State {
    s.(pending := s.pending + {key},
       handshakes := s.handshakes + [Handshake(key, 7, Some(Direct), [], directs, phase, [])])
  }

  lemma SynAdmits(cfg: Config, s: State, key: FlowKey)
    requires s.thread.Idle? && key !in s.tracker && key !in s.pending
    ensures Next(cfg, s, Syn(key, 7)) == Looked(s, key)
    ensures Enabled(Looked(s, key), Insert) && Next(cfg, Looked(s, key), Insert) == Admitted(s, key)
  {
  }

  lemma DirectOpens(cfg: Config, s: State, key: FlowKey)
    requires s.thread.Idle?
    ensures var n, t := Admitted(s, key), |s.handshakes|;
            Enabled(n, Decide(Direct)) && Next(cfg, n, Decide(Direct)) == Opening(s, key, 0, Trying(None, 0, {}))
    ensures var n, t := Opening(s, key, 0, Trying(None, 0, {})), |s.handshakes|;
            Enabled(n, Connect(t, true, 0)) && Next(cfg, n, Connect(t, true, 0)) == Opening(s, key, 1, Connected)
  {
  }

  lemma OpeningOne(cfg: Config, s: State, key: FlowKey)
    requires s.thread.Idle? && key !in s.tracker && key !in s.pending
    ensures Behaves(cfg, s, OpenOne(key, |s.handshakes|))
    ensures After(cfg, s, OpenOne(key, |s.handshakes|)) == Opening(s, key, 1, Connected)
  {
    hide Next, Looked, Admitted, Opening;
    var t := |s.handshakes|;
    SynAdmits(cfg, s, key);
    DirectOpens(cfg, s, key);
    var decide, connect := Decide(Direct), Connect(t, true, 0);
    StepThen(cfg, Opening(s, key, 0, Trying(None, 0, {})), connect, []);
    StepThen(cfg, Admitted(s, key), decide, [connect]);
    StepThen(cfg, Looked(s, key), Insert, [decide, connect]);
    StepThen(cfg, s, Syn(key, 7), [Insert, decide, connect]);
    assert [connect] + [] == [connect] && [decide] + [connect] == [decide, connect];
    assert [Syn(key, 7)] + ([Insert] + [decide, connect]) == OpenOne(key, t);
    assert [Insert] + [decide, connect] == [Insert, decide, connect];
  }

  lemma {:induction false} BehavesInTwo(cfg: Config, s: State, a: seq<Action>, b: seq<Action>)
    requires Behaves(cfg, s, a) && Behaves(cfg, After(cfg, s, a), b)
    ensures Behaves(cfg, s, a + b) && After(cfg, s, a + b) == After(cfg, After(cfg, s, a), b)
    decreases |a|
  {
    hide Next;
    if a == [] {
      assert a + b == b;
    } else {
      BehavesInTwo(cfg, Next(cfg, s, a[0]), a[1..], b);
      assert (a + b)[1..] == a[1..] + b;
    }
  }

  /** The client retransmits while its first handshake has come off `pending` but is not yet tracked. */
  function LateRetransmission(key: FlowKey): seq<Action> {
    OpenOne(key, 0) + ([Release(0)] + OpenOne(key, 1))
  }

  /** It gets a second tunnel: two handshakes of one flow have a connection in hand. */
  lemma RetransmissionMayOpenASecondTunnel(cfg: Config, pool: Pool, key: FlowKey)
    ensures Behaves(cfg, Start(pool), LateRetransmission(key))
    ensures !SingleTunnel(After(cfg, Start(pool), LateRetransmission(key)))
  {
    hide TcpPacket, OpenOne;
    var s := Start(pool);
    OpeningOne(cfg, s, key);
    var inHand := After(cfg, s, OpenOne(key, 0));
    var released := Next(cfg, inHand, Release(0));
    assert released.pending == {} && released.handshakes[0].phase == Released(true);
    OpeningOne(cfg, released, key);
    assert ([Release(0)] + OpenOne(key, 1))[1..] == OpenOne(key, 1);
    BehavesInTwo(cfg, s, OpenOne(key, 0), [Release(0)] + OpenOne(key, 1));
    var end := After(cfg, s, LateRetransmission(key));
    assert end.handshakes[0] == released.handshakes[0] && end.handshakes[1].phase == Connected;
    assert HasTunnel(end.handshakes[0]) && HasTunnel(end.handshakes[1]);
    assert end.handshakes[0].key == key == end.handshakes[1].key;
  }

  // ----- every handshake comes to an end -----

  /** An upper bound on the steps a handshake still takes. */
  function StepsLeft(h: Handshake): nat {
    match h.phase
    case Deciding => 20
    case Trying(_, attempt, _) => if attempt <= 2 then 19 - 2 * attempt else 13
    case Failing(attempt, _) => if attempt <= 2 then 20 - 2 * attempt else 14
    case Connected => 10
    case GivenUp => 10
    case Released(_) => 9
    case Entered(_) => 8
    case Done => 0
  }

  /** The handshake an action belongs to. */
  function TicketOf(s: State, a: Action): Option<nat> {
    match a
    case Decide(_) => if s.thread.Serving? then Some(s.thread.ticket) else None
    case Connect(t, _, _) => Some(t)
    case Replace(t, _) => Some(t)
    case Release(t) => Some(t)
    case Track(t, _) => Some(t)
    case Answer(t) => Some(t)
    case _ => None
  }

  /** A step of a handshake brings it nearer to its answer, and no other step touches it. */
  lemma EveryStepCounts(cfg: Config, s: State, a: Action, t: nat)
    requires Inv(s) && Enabled(s, a) && t < |s.handshakes|
    ensures t < |Next(cfg, s, a).handshakes|
    ensures TicketOf(s, a) == Some(t) ==> StepsLeft(Next(cfg, s, a).handshakes[t]) < StepsLeft(s.handshakes[t])
    ensures TicketOf(s, a) != Some(t) ==> Next(cfg, s, a).handshakes[t] == s.handshakes[t]
  {
    hide Inv, Next, StepsLeft, Enabled;
    if TicketOf(s, a) == Some(t) {
      OwnStepCounts(cfg, s, a, t);
    } else {
      OtherStepsLeaveMine(cfg, s, a, t);
    }
  }

  lemma OwnStepCounts(cfg: Config, s: State, a: Action, t: nat)
    requires Inv(s) && Enabled(s, a) && t < |s.handshakes| && TicketOf(s, a) == Some(t)
    ensures |Next(cfg, s, a).handshakes| == |s.handshakes|
    ensures StepsLeft(Next(cfg, s, a).handshakes[t]) < StepsLeft(s.handshakes[t])
  {
    hide Inv, Next, StepsLeft, Enabled;
    WellAt(s, t);
    if a.Connect? || a.Replace? {
      AttemptCounts(cfg, s, a, t);
    } else {
      LockCounts(cfg, s, a, t);
    }
  }

  lemma AttemptCounts(cfg: Config, s: State, a: Action, t: nat)
    requires Enabled(s, a) && t < |s.handshakes| && TriesWell(s.handshakes[t])
    requires (a.Connect? || a.Replace?) && a.ticket == t
    ensures |Next(cfg, s, a).handshakes| == |s.handshakes|
    ensures StepsLeft(Next(cfg, s, a).handshakes[t]) < StepsLeft(s.handshakes[t])
  {
    hide ReportFailure, BestRecord, ActivateBest, Avoiding, Distinct;
  }

  lemma LockCounts(cfg: Config, s: State, a: Action, t: nat)
    requires Enabled(s, a) && t < |s.handshakes| && TicketOf(s, a) == Some(t) && !a.Connect? && !a.Replace?
    ensures |Next(cfg, s, a).handshakes| == |s.handshakes|
    ensures StepsLeft(Next(cfg, s, a).handshakes[t]) < StepsLeft(s.handshakes[t])
  {
    hide SynAck, Reset, ActiveRecord;
  }

  lemma OtherStepsLeaveMine(cfg: Config, s: State, a: Action, t: nat)
    requires Enabled(s, a) && t < |s.handshakes| && TicketOf(s, a) != Some(t)
    ensures t < |Next(cfg, s, a).handshakes| && Next(cfg, s, a).handshakes[t] == s.handshakes[t]
  {
    hide Next, Enabled;
    if TicketOf(s, a).Some? {
      OwnStepsMoveOne(cfg, s, a);
    } else {
      CommonStepsMoveNobody(cfg, s, a);
    }
  }

  lemma OwnStepsMoveOne(cfg: Config, s: State, a: Action)
    requires Enabled(s, a) && TicketOf(s, a).Some?
    ensures var u, n := TicketOf(s, a).value, Next(cfg, s, a).handshakes;
            u < |s.handshakes| && |n| == |s.handshakes| && n == s.handshakes[u := n[u]]
  {
    hide SynAck, Reset, ReportFailure, BestRecord, ActiveRecord, ActivateBest, Avoiding;
  }

  lemma CommonStepsMoveNobody(cfg: Config, s: State, a: Action)
    requires Enabled(s, a) && TicketOf(s, a).None?
    ensures s.handshakes <= Next(cfg, s, a).handshakes
  {
    hide SynAck;
  }

  /**
   * A handshake gives up only for a cause: no proxy in front when one is wanted, its direct connection
   * failed, its third proxy failed, or nobody is left that it has not tried.
   */
  ghost predicate HasCause(cfg: Config, s: State, a: Action, t: nat)
    requires t < |s.handshakes|
  {
    var h := s.handshakes[t];
    match a
    case Decide(decision) => decision.Proxied? && ActiveRecord(s.pool).None?
    case Connect(_, ok, _) => !ok && (h.decision == Some(Direct) || |h.tried| == 2)
    case Replace(_, _) => NoCandidate(cfg, s.pool.records, set id | id in h.tried :: ById(id), {})
    case _ => false
  }

  lemma GivesUpIffItHasCause(cfg: Config, s: State, a: Action, t: nat)
    requires Inv(s) && Enabled(s, a) && t < |s.handshakes| && TicketOf(s, a) == Some(t)
    ensures t < |Next(cfg, s, a).handshakes|
    ensures Next(cfg, s, a).handshakes[t].phase.GivenUp? <==> HasCause(cfg, s, a, t)
  {
    hide Inv, Next, HasCause, Enabled;
    WellAt(s, t);
    OwnStepsMoveOne(cfg, s, a);
    if a.Replace? {
      ReplaceGivesUpIff(cfg, s, a, t);
    } else {
      OthersGiveUpIff(cfg, s, a, t);
    }
  }

  lemma ReplaceGivesUpIff(cfg: Config, s: State, a: Action, t: nat)
    requires Enabled(s, a) && t < |s.handshakes| && TriesWell(s.handshakes[t]) && a.Replace? && a.ticket == t
    ensures t < |Next(cfg, s, a).handshakes|
    ensures Next(cfg, s, a).handshakes[t].phase.GivenUp? <==> HasCause(cfg, s, a, t)
  {
    hide BestRecord, ActivateBest, NoCandidate, WorthMost, Distinct;
    var h := s.handshakes[t];
    var ids := set id | id in h.tried :: ById(id);
    assert Avoiding(h.phase.avoided).avoid == ids;
    ChoiceIsWorthMost(cfg, s.pool.records, ids, {}, a.at);
  }

  lemma OthersGiveUpIff(cfg: Config, s: State, a: Action, t: nat)
    requires Enabled(s, a) && t < |s.handshakes| && TriesWell(s.handshakes[t]) && TicketOf(s, a) == Some(t)
    requires !a.Replace?
    ensures t < |Next(cfg, s, a).handshakes|
    ensures Next(cfg, s, a).handshakes[t].phase.GivenUp? <==> HasCause(cfg, s, a, t)
  {
    hide SynAck, Reset, ReportFailure, ActiveRecord, Distinct;
  }

  /** A proxy that failed a handshake and is to be replaced has failed once more, and is no candidate any longer. */
  lemma FailedProxyIsBlamed(cfg: Config, s: State, t: nat, at: Time, id: ProxyId)
    requires Inv(s) && Enabled(s, Connect(t, false, at)) && WellFormed(s.pool) && Has(s.pool.records, id)
    requires s.handshakes[t].phase.proxy == Some(id) && |s.handshakes[t].tried| < 2
    ensures var before, after := Get(s.pool.records, id), Get(Next(cfg, s, Connect(t, false, at)).pool.records, id);
            && before.Some? && after.Some? && !Usable(cfg, after.value)
            && after.value.consecutiveFailures == Min(before.value.consecutiveFailures + 1, 0xFFFF_FFFF)
  {
    hide Inv, SynAck, Reset, Get, Has, UniqueIds;
    WellAt(s, t);
    TrafficFailureMarks(cfg, s.pool, id, at);
  }

  lemma TrafficFailureMarks(cfg: Config, s: Pool, id: ProxyId, at: Time)
    requires WellFormed(s) && Has(s.records, id)
    ensures var before, after := Get(s.records, id), Get(ReportFailure(cfg, s, id, at).records, id);
            && before.Some? && after.Some? && !Usable(cfg, after.value)
            && after.value.consecutiveFailures == Min(before.value.consecutiveFailures + 1, 0xFFFF_FFFF)
  {
    hide Position, UniqueIds;
    var op := TrafficFailureOp(id, at);
    FailureMarks(cfg, s, op, id);
    TrackAfter(cfg, s, op, id);
  }

  /** An unanswered handshake can always take a step of its own, whatever the others are doing. */
  lemma UnansweredCanMove(s: State, t: nat)
    requires Inv(s) && t < |s.handshakes| && !s.handshakes[t].phase.Done?
    ensures exists a :: Enabled(s, a) && TicketOf(s, a) == Some(t)
  {
    hide ResendsTheSame, PendingIsExact, EachIsWell;
    var h := s.handshakes[t];
    var a :=
      match h.phase
      case Deciding => Decide(Direct)
      case Trying(_, _, _) => Connect(t, true, 0)
      case Failing(_, _) => Replace(t, 0)
      case Connected => Release(t)
      case GivenUp => Release(t)
      case Released(connected) => if connected then Track(t, 0) else Answer(t)
      case _ => Answer(t);
    assert Enabled(s, a) && TicketOf(s, a) == Some(t);
  }

  function StepsOf(cfg: Config, s: State, actions: seq<Action>, t: nat): nat
    requires Behaves(cfg, s, actions)
    decreases |actions|
  {
    if actions == [] then 0
    else (if TicketOf(s, actions[0]) == Some(t) then 1 else 0) + StepsOf(cfg, Next(cfg, s, actions[0]), actions[1..], t)
  }

  /** No behaviour, however long, contains more than twenty steps of one handshake. */
  lemma {:induction false} HandshakesAreBounded(cfg: Config, s: State, actions: seq<Action>, t: nat)
    requires Inv(s) && Behaves(cfg, s, actions) && t < |s.handshakes|
    ensures t < |After(cfg, s, actions).handshakes|
    ensures StepsOf(cfg, s, actions, t) + StepsLeft(After(cfg, s, actions).handshakes[t])
            <= StepsLeft(s.handshakes[t]) <= 20
    decreases |actions|
  {
    hide Inv, Next, StepsLeft;
    if actions != [] {
      EveryStepCounts(cfg, s, actions[0], t);
      NextKeepsInv(cfg, s, actions[0]);
      HandshakesAreBounded(cfg, Next(cfg, s, actions[0]), actions[1..], t);
    }
    AtMostTwenty(s.handshakes[t]);
  }

  lemma AtMostTwenty(h: Handshake)
    ensures StepsLeft(h) <= 20
  {
  }

  // ----- the answers on the wire -----

  /** The client reads an answer from the other end of its flow that acknowledges its number. */
  predicate Acknowledges(packet: seq<Byte>, key: FlowKey, clientIsn: Word32, serverIsn: Word32, flags: TcpFlags) {
    var p := Parse(packet);
    && p.Parsed? && p.value.tcp.Some? && p.value.tcp.value.acknowledgmentNumber == WrappingAdd(clientIsn, 1)
    && p.value.tcp.value.flags == flags && p.value.tcp.value.sequenceNumber == serverIsn
    && KeyOf(p.value.ip, p.value.tcp.value) == FlowKey(key.dstIp, key.dstPort, key.srcIp, key.srcPort)
  }

  /** What the two answers are to the client that reads them: SYN and ACK, or RST and ACK. */
  lemma AnswersAcknowledgeTheSyn(key: FlowKey, clientIsn: Word32, serverIsn: Word32)
    ensures Acknowledges(SynAck(key, serverIsn, clientIsn), key, clientIsn, serverIsn,
                         TcpFlags(false, true, false, false, true, false))
    ensures Acknowledges(Reset(key, clientIsn), key, clientIsn, 0, TcpFlags(false, false, true, false, true, false))
  {
    hide Acknowledges, SynAck, Reset;
    SynAckAcknowledges(key, clientIsn, serverIsn);
    ResetAcknowledges(key, clientIsn);
  }

  lemma SynAckAcknowledges(key: FlowKey, clientIsn: Word32, serverIsn: Word32)
    ensures Acknowledges(SynAck(key, serverIsn, clientIsn), key, clientIsn, serverIsn,
                         TcpFlags(false, true, false, false, true, false))
  {
    hide TcpPacket, Parse;
    var ack := WrappingAdd(clientIsn, 1);
    ParseUndoesBuild(key.dstIp, key.srcIp, 0, key.dstPort, key.srcPort, serverIsn, ack, 0x12, []);
  }

  lemma ResetAcknowledges(key: FlowKey, clientIsn: Word32)
    ensures Acknowledges(Reset(key, clientIsn), key, clientIsn, 0, TcpFlags(false, false, true, false, true, false))
  {
    hide TcpPacket, Parse;
    var ack := WrappingAdd(clientIsn, 1);
    ParseUndoesBuild(key.dstIp, key.srcIp, 0, key.dstPort, key.srcPort, 0, ack, 0x14, []);
  }

  /** When nothing is pending and the thread is idle, every admitted SYN has had its one answer. */
  lemma QuiescentMeansAnswered(s: State)
    requires Inv(s) && s.pending == {} && forall t :: 0 <= t < |s.handshakes| ==>
               !s.handshakes[t].phase.Released? && !s.handshakes[t].phase.Entered?
    ensures forall t :: 0 <= t < |s.handshakes| ==> |s.handshakes[t].answers| == 1
  {
    hide ResendsTheSame;
    forall t | 0 <= t < |s.handshakes| ensures |s.handshakes[t].answers| == 1 {
      assert AnswersOnce(s.handshakes[t]);
      if Holds(s.handshakes[t]) {
        assert false;
      }
    }
  }
}
