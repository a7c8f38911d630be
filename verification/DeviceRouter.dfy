/**
 * The handshake code as it is written: the forwarding thread's `handle_outgoing` and the failover task it
 * spawns, updating `pending`, the tracker and the pool in place. Whatever the other tasks do between any
 * two locks, an execution is a behaviour of the state machine in `Handshakes`, and keeps its invariant.
 */
module DeviceRouters {
  import opened Common
  import opened Packets
  import opened TcpPath
  import opened Proxies
  import opened PoolSpec
  import opened PoolLaws
  import opened ProxyPools
  import opened Handshakes
  import opened HandshakeOwners

  /** Taking these actions from the first state leads to the last. */
  ghost predicate Leads(cfg: Config, s0: State, actions: seq<Action>, s: State) {
    Behaves(cfg, s0, actions) && After(cfg, s0, actions) == s
  }

  lemma LeadsOn(cfg: Config, s0: State, actions: seq<Action>, s: State, a: Action)
    requires Leads(cfg, s0, actions, s) && Enabled(s, a)
    ensures Leads(cfg, s0, actions + [a], Next(cfg, s, a))
  {
    hide Next, Enabled;
    assert [a][1..] == [] && [a][0] == a;
    assert Behaves(cfg, Next(cfg, s, a), []);
    BehavesInTwo(cfg, s0, actions, [a]);
  }

  lemma NoStep(cfg: Config, s: State)
    ensures Leads(cfg, s, [], s)
  {
  }

  /** Whose code is running: a task with its ticket, or the forwarding thread with the one it serves, if any. */
  datatype Self = Task(ticket: nat) | Forwarder(serving: Option<nat>)

  /** The action belongs to somebody else. */
  predicate Foreign(s: State, a: Action, me: Self) {
    match me
    case Task(ticket) => TicketOf(s, a) != Some(ticket)
    case Forwarder(serving) =>
      !a.Syn? && !a.Insert? && !a.Decide? && (serving.Some? ==> TicketOf(s, a) != serving)
  }

  ghost predicate AllForeign(cfg: Config, s: State, actions: seq<Action>, me: Self)
    requires Behaves(cfg, s, actions)
    decreases |actions|
  {
    actions == []
    || (Foreign(s, actions[0], me) && AllForeign(cfg, Next(cfg, s, actions[0]), actions[1..], me))
  }

  /** Others have acted: any behaviour of theirs has come between. */
  ghost predicate OthersActed(cfg: Config, before: seq<Action>, s: State, after: seq<Action>, n: State, me: Self) {
    exists more ::
      Behaves(cfg, s, more) && AllForeign(cfg, s, more, me) && after == before + more && n == After(cfg, s, more)
  }

  lemma NobodyActed(cfg: Config, before: seq<Action>, s: State, me: Self)
    ensures OthersActed(cfg, before, s, before, s, me)
  {
    assert before == before + [];
    assert Behaves(cfg, s, []) && AllForeign(cfg, s, [], me) && After(cfg, s, []) == s;
  }

  /** What others leave alone: a task's handshake; and of the thread, its place, its tickets and its answers. */
  ghost predicate Untouched(s: State, n: State, me: Self) {
    match me
    case Task(ticket) =>
      ticket < |s.handshakes| ==> ticket < |n.handshakes| && n.handshakes[ticket] == s.handshakes[ticket]
    case Forwarder(serving) =>
      && n.thread == s.thread && n.resent == s.resent && |n.handshakes| == |s.handshakes|
      && (serving.Some? && serving.value < |s.handshakes| ==>
            n.handshakes[serving.value] == s.handshakes[serving.value])
  }

  lemma ForeignLeavesUntouched(cfg: Config, s: State, a: Action, me: Self)
    requires Enabled(s, a) && Foreign(s, a, me)
    requires me.Forwarder? && s.thread.Serving? ==> me.serving == Some(s.thread.ticket)
    ensures Untouched(s, Next(cfg, s, a), me)
  {
    hide SynAck, Reset, PoolSpec.ReportFailure, Best, ActiveRecord, Avoiding;
    match me {
      case Task(ticket) =>
        if ticket < |s.handshakes| {
          OtherStepsLeaveMine(cfg, s, a, ticket);
        }
      case Forwarder(serving) =>
        if serving.Some? && serving.value < |s.handshakes| {
          OtherStepsLeaveMine(cfg, s, a, serving.value);
        }
    }
  }

  lemma {:induction false} AllForeignLeaveUntouched(cfg: Config, s: State, actions: seq<Action>, me: Self)
    requires Behaves(cfg, s, actions) && AllForeign(cfg, s, actions, me)
    requires me.Forwarder? && s.thread.Serving? ==> me.serving == Some(s.thread.ticket)
    ensures Untouched(s, After(cfg, s, actions), me)
    decreases |actions|
  {
    hide Next, Enabled, Foreign;
    if actions != [] {
      ForeignLeavesUntouched(cfg, s, actions[0], me);
      AllForeignLeaveUntouched(cfg, Next(cfg, s, actions[0]), actions[1..], me);
    }
  }

  /** After others have acted it is still a behaviour, the invariant holds, and what is mine is as I left it. */
  lemma OthersKeep(cfg: Config, s0: State, before: seq<Action>, s: State, after: seq<Action>, n: State, me: Self)
    requires Leads(cfg, s0, before, s) && Inv(s) && OthersActed(cfg, before, s, after, n, me)
    requires me.Forwarder? && s.thread.Serving? ==> me.serving == Some(s.thread.ticket)
    ensures Leads(cfg, s0, after, n) && Inv(n) && Untouched(s, n, me) && before <= after
  {
    hide Inv, Untouched, AllForeign;
    var more :| Behaves(cfg, s, more) && AllForeign(cfg, s, more, me) && after == before + more
      && n == After(cfg, s, more);
    BehavesInTwo(cfg, s0, before, more);
    EveryInterleavingKeepsInv(cfg, s, more);
    AllForeignLeaveUntouched(cfg, s, more, me);
  }

  function IdOf(proxy: Option<ProxyInfo>): Option<ProxyId> {
    if proxy.Some? then Some(proxy.value.id) else None
  }

  /** What comes of a SYN on the forwarding thread. */
  datatype SynOutcome = Resent(packet: seq<Byte>) | Ignored | Refused | Spawned(proxy: Option<ProxyInfo>)

  class DeviceRouter {
    const pool: ProxyPool
    var pending: set<FlowKey>
    var tracker: map<FlowKey, TcpState>
    /** The packets given to the responder. */
    var responses: seq<seq<Byte>>

    constructor (pool: ProxyPool)
      ensures this.pool == pool && pending == {} && tracker == map[] && responses == []
    {
      this.pool, pending, tracker, responses := pool, {}, map[], [];
    }

    /** The machine's shared state is what the code holds. */
    ghost predicate Shows(s: State)
      reads this, pool
      requires pool.Valid()
    {
      s.pending == pending && s.tracker == tracker && s.pool == pool.View()
    }

    method SynAckPacket(key: FlowKey, serverIsn: Word32, clientIsn: Word32) returns (pkt: seq<Byte>)
      ensures pkt == SynAck(key, serverIsn, clientIsn)
    {
      pkt := BuildTcpPacket(key.dstIp, key.srcIp, 0, key.dstPort, key.srcPort, serverIsn,
                            WrappingAdd(clientIsn, 1), 0x12, []);
    }

    method ResetPacket(key: FlowKey, clientIsn: Word32) returns (pkt: seq<Byte>)
      ensures pkt == Reset(key, clientIsn)
    {
      pkt := BuildTcpPacket(key.dstIp, key.srcIp, 0, key.dstPort, key.srcPort, 0, WrappingAdd(clientIsn, 1), 0x14, []);
    }

    /** One more action of the machine, taken by the code itself. */
    ghost method Step(s0: State, actions: seq<Action>, s: State, a: Action) returns (longer: seq<Action>, n: State)
      requires Leads(pool.cfg, s0, actions, s) && Enabled(s, a) && Inv(s)
      ensures longer == actions + [a] && n == Next(pool.cfg, s, a) && Leads(pool.cfg, s0, longer, n) && Inv(n)
    {
      LeadsOn(pool.cfg, s0, actions, s, a);
      NextKeepsInv(pool.cfg, s, a);
      longer, n := actions + [a], Next(pool.cfg, s, a);
    }

    /**
     * Between two locks the other tasks run: they may change everything that is shared, by any behaviour
     * of the machine that is not this code's own. That is all that is known afterwards.
     */
    method OthersAct(ghost me: Self, ghost actions: seq<Action>, ghost s: State)
      returns (ghost longer: seq<Action>, ghost n: State)
      requires pool.Valid() && Shows(s)
      modifies this, pool
      ensures pool.Valid() && Shows(n) && OthersActed(pool.cfg, actions, s, longer, n, me)
      ensures old(responses) <= responses
    {
      NobodyActed(pool.cfg, actions, s, me);
      longer, n := actions, s;
    }

    /**
     * A SYN on the forwarding thread: answered again, ignored because a handshake of its flow is under
     * way, refused, or handed to a task that starts with this proxy or with none.
     */
    method HandleOutgoing(key: FlowKey, clientIsn: Word32, decision: Decision, ghost s0: State)
      returns (outcome: SynOutcome, ghost actions: seq<Action>, ghost s: State)
      requires pool.Valid() && Shows(s0) && Inv(s0) && s0.thread.Idle?
      modifies this, pool
      ensures old(responses) <= responses
      ensures pool.Valid() && Shows(s) && Leads(pool.cfg, s0, actions, s) && Inv(s) && s.thread.Idle?
      ensures outcome.Resent? <==> key in old(tracker)
      ensures outcome.Resent? ==>
                && outcome.packet == SynAck(key, old(tracker)[key].serverIsn, old(tracker)[key].clientIsn)
                && s.resent == s0.resent + [(key, outcome.packet)] && s.handshakes == s0.handshakes
      ensures !outcome.Resent? ==> s.resent == s0.resent
      ensures outcome.Ignored? ==> key in pending && |s.handshakes| == |s0.handshakes|
      ensures outcome.Refused? || outcome.Spawned? ==> |s.handshakes| == |s0.handshakes| + 1
      ensures outcome.Refused? ==>
                && decision.Proxied? && Responded(responses, Reset(key, clientIsn))
                && s.handshakes[|s0.handshakes|]
                   == Handshake(key, clientIsn, Some(decision), [], 0, Done, [Reset(key, clientIsn)])
      ensures outcome.Spawned? ==>
                && key in pending && (outcome.proxy.None? <==> decision.Direct?)
                && s.handshakes[|s0.handshakes|]
                   == Handshake(key, clientIsn, Some(decision), [], 0, Trying(IdOf(outcome.proxy), 0, {}), [])
    {
      hide Leads, SynAck, Reset, FreshState, Inv, OthersActed, Next, IdOf;
      ghost var t := |s0.handshakes|;
      NoStep(pool.cfg, s0);
      SynMoves(pool.cfg, s0, key, clientIsn);
      actions, s := Step(s0, [], s0, Syn(key, clientIsn));
      if key in tracker {
        var pkt := SynAckPacket(key, tracker[key].serverIsn, tracker[key].clientIsn);
        outcome := Resent(pkt);
        return;
      }
      actions, s := LetOthersAct(Forwarder(None), s0, actions, s);
      InsertMoves(pool.cfg, s, key, clientIsn);
      actions, s := Step(s0, actions, s, Insert);
      if key in pending {
        outcome := Ignored;
        return;
      }
      pending := pending + {key};
      outcome, actions, s := Serve(key, clientIsn, decision, t, s0, actions, s);
    }

    /** The handshake just admitted is decided for: refused, or handed to a task. */
    method Serve(key: FlowKey, clientIsn: Word32, decision: Decision, ghost t: nat, ghost s0: State,
                 ghost before: seq<Action>, ghost s1: State)
      returns (outcome: SynOutcome, ghost actions: seq<Action>, ghost s: State)
      requires pool.Valid() && Shows(s1) && Leads(pool.cfg, s0, before, s1) && Inv(s1)
      requires t < |s1.handshakes| && s1.thread == Serving(t)
      requires s1.handshakes[t] == Handshake(key, clientIsn, None, [], 0, Deciding, [])
      modifies this, pool
      ensures old(responses) <= responses
      ensures pool.Valid() && Shows(s) && Leads(pool.cfg, s0, actions, s) && Inv(s) && s.thread.Idle?
      ensures s.resent == s1.resent && |s.handshakes| == |s1.handshakes|
      ensures outcome.Refused? || outcome.Spawned?
      ensures outcome.Refused? ==>
                && decision.Proxied? && Responded(responses, Reset(key, clientIsn))
                && s.handshakes[t] == Handshake(key, clientIsn, Some(decision), [], 0, Done, [Reset(key, clientIsn)])
      ensures outcome.Spawned? ==>
                && key in pending && (outcome.proxy.None? <==> decision.Direct?)
                && s.handshakes[t]
                   == Handshake(key, clientIsn, Some(decision), [], 0, Trying(IdOf(outcome.proxy), 0, {}), [])
    {
      hide Leads, SynAck, Reset, Inv, OthersActed, Next;
      actions, s := LetOthersAct(Forwarder(Some(t)), s0, before, s1);
      var proxy := if decision.Direct? then None else pool.Active();
      DecideMoves(pool.cfg, s, t, decision);
      actions, s := Step(s0, actions, s, Decide(decision));
      if decision.Proxied? && proxy.None? {
        actions, s := Refuse(key, clientIsn, t, s0, actions, s);
        outcome := Refused;
        return;
      }
      SpawnedIsPending(s, t);
      outcome := Spawned(proxy);
    }

    /** The policy wants a proxy and there is none in front: off `pending`, and a RST. */
    method Refuse(key: FlowKey, clientIsn: Word32, ghost t: nat, ghost s0: State, ghost before: seq<Action>,
                  ghost s1: State)
      returns (ghost actions: seq<Action>, ghost s: State)
      requires pool.Valid() && Shows(s1) && Leads(pool.cfg, s0, before, s1) && Inv(s1)
      requires t < |s1.handshakes| && s1.thread == Serving(t)
      requires s1.handshakes[t] == Handshake(key, clientIsn, Some(Proxied), [], 0, GivenUp, [])
      modifies this, pool
      ensures old(responses) <= responses
      ensures pool.Valid() && Shows(s) && Leads(pool.cfg, s0, actions, s) && Inv(s) && s.thread.Idle?
      ensures s.resent == s1.resent && |s.handshakes| == |s1.handshakes|
      ensures s.handshakes[t] == Handshake(key, clientIsn, Some(Proxied), [], 0, Done, [Reset(key, clientIsn)])
      ensures Responded(responses, Reset(key, clientIsn))
    {
      hide Leads, Reset, SynAck, Inv, Next, Responded, Shows;
      actions, s := LeavePending(Forwarder(Some(t)), key, t, s0, before, s1);
      var pkt := ResetPacket(key, clientIsn);
      actions, s := Reply(pkt, Forwarder(Some(t)), t, s0, actions, s);
    }

    /** Others act, and what follows from it. */
    method LetOthersAct(ghost me: Self, ghost s0: State, ghost before: seq<Action>, ghost s: State)
      returns (ghost actions: seq<Action>, ghost n: State)
      requires pool.Valid() && Shows(s) && Leads(pool.cfg, s0, before, s) && Inv(s)
      requires me.Forwarder? && s.thread.Serving? ==> me.serving == Some(s.thread.ticket)
      modifies this, pool
      ensures pool.Valid() && Shows(n) && Leads(pool.cfg, s0, actions, n) && Inv(n) && Untouched(s, n, me)
      ensures before <= actions && old(responses) <= responses
    {
      hide Leads, Inv, OthersActed, Untouched;
      actions, n := OthersAct(me, before, s);
      OthersKeep(pool.cfg, s0, before, s, actions, n, me);
    }

    /** One attempt; whether a connection is made is left open, and the others act while it goes on. */
    method TryOne(proxy: Option<ProxyInfo>, attempt: nat, avoided: set<ProxyId>, now: Time, ghost t: nat,
                  ghost s0: State, ghost before: seq<Action>, ghost s1: State)
      returns (ok: bool, ghost actions: seq<Action>, ghost s: State)
      requires pool.Valid() && Shows(s1) && Leads(pool.cfg, s0, before, s1) && Inv(s1)
      requires t < |s1.handshakes| && Tries(s1.handshakes[t], proxy, attempt, avoided)
      modifies this, pool
      ensures old(responses) <= responses
      ensures pool.Valid() && Shows(s) && Leads(pool.cfg, s0, actions, s) && Inv(s)
      ensures t < |s.handshakes| && SameRequest(s1.handshakes[t], s.handshakes[t])
      ensures ok ==> s.handshakes[t].phase == Connected
      ensures !ok && (proxy.None? || attempt >= 2) ==> s.handshakes[t].phase == GivenUp
      ensures !ok && proxy.Some? && attempt < 2 ==> Fails(s.handshakes[t], attempt + 1, avoided + {proxy.value.id})
      ensures s.handshakes[t].tried
              == s1.handshakes[t].tried + if proxy.Some? then [proxy.value.id] else []
    {
      hide Leads, Inv, OthersActed, Next, PoolSpec.ReportFailure, Tries, Fails;
      actions, s := LetOthersAct(Task(t), s0, before, s1);
      ok := *;
      ConnectMoves(pool.cfg, s, t, proxy, attempt, avoided, ok, now);
      actions, s := Step(s0, actions, s, Connect(t, ok, now));
      if !ok && proxy.Some? && attempt < 2 {
        pool.ReportFailure(proxy.value.id, now);
      }
    }

    /** The next proxy in front, the others having acted before it is chosen. */
    method FindNext(attempt: nat, avoided: set<ProxyId>, now: Time, ghost t: nat, ghost s0: State,
                    ghost before: seq<Action>, ghost s1: State)
      returns (replacement: Option<ProxyInfo>, ghost actions: seq<Action>, ghost s: State)
      requires pool.Valid() && Shows(s1) && Leads(pool.cfg, s0, before, s1) && Inv(s1)
      requires t < |s1.handshakes| && Fails(s1.handshakes[t], attempt, avoided)
      modifies this, pool
      ensures old(responses) <= responses
      ensures pool.Valid() && Shows(s) && Leads(pool.cfg, s0, actions, s) && Inv(s)
      ensures t < |s.handshakes| && SameRequest(s1.handshakes[t], s.handshakes[t])
      ensures s.handshakes[t].tried == s1.handshakes[t].tried
      ensures if NoCandidate(pool.cfg, pool.proxies, IdsOf(avoided), {}) then replacement.None?
              else replacement.Some?
                   && WorthMost(pool.cfg, pool.proxies, replacement.value, IdsOf(avoided), {}, now)
      ensures if replacement.None? then s.handshakes[t].phase == GivenUp
              else Tries(s.handshakes[t], replacement, attempt, avoided)
    {
      hide Leads, Inv, OthersActed, Next, ActivateBest, BestRecord, Tries, Fails, NoCandidate, WorthMost, IdsOf;
      actions, s := LetOthersAct(Task(t), s0, before, s1);
      replacement := pool.ActivateBestAvoiding(Avoiding(avoided), now);
      AvoidingIsIds(avoided);
      ChoiceIsWorthMost(pool.cfg, pool.proxies, IdsOf(avoided), {}, now);
      ReplaceMoves(pool.cfg, s, t, attempt, avoided, now);
      actions, s := Step(s0, actions, s, Replace(t, now));
    }

    /** The loop of the spawned task: the proxy in front, and up to two replacements. */
    method CarryOn(first: Option<ProxyInfo>, now: Time, ghost t: nat, ghost s0: State)
      returns (connected: bool, ghost actions: seq<Action>, ghost s: State)
      requires pool.Valid() && Shows(s0) && Inv(s0) && t < |s0.handshakes| && Tries(s0.handshakes[t], first, 0, {})
      modifies this, pool
      ensures old(responses) <= responses
      ensures pool.Valid() && Shows(s) && Leads(pool.cfg, s0, actions, s) && Inv(s)
      ensures t < |s.handshakes| && SameRequest(s0.handshakes[t], s.handshakes[t])
      ensures s.handshakes[t].phase == if connected then Connected else GivenUp
      ensures var tried := s.handshakes[t].tried;
              && (first.Some? ==> tried != [] && tried[0] == first.value.id)
              && (!connected && first.Some? && |tried| < 3 ==>
                    NoCandidate(pool.cfg, pool.proxies, set id | id in tried :: ById(id), {}))
    {
      hide Leads, Inv, Tries, Fails, NoCandidate, WorthMost, IdsOf, Shows;
      var proxy, attempt: nat, avoided: set<ProxyId> := first, 0, {};
      actions, s := [], s0;
      NoStep(pool.cfg, s0);
      NothingTriedYet(s0, first, t);
      ghost var tried: seq<ProxyId> := [];
      while true
        invariant pool.Valid() && Shows(s) && Leads(pool.cfg, s0, actions, s) && Inv(s)
        invariant t < |s.handshakes| && SameRequest(s0.handshakes[t], s.handshakes[t])
        invariant old(responses) <= responses
        invariant attempt <= 2 && Tries(s.handshakes[t], proxy, attempt, avoided)
        invariant tried == s.handshakes[t].tried && |tried| == attempt && avoided == set id | id in tried
        invariant if attempt == 0 then proxy == first else first.Some? && proxy.Some? && tried[0] == first.value.id
        decreases 2 - attempt
      {
        var ok;
        ok, actions, s := TryOne(proxy, attempt, avoided, now, t, s0, actions, s);
        if ok {
          connected := true;
          return;
        }
        if proxy.None? || attempt >= 2 {
          connected := false;
          return;
        }
        attempt := attempt + 1;
        avoided := avoided + {proxy.value.id};
        SetOfAppended(tried, proxy.value.id);
        tried := tried + [proxy.value.id];
        IdsOfTried(tried);
        proxy, actions, s := FindNext(attempt, avoided, now, t, s0, actions, s);
        if proxy.None? {
          connected := false;
          return;
        }
      }
    }

    /** The spawned task from its first attempt to its answer, the others acting between any two of its locks. */
    method RunTask(key: FlowKey, clientIsn: Word32, first: Option<ProxyInfo>, now: Time, ghost t: nat, ghost s0: State)
      returns (connected: bool, serverIsn: Word32, ghost actions: seq<Action>, ghost s: State)
      requires pool.Valid() && Shows(s0) && Inv(s0) && t < |s0.handshakes|
      requires s0.handshakes[t].key == key && s0.handshakes[t].clientIsn == clientIsn
      requires Tries(s0.handshakes[t], first, 0, {})
      modifies this, pool
      ensures old(responses) <= responses
      ensures pool.Valid() && Shows(s) && Leads(pool.cfg, s0, actions, s) && Inv(s)
      ensures var answer := if connected then SynAck(key, serverIsn, clientIsn) else Reset(key, clientIsn);
              t < |s.handshakes| && Answered(s.handshakes[t], answer) && Responded(responses, answer)
      ensures connected ==> EntersFlow(pool.cfg, s0, actions, t, key, clientIsn, serverIsn)
    {
      hide Leads, SynAck, Reset, Inv, Answered, Responded, Tries, EntersFlow, NoCandidate;
      AnswersNothingYet(s0, first, t);
      connected, actions, s := CarryOn(first, now, t, s0);
      serverIsn, actions, s := Finish(connected, key, clientIsn, t, s0, actions, s);
    }

    /** Off `pending`, into the tracker if there is a connection, and the answer. */
    method Finish(connected: bool, key: FlowKey, clientIsn: Word32, ghost t: nat, ghost s0: State,
                  ghost before: seq<Action>, ghost s1: State)
      returns (serverIsn: Word32, ghost actions: seq<Action>, ghost s: State)
      requires pool.Valid() && Shows(s1) && Leads(pool.cfg, s0, before, s1) && Inv(s1) && t < |s1.handshakes|
      requires s1.handshakes[t].key == key && s1.handshakes[t].clientIsn == clientIsn
      requires s1.handshakes[t].answers == [] && s1.handshakes[t].phase == if connected then Connected else GivenUp
      modifies this, pool
      ensures old(responses) <= responses
      ensures pool.Valid() && Shows(s) && Leads(pool.cfg, s0, actions, s) && Inv(s)
      ensures var answer := if connected then SynAck(key, serverIsn, clientIsn) else Reset(key, clientIsn);
              t < |s.handshakes| && Answered(s.handshakes[t], answer) && Responded(responses, answer)
      ensures connected ==> EntersFlow(pool.cfg, s0, actions, t, key, clientIsn, serverIsn)
    {
      hide Leads, SynAck, Reset, Inv, Next, FreshState, Answered, Responded, Shows, EntersFlow;
      serverIsn := 0;
      actions, s := LeavePending(Task(t), key, t, s0, before, s1);
      if connected {
        serverIsn, actions, s := Enter(key, clientIsn, t, s0, actions, s);
        var pkt := SynAckPacket(key, serverIsn, clientIsn);
        ghost var entered := actions;
        actions, s := Reply(pkt, Task(t), t, s0, actions, s);
        EnteredStays(pool.cfg, s0, entered, actions, t, key, clientIsn, serverIsn);
      } else {
        var pkt := ResetPacket(key, clientIsn);
        actions, s := Reply(pkt, Task(t), t, s0, actions, s);
      }
    }

    /** The flow comes off `pending`. */
    method LeavePending(ghost me: Self, key: FlowKey, ghost t: nat, ghost s0: State, ghost before: seq<Action>,
                        ghost s1: State)
      returns (ghost actions: seq<Action>, ghost s: State)
      requires pool.Valid() && Shows(s1) && Leads(pool.cfg, s0, before, s1) && Inv(s1) && Enabled(s1, Release(t))
      requires s1.handshakes[t].key == key
      requires me == Task(t) || (me == Forwarder(Some(t)) && s1.thread == Serving(t))
      modifies this, pool
      ensures old(responses) <= responses
      ensures pool.Valid() && Shows(s) && Leads(pool.cfg, s0, actions, s) && Inv(s) && t < |s.handshakes|
      ensures var h := s1.handshakes[t]; s.handshakes[t] == h.(phase := Released(h.phase.Connected?))
      ensures me.Forwarder? ==>
                s.thread == s1.thread && s.resent == s1.resent && |s.handshakes| == |s1.handshakes|
    {
      hide Leads, Inv, Next, OthersActed;
      actions, s := LetOthersAct(me, s0, before, s1);
      pending := pending - {key};
      ReleaseMoves(pool.cfg, s, t);
      actions, s := Step(s0, actions, s, Release(t));
    }

    /** The connection is tracked under a random number. */
    method Enter(key: FlowKey, clientIsn: Word32, ghost t: nat, ghost s0: State, ghost before: seq<Action>,
                 ghost s1: State)
      returns (serverIsn: Word32, ghost actions: seq<Action>, ghost s: State)
      requires pool.Valid() && Shows(s1) && Leads(pool.cfg, s0, before, s1) && Inv(s1) && t < |s1.handshakes|
      requires s1.handshakes[t].key == key && s1.handshakes[t].clientIsn == clientIsn
      requires s1.handshakes[t].phase == Released(true)
      modifies this, pool
      ensures old(responses) <= responses
      ensures pool.Valid() && Shows(s) && Leads(pool.cfg, s0, actions, s) && Inv(s)
      ensures t < |s.handshakes| && s.handshakes[t] == s1.handshakes[t].(phase := Entered(serverIsn))
      ensures EntersFlow(pool.cfg, s0, actions, t, key, clientIsn, serverIsn)
    {
      hide Leads, Inv, Next, FreshState, EntersFlow;
      actions, s := LetOthersAct(Task(t), s0, before, s1);
      serverIsn := *;
      tracker := tracker[key := FreshState(clientIsn, serverIsn)];
      TrackMoves(pool.cfg, s, t, serverIsn);
      actions, s := Step(s0, actions, s, Track(t, serverIsn));
      JustEntered(pool.cfg, s0, actions, s, t, key, clientIsn, serverIsn);
    }

    /** The answer is given to the responder. */
    method Reply(pkt: seq<Byte>, ghost me: Self, ghost t: nat, ghost s0: State, ghost before: seq<Action>,
                 ghost s1: State)
      returns (ghost actions: seq<Action>, ghost s: State)
      requires pool.Valid() && Shows(s1) && Leads(pool.cfg, s0, before, s1) && Inv(s1) && Enabled(s1, Answer(t))
      requires s1.handshakes[t].answers == [] && pkt == AnswerDue(s1.handshakes[t])
      requires me == Task(t) || (me == Forwarder(Some(t)) && s1.thread == Serving(t))
      modifies this, pool
      ensures old(responses) <= responses
      ensures pool.Valid() && Shows(s) && Leads(pool.cfg, s0, actions, s) && Inv(s)
      ensures t < |s.handshakes| && s.handshakes[t] == s1.handshakes[t].(answers := [pkt], phase := Done)
      ensures Answered(s.handshakes[t], pkt) && Responded(responses, pkt) && before <= actions
      ensures me.Forwarder? ==> s.thread.Idle? && s.resent == s1.resent && |s.handshakes| == |s1.handshakes|
    {
      hide Leads, Inv, Next, OthersActed, AnswerDue;
      actions, s := LetOthersAct(me, s0, before, s1);
      responses := responses + [pkt];
      AnswerMoves(pool.cfg, s, t);
      actions, s := Step(s0, actions, s, Answer(t));
    }
  }

  /** The handshake's next attempt is this one, with none of the avoided. */
  predicate Tries(h: Handshake, proxy: Option<ProxyInfo>, attempt: nat, avoided: set<ProxyId>) {
    h.phase == Trying(IdOf(proxy), attempt, avoided)
  }

  predicate Fails(h: Handshake, attempt: nat, avoided: set<ProxyId>) {
    h.phase == Failing(attempt, avoided)
  }

  /** The handshake is over, and this was its answer. */
  predicate Answered(h: Handshake, packet: seq<Byte>) {
    h.phase.Done? && h.answers == [packet]
  }

  /** This was the last packet given to the responder. */
  predicate Responded(responses: seq<seq<Byte>>, packet: seq<Byte>) {
    responses != [] && responses[|responses| - 1] == packet
  }

  /** On the way the flow is tracked, both numbers one past the initial ones. */
  ghost predicate EntersFlow(cfg: Config, s0: State, actions: seq<Action>, t: nat, key: FlowKey, clientIsn: Word32,
                             serverIsn: Word32)
  {
    exists k :: 0 <= k < |actions| && actions[k] == Track(t, serverIsn) && Behaves(cfg, s0, actions[..k + 1])
      && var n := After(cfg, s0, actions[..k + 1]);
         && key in n.tracker
         && n.tracker[key]
            == TcpState(clientIsn, serverIsn, WrappingAdd(clientIsn, 1), WrappingAdd(serverIsn, 1))
  }

  lemma JustEntered(cfg: Config, s0: State, actions: seq<Action>, s: State, t: nat, key: FlowKey, clientIsn: Word32,
                    serverIsn: Word32)
    requires Leads(cfg, s0, actions, s) && actions != [] && actions[|actions| - 1] == Track(t, serverIsn)
    requires key in s.tracker && s.tracker[key] == FreshState(clientIsn, serverIsn)
    ensures EntersFlow(cfg, s0, actions, t, key, clientIsn, serverIsn)
  {
    hide Behaves, After;
    assert actions[..|actions|] == actions;
  }

  lemma EnteredStays(cfg: Config, s0: State, before: seq<Action>, after: seq<Action>, t: nat, key: FlowKey,
                     clientIsn: Word32, serverIsn: Word32)
    requires EntersFlow(cfg, s0, before, t, key, clientIsn, serverIsn) && before <= after
    ensures EntersFlow(cfg, s0, after, t, key, clientIsn, serverIsn)
  {
    hide Behaves, After;
    var k :| 0 <= k < |before| && before[k] == Track(t, serverIsn) && Behaves(cfg, s0, before[..k + 1])
      && var n := After(cfg, s0, before[..k + 1]);
         && key in n.tracker
         && n.tracker[key]
            == TcpState(clientIsn, serverIsn, WrappingAdd(clientIsn, 1), WrappingAdd(serverIsn, 1));
    assert after[..k + 1] == before[..k + 1] && after[k] == before[k];
  }

  function IdsOf(ids: set<ProxyId>): set<Avoid> {
    set id | id in ids :: ById(id)
  }

  lemma AvoidingIsIds(ids: set<ProxyId>)
    ensures Avoiding(ids) == Wanted(IdsOf(ids), {}, None)
  {
  }

  lemma IdsOfTried(tried: seq<ProxyId>)
    ensures IdsOf(set id | id in tried) == set id | id in tried :: ById(id)
  {
  }

  lemma NothingTriedYet(s: State, first: Option<ProxyInfo>, t: nat)
    requires Inv(s) && t < |s.handshakes| && Tries(s.handshakes[t], first, 0, {})
    ensures s.handshakes[t].tried == []
  {
    hide Inv;
    WellAt(s, t);
  }

  function AnswerDue(h: Handshake): seq<Byte> {
    if h.phase.Entered? then SynAck(h.key, h.phase.serverIsn, h.clientIsn) else Reset(h.key, h.clientIsn)
  }

  /** The handshake is of the same SYN and has not been answered since. */
  predicate SameRequest(g: Handshake, h: Handshake) {
    h.key == g.key && h.clientIsn == g.clientIsn && h.answers == g.answers && h.decision == g.decision
  }

  lemma AnswersNothingYet(s: State, first: Option<ProxyInfo>, t: nat)
    requires Inv(s) && t < |s.handshakes| && Tries(s.handshakes[t], first, 0, {})
    ensures s.handshakes[t].answers == []
  {
    hide Inv;
    WellAt(s, t);
  }

  lemma SpawnedIsPending(s: State, t: nat)
    requires Inv(s) && t < |s.handshakes| && s.handshakes[t].phase.Trying?
    ensures s.handshakes[t].key in s.pending
  {
    hide EachIsWell, ResendsTheSame;
  }

  lemma SynMoves(cfg: Config, s: State, key: FlowKey, clientIsn: Word32)
    requires s.thread.Idle?
    ensures Next(cfg, s, Syn(key, clientIsn))
            == if key in s.tracker then
                 s.(resent := s.resent + [(key, SynAck(key, s.tracker[key].serverIsn, s.tracker[key].clientIsn))])
               else s.(thread := Checked(key, clientIsn))
  {
    hide SynAck;
  }

  lemma InsertMoves(cfg: Config, s: State, key: FlowKey, clientIsn: Word32)
    requires s.thread == Checked(key, clientIsn)
    ensures Enabled(s, Insert)
    ensures Next(cfg, s, Insert)
            == if key in s.pending then s.(thread := Idle)
               else s.(pending := s.pending + {key},
                       handshakes := s.handshakes + [Handshake(key, clientIsn, None, [], 0, Deciding, [])],
                       thread := Serving(|s.handshakes|))
  {
  }

  lemma DecideMoves(cfg: Config, s: State, t: nat, decision: Decision)
    requires s.thread == Serving(t) && t < |s.handshakes| && s.handshakes[t].phase.Deciding?
    ensures var n, active := Next(cfg, s, Decide(decision)), ActiveRecord(s.pool);
            var proxy := if decision.Direct? then None else active;
            var refused := decision.Proxied? && active.None?;
            && n.pending == s.pending && n.tracker == s.tracker && n.pool == s.pool && n.resent == s.resent
            && |n.handshakes| == |s.handshakes| && n.thread == (if refused then s.thread else Idle)
            && n.handshakes[t]
               == s.handshakes[t].(decision := Some(decision),
                                   phase := if refused then GivenUp else Trying(IdOf(proxy), 0, {}))
  {
    hide ActiveRecord;
  }

  lemma ReleaseMoves(cfg: Config, s: State, t: nat)
    requires Enabled(s, Release(t))
    ensures var h, n := s.handshakes[t], Next(cfg, s, Release(t));
            && n == s.(handshakes := s.handshakes[t := h.(phase := Released(h.phase.Connected?))],
                       pending := s.pending - {h.key})
  {
  }

  lemma TrackMoves(cfg: Config, s: State, t: nat, serverIsn: Word32)
    requires Enabled(s, Track(t, serverIsn))
    ensures var h, n := s.handshakes[t], Next(cfg, s, Track(t, serverIsn));
            && n == s.(handshakes := s.handshakes[t := h.(phase := Entered(serverIsn))],
                       tracker := s.tracker[h.key := FreshState(h.clientIsn, serverIsn)])
  {
  }

  lemma AnswerMoves(cfg: Config, s: State, t: nat)
    requires Enabled(s, Answer(t)) && s.handshakes[t].answers == []
    ensures var h, n := s.handshakes[t], Next(cfg, s, Answer(t));
            && n == s.(handshakes := s.handshakes[t := h.(answers := [AnswerDue(h)], phase := Done)],
                       thread := if s.thread == Serving(t) then Idle else s.thread)
  {
    hide SynAck, Reset;
    var h := s.handshakes[t];
    assert h.answers + [AnswerDue(h)] == [AnswerDue(h)];
  }

  /** What an attempt makes of the handshake and the pool. */
  lemma ConnectMoves(cfg: Config, s: State, t: nat, proxy: Option<ProxyInfo>, attempt: nat, avoided: set<ProxyId>,
                     ok: bool, at: Time)
    requires t < |s.handshakes| && Tries(s.handshakes[t], proxy, attempt, avoided)
    ensures Enabled(s, Connect(t, ok, at))
    ensures var n := Next(cfg, s, Connect(t, ok, at));
            && t < |n.handshakes| && SameRequest(s.handshakes[t], n.handshakes[t])
            && n.pending == s.pending && n.tracker == s.tracker
            && n.handshakes[t].tried == s.handshakes[t].tried + (if proxy.Some? then [proxy.value.id] else [])
            && (ok ==> n.handshakes[t].phase == Connected && n.pool == s.pool)
            && (!ok && (proxy.None? || attempt >= 2) ==> n.handshakes[t].phase == GivenUp && n.pool == s.pool)
            && (!ok && proxy.Some? && attempt < 2 ==>
                  && Fails(n.handshakes[t], attempt + 1, avoided + {proxy.value.id})
                  && n.pool == PoolSpec.ReportFailure(cfg, s.pool, proxy.value.id, at))
  {
    hide PoolSpec.ReportFailure;
  }

  lemma ReplaceMoves(cfg: Config, s: State, t: nat, attempt: nat, avoided: set<ProxyId>, at: Time)
    requires t < |s.handshakes| && Fails(s.handshakes[t], attempt, avoided)
    ensures Enabled(s, Replace(t, at))
    ensures var n := Next(cfg, s, Replace(t, at));
            var next := BestRecord(cfg, s.pool.records, Avoiding(avoided), at);
            && t < |n.handshakes| && SameRequest(s.handshakes[t], n.handshakes[t])
            && n.pending == s.pending && n.tracker == s.tracker && n.handshakes[t].tried == s.handshakes[t].tried
            && n.pool == ActivateBest(cfg, s.pool, Avoiding(avoided), at)
            && (if next.None? then n.handshakes[t].phase == GivenUp
                else Tries(n.handshakes[t], next, attempt, avoided))
  {
    hide Best, Avoiding;
  }
}
