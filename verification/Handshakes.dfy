/**
 * The handshake protocol of the device router: one forwarding thread takes SYNs, and each admitted
 * one is carried on by a background task. Every lock the code takes is one step here, so the two
 * check-then-act sequences of the source are two steps each, and anything may come between.
 */
module Handshakes {
  import opened Common
  import opened Packets
  import opened TcpPath
  import opened Proxies
  import opened PoolSpec

  datatype Decision = Direct | Proxied

  /** Where an admitted handshake is. It is pending in every phase before `Released`. */
  datatype Phase =
    | Deciding
    | Trying(proxy: Option<ProxyId>, attempt: nat, avoided: set<ProxyId>)
    | Failing(attempt: nat, avoided: set<ProxyId>)
    | Connected
    | GivenUp
    | Released(connected: bool)
    | Entered(serverIsn: Word32)
    | Done

  datatype Handshake = Handshake(
    key: FlowKey,
    clientIsn: Word32,
    decision: Option<Decision>,
    tried: seq<ProxyId>,
    directs: nat,
    phase: Phase,
    answers: seq<seq<Byte>>)

  /** What the forwarding thread is in the middle of. */
  datatype Thread = Idle | Checked(key: FlowKey, clientIsn: Word32) | Serving(ticket: nat)

  datatype State = State(
    pending: set<FlowKey>,
    tracker: map<FlowKey, TcpState>,
    handshakes: seq<Handshake>,
    thread: Thread,
    resent: seq<(FlowKey, seq<Byte>)>,
    pool: Pool)

  datatype Action =
    | Syn(key: FlowKey, clientIsn: Word32)
    | Insert
    | Decide(decision: Decision)
    | Connect(ticket: nat, ok: bool, at: Time)
    | Replace(ticket: nat, at: Time)
    | Release(ticket: nat)
    | Track(ticket: nat, serverIsn: Word32)
    | Answer(ticket: nat)
    | Forget(key: FlowKey)
    | Progress(key: FlowKey, clientNextSeq: Word32, serverNextSeq: Word32)
    | PoolChange(pool: Pool)

  function SynAck(key: FlowKey, serverIsn: Word32, clientIsn: Word32): seq<Byte> {
    TcpPacket(key.dstIp, key.srcIp, 0, key.dstPort, key.srcPort, serverIsn, WrappingAdd(clientIsn, 1), 0x12, [])
  }

  function Reset(key: FlowKey, clientIsn: Word32): seq<Byte> {
    TcpPacket(key.dstIp, key.srcIp, 0, key.dstPort, key.srcPort, 0, WrappingAdd(clientIsn, 1), 0x14, [])
  }

  function Avoiding(ids: set<ProxyId>): Wanted {
    Wanted(set id | id in ids :: ById(id), {}, None)
  }

  /** The action a handshake takes in its current phase, if any. */
  predicate CanAct(s: State, a: Action) {
    match a
    case Connect(t, _, _) => t < |s.handshakes| && s.handshakes[t].phase.Trying?
    case Replace(t, _) => t < |s.handshakes| && s.handshakes[t].phase.Failing?
    case Release(t) => t < |s.handshakes| && (s.handshakes[t].phase.Connected? || s.handshakes[t].phase.GivenUp?)
    case Track(t, _) => t < |s.handshakes| && s.handshakes[t].phase == Released(true)
    case Answer(t) => t < |s.handshakes| && (s.handshakes[t].phase == Released(false) || s.handshakes[t].phase.Entered?)
    case _ => false
  }

  predicate Enabled(s: State, a: Action) {
    match a
    case Syn(_, _) => s.thread.Idle?
    case Insert => s.thread.Checked?
    case Decide(_) =>
      s.thread.Serving? && s.thread.ticket < |s.handshakes| && s.handshakes[s.thread.ticket].phase.Deciding?
    case Forget(_) => true
    case Progress(key, _, _) => key in s.tracker
    case PoolChange(_) => true
    case _ => CanAct(s, a)
  }

  function With(s: State, t: nat, h: Handshake): State
    requires t < |s.handshakes|
  {
    s.(handshakes := s.handshakes[t := h])
  }

  /** A SYN for a tracked flow is answered at once; any other is looked up in `pending` next. */
  function OnSyn(s: State, key: FlowKey, clientIsn: Word32): State {
    if key in s.tracker then
      s.(resent := s.resent + [(key, SynAck(key, s.tracker[key].serverIsn, s.tracker[key].clientIsn))])
    else s.(thread := Checked(key, clientIsn))
  }

  function OnInsert(s: State): State
    requires s.thread.Checked?
  {
    var key := s.thread.key;
    if key in s.pending then s.(thread := Idle)
    else
      s.(pending := s.pending + {key},
         handshakes := s.handshakes + [Handshake(key, s.thread.clientIsn, None, [], 0, Deciding, [])],
         thread := Serving(|s.handshakes|))
  }

  /** A proxied flow with no proxy in front is refused; otherwise a task is spawned and the thread moves on. */
  function OnDecide(s: State, t: nat, decision: Decision): State
    requires t < |s.handshakes|
  {
    var h := s.handshakes[t].(decision := Some(decision));
    match decision
    case Direct => With(s, t, h.(phase := Trying(None, 0, {}))).(thread := Idle)
    case Proxied =>
      var active := ActiveRecord(s.pool);
      if active.None? then With(s, t, h.(phase := GivenUp))
      else With(s, t, h.(phase := Trying(Some(active.value.id), 0, {}))).(thread := Idle)
  }

  function OnConnect(cfg: Config, s: State, t: nat, ok: bool, at: Time): State
    requires t < |s.handshakes| && s.handshakes[t].phase.Trying?
  {
    var h, p := s.handshakes[t], s.handshakes[t].phase;
    match p.proxy
    case None => With(s, t, h.(directs := h.directs + 1, phase := if ok then Connected else GivenUp))
    case Some(id) =>
      var g := h.(tried := h.tried + [id]);
      if ok then With(s, t, g.(phase := Connected))
      else if p.attempt >= 2 then With(s, t, g.(phase := GivenUp))
      else
        With(s, t, g.(phase := Failing(p.attempt + 1, p.avoided + {id})))
          .(pool := ReportFailure(cfg, s.pool, id, at))
  }

  function OnReplace(cfg: Config, s: State, t: nat, at: Time): State
    requires t < |s.handshakes| && s.handshakes[t].phase.Failing?
  {
    var h, p := s.handshakes[t], s.handshakes[t].phase;
    var next := BestRecord(cfg, s.pool.records, Avoiding(p.avoided), at);
    if next.None? then With(s, t, h.(phase := GivenUp))
    else
      With(s, t, h.(phase := Trying(Some(next.value.id), p.attempt, p.avoided)))
        .(pool := ActivateBest(cfg, s.pool, Avoiding(p.avoided), at))
  }

  function OnAnswer(s: State, t: nat): State
    requires t < |s.handshakes|
  {
    var h := s.handshakes[t];
    var packet := if h.phase.Entered? then SynAck(h.key, h.phase.serverIsn, h.clientIsn) else Reset(h.key, h.clientIsn);
    With(s, t, h.(answers := h.answers + [packet], phase := Done))
      .(thread := if s.thread == Serving(t) then Idle else s.thread)
  }

  function Next(cfg: Config, s: State, a: Action): State
    requires Enabled(s, a)
  {
    match a
    case Syn(key, clientIsn) => OnSyn(s, key, clientIsn)
    case Insert => OnInsert(s)
    case Decide(decision) => OnDecide(s, s.thread.ticket, decision)
    case Connect(t, ok, at) => OnConnect(cfg, s, t, ok, at)
    case Replace(t, at) => OnReplace(cfg, s, t, at)
    case Release(t) =>
      var h := s.handshakes[t];
      With(s, t, h.(phase := Released(h.phase.Connected?))).(pending := s.pending - {h.key})
    case Track(t, serverIsn) =>
      var h := s.handshakes[t];
      With(s, t, h.(phase := Entered(serverIsn))).(tracker := s.tracker[h.key := FreshState(h.clientIsn, serverIsn)])
    case Answer(t) => OnAnswer(s, t)
    case Forget(key) => s.(tracker := s.tracker - {key})
    case Progress(key, c, n) => s.(tracker := s.tracker[key := s.tracker[key].(clientNextSeq := c, serverNextSeq := n)])
    case PoolChange(pool) => s.(pool := pool)
  }

  function Start(pool: Pool): State {
    State({}, map[], [], Idle, [], pool)
  }

  /** A behaviour: every action was enabled where it was taken. */
  predicate Behaves(cfg: Config, s: State, actions: seq<Action>)
    decreases |actions|
  {
    actions == [] || (Enabled(s, actions[0]) && Behaves(cfg, Next(cfg, s, actions[0]), actions[1..]))
  }

  function After(cfg: Config, s: State, actions: seq<Action>): State
    requires Behaves(cfg, s, actions)
    decreases |actions|
  {
    if actions == [] then s else After(cfg, Next(cfg, s, actions[0]), actions[1..])
  }

  // ----- what every interleaving keeps -----

  predicate Holds(h: Handshake) {
    h.phase.Deciding? || h.phase.Trying? || h.phase.Failing? || h.phase.Connected? || h.phase.GivenUp?
  }

  /** `pending` is exactly the keys of the handshakes admitted and not yet finished, each held by one of them. */
  ghost predicate PendingIsExact(s: State) {
    && (forall t :: 0 <= t < |s.handshakes| && Holds(s.handshakes[t]) ==> s.handshakes[t].key in s.pending)
    && (forall key :: key in s.pending ==>
          exists t :: 0 <= t < |s.handshakes| && Holds(s.handshakes[t]) && s.handshakes[t].key == key)
    && (forall t, u :: 0 <= t < u < |s.handshakes| && Holds(s.handshakes[t]) && Holds(s.handshakes[u]) ==>
          s.handshakes[t].key != s.handshakes[u].key)
  }

  /** The proxies one handshake tried are distinct, at most three, and none of them direct. */
  ghost predicate TriesWell(h: Handshake) {
    && Distinct(h.tried) && |h.tried| <= 3
    && (h.decision == Some(Proxied) ==> h.directs == 0)
    && (h.decision == Some(Direct) ==> h.tried == [] && h.directs <= 1)
    && match h.phase
       case Deciding => h.decision.None? && h.tried == [] && h.directs == 0
       case Trying(proxy, attempt, avoided) =>
         && |h.tried| == attempt <= 2 && avoided == (set id | id in h.tried)
         && h.decision == Some(if proxy.None? then Direct else Proxied)
         && (proxy.Some? ==> proxy.value !in avoided)
         && h.directs == 0
       case Failing(attempt, avoided) =>
         && h.decision == Some(Proxied)
         && |h.tried| == attempt <= 2 && avoided == (set id | id in h.tried) && h.directs == 0
       case _ => h.decision.Some?
  }

  /** No answer before the end, and one at the end: a SYN-ACK or a RST that acknowledges the client's number. */
  ghost predicate AnswersOnce(h: Handshake) {
    if h.phase.Done? then
      |h.answers| == 1
      && (h.answers[0] == Reset(h.key, h.clientIsn)
          || exists serverIsn: Word32 :: h.answers[0] == SynAck(h.key, serverIsn, h.clientIsn))
    else h.answers == []
  }

  /** The handshake that entered this flow has sent, or is about to send, this SYN-ACK. */
  predicate Opened(h: Handshake, key: FlowKey, packet: seq<Byte>) {
    h.key == key
    && ((h.phase.Entered? && packet == SynAck(key, h.phase.serverIsn, h.clientIsn))
        || (h.phase.Done? && h.answers == [packet]))
  }

  function Acknowledgement(s: State, key: FlowKey): seq<Byte>
    requires key in s.tracker
  {
    SynAck(key, s.tracker[key].serverIsn, s.tracker[key].clientIsn)
  }

  ghost predicate SomeoneOpened(handshakes: seq<Handshake>, key: FlowKey, packet: seq<Byte>) {
    exists t :: 0 <= t < |handshakes| && Opened(handshakes[t], key, packet)
  }

  /** What a retransmitted SYN gets, and will get, is what some handshake of that flow answered. */
  ghost predicate ResendsTheSame(s: State) {
    && (forall key :: key in s.tracker ==> SomeoneOpened(s.handshakes, key, Acknowledgement(s, key)))
    && (forall i :: 0 <= i < |s.resent| ==> SomeoneOpened(s.handshakes, s.resent[i].0, s.resent[i].1))
  }

  ghost predicate DecidingIsServed(s: State) {
    forall t :: 0 <= t < |s.handshakes| && s.handshakes[t].phase.Deciding? ==> s.thread == Serving(t)
  }

  ghost predicate EachIsWell(s: State) {
    forall t :: 0 <= t < |s.handshakes| ==> TriesWell(s.handshakes[t]) && AnswersOnce(s.handshakes[t])
  }

  ghost predicate ServingIsOpen(s: State) {
    s.thread.Serving? ==> s.thread.ticket < |s.handshakes| && !s.handshakes[s.thread.ticket].phase.Done?
  }

  ghost predicate Inv(s: State) {
    PendingIsExact(s) && EachIsWell(s) && ResendsTheSame(s) && DecidingIsServed(s) && ServingIsOpen(s)
  }

  /** One handshake moves on, and stays as pending as it was. */
  ghost predicate MovesOn(s: State, n: State, t: nat, h: Handshake) {
    && t < |s.handshakes| && n.handshakes == s.handshakes[t := h]
    && h.key == s.handshakes[t].key && h.clientIsn == s.handshakes[t].clientIsn
    && n.resent == s.resent
  }

  lemma PendingKept(s: State, n: State, t: nat, h: Handshake)
    requires PendingIsExact(s) && MovesOn(s, n, t, h)
    requires Holds(h) == Holds(s.handshakes[t]) && n.pending == s.pending
    ensures PendingIsExact(n)
  {
    hide Holds;
    forall key | key in n.pending
      ensures exists u :: 0 <= u < |n.handshakes| && Holds(n.handshakes[u]) && n.handshakes[u].key == key
    {
      var u :| 0 <= u < |s.handshakes| && Holds(s.handshakes[u]) && s.handshakes[u].key == key;
      assert Holds(n.handshakes[u]) && n.handshakes[u].key == key;
    }
  }

  lemma PendingReleased(s: State, n: State, t: nat, h: Handshake)
    requires PendingIsExact(s) && MovesOn(s, n, t, h)
    requires Holds(s.handshakes[t]) && !Holds(h) && n.pending == s.pending - {h.key}
    ensures PendingIsExact(n)
  {
    hide Holds;
    forall key | key in n.pending
      ensures exists u :: 0 <= u < |n.handshakes| && Holds(n.handshakes[u]) && n.handshakes[u].key == key
    {
      var u :| 0 <= u < |s.handshakes| && Holds(s.handshakes[u]) && s.handshakes[u].key == key;
      assert u != t;
      assert Holds(n.handshakes[u]) && n.handshakes[u].key == key;
    }
  }

  lemma PendingAdmitted(s: State, n: State, h: Handshake)
    requires PendingIsExact(s) && n.handshakes == s.handshakes + [h] && Holds(h)
    requires h.key !in s.pending && n.pending == s.pending + {h.key}
    ensures PendingIsExact(n)
  {
    hide Holds;
    forall key | key in n.pending
      ensures exists u :: 0 <= u < |n.handshakes| && Holds(n.handshakes[u]) && n.handshakes[u].key == key
    {
      if key in s.pending {
        var u :| 0 <= u < |s.handshakes| && Holds(s.handshakes[u]) && s.handshakes[u].key == key;
        assert Holds(n.handshakes[u]) && n.handshakes[u].key == key;
      } else {
        assert n.handshakes[|s.handshakes|] == h;
      }
    }
  }

  /** Whatever a handshake had opened, it has still opened. */
  ghost predicate KeepsOpened(before: seq<Handshake>, after: seq<Handshake>) {
    |before| <= |after|
    && forall t, key, packet :: 0 <= t < |before| && Opened(before[t], key, packet) ==> Opened(after[t], key, packet)
  }

  lemma StillOpened(before: seq<Handshake>, after: seq<Handshake>, key: FlowKey, packet: seq<Byte>)
    requires KeepsOpened(before, after) && SomeoneOpened(before, key, packet)
    ensures SomeoneOpened(after, key, packet)
  {
    hide Opened;
    var t :| 0 <= t < |before| && Opened(before[t], key, packet);
    assert Opened(after[t], key, packet);
  }

  /** The flows tracked and the answers resent afterwards were there before, or somebody opened them. */
  lemma ResendsKept(s: State, n: State)
    requires ResendsTheSame(s) && KeepsOpened(s.handshakes, n.handshakes)
    requires forall key :: key in n.tracker ==>
               (key in s.tracker && Acknowledgement(n, key) == Acknowledgement(s, key))
               || SomeoneOpened(n.handshakes, key, Acknowledgement(n, key))
    requires forall i :: 0 <= i < |n.resent| ==>
               (i < |s.resent| && n.resent[i] == s.resent[i])
               || SomeoneOpened(n.handshakes, n.resent[i].0, n.resent[i].1)
    ensures ResendsTheSame(n)
  {
    hide Acknowledgement, SomeoneOpened, KeepsOpened;
    forall key | key in n.tracker ensures SomeoneOpened(n.handshakes, key, Acknowledgement(n, key)) {
      if key in s.tracker && Acknowledgement(n, key) == Acknowledgement(s, key) {
        StillOpened(s.handshakes, n.handshakes, key, Acknowledgement(n, key));
      }
    }
    forall i | 0 <= i < |n.resent| ensures SomeoneOpened(n.handshakes, n.resent[i].0, n.resent[i].1) {
      if i < |s.resent| && n.resent[i] == s.resent[i] {
        StillOpened(s.handshakes, n.handshakes, n.resent[i].0, n.resent[i].1);
      }
    }
  }

  lemma EachKept(s: State, n: State, t: nat, h: Handshake)
    requires EachIsWell(s) && MovesOn(s, n, t, h) && TriesWell(h) && AnswersOnce(h)
    ensures EachIsWell(n)
  {
    hide TriesWell, AnswersOnce;
  }

  lemma OpenedKept(s: State, n: State, t: nat, h: Handshake)
    requires MovesOn(s, n, t, h) && !s.handshakes[t].phase.Done?
    requires s.handshakes[t].phase.Entered? ==>
               h.phase.Done? && h.answers == [SynAck(h.key, s.handshakes[t].phase.serverIsn, h.clientIsn)]
    ensures KeepsOpened(s.handshakes, n.handshakes)
  {
    hide SynAck;
    forall u, key, packet | 0 <= u < |s.handshakes| && Opened(s.handshakes[u], key, packet)
      ensures Opened(n.handshakes[u], key, packet)
    {
    }
  }

  lemma WellAt(s: State, t: nat)
    requires Inv(s) && t < |s.handshakes|
    ensures TriesWell(s.handshakes[t]) && AnswersOnce(s.handshakes[t])
    ensures s.handshakes[t].phase.Deciding? ==> s.thread == Serving(t)
  {
    hide TriesWell, AnswersOnce, PendingIsExact, ResendsTheSame;
  }

  /** A step of one handshake that neither enters nor leaves `pending`. */
  lemma MoveKeepsInv(s: State, n: State, t: nat, h: Handshake)
    requires Inv(s) && MovesOn(s, n, t, h) && n.pending == s.pending && n.tracker == s.tracker
    requires Holds(h) == Holds(s.handshakes[t]) && TriesWell(h) && AnswersOnce(h) && !h.phase.Deciding?
    requires !s.handshakes[t].phase.Done? && (s.handshakes[t].phase.Entered? ==>
               h.phase.Done? && h.answers == [SynAck(h.key, s.handshakes[t].phase.serverIsn, h.clientIsn)])
    requires n.thread == s.thread || n.thread.Idle?
    requires s.thread.Serving? && n.thread.Idle? ==> s.thread.ticket == t
    requires n.thread == Serving(t) ==> !h.phase.Done?
    ensures Inv(n)
  {
    hide SynAck, TriesWell, AnswersOnce, PendingIsExact, EachIsWell, ResendsTheSame, KeepsOpened, Holds;
    PendingKept(s, n, t, h);
    EachKept(s, n, t, h);
    OpenedKept(s, n, t, h);
    ResendsKept(s, n);
  }

  lemma SetOfAppended(ids: seq<ProxyId>, id: ProxyId)
    ensures (set x | x in ids + [id]) == (set x | x in ids) + {id}
  {
  }

  lemma ConnectTriesWell(cfg: Config, s: State, t: nat, ok: bool, at: Time)
    requires t < |s.handshakes| && s.handshakes[t].phase.Trying? && TriesWell(s.handshakes[t])
    ensures t < |OnConnect(cfg, s, t, ok, at).handshakes| && TriesWell(OnConnect(cfg, s, t, ok, at).handshakes[t])
  {
    hide ReportFailure;
    var h := s.handshakes[t];
    if h.phase.proxy.Some? {
      SetOfAppended(h.tried, h.phase.proxy.value);
    }
  }

  lemma ConnectKeepsInv(cfg: Config, s: State, t: nat, ok: bool, at: Time)
    requires Inv(s) && Enabled(s, Connect(t, ok, at))
    ensures Inv(OnConnect(cfg, s, t, ok, at))
  {
    hide SynAck, Reset, Inv, ReportFailure, TriesWell;
    var n := OnConnect(cfg, s, t, ok, at);
    WellAt(s, t);
    ConnectTriesWell(cfg, s, t, ok, at);
    MoveKeepsInv(s, n, t, n.handshakes[t]);
  }

  lemma ReplaceKeepsInv(cfg: Config, s: State, t: nat, at: Time)
    requires Inv(s) && Enabled(s, Replace(t, at))
    ensures Inv(OnReplace(cfg, s, t, at))
  {
    hide SynAck, Reset, Inv, ActivateBest, Best;
    var n := OnReplace(cfg, s, t, at);
    var h := s.handshakes[t];
    WellAt(s, t);
    var next := BestRecord(cfg, s.pool.records, Avoiding(h.phase.avoided), at);
    if next.Some? {
      assert ById(next.value.id) !in Avoiding(h.phase.avoided).avoid;
      assert next.value.id !in h.phase.avoided;
    }
    MoveKeepsInv(s, n, t, n.handshakes[t]);
  }

  lemma DecideKeepsInv(s: State, decision: Decision)
    requires Inv(s) && Enabled(s, Decide(decision))
    ensures Inv(OnDecide(s, s.thread.ticket, decision))
  {
    hide SynAck, Reset, Inv, ActiveRecord;
    var t := s.thread.ticket;
    var n := OnDecide(s, t, decision);
    WellAt(s, t);
    MoveKeepsInv(s, n, t, n.handshakes[t]);
  }

  lemma AnswerKeepsInv(s: State, t: nat)
    requires Inv(s) && Enabled(s, Answer(t))
    ensures Inv(OnAnswer(s, t))
  {
    hide SynAck, Reset, Inv;
    var n := OnAnswer(s, t);
    var h, g := s.handshakes[t], n.handshakes[t];
    WellAt(s, t);
    assert g.answers == [g.answers[0]];
    if h.phase.Entered? {
      assert g.answers[0] == SynAck(h.key, h.phase.serverIsn, h.clientIsn);
    }
    MoveKeepsInv(s, n, t, g);
  }

  lemma ReleaseKeepsInv(cfg: Config, s: State, t: nat)
    requires Inv(s) && Enabled(s, Release(t))
    ensures Inv(Next(cfg, s, Release(t)))
  {
    hide SynAck, Reset, PendingIsExact, EachIsWell, ResendsTheSame, KeepsOpened;
    var n := Next(cfg, s, Release(t));
    WellAt(s, t);
    PendingReleased(s, n, t, n.handshakes[t]);
    EachKept(s, n, t, n.handshakes[t]);
    OpenedKept(s, n, t, n.handshakes[t]);
    ResendsKept(s, n);
  }

  lemma TrackKeepsInv(cfg: Config, s: State, t: nat, serverIsn: Word32)
    requires Inv(s) && Enabled(s, Track(t, serverIsn))
    ensures Inv(Next(cfg, s, Track(t, serverIsn)))
  {
    hide SynAck, Reset, PendingIsExact, EachIsWell, ResendsTheSame, KeepsOpened;
    var n := Next(cfg, s, Track(t, serverIsn));
    WellAt(s, t);
    PendingKept(s, n, t, n.handshakes[t]);
    EachKept(s, n, t, n.handshakes[t]);
    OpenedKept(s, n, t, n.handshakes[t]);
    var key := n.handshakes[t].key;
    assert Opened(n.handshakes[t], key, Acknowledgement(n, key));
    ResendsKept(s, n);
  }

  lemma InsertKeepsInv(s: State)
    requires Inv(s) && s.thread.Checked?
    ensures Inv(OnInsert(s))
  {
    hide SynAck, Reset;
    var n := OnInsert(s);
    if s.thread.key !in s.pending {
      var h := n.handshakes[|s.handshakes|];
      PendingAdmitted(s, n, h);
    }
    ResendsKept(s, n);
  }

  lemma SynKeepsInv(s: State, key: FlowKey, clientIsn: Word32)
    requires Inv(s) && s.thread.Idle?
    ensures Inv(OnSyn(s, key, clientIsn))
  {
    hide SynAck, Reset;
    var n := OnSyn(s, key, clientIsn);
    assert key in s.tracker ==> SomeoneOpened(n.handshakes, key, Acknowledgement(s, key));
    ResendsKept(s, n);
  }

  lemma OthersKeepInv(cfg: Config, s: State, a: Action)
    requires Inv(s) && Enabled(s, a) && (a.Forget? || a.Progress? || a.PoolChange?)
    ensures Inv(Next(cfg, s, a))
  {
    hide SynAck, Reset, ResendsTheSame, Apply;
    var n := Next(cfg, s, a);
    assert n.handshakes == s.handshakes && n.pending == s.pending;
    ResendsKept(s, n);
  }

  lemma NextKeepsInv(cfg: Config, s: State, a: Action)
    requires Inv(s) && Enabled(s, a)
    ensures Inv(Next(cfg, s, a))
  {
    hide Inv, OnConnect, OnReplace, OnAnswer, OnDecide, OnSyn, OnInsert;
    match a {
      case Syn(key, clientIsn) => SynKeepsInv(s, key, clientIsn);
      case Insert => InsertKeepsInv(s);
      case Decide(decision) => DecideKeepsInv(s, decision);
      case Connect(t, ok, at) => ConnectKeepsInv(cfg, s, t, ok, at);
      case Replace(t, at) => ReplaceKeepsInv(cfg, s, t, at);
      case Release(t) => ReleaseKeepsInv(cfg, s, t);
      case Track(t, serverIsn) => TrackKeepsInv(cfg, s, t, serverIsn);
      case Answer(t) => AnswerKeepsInv(s, t);
      case _ => OthersKeepInv(cfg, s, a);
    }
  }

  /**
   * Over every interleaving of the forwarding thread with any number of background tasks, and
   * whatever else happens to the pool and the tracked flows: `pending` is exact, every admitted SYN
   * gets one answer acknowledging its number, a retransmitted SYN gets what an opener of its flow
   * answered, a flow decided for a proxy opens no direct connection, and no task tries more than
   * three proxies or one of them twice.
   */
  lemma {:induction false} EveryInterleavingKeepsInv(cfg: Config, s: State, actions: seq<Action>)
    requires Inv(s) && Behaves(cfg, s, actions)
    ensures Inv(After(cfg, s, actions))
    decreases |actions|
  {
    hide Inv, Next;
    if actions != [] {
      NextKeepsInv(cfg, s, actions[0]);
      EveryInterleavingKeepsInv(cfg, Next(cfg, s, actions[0]), actions[1..]);
    }
  }

  lemma StartIsInv(pool: Pool)
    ensures Inv(Start(pool))
  {
  }
}
