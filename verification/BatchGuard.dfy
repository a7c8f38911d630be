/**
 * The flag that lets one probe batch run at a time. The scheduler and the manual trigger both use it,
 * each in tasks of their own, so the steps of any number of batches interleave: take the flag, fold
 * results in, give the flag back, and only then sweep.
 */
module BatchGuard {
  import opened Common
  import opened Proxies
  import opened PoolSpec
  import HealthRuns

  datatype Stage = Probing | Sweeping

  type TaskId = nat

  /** `stages` holds the batches that have started and have not ended. */
  datatype Daemon = Daemon(inFlight: bool, stages: map<TaskId, Stage>, pool: Pool)

  datatype Step =
    | Start(task: TaskId)
    | Fold(task: TaskId, result: HealthResult, policy: EvictionPolicy, schedule: ProbeSchedule, at: Time)
    | Release(task: TaskId)
    | Sweep(task: TaskId)
    | Elsewhere(op: Op)

  /** What may happen next. A start that finds the flag taken is `compare_exchange` failing. */
  predicate Enabled(d: Daemon, s: Step) {
    match s
    case Start(task) => task !in d.stages
    case Fold(task, _, _, _, _) => task in d.stages && d.stages[task] == Probing
    case Release(task) => task in d.stages && d.stages[task] == Probing
    case Sweep(task) => task in d.stages && d.stages[task] == Sweeping
    case Elsewhere(op) => !op.ResultOp?
  }

  function Next(cfg: Config, d: Daemon, s: Step): Daemon
    requires Enabled(d, s)
  {
    match s
    case Start(task) => if d.inFlight then d else d.(inFlight := true, stages := d.stages[task := Probing])
    case Fold(task, result, policy, schedule, at) => d.(pool := ApplyResult(d.pool, result, policy, schedule, at))
    case Release(task) => d.(inFlight := false, stages := d.stages[task := Sweeping])
    case Sweep(task) => d.(stages := d.stages - {task}, pool := EvictPending(d.pool))
    case Elsewhere(op) => d.(pool := Apply(cfg, d.pool, op))
  }

  predicate Possible(cfg: Config, d: Daemon, steps: seq<Step>)
    decreases |steps|
  {
    steps == [] || (Enabled(d, steps[0]) && Possible(cfg, Next(cfg, d, steps[0]), steps[1..]))
  }

  function After(cfg: Config, d: Daemon, steps: seq<Step>): Daemon
    requires Possible(cfg, d, steps)
    decreases |steps|
  {
    if steps == [] then d else After(cfg, Next(cfg, d, steps[0]), steps[1..])
  }

  /** The flag is up exactly while a batch is probing, and one batch at most is. */
  ghost predicate OneAtATime(d: Daemon) {
    && (d.inFlight <==> exists t :: t in d.stages && d.stages[t] == Probing)
    && (forall t, u :: t in d.stages && u in d.stages && d.stages[t] == Probing && d.stages[u] == Probing ==> t == u)
  }

  /** Whatever waits for a sweep has a sweep still to come. */
  ghost predicate SweepToCome(d: Daemon) {
    d.pool.pending != {} ==> d.stages != map[]
  }

  lemma OnlyResultsCondemn(cfg: Config, s: Pool, op: Op)
    requires !op.ResultOp?
    ensures Apply(cfg, s, op).pending <= s.pending
  {
    match op {
      case MergeOp(discovered, at) => HealthRuns.MergeKeepsPending(s, discovered, at);
      case RestoreOp(saved) => HealthRuns.RestoreKeepsPending(s, saved);
      case _ =>
    }
  }

  lemma NextKeepsGuard(cfg: Config, d: Daemon, s: Step)
    requires OneAtATime(d) && SweepToCome(d) && Enabled(d, s)
    ensures OneAtATime(Next(cfg, d, s)) && SweepToCome(Next(cfg, d, s))
  {
    hide Apply;
    var e := Next(cfg, d, s);
    match s {
      case Start(task) =>
        if !d.inFlight {
          assert e.stages[task] == Probing;
        }
      case Fold(task, _, _, _, _) =>
        assert task in e.stages;
      case Release(task) =>
        forall t | t in e.stages ensures e.stages[t] == Sweeping {
          assert t != task && d.stages[t] == Probing ==> t == task;
        }
        assert task in e.stages;
      case Sweep(task) =>
        if d.inFlight {
          var t :| t in d.stages && d.stages[t] == Probing;
          assert t in e.stages && e.stages[t] == Probing;
        }
      case Elsewhere(op) =>
        OnlyResultsCondemn(cfg, d.pool, op);
    }
  }

  /**
   * However the batches interleave: no two probe at once, and once all have ended nobody is left
   * waiting for a sweep. The flag is given back before the sweep, and this still holds.
   */
  lemma {:induction false} BatchesTakeTurns(cfg: Config, d: Daemon, steps: seq<Step>)
    requires OneAtATime(d) && SweepToCome(d) && Possible(cfg, d, steps)
    ensures OneAtATime(After(cfg, d, steps)) && SweepToCome(After(cfg, d, steps))
    decreases |steps|
  {
    if steps != [] {
      NextKeepsGuard(cfg, d, steps[0]);
      BatchesTakeTurns(cfg, Next(cfg, d, steps[0]), steps[1..]);
    }
  }

  /** A daemon that has just started meets both. */
  lemma AtStart(pool: Pool)
    requires pool.pending == {}
    ensures OneAtATime(Daemon(false, map[], pool)) && SweepToCome(Daemon(false, map[], pool))
  {
  }

  /** The sweep of one batch may run while the next is probing, and then takes what that one condemned. */
  lemma SweepMayRunInTheNextBatch(cfg: Config, pool: Pool, p: ProxyInfo, r: HealthResult, policy: EvictionPolicy,
                                  schedule: ProbeSchedule, at: Time)
    requires pool == Pool([p], None, {}, {})
    requires r.proxyId == p.id && Condemns(p, r, policy, at)
    ensures var steps := [Start(0), Release(0), Start(1), Fold(1, r, policy, schedule, at), Sweep(0)];
            var d := Daemon(false, map[], pool);
            && Possible(cfg, d, steps)
            && After(cfg, d, steps).stages == map[1 := Probing]
            && After(cfg, d, steps).pool.records == []
            && After(cfg, d, steps).pool.condemned == {p.id}
  {
    var d0 := Daemon(false, map[], pool);
    var d1 := Next(cfg, d0, Start(0));
    var d2 := Next(cfg, d1, Release(0));
    var d3 := Next(cfg, d2, Start(1));
    var fold := Fold(1, r, policy, schedule, at);
    var d4 := Next(cfg, d3, fold);
    var d5 := Next(cfg, d4, Sweep(0));
    OnlyRecordIsSwept(pool, p, r, policy, schedule, at);
    assert d5.stages == map[1 := Probing];
    StepThen(cfg, d4, Sweep(0), []);
    StepThen(cfg, d3, fold, [Sweep(0)]);
    StepThen(cfg, d2, Start(1), [fold, Sweep(0)]);
    StepThen(cfg, d1, Release(0), [Start(1), fold, Sweep(0)]);
    StepThen(cfg, d0, Start(0), [Release(0), Start(1), fold, Sweep(0)]);
  }

  lemma StepThen(cfg: Config, d: Daemon, s: Step, rest: seq<Step>)
    requires Enabled(d, s) && Possible(cfg, Next(cfg, d, s), rest)
    ensures Possible(cfg, d, [s] + rest)
    ensures After(cfg, d, [s] + rest) == After(cfg, Next(cfg, d, s), rest)
  {
    assert ([s] + rest)[1..] == rest;
  }

  lemma OnlyRecordIsSwept(pool: Pool, p: ProxyInfo, r: HealthResult, policy: EvictionPolicy, schedule: ProbeSchedule,
                          at: Time)
    requires pool == Pool([p], None, {}, {})
    requires r.proxyId == p.id && Condemns(p, r, policy, at)
    ensures EvictPending(ApplyResult(pool, r, policy, schedule, at)) == Pool([], None, {}, {p.id})
  {
    assert Position(pool.records, p.id) == Some(0);
    var q := Probed(p, r, schedule, at);
    var folded := ApplyResult(pool, r, policy, schedule, at);
    assert folded == Pool([q], None, {p.id}, {});
    assert Without([q], {p.id}) == [] by {
      assert [q][..0] == [];
    }
  }
}
