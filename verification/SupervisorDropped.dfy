/** Workers that leave the pool with nobody to stop them: how a run gets there, and what follows. */
module SupervisorDropped {
  import opened Tables
  import opened Supervisor
  import opened SupervisorInvariant
  import opened SupervisorTheorems

  lemma RunFirst(p: Pool, config: Config, step: Step, rest: seq<Step>)
    ensures Run(p, config, [step] + rest) == Run(Apply(p, config, step), config, rest)
  {
    assert ([step] + rest)[1..] == rest;
  }

  lemma {:induction false} RunThen(p: Pool, config: Config, steps: seq<Step>, step: Step)
    ensures Run(p, config, steps + [step]) == Apply(Run(p, config, steps), config, step)
    decreases |steps|
  {
    if steps == [] {
      RunFirst(p, config, step, []);
      assert [] + [step] == [step] + [];
    } else {
      RunThen(Apply(p, config, steps[0]), config, steps[1..], step);
      assert (steps + [step])[1..] == steps[1..] + [step];
    }
  }

  // ---- a dead worker whose spawn task has not left the map ----

  /** A lookup of a key, and the install of its worker while the spawn task is still in the map. */
  function InstalledSteps(key: string, id: nat): seq<Step> {
    [] + [DoGet(key, None, key)] + [DoInstall(key, id)]
  }

  function FirstWorker(config: Config, key: string, exited: bool): Worker {
    Worker(key, config.firstPort, exited, 0, 0, false)
  }

  function FirstPool(config: Config, key: string, exited: bool): Pool {
    Pool(0, map[key := 0], map[0 := FirstWorker(config, key, exited)],
         map[key := Spawn(config.firstPort, Installed(0))], {}, {config.firstPort}, map[], map[])
  }

  lemma FirstGet(config: Config, key: string)
    requires config.maxWorkers >= 1
    ensures Apply(EMPTY, config, DoGet(key, None, key)) ==
      EMPTY.(spawns := map[key := Spawn(config.firstPort, Starting)], reserved := {config.firstPort})
  {
    assert UsedPorts(EMPTY) == {};
  }

  lemma FirstInstall(config: Config, key: string)
    requires config.maxWorkers >= 1
    ensures Run(EMPTY, config, InstalledSteps(key, 0)) == FirstPool(config, key, false)
  {
    RunThen(EMPTY, config, [] + [DoGet(key, None, key)], DoInstall(key, 0));
    RunThen(EMPTY, config, [], DoGet(key, None, key));
    FirstGet(config, key);
  }

  function DeadSteps(key: string): seq<Step> { InstalledSteps(key, 0) + [DoExit(0)] }

  lemma DeadRun(config: Config, key: string)
    requires config.maxWorkers >= 1
    ensures Run(EMPTY, config, DeadSteps(key)) == FirstPool(config, key, true)
  {
    FirstInstall(config, key);
    RunThen(EMPTY, config, InstalledSteps(key, 0), DoExit(0));
    FirstExit(config, key);
  }

  lemma FirstExit(config: Config, key: string)
    ensures Apply(FirstPool(config, key, false), config, DoExit(0)) == FirstPool(config, key, true)
  {}

  lemma DeadIsDropped(config: Config, key: string)
    ensures var p := FirstPool(config, key, true);
      Stale(p, key) && Apply(p, config, DoGet(key, None, key)) == Pop(p, key, Nobody)
  {
    var p := FirstPool(config, key, true);
    assert WithoutStale(p, key) == Pop(p, key, Nobody);
    assert !NeedsRoom(p, config, key);
  }

  /**
   For every configuration and key: a worker that dies while the task that spawned it has not yet
   left the map is dropped by the next lookup, which only waits for that task; nobody stops it, and
   its port stays taken.
   */
  lemma DeadWorkerIsDropped(config: Config, key: string)
    requires config.maxWorkers >= 1
    ensures var p := Run(EMPTY, config, DeadSteps(key));
      Stale(p, key) && key in p.spawns
    ensures var p := Run(EMPTY, config, DeadSteps(key) + [DoGet(key, None, key)]);
      && 0 in p.stopping && p.stopping[0] == Nobody
      && 0 in p.info && p.info[0].exited && p.info[0].port in p.retiring
  {
    DeadRun(config, key);
    RunThen(EMPTY, config, DeadSteps(key), DoGet(key, None, key));
    DeadIsDropped(config, key);
  }

  // ---- a dead worker when another has to make room ----

  /** One worker settles in; another is installed while its spawn task is still in the map. */
  function FullSteps(key: string, other: string): seq<Step> {
    SettledSteps(key) + [DoGet(other, None, other)] + [DoInstall(other, 1)] + [DoExit(0)]
  }

  function SecondWorker(config: Config, other: string): Worker {
    Worker(other, config.firstPort + 1, false, 0, 0, false)
  }

  function FullPool(config: Config, key: string, other: string, exited: bool): Pool {
    Pool(0, map[key := 0, other := 1],
         map[0 := FirstWorker(config, key, exited), 1 := SecondWorker(config, other)],
         map[other := Spawn(config.firstPort + 1, Installed(1))], {}, {config.firstPort + 1}, map[], map[])
  }

  function SettledPool(config: Config, key: string): Pool {
    FirstPool(config, key, false).(spawns := map[], reserved := {})
  }

  lemma NextPortIsTaken(config: Config, p: Pool)
    requires UsedPorts(p) == {config.firstPort}
    ensures FirstFree(config.firstPort, PORT_RANGE, UsedPorts(p)) == Some(config.firstPort + 1)
  {}

  function StartedPool(config: Config, key: string, other: string): Pool {
    SettledPool(config, key).(
      spawns := map[other := Spawn(config.firstPort + 1, Starting)], reserved := {config.firstPort + 1})
  }

  function SettledSteps(key: string): seq<Step> { InstalledSteps(key, 0) + [DoFinishSpawn(key)] }

  lemma SettledRun(config: Config, key: string)
    requires config.maxWorkers >= 1
    ensures Run(EMPTY, config, SettledSteps(key)) == SettledPool(config, key)
  {
    FirstInstall(config, key);
    RunThen(EMPTY, config, InstalledSteps(key, 0), DoFinishSpawn(key));
    assert FinishSpawn(FirstPool(config, key, false), key) == SettledPool(config, key);
  }

  lemma SecondGet(config: Config, key: string, other: string)
    requires config.maxWorkers == 2 && key != other
    ensures Apply(SettledPool(config, key), config, DoGet(other, None, other)) == StartedPool(config, key, other)
  {
    var p := SettledPool(config, key);
    SettledHasRoom(config, key);
    NextPortIsTaken(config, p);
    assert WithoutStale(p, other) == p;
    assert Get(p, config, other, None, other) == StartSpawn(p, config, other, None);
  }

  lemma SettledHasRoom(config: Config, key: string)
    requires config.maxWorkers == 2
    ensures var p := SettledPool(config, key);
      !AtCapacity(p, config) && UsedPorts(p) == {config.firstPort}
  {
    var p := SettledPool(config, key);
    assert p.workers == map[key := 0];
    assert |p.workers| == 1 && |p.spawns| == 0;
  }

  lemma StartedRun(config: Config, key: string, other: string)
    requires config.maxWorkers == 2 && key != other
    ensures Run(EMPTY, config, SettledSteps(key) + [DoGet(other, None, other)]) == StartedPool(config, key, other)
  {
    SettledRun(config, key);
    RunThen(EMPTY, config, SettledSteps(key), DoGet(other, None, other));
    SecondGet(config, key, other);
  }

  lemma FullRun(config: Config, key: string, other: string)
    requires config.maxWorkers == 2 && key != other
    ensures Run(EMPTY, config, FullSteps(key, other)) == FullPool(config, key, other, true)
  {
    var started := SettledSteps(key) + [DoGet(other, None, other)];
    StartedRun(config, key, other);
    RunThen(EMPTY, config, started, DoInstall(other, 1));
    RunThen(EMPTY, config, started + [DoInstall(other, 1)], DoExit(0));
    FullSequence(config, key, other);
  }

  lemma FullSequence(config: Config, key: string, other: string)
    requires key != other
    ensures Apply(Install(StartedPool(config, key, other), other, 1), config, DoExit(0))
      == FullPool(config, key, other, true)
  {
    assert Install(StartedPool(config, key, other), other, 1) == FullPool(config, key, other, false);
  }

  /** What is left once the dead worker has been dropped. */
  function LeftPool(config: Config, key: string, other: string): Pool {
    FullPool(config, key, other, true).(
      workers := map[other := 1], retiring := {config.firstPort}, stopping := map[0 := Nobody])
  }

  lemma DeadLeaves(config: Config, key: string, other: string)
    requires key != other
    ensures var p := FullPool(config, key, other, true);
      Stale(p, key) && WithoutStale(p, key) == LeftPool(config, key, other)
  {
    assert FullPool(config, key, other, true).workers - {key} == map[other := 1];
  }

  lemma LeftIsFull(config: Config, key: string, other: string)
    requires config.maxWorkers == 2
    ensures AtCapacity(LeftPool(config, key, other), config)
  {
    assert |LeftPool(config, key, other).workers| == 1 && |LeftPool(config, key, other).spawns| == 1;
  }

  lemma OtherIsDisplaced(config: Config, key: string, other: string)
    requires config.maxWorkers == 2 && key != other
    ensures var p := FullPool(config, key, other, true);
      && Stale(p, key) && key !in p.spawns && Chosen(p, config, key, other)
      && AtCapacity(WithoutStale(p, key), config) && !NoneIdle(WithoutStale(p, key))
  {
    DeadLeaves(config, key, other);
    LeftIsFull(config, key, other);
    assert Idle(LeftPool(config, key, other), other) && LeastRecent(LeftPool(config, key, other), other);
  }

  /**
   With room for two: a finished spawn that is still in the map counts twice, so the lookup that
   drops a dead worker displaces a live one as well, and only that one is handed to the new spawn.
   */
  lemma LiveWorkerIsStoppedInstead(config: Config, key: string, other: string)
    requires config.maxWorkers == 2 && key != other
    ensures var p := Run(EMPTY, config, FullSteps(key, other) + [DoGet(key, None, other)]);
      && 0 in p.stopping && p.stopping[0] == Nobody && 0 in p.info && p.info[0].port in p.retiring
      && 1 in p.stopping && p.stopping[1] == BySpawn(key) && 1 in p.info && !p.info[1].exited
  {
    var p := FullPool(config, key, other, true);
    FullRun(config, key, other);
    RunThen(EMPTY, config, FullSteps(key, other), DoGet(key, None, other));
    OtherIsDisplaced(config, key, other);
    DeadWorkerIsStoppedExactly(p, config, key, None, other);
    ThirdPortIsFree(config, key, other);
  }

  lemma ThirdPortIsFree(config: Config, key: string, other: string)
    requires key != other
    ensures var q := Pop(WithoutStale(FullPool(config, key, other, true), key), other, Nobody);
      FirstFree(config.firstPort, PORT_RANGE, UsedPorts(q)) == Some(config.firstPort + 2)
  {
    var q := Pop(WithoutStale(FullPool(config, key, other, true), key), other, Nobody);
    assert UsedPorts(q) == {config.firstPort, config.firstPort + 1};
    TwoPortsAreTaken(config.firstPort, UsedPorts(q));
  }

  lemma TwoPortsAreTaken(first: int, used: set<int>)
    requires used == {first, first + 1}
    ensures FirstFree(first, PORT_RANGE, used) == Some(first + 2)
  {
    assert FirstFree(first, PORT_RANGE, used) == FirstFree(first + 1, PORT_RANGE - 1, used);
    assert FirstFree(first + 1, PORT_RANGE - 1, used) == FirstFree(first + 2, PORT_RANGE - 2, used);
  }

  // ---- what follows ----

  /** A dropped worker: out of the pool, its port taken, and nobody to stop it. */
  predicate Dropped(p: Pool, w: nat) {
    w in p.stopping && p.stopping[w] == Nobody && w in p.info && p.info[w].port in p.retiring
  }

  lemma PopKeepsDropped(p: Pool, k: string, stopper: Stopper, w: nat)
    requires Shape(p) && Dropped(p, w) && k in p.workers
    ensures p.workers[k] in p.info && p.workers[k] != w && Dropped(Pop(p, k, stopper), w)
  {
    assert StoppingOk(p, w);
  }

  lemma StartKeepsDropped(p: Pool, config: Config, key: string, evicted: Option<nat>, w: nat)
    requires Dropped(p, w) && evicted != Some(w)
    ensures Dropped(StartSpawn(p, config, key, evicted).pool, w)
  {}

  lemma MakeRoomKeepsDropped(
      p: Pool, config: Config, key: string, stale: Option<nat>, victim: string, w: nat)
    requires Shape(p) && Dropped(p, w) && stale != Some(w)
    requires AtCapacity(p, config) ==> Displaceable(p, victim)
    ensures Dropped(MakeRoom(p, config, key, stale, victim).pool, w)
  {
    if !AtCapacity(p, config) {
      StartKeepsDropped(p, config, key, stale, w);
    } else if !NoneIdle(p) {
      PopKeepsDropped(p, victim, Nobody, w);
      StartKeepsDropped(Pop(p, victim, Nobody), config, key, Some(p.workers[victim]), w);
    }
  }

  lemma GetKeepsDropped(p: Pool, config: Config, key: string, request: Option<int>, victim: string, w: nat)
    requires Shape(p) && Dropped(p, w) && Chosen(p, config, key, victim)
    ensures Dropped(Get(p, config, key, request, victim).pool, w)
  {
    if key in p.workers && !Stale(p, key) {
    } else {
      var q := WithoutStale(p, key);
      if Stale(p, key) {
        PopKeepsDropped(p, key, Nobody, w);
        PopKeepsShape(p, key, Nobody);
      }
      if key !in q.spawns {
        MakeRoomKeepsDropped(q, config, key, if Stale(p, key) then Some(p.workers[key]) else None, victim, w);
      }
    }
  }

  /** The stop of one worker frees no other's port. */
  lemma StopKeepsDropped(p: Pool, q: Pool, v: nat, w: nat)
    requires Shape(p) && Dropped(p, w) && v in p.stopping && v != w
    requires q.info == p.info && q.stopping == p.stopping - {v} && q.retiring == p.retiring - {p.info[v].port}
    ensures Dropped(q, w)
  {
    assert StoppingOk(p, v) && Alive(p, v) && Alive(p, w);
  }

  lemma VictimKeepsDropped(p: Pool, key: string, failed: bool, w: nat)
    requires Shape(p) && Dropped(p, w)
    ensures Dropped(VictimStopped(p, key, failed), w)
  {
    var q := VictimStopped(p, key, failed);
    if q != p {
      assert SpawnOk(p, key);
      StopKeepsDropped(p, q, p.spawns[key].phase.victim, w);
    }
  }

  lemma RetireKeepsDropped(p: Pool, config: Config, w: nat)
    requires Shape(p) && Dropped(p, w)
    ensures Dropped(RetireIdle(p, config), w)
  {
    assert StoppingOk(p, w);
    assert w !in RetiredWorkers(p, OverdueKeys(p, config));
  }

  lemma FinishKeepsDropped(p: Pool, request: int, terminated: bool, w: nat)
    requires Shape(p) && Dropped(p, w)
    ensures Dropped(FinishRequest(p, request, terminated), w)
  {
    assert StoppingOk(p, w);
  }

  lemma StepKeepsDropped(p: Pool, config: Config, step: Step, w: nat)
    requires Shape(p) && Dropped(p, w)
    ensures Dropped(Apply(p, config, step), w)
  {
    match step {
      case DoGet(key, request, victim) =>
        if Apply(p, config, step) != p { GetKeepsDropped(p, config, key, request, victim, w); }
      case DoVictimStopped(key, failed) => VictimKeepsDropped(p, key, failed, w);
      case DoFinishRequest(finished, terminated) => FinishKeepsDropped(p, finished, terminated, w);
      case DoRetireIdle => RetireKeepsDropped(p, config, w);
      case DoStopped(v) =>
        if Stopped(p, v) != p { StopKeepsDropped(p, Stopped(p, v), v, w); }
      case _ =>
    }
  }

  /** A dropped worker is never stopped, and its port is never given out again, whatever runs later. */
  lemma {:induction false} DroppedForGood(p: Pool, config: Config, steps: seq<Step>, w: nat)
    requires Sound(p, config) && Dropped(p, w)
    ensures Dropped(Run(p, config, steps), w)
    decreases |steps|
  {
    if steps != [] {
      StepIsSound(p, config, steps[0]);
      StepKeepsDropped(p, config, steps[0], w);
      DroppedForGood(Apply(p, config, steps[0]), config, steps[1..], w);
    }
  }
}
