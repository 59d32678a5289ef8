/** What holds of the worker pool in every run. */
module SupervisorTheorems {
  import opened Tables
  import opened Supervisor
  import opened SupervisorInvariant

  lemma EmptyPoolIsSound(config: Config)
    ensures Sound(EMPTY, config)
  {}

  lemma BoundsOf(p: Pool, config: Config)
    requires Sound(p, config)
    ensures p.workers.Keys !! PendingKeys(p)
    ensures forall k, w | k in PendingKeys(p) && Alive(p, w) :: p.spawns[k].port != p.info[w].port
  {
    forall k | k in PendingKeys(p) ensures k !in p.workers { assert SpawnOk(p, k); }
  }

  /**
   In every interleaving of lock sections, installed workers and spawns that have not installed
   never exceed the capacity, even while finished spawns are in both maps; every worker that may be
   running and every such spawn has a port of its own; and keys of both are disjoint.
   */
  lemma PoolStaysWithinBounds(config: Config, steps: seq<Step>)
    ensures var p := Run(EMPTY, config, steps);
      && |p.workers.Keys| + |PendingKeys(p)| <= config.maxWorkers
      && p.workers.Keys !! PendingKeys(p)
      && (forall v, w | Alive(p, v) && Alive(p, w) && v != w :: p.info[v].port != p.info[w].port)
      && (forall j, k | j in p.spawns && k in p.spawns && j != k :: p.spawns[j].port != p.spawns[k].port)
      && (forall k, w | k in PendingKeys(p) && Alive(p, w) :: p.spawns[k].port != p.info[w].port)
  {
    EmptyPoolIsSound(config);
    RunIsSound(EMPTY, config, steps);
    BoundsOf(Run(EMPTY, config, steps), config);
  }

  lemma StartOnFreePort(p: Pool, config: Config, key: string, evicted: Option<nat>)
    requires Shape(p) && key !in p.spawns && StartSpawn(p, config, key, evicted).pool != p
    ensures var q := StartSpawn(p, config, key, evicted).pool;
      && key in q.spawns && config.firstPort <= q.spawns[key].port < config.firstPort + PORT_RANGE
      && forall w | Alive(p, w) :: p.info[w].port != q.spawns[key].port
  {}

  lemma PopKeepsAlive(p: Pool, k: string)
    requires Shape(p) && k in p.workers
    ensures p.workers[k] in p.info
    ensures forall w | Alive(p, w) :: Alive(Pop(p, k, Nobody), w)
  {}

  /** A port that a spawn starts on belongs to no worker that may still be running. */
  lemma SpawnsGetFreePorts(p: Pool, config: Config, key: string, request: Option<int>, victim: string)
    requires Shape(p) && Chosen(p, config, key, victim) && key !in p.spawns
    requires key in Get(p, config, key, request, victim).pool.spawns
    ensures var port := Get(p, config, key, request, victim).pool.spawns[key].port;
      && config.firstPort <= port < config.firstPort + PORT_RANGE
      && forall w | Alive(p, w) :: p.info[w].port != port
  {
    var q := WithoutStale(p, key);
    if Stale(p, key) { PopKeepsShape(p, key, Nobody); PopKeepsAlive(p, key); }
    if |q.workers| + |q.spawns| >= config.maxWorkers {
      PopKeepsShape(q, victim, Nobody);
      PopKeepsAlive(q, victim);
      StartOnFreePort(Pop(q, victim, Nobody), config, key, Some(q.workers[victim]));
    } else {
      StartOnFreePort(q, config, key, if Stale(p, key) then Some(p.workers[key]) else None);
    }
  }

  /** An install never overwrites: its key is free, and every other entry stays. */
  lemma InstallNeverOverwrites(p: Pool, config: Config, key: string, id: nat)
    requires Sound(p, config) && Install(p, key, id) != p
    ensures key !in p.workers
    ensures Install(p, key, id).workers - {key} == p.workers
  {
    StartingPortIsFree(p, key);
  }

  lemma MakeRoomRemoves(p: Pool, config: Config, key: string, stale: Option<nat>, victim: string, w: nat)
    requires (AtCapacity(p, config) ==> Displaceable(p, victim)) && InPool(p, w)
    ensures InPool(MakeRoom(p, config, key, stale, victim).pool, w) || p.info[w].active == 0
  {}

  /** What a lookup can remove: the worker it finds dead under its key, or an idle one. */
  lemma GetRemoves(p: Pool, config: Config, key: string, request: Option<int>, victim: string, w: nat)
    requires KeysOk(p) && Chosen(p, config, key, victim) && InPool(p, w)
    ensures InPool(Get(p, config, key, request, victim).pool, w)
            || (p.info[w].key == key && Stale(p, key)) || p.info[w].active == 0
  {
    var q := WithoutStale(p, key);
    if p.info[w].key != key && (key !in p.workers || Stale(p, key)) && key !in q.spawns {
      assert InPool(q, w);
      MakeRoomRemoves(q, config, key, if Stale(p, key) then Some(p.workers[key]) else None, victim, w);
    }
  }

  /** When a step may take an installed worker out of the pool. */
  predicate MayLeave(p: Pool, config: Config, step: Step, w: nat)
    requires w in p.info
  {
    match step
    case DoGet(key, _, _) => (key == p.info[w].key && Stale(p, key)) || HeldBy(p, w) == {}
    case DoRetireIdle => HeldBy(p, w) == {} && p.info[w].lastUsed < p.clock - config.idleSeconds
    case DoFinishRequest(finished, terminated) =>
      && finished in p.requests && p.requests[finished] == w && HeldBy(p, w) == {finished}
      && (p.info[w].terminal || terminated)
    case _ => false
  }

  /**
   Who can remove an installed worker: a lookup that finds its process dead, an eviction or idle
   retirement that no request loses, or the last finisher of a terminating worker - its own.
   */
  lemma OnlyUnheldWorkersLeave(p: Pool, config: Config, step: Step, w: nat)
    requires Sound(p, config) && InPool(p, w)
    ensures InPool(Apply(p, config, step), w) || MayLeave(p, config, step, w)
  {
    assert CountOk(p, w);
    if |HeldBy(p, w)| == 0 { assert HeldBy(p, w) == {}; }
    match step {
      case DoGet(key, request, victim) =>
        if Apply(p, config, step) != p { GetRemoves(p, config, key, request, victim, w); }
      case DoFinishRequest(finished, terminated) =>
        if !InPool(FinishRequest(p, finished, terminated), w) { FinishRemoves(p, finished, terminated, w); }
      case DoRetireIdle =>
      case _ => OtherStepsKeepWorkers(p, config, step, w);
    }
  }

  lemma OtherStepsKeepWorkers(p: Pool, config: Config, step: Step, w: nat)
    requires Sound(p, config) && InPool(p, w) && !step.DoGet? && !step.DoRetireIdle? && !step.DoFinishRequest?
    ensures InPool(Apply(p, config, step), w)
  {
    if step.DoInstall? && Apply(p, config, step) != p { StartingPortIsFree(p, step.key); }
  }

  /** A finished request removes only the worker it held alone, and only a terminating one. */
  lemma FinishRemoves(p: Pool, finished: int, terminated: bool, w: nat)
    requires InPool(p, w) && CountOk(p, w) && KeysOk(p) && !InPool(FinishRequest(p, finished, terminated), w)
    ensures finished in p.requests && p.requests[finished] == w && HeldBy(p, w) == {finished}
    ensures p.info[w].terminal || terminated
  {
    LastHolder(p, finished, w);
  }

  lemma LastHolder(p: Pool, finished: int, w: nat)
    requires finished in p.requests && p.requests[finished] == w && |HeldBy(p, w)| == 1
    ensures HeldBy(p, w) == {finished}
  {
    assert HeldBy(p, w) == (HeldBy(p, w) - {finished}) + {finished};
    assert |HeldBy(p, w) - {finished}| == 0;
  }

  /** A terminating worker still installed has requests, takes no more, and its last finisher retires it. */
  lemma TerminatingWorkersDrain(p: Pool, config: Config, w: nat, finished: int, terminated: bool)
    requires Sound(p, config) && InPool(p, w) && p.info[w].terminal
    ensures HeldBy(p, w) != {}
    ensures forall request, victim | Chosen(p, config, p.info[w].key, victim) ::
      Get(p, config, p.info[w].key, request, victim) == GetResult(p, Terminating)
    ensures HeldBy(p, w) == {finished} ==>
      var q := FinishRequest(p, finished, terminated);
      !InPool(q, w) && w in q.stopping && q.stopping[w] == ByTask
    ensures finished in HeldBy(p, w) && HeldBy(p, w) != {finished} ==>
      InPool(FinishRequest(p, finished, terminated), w)
  {
    assert CountOk(p, w);
    assert |HeldBy(p, w)| > 0;
    if HeldBy(p, w) == {finished} { assert finished in HeldBy(p, w); }
    if finished in HeldBy(p, w) && |HeldBy(p, w)| == 1 { LastHolder(p, finished, w); }
  }

  /** A worker already removed is handed to the spawn only if no other has to make room. */
  lemma RoomHandsOver(q: Pool, config: Config, key: string, w: nat, victim: string)
    requires AtCapacity(q, config) ==> Displaceable(q, victim)
    requires w in q.stopping && q.stopping[w] == Nobody && forall k | k in q.workers :: q.workers[k] != w
    ensures var next := MakeRoom(q, config, key, Some(w), victim).pool;
      && w in next.stopping && q.retiring <= next.retiring
      && (next.stopping[w] == BySpawn(key)
          <==> !AtCapacity(q, config) && FirstFree(config.firstPort, PORT_RANGE, UsedPorts(q)).Some?)
      && (next.stopping[w] != BySpawn(key) ==> next.stopping[w] == Nobody)
  {}

  /**
   Exactly when the dead worker that a lookup removes is handed to a spawn to be stopped: no spawn is
   running for its key, no other worker has to make room, and a port is free.  Otherwise it is
   dropped, and its port stays taken.
   */
  lemma DeadWorkerIsStoppedExactly(p: Pool, config: Config, key: string, request: Option<int>, victim: string)
    requires KeysOk(p) && Stale(p, key) && Chosen(p, config, key, victim)
    ensures var w, q, next := p.workers[key], WithoutStale(p, key), Get(p, config, key, request, victim).pool;
      && w in next.stopping && p.info[w].port in next.retiring
      && (next.stopping[w] == BySpawn(key)
          <==> key !in p.spawns && !AtCapacity(q, config)
               && FirstFree(config.firstPort, PORT_RANGE, UsedPorts(q)).Some?)
      && (next.stopping[w] != BySpawn(key) ==> next.stopping[w] == Nobody)
  {
    var w, q := p.workers[key], WithoutStale(p, key);
    forall k | k in q.workers ensures q.workers[k] != w { assert p.info[p.workers[k]].key == k; }
    if key !in q.spawns { RoomHandsOver(q, config, key, w, victim); }
  }

  /**
   Exactly when the worker that a lookup displaces, dead or alive, is handed to the spawn to be
   stopped: once it has left, a port is free.  Otherwise it is dropped, and its port stays taken.
   */
  lemma DisplacedWorkerIsStoppedExactly(
      p: Pool, config: Config, key: string, request: Option<int>, victim: string)
    requires KeysOk(p) && NeedsRoom(p, config, key) && Chosen(p, config, key, victim)
    requires !NoneIdle(WithoutStale(p, key))
    ensures var q := WithoutStale(p, key);
      var w, next := q.workers[victim], Get(p, config, key, request, victim).pool;
      && w in next.stopping && victim !in next.workers && p.info[w].port in next.retiring
      && (next.stopping[w] == BySpawn(key)
          <==> FirstFree(config.firstPort, PORT_RANGE, UsedPorts(Pop(q, victim, Nobody))).Some?)
      && (next.stopping[w] != BySpawn(key) ==> next.stopping[w] == Nobody)
  {
    var q := WithoutStale(p, key);
    assert Get(p, config, key, request, victim) ==
      MakeRoom(q, config, key, if Stale(p, key) then Some(p.workers[key]) else None, victim);
  }
}
