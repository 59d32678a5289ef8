/** Ports, capacity and request counts of the worker pool, in every interleaving of lock sections. */
module SupervisorInvariant {
  import opened Tables
  import opened Supervisor

  predicate InPool(p: Pool, w: nat) {
    w in p.info && p.info[w].key in p.workers && p.workers[p.info[w].key] == w
  }

  /** A worker that may still be running: installed, or removed and not yet stopped. */
  predicate Alive(p: Pool, w: nat) { w in p.info && (w in p.stopping || InPool(p, w)) }

  ghost predicate KeysOk(p: Pool) {
    forall k | k in p.workers :: p.workers[k] in p.info && p.info[p.workers[k]].key == k
  }

  ghost predicate SpawnOk(p: Pool, k: string)
    requires k in p.spawns
  {
    && p.spawns[k].port in p.reserved
    && match p.spawns[k].phase
       case Evicting(w) => k !in p.workers && w in p.stopping && p.stopping[w] == BySpawn(k)
       case Installed(w) => w in p.info && p.info[w].port == p.spawns[k].port && p.info[w].key == k
       case _ => k !in p.workers
  }

  ghost predicate StoppingOk(p: Pool, w: nat) {
    w in p.info && p.info[w].port in p.retiring && !InPool(p, w)
  }

  /** Spawns hold distinct ports; a spawn shares its port only with the worker it installed. */
  ghost predicate PortsDistinct(p: Pool) {
    && (forall v, w | Alive(p, v) && Alive(p, w) && v != w :: p.info[v].port != p.info[w].port)
    && (forall j, k | j in p.spawns && k in p.spawns && j != k :: p.spawns[j].port != p.spawns[k].port)
    && (forall k, w | k in p.spawns && Alive(p, w) && p.info[w].port == p.spawns[k].port ::
          p.spawns[k].phase == Installed(w))
  }

  ghost predicate Shape(p: Pool) {
    && KeysOk(p)
    && (forall k | k in p.spawns :: SpawnOk(p, k))
    && (forall w | w in p.stopping :: StoppingOk(p, w))
    && PortsDistinct(p)
  }

  /** The spawn tasks that have not installed a worker. */
  function PendingKeys(p: Pool): set<string> { set k | k in p.spawns && !p.spawns[k].phase.Installed? }

  ghost predicate WithinCapacity(p: Pool, config: Config) {
    |p.workers.Keys| + |PendingKeys(p)| <= config.maxWorkers
  }

  function HeldBy(p: Pool, w: nat): set<int> { set r | r in p.requests && p.requests[r] == w }

  ghost predicate CountOk(p: Pool, w: nat)
    requires w in p.info
  {
    && p.info[w].active == |HeldBy(p, w)|
    && (InPool(p, w) && p.info[w].terminal ==> p.info[w].active > 0)
  }

  ghost predicate CountsOk(p: Pool) {
    && (forall w | w in p.info :: CountOk(p, w))
    && (forall r | r in p.requests :: p.requests[r] in p.info)
  }

  ghost predicate Sound(p: Pool, config: Config) { Shape(p) && WithinCapacity(p, config) && CountsOk(p) }

  // ---- leaving the pool ----

  lemma PopKeepsShape(p: Pool, k: string, stopper: Stopper)
    requires Shape(p) && k in p.workers
    ensures p.workers[k] in p.info && Shape(Pop(p, k, stopper))
  {
    var w, q := p.workers[k], Pop(p, k, stopper);
    assert forall v :: Alive(q, v) <==> Alive(p, v);
    forall j | j in q.spawns ensures SpawnOk(q, j) { assert SpawnOk(p, j); }
    forall v | v in q.stopping ensures StoppingOk(q, v) { assert v in p.stopping ==> StoppingOk(p, v); }
  }

  lemma PopKeepsCounts(p: Pool, k: string, stopper: Stopper)
    requires CountsOk(p) && k in p.workers && p.workers[k] in p.info
    ensures CountsOk(Pop(p, k, stopper))
  {}

  lemma PopMakesRoom(p: Pool, k: string, stopper: Stopper)
    requires k in p.workers && p.workers[k] in p.info
    ensures |Pop(p, k, stopper).workers.Keys| == |p.workers.Keys| - 1
    ensures PendingKeys(Pop(p, k, stopper)) == PendingKeys(p)
  {}

  lemma PopIsSound(p: Pool, config: Config, k: string, stopper: Stopper)
    requires Sound(p, config) && k in p.workers
    ensures p.workers[k] in p.info && Sound(Pop(p, k, stopper), config)
  {
    PopKeepsShape(p, k, stopper);
    PopKeepsCounts(p, k, stopper);
    PopMakesRoom(p, k, stopper);
  }

  // ---- starting a spawn ----

  lemma FreePortIsUnused(p: Pool, port: int)
    requires Shape(p) && port !in UsedPorts(p)
    ensures forall w | Alive(p, w) :: p.info[w].port != port
    ensures forall k | k in p.spawns :: p.spawns[k].port != port
  {}

  lemma StartKeepsShape(p: Pool, config: Config, key: string, evicted: Option<nat>)
    requires Shape(p) && key !in p.workers && key !in p.spawns
    requires evicted.Some? ==> evicted.value in p.stopping && p.stopping[evicted.value] == Nobody
    ensures Shape(StartSpawn(p, config, key, evicted).pool)
  {
    var q := StartSpawn(p, config, key, evicted).pool;
    if q != p {
      var port := q.spawns[key].port;
      FreePortIsUnused(p, port);
      assert forall v :: Alive(q, v) <==> Alive(p, v);
      NewSpawnKeepsPorts(p, q, key);
      forall k | k in q.spawns ensures SpawnOk(q, k) { if k != key { assert SpawnOk(p, k); } }
      forall w | w in q.stopping ensures StoppingOk(q, w) { assert StoppingOk(p, w); }
    }
  }

  lemma NewSpawnKeepsPorts(p: Pool, q: Pool, key: string)
    requires PortsDistinct(p) && q.info == p.info && key in q.spawns && q.spawns - {key} == p.spawns
    requires forall v :: Alive(q, v) <==> Alive(p, v)
    requires forall w | Alive(p, w) :: p.info[w].port != q.spawns[key].port
    requires forall k | k in p.spawns :: p.spawns[k].port != q.spawns[key].port
    ensures PortsDistinct(q)
  {
    assert forall k | k in q.spawns && k != key :: k in p.spawns && p.spawns[k] == q.spawns[k];
  }

  lemma StartKeepsCounts(p: Pool, config: Config, key: string, evicted: Option<nat>)
    requires CountsOk(p)
    ensures CountsOk(StartSpawn(p, config, key, evicted).pool)
  {}

  lemma StartTakesOneSlot(p: Pool, config: Config, key: string, evicted: Option<nat>)
    ensures var q := StartSpawn(p, config, key, evicted).pool;
      q.workers == p.workers && |PendingKeys(q)| <= |PendingKeys(p)| + 1
  {
    var q := StartSpawn(p, config, key, evicted).pool;
    SubsetIsSmaller(PendingKeys(q), PendingKeys(p) + {key});
  }

  lemma StartIsSound(p: Pool, config: Config, key: string, evicted: Option<nat>)
    requires Sound(p, config) && key !in p.workers && key !in p.spawns
    requires evicted.Some? ==> evicted.value in p.stopping && p.stopping[evicted.value] == Nobody
    requires |p.workers.Keys| + |PendingKeys(p)| < config.maxWorkers
    ensures Sound(StartSpawn(p, config, key, evicted).pool, config)
  {
    StartKeepsShape(p, config, key, evicted);
    StartKeepsCounts(p, config, key, evicted);
    StartTakesOneSlot(p, config, key, evicted);
  }

  // ---- get ----

  /** Changing one worker's record in place, and which requests hold workers. */
  lemma TouchKeepsShape(p: Pool, q: Pool, w: nat)
    requires Shape(p) && w in p.info && w in q.info
    requires q == p.(info := p.info[w := q.info[w]], requests := q.requests, clock := q.clock)
    requires q.info[w].key == p.info[w].key && q.info[w].port == p.info[w].port
    ensures Shape(q)
  {
    assert forall v :: Alive(q, v) <==> Alive(p, v);
    forall k | k in q.spawns ensures SpawnOk(q, k) { assert SpawnOk(p, k); }
    forall v | v in q.stopping ensures StoppingOk(q, v) { assert StoppingOk(p, v); }
  }

  /** A request that takes hold of a worker is counted there. */
  lemma AcquireKeepsCounts(p: Pool, w: nat, request: Option<int>, q: Pool)
    requires CountsOk(p) && w in p.info && !p.info[w].terminal
    requires request.Some? ==> request.value !in p.requests
    requires q.workers == p.workers && q.info.Keys == p.info.Keys
    requires q.info == p.info[w := q.info[w]]
    requires q.info[w] == p.info[w].(lastUsed := p.clock, active := p.info[w].active + if request.Some? then 1 else 0)
    requires q.requests == if request.Some? then p.requests[request.value := w] else p.requests
    ensures CountsOk(q)
  {
    forall v | v in q.info ensures CountOk(q, v) {
      assert CountOk(p, v);
      HeldAfterAcquire(p, w, request, q, v);
      assert InPool(q, v) <==> InPool(p, v);
    }
  }

  lemma HeldAfterAcquire(p: Pool, w: nat, request: Option<int>, q: Pool, v: nat)
    requires request.Some? ==> request.value !in p.requests
    requires q.requests == if request.Some? then p.requests[request.value := w] else p.requests
    ensures |HeldBy(q, v)| == |HeldBy(p, v)| + if request.Some? && v == w then 1 else 0
  {
    assert HeldBy(q, v) == if request.Some? && v == w then HeldBy(p, v) + {request.value} else HeldBy(p, v);
  }

  lemma AcquireIsSound(p: Pool, config: Config, key: string, request: Option<int>, victim: string)
    requires Sound(p, config) && Chosen(p, config, key, victim)
    requires key in p.workers && p.workers[key] in p.info && !Stale(p, key)
    requires request.Some? ==> request.value !in p.requests
    ensures Sound(Get(p, config, key, request, victim).pool, config)
  {
    var w, q := p.workers[key], Get(p, config, key, request, victim).pool;
    if !p.info[w].terminal {
      TouchKeepsShape(p, q, w);
      AcquireKeepsCounts(p, w, request, q);
      assert PendingKeys(q) == PendingKeys(p);
    }
  }

  lemma StaleIsSound(p: Pool, config: Config, key: string)
    requires Sound(p, config)
    ensures Sound(WithoutStale(p, key), config)
  {
    if Stale(p, key) { PopIsSound(p, config, key, Nobody); }
  }

  lemma PendingWithinSpawns(p: Pool)
    ensures |PendingKeys(p)| <= |p.spawns|
  {
    SubsetIsSmaller(PendingKeys(p), p.spawns.Keys);
  }

  lemma GetIsSound(p: Pool, config: Config, key: string, request: Option<int>, victim: string)
    requires Sound(p, config) && Chosen(p, config, key, victim)
    requires request.Some? ==> request.value !in p.requests
    ensures Sound(Get(p, config, key, request, victim).pool, config)
  {
    if key in p.workers && !Stale(p, key) {
      AcquireIsSound(p, config, key, request, victim);
    } else {
      var q := WithoutStale(p, key);
      StaleIsSound(p, config, key);
      PendingWithinSpawns(q);
      if key in q.spawns {
      } else if |q.workers| + |q.spawns| >= config.maxWorkers {
        if !NoneIdle(q) {
          PopIsSound(q, config, victim, Nobody);
          PopMakesRoom(q, victim, Nobody);
          StartIsSound(Pop(q, victim, Nobody), config, key, Some(q.workers[victim]));
        }
      } else {
        StartIsSound(q, config, key, if Stale(p, key) then Some(p.workers[key]) else None);
      }
    }
  }

  // ---- spawn tasks ----

  lemma StoppedKeepsShape(p: Pool, q: Pool, w: nat)
    requires Shape(p) && w in p.stopping
    requires q == p.(spawns := q.spawns, retiring := p.retiring - {p.info[w].port}, stopping := p.stopping - {w})
    requires q.spawns.Keys == p.spawns.Keys
    requires forall k | k in p.spawns :: q.spawns[k].port == p.spawns[k].port
    requires forall k | k in p.spawns && p.spawns[k].phase != Evicting(w) :: q.spawns[k] == p.spawns[k]
    requires forall k | k in p.spawns && p.spawns[k].phase == Evicting(w) :: q.spawns[k].phase in {Starting, Broken}
    ensures Shape(q)
  {
    assert StoppingOk(p, w);
    assert forall v :: Alive(q, v) <==> Alive(p, v) && v != w;
    forall k | k in q.spawns ensures SpawnOk(q, k) { assert SpawnOk(p, k); }
    forall v | v in q.stopping ensures StoppingOk(q, v) {
      assert StoppingOk(p, v);
      assert Alive(p, v) && Alive(p, w);
    }
  }

  lemma SameCounts(p: Pool, q: Pool)
    requires CountsOk(p) && q.info == p.info && q.requests == p.requests && q.workers == p.workers
    ensures CountsOk(q)
  {}

  lemma VictimIsItsOwn(p: Pool, key: string)
    requires Shape(p) && key in p.spawns && p.spawns[key].phase.Evicting?
    ensures p.spawns[key].phase.victim in p.stopping
    ensures forall k | k in p.spawns && k != key :: p.spawns[k].phase != p.spawns[key].phase
  {}

  lemma VictimStoppedKeepsShape(p: Pool, key: string, failed: bool)
    requires Shape(p) && VictimStopped(p, key, failed) != p
    ensures Shape(VictimStopped(p, key, failed))
  {
    VictimIsItsOwn(p, key);
    StoppedKeepsShape(p, VictimStopped(p, key, failed), p.spawns[key].phase.victim);
  }

  lemma VictimStoppedKeepsPending(p: Pool, key: string, failed: bool)
    ensures PendingKeys(VictimStopped(p, key, failed)) == PendingKeys(p)
  {}

  lemma VictimStoppedIsSound(p: Pool, config: Config, key: string, failed: bool)
    requires Sound(p, config)
    ensures Sound(VictimStopped(p, key, failed), config)
  {
    if VictimStopped(p, key, failed) != p {
      VictimStoppedKeepsShape(p, key, failed);
      SameCounts(p, VictimStopped(p, key, failed));
      VictimStoppedKeepsPending(p, key, failed);
    }
  }

  lemma StoppedIsSound(p: Pool, config: Config, w: nat)
    requires Sound(p, config)
    ensures Sound(Stopped(p, w), config)
  {
    if Stopped(p, w) != p {
      forall k | k in p.spawns ensures p.spawns[k].phase != Evicting(w) { assert SpawnOk(p, k); }
      StoppedKeepsShape(p, Stopped(p, w), w);
      SameCounts(p, Stopped(p, w));
      assert PendingKeys(Stopped(p, w)) == PendingKeys(p);
    }
  }

  lemma StartingPortIsFree(p: Pool, key: string)
    requires Shape(p) && key in p.spawns && p.spawns[key].phase.Starting?
    ensures key !in p.workers
    ensures forall w | Alive(p, w) :: p.info[w].port != p.spawns[key].port
    ensures forall k | k in p.spawns && k != key :: p.spawns[k].port != p.spawns[key].port
  {}

  lemma InstallAlive(p: Pool, key: string, id: nat)
    requires KeysOk(p) && key !in p.workers && Install(p, key, id) != p
    requires forall w | w in p.stopping :: StoppingOk(p, w)
    ensures forall v :: Alive(Install(p, key, id), v) <==> Alive(p, v) || v == id
  {}

  lemma InstallKeepsPorts(p: Pool, key: string, id: nat)
    requires Shape(p) && Install(p, key, id) != p
    ensures PortsDistinct(Install(p, key, id))
  {
    StartingPortIsFree(p, key);
    InstallAlive(p, key, id);
  }

  lemma InstallKeepsShape(p: Pool, key: string, id: nat)
    requires Shape(p)
    ensures Shape(Install(p, key, id))
  {
    var q := Install(p, key, id);
    if q != p {
      StartingPortIsFree(p, key);
      InstallKeepsPorts(p, key, id);
      forall k | k in q.spawns ensures SpawnOk(q, k) { assert SpawnOk(p, k); }
      forall w | w in q.stopping ensures StoppingOk(q, w) { assert StoppingOk(p, w); }
    }
  }

  /** Installing moves a key from the pending spawns to the workers, where it was free. */
  lemma InstallMovesOneSlot(p: Pool, key: string, id: nat)
    requires key !in p.workers && Install(p, key, id) != p
    ensures |Install(p, key, id).workers.Keys| == |p.workers.Keys| + 1
    ensures |PendingKeys(Install(p, key, id))| == |PendingKeys(p)| - 1
  {
    var q := Install(p, key, id);
    assert q.workers.Keys == p.workers.Keys + {key};
    OneFewerPending(p, q, key);
  }

  lemma OneFewerPending(p: Pool, q: Pool, key: string)
    requires key in p.spawns && !p.spawns[key].phase.Installed?
    requires key in q.spawns && q.spawns[key].phase.Installed? && q.spawns == p.spawns[key := q.spawns[key]]
    ensures |PendingKeys(q)| == |PendingKeys(p)| - 1
  {
    assert PendingKeys(q) == PendingKeys(p) - {key};
  }

  lemma InstallKeepsCounts(p: Pool, key: string, id: nat)
    requires CountsOk(p) && KeysOk(p) && key !in p.workers && Install(p, key, id) != p
    ensures CountsOk(Install(p, key, id))
  {
    var q := Install(p, key, id);
    assert id !in p.info;
    assert forall r | r in p.requests :: p.requests[r] in p.info && p.requests[r] != id;
    assert HeldBy(p, id) == {};
    forall v | v in q.info ensures CountOk(q, v) {
      assert v in p.info ==> CountOk(p, v);
      assert HeldBy(q, v) == HeldBy(p, v);
    }
  }

  lemma InstallIsSound(p: Pool, config: Config, key: string, id: nat)
    requires Sound(p, config)
    ensures Sound(Install(p, key, id), config)
  {
    if Install(p, key, id) != p {
      StartingPortIsFree(p, key);
      InstallKeepsShape(p, key, id);
      InstallMovesOneSlot(p, key, id);
      InstallKeepsCounts(p, key, id);
    }
  }

  lemma SpawnFailsKeepsShape(p: Pool, key: string)
    requires Shape(p)
    ensures Shape(SpawnFails(p, key))
  {}

  lemma SpawnFailsIsSound(p: Pool, config: Config, key: string)
    requires Sound(p, config)
    ensures Sound(SpawnFails(p, key), config)
  {
    var q := SpawnFails(p, key);
    if q != p {
      SpawnFailsKeepsShape(p, key);
      SameCounts(p, q);
      assert PendingKeys(q) == PendingKeys(p);
    }
  }

  lemma FinishSpawnIsSound(p: Pool, config: Config, key: string)
    requires Sound(p, config)
    ensures Sound(FinishSpawn(p, key), config)
  {
    var q := FinishSpawn(p, key);
    if q != p {
      assert forall v :: Alive(q, v) <==> Alive(p, v);
      forall k | k in q.spawns ensures SpawnOk(q, k) { assert SpawnOk(p, k); }
      forall w | w in q.stopping ensures StoppingOk(q, w) { assert StoppingOk(p, w); }
      SameCounts(p, q);
      SubsetIsSmaller(PendingKeys(q), PendingKeys(p));
    }
  }

  // ---- completions and idle retirement ----

  function Released(p: Pool, request: int, terminated: bool): Pool
    requires request in p.requests && p.requests[request] in p.info && p.info[p.requests[request]].active > 0
  {
    var w := p.requests[request];
    p.(info := p.info[w := p.info[w].(active := p.info[w].active - 1, lastUsed := p.clock,
                                      terminal := p.info[w].terminal || terminated)],
       requests := p.requests - {request})
  }

  /** Every count is right after a release; only the released worker may now have to go. */
  lemma ReleaseKeepsCounts(p: Pool, request: int, terminated: bool)
    requires CountsOk(p) && request in p.requests && p.info[p.requests[request]].active > 0
    ensures var q, w := Released(p, request, terminated), p.requests[request];
      && (forall v | v in q.info && v != w :: CountOk(q, v))
      && q.info[w].active == |HeldBy(q, w)|
      && forall r | r in q.requests :: q.requests[r] in q.info
  {
    var q, w := Released(p, request, terminated), p.requests[request];
    forall v | v in q.info && v != w ensures CountOk(q, v) {
      assert CountOk(p, v) && HeldBy(q, v) == HeldBy(p, v);
    }
    assert CountOk(p, w) && HeldBy(q, w) == HeldBy(p, w) - {request};
  }

  lemma RetireKeepsCounts(q: Pool, w: nat)
    requires KeysOk(q) && w in q.info && q.info[w].active == |HeldBy(q, w)|
    requires forall v | v in q.info && v != w :: CountOk(q, v)
    requires forall r | r in q.requests :: q.requests[r] in q.info
    requires InPool(q, w)
    ensures CountsOk(Pop(q, q.info[w].key, ByTask))
  {}

  lemma FinishRequestIsSound(p: Pool, config: Config, request: int, terminated: bool)
    requires Sound(p, config)
    ensures Sound(FinishRequest(p, request, terminated), config)
  {
    if request in p.requests && p.info[p.requests[request]].active > 0 {
      var q, w := Released(p, request, terminated), p.requests[request];
      TouchKeepsShape(p, q, w);
      ReleaseKeepsCounts(p, request, terminated);
      assert PendingKeys(q) == PendingKeys(p);
      if q.info[w].terminal && q.info[w].active == 0 && InPool(q, w) {
        PopKeepsShape(q, q.info[w].key, ByTask);
        PopMakesRoom(q, q.info[w].key, ByTask);
        RetireKeepsCounts(q, w);
      } else {
        assert CountOk(q, w);
      }
    }
  }

  lemma RetireIdleKeepsCounts(p: Pool, config: Config)
    requires CountsOk(p)
    ensures CountsOk(RetireIdle(p, config))
  {}

  lemma RetireIdleIsSound(p: Pool, config: Config)
    requires Sound(p, config)
    ensures Sound(RetireIdle(p, config), config)
  {
    var q := RetireIdle(p, config);
    RetireIdleKeepsShape(p, config);
    RetireIdleKeepsCounts(p, config);
    SubsetIsSmaller(q.workers.Keys, p.workers.Keys);
    assert PendingKeys(q) == PendingKeys(p);
  }

  lemma RetireIdleKeepsShape(p: Pool, config: Config)
    requires Shape(p)
    ensures Shape(RetireIdle(p, config))
  {
    var q, keys := RetireIdle(p, config), OverdueKeys(p, config);
    forall v ensures Alive(q, v) <==> Alive(p, v) {
      if InPool(p, v) && p.info[v].key in keys { assert v in q.stopping; }
    }
    forall k | k in q.spawns ensures SpawnOk(q, k) { assert SpawnOk(p, k); }
    forall w | w in q.stopping ensures StoppingOk(q, w) {
      if w in p.stopping {
        assert StoppingOk(p, w);
      } else {
        var k :| k in keys && p.workers[k] == w;
        assert p.info[w].key == k;
      }
    }
  }

  // ---- every run ----

  lemma GetStepIsSound(p: Pool, config: Config, key: string, request: Option<int>, victim: string)
    requires Sound(p, config)
    ensures Sound(Apply(p, config, DoGet(key, request, victim)), config)
  {
    var next := Apply(p, config, DoGet(key, request, victim));
    if next != p {
      assert next == Get(p, config, key, request, victim).pool;
      GetIsSound(p, config, key, request, victim);
    }
  }

  lemma SpawnStepIsSound(p: Pool, config: Config, step: Step)
    requires step.DoVictimStopped? || step.DoInstall? || step.DoSpawnFails? || step.DoFinishSpawn?
    requires Sound(p, config)
    ensures Sound(Apply(p, config, step), config)
  {
    var next := Apply(p, config, step);
    match step {
      case DoVictimStopped(key, failed) =>
        assert next == VictimStopped(p, key, failed);
        VictimStoppedIsSound(p, config, key, failed);
        assert Sound(next, config);
      case DoInstall(key, id) =>
        assert next == Install(p, key, id);
        InstallIsSound(p, config, key, id);
        assert Sound(next, config);
      case DoSpawnFails(key) =>
        assert next == SpawnFails(p, key);
        SpawnFailsIsSound(p, config, key);
        assert Sound(next, config);
      case DoFinishSpawn(key) =>
        assert next == FinishSpawn(p, key);
        FinishSpawnIsSound(p, config, key);
        assert Sound(next, config);
    }
  }

  /** Every section keeps ports distinct, the pool within capacity and the request counts exact. */
  lemma StepIsSound(p: Pool, config: Config, step: Step)
    requires Sound(p, config)
    ensures Sound(Apply(p, config, step), config)
  {
    var next := Apply(p, config, step);
    match step {
      case Tick(seconds) =>
        TickIsSound(p, config, next);
        assert Sound(next, config);
      case DoGet(key, request, victim) =>
        GetStepIsSound(p, config, key, request, victim);
        assert Sound(next, config);
      case DoFinishRequest(finished, terminated) =>
        assert next == FinishRequest(p, finished, terminated);
        FinishRequestIsSound(p, config, finished, terminated);
        assert Sound(next, config);
      case DoRetireIdle =>
        assert next == RetireIdle(p, config);
        RetireIdleIsSound(p, config);
        assert Sound(next, config);
      case DoStopped(w) =>
        assert next == Stopped(p, w);
        StoppedIsSound(p, config, w);
        assert Sound(next, config);
      case DoExit(w) =>
        ExitIsSound(p, config, w);
        assert Sound(next, config);
      case _ =>
        SpawnStepIsSound(p, config, step);
        assert Sound(next, config);
    }
  }

  lemma TickIsSound(p: Pool, config: Config, q: Pool)
    requires Sound(p, config) && q == p.(clock := q.clock)
    ensures Sound(q, config)
  {
    assert forall v :: Alive(q, v) <==> Alive(p, v);
    forall k | k in q.spawns ensures SpawnOk(q, k) { assert SpawnOk(p, k); }
    forall w | w in q.stopping ensures StoppingOk(q, w) { assert StoppingOk(p, w); }
    SameCounts(p, q);
    assert PendingKeys(q) == PendingKeys(p);
  }

  lemma ExitIsSound(p: Pool, config: Config, w: nat)
    requires Sound(p, config)
    ensures Sound(Apply(p, config, DoExit(w)), config)
  {
    var q := Apply(p, config, DoExit(w));
    if q != p {
      TouchKeepsShape(p, q, w);
      forall v | v in q.info ensures CountOk(q, v) {
        assert CountOk(p, v) && HeldBy(q, v) == HeldBy(p, v);
      }
      assert PendingKeys(q) == PendingKeys(p);
    }
  }

  lemma {:induction false} RunIsSound(p: Pool, config: Config, steps: seq<Step>)
    requires Sound(p, config)
    ensures Sound(Run(p, config, steps), config)
    decreases |steps|
  {
    if steps != [] {
      StepIsSound(p, config, steps[0]);
      RunIsSound(Apply(p, config, steps[0]), config, steps[1..]);
    }
  }
}
