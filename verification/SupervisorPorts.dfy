/** Who has each port that is taken, over every run, and when it is free again. */
module SupervisorPorts {
  import opened Tables
  import opened Supervisor
  import opened SupervisorInvariant
  import opened SupervisorAnswers

  /** A spawn has the port. */
  predicate ReservedFor(p: Pool, port: int) { exists k | k in p.spawns :: p.spawns[k].port == port }

  /** A worker that has left the pool and has not stopped has the port. */
  predicate RetiringFor(p: Pool, port: int) {
    exists w | w in p.stopping && w in p.info :: p.info[w].port == port
  }

  ghost predicate Accounted(p: Pool) {
    && (forall port | port in p.reserved :: ReservedFor(p, port))
    && (forall port | port in p.retiring :: RetiringFor(p, port))
  }

  lemma PopStaysAccounted(p: Pool, k: string, stopper: Stopper)
    requires Accounted(p) && k in p.workers && p.workers[k] in p.info
    ensures Accounted(Pop(p, k, stopper))
  {
    var q := Pop(p, k, stopper);
    forall port | port in q.reserved ensures ReservedFor(q, port) { assert ReservedFor(p, port); }
    forall port | port in q.retiring ensures RetiringFor(q, port) {
      if port in p.retiring {
        assert RetiringFor(p, port);
        var w :| w in p.stopping && w in p.info && p.info[w].port == port;
        assert w in q.stopping;
      } else {
        assert p.workers[k] in q.stopping;
      }
    }
  }

  lemma StartStaysAccounted(p: Pool, config: Config, key: string, evicted: Option<nat>)
    requires Accounted(p) && key !in p.spawns && (evicted.Some? ==> evicted.value in p.stopping)
    ensures Accounted(StartSpawn(p, config, key, evicted).pool)
  {
    var q := StartSpawn(p, config, key, evicted).pool;
    if q != p {
      forall port | port in q.reserved ensures ReservedFor(q, port) {
        if port in p.reserved {
          assert ReservedFor(p, port);
          var k :| k in p.spawns && p.spawns[k].port == port;
          assert k in q.spawns && q.spawns[k] == p.spawns[k];
        } else {
          assert key in q.spawns && q.spawns[key].port == port;
        }
      }
      SameWorkersRetiring(p, q);
    }
  }

  /** The workers that are stopping, and their ports, are the same. */
  lemma SameWorkersRetiring(p: Pool, q: Pool)
    requires forall port | port in p.retiring :: RetiringFor(p, port)
    requires q.retiring == p.retiring && p.stopping.Keys <= q.stopping.Keys
    requires forall w | w in p.info :: w in q.info && q.info[w].port == p.info[w].port
    ensures forall port | port in q.retiring :: RetiringFor(q, port)
  {
    forall port | port in q.retiring ensures RetiringFor(q, port) {
      assert RetiringFor(p, port);
      var w :| w in p.stopping && w in p.info && p.info[w].port == port;
      assert w in q.stopping && w in q.info;
    }
  }

  lemma SameSpawnsReserve(p: Pool, q: Pool)
    requires forall port | port in p.reserved :: ReservedFor(p, port)
    requires q.reserved == p.reserved
    requires forall k | k in p.spawns :: k in q.spawns && q.spawns[k].port == p.spawns[k].port
    ensures forall port | port in q.reserved :: ReservedFor(q, port)
  {
    forall port | port in q.reserved ensures ReservedFor(q, port) {
      assert ReservedFor(p, port);
      var k :| k in p.spawns && p.spawns[k].port == port;
      assert k in q.spawns;
    }
  }

  lemma MakeRoomStaysAccounted(p: Pool, config: Config, key: string, stale: Option<nat>, victim: string)
    requires Accounted(p) && key !in p.spawns && (AtCapacity(p, config) ==> Displaceable(p, victim))
    requires stale.Some? ==> stale.value in p.stopping
    ensures Accounted(MakeRoom(p, config, key, stale, victim).pool)
  {
    if !AtCapacity(p, config) {
      StartStaysAccounted(p, config, key, stale);
    } else if !NoneIdle(p) {
      PopStaysAccounted(p, victim, Nobody);
      StartStaysAccounted(Pop(p, victim, Nobody), config, key, Some(p.workers[victim]));
    }
  }

  lemma GetStaysAccounted(p: Pool, config: Config, key: string, request: Option<int>, victim: string)
    requires KeysOk(p) && Accounted(p) && Chosen(p, config, key, victim)
    ensures Accounted(Get(p, config, key, request, victim).pool)
  {
    if Usable(p, key) || Ending(p, key) {
      LookupFindsWorker(p, config, key, request, victim);
      var q := Get(p, config, key, request, victim).pool;
      SameWorkersRetiring(p, q);
      SameSpawnsReserve(p, q);
    } else {
      var q := WithoutStale(p, key);
      if Stale(p, key) { PopStaysAccounted(p, key, Nobody); }
      if key !in q.spawns {
        MakeRoomStaysAccounted(q, config, key, if Stale(p, key) then Some(p.workers[key]) else None, victim);
      }
    }
  }

  /** A worker that has stopped takes its own port with it, and no other's. */
  lemma StopStaysAccounted(p: Pool, q: Pool, w: nat)
    requires Accounted(p) && w in p.stopping && w in p.info
    requires q.info == p.info && q.reserved == p.reserved && q.stopping == p.stopping - {w}
    requires q.retiring == p.retiring - {p.info[w].port}
    requires forall k | k in p.spawns :: k in q.spawns && q.spawns[k].port == p.spawns[k].port
    ensures Accounted(q)
  {
    SameSpawnsReserve(p, q);
    forall port | port in q.retiring ensures RetiringFor(q, port) {
      assert RetiringFor(p, port);
      var v :| v in p.stopping && v in p.info && p.info[v].port == port;
      assert v in q.stopping;
    }
  }

  lemma FinishSpawnStaysAccounted(p: Pool, key: string)
    requires Accounted(p)
    ensures Accounted(FinishSpawn(p, key))
  {
    var q := FinishSpawn(p, key);
    if q != p {
      SameWorkersRetiring(p, q);
      forall port | port in q.reserved ensures ReservedFor(q, port) {
        assert ReservedFor(p, port);
        var k :| k in p.spawns && p.spawns[k].port == port;
        assert k in q.spawns;
      }
    }
  }

  lemma FinishRequestStaysAccounted(p: Pool, request: int, terminated: bool)
    requires KeysOk(p) && Accounted(p)
    ensures Accounted(FinishRequest(p, request, terminated))
  {
    if request in p.requests && p.requests[request] in p.info && p.info[p.requests[request]].active > 0 {
      var w := p.requests[request];
      var q := p.(info := p.info[w := p.info[w].(active := p.info[w].active - 1, lastUsed := p.clock,
                                                 terminal := p.info[w].terminal || terminated)],
                  requests := p.requests - {request});
      SameWorkersRetiring(p, q);
      SameSpawnsReserve(p, q);
      if FinishRequest(p, request, terminated) != q { PopStaysAccounted(q, q.info[w].key, ByTask); }
    }
  }

  lemma RetireIdleStaysAccounted(p: Pool, config: Config)
    requires Accounted(p)
    ensures Accounted(RetireIdle(p, config))
  {
    var q, keys := RetireIdle(p, config), OverdueKeys(p, config);
    SameSpawnsReserve(p, q);
    forall port | port in q.retiring ensures RetiringFor(q, port) {
      if port in p.retiring {
        assert RetiringFor(p, port);
        var w :| w in p.stopping && w in p.info && p.info[w].port == port;
        assert w in q.stopping;
      } else {
        var k :| k in keys && p.info[p.workers[k]].port == port;
        assert p.workers[k] in RetiredWorkers(p, keys);
      }
    }
  }

  lemma VictimStaysAccounted(p: Pool, key: string, failed: bool)
    requires Shape(p) && Accounted(p)
    ensures Accounted(VictimStopped(p, key, failed))
  {
    if VictimStopped(p, key, failed) != p {
      assert SpawnOk(p, key);
      StopStaysAccounted(p, VictimStopped(p, key, failed), p.spawns[key].phase.victim);
    }
  }

  lemma StoppedStaysAccounted(p: Pool, w: nat)
    requires Accounted(p)
    ensures Accounted(Stopped(p, w))
  {
    if Stopped(p, w) != p { StopStaysAccounted(p, Stopped(p, w), w); }
  }

  /** A step that moves no port. */
  lemma QuietStaysAccounted(p: Pool, q: Pool)
    requires Accounted(p) && q.retiring == p.retiring && q.reserved == p.reserved && q.stopping == p.stopping
    requires forall w | w in p.info :: w in q.info && q.info[w].port == p.info[w].port
    requires forall k | k in p.spawns :: k in q.spawns && q.spawns[k].port == p.spawns[k].port
    ensures Accounted(q)
  {
    SameWorkersRetiring(p, q);
    SameSpawnsReserve(p, q);
  }

  lemma StepStaysAccounted(p: Pool, config: Config, step: Step)
    requires Shape(p) && Accounted(p)
    ensures Accounted(Apply(p, config, step))
  {
    match step {
      case DoGet(key, request, victim) => GetStepStaysAccounted(p, config, key, request, victim);
      case DoVictimStopped(key, failed) => VictimStaysAccounted(p, key, failed);
      case DoFinishSpawn(key) => FinishSpawnStaysAccounted(p, key);
      case DoFinishRequest(finished, terminated) => FinishRequestStaysAccounted(p, finished, terminated);
      case DoRetireIdle => RetireIdleStaysAccounted(p, config);
      case DoStopped(w) => StoppedStaysAccounted(p, w);
      case _ => QuietStepStaysAccounted(p, config, step);
    }
  }

  lemma GetStepStaysAccounted(p: Pool, config: Config, key: string, request: Option<int>, victim: string)
    requires KeysOk(p) && Accounted(p)
    ensures Accounted(Apply(p, config, DoGet(key, request, victim)))
  {
    if Apply(p, config, DoGet(key, request, victim)) != p {
      GetStaysAccounted(p, config, key, request, victim);
    }
  }

  lemma QuietStepStaysAccounted(p: Pool, config: Config, step: Step)
    requires Accounted(p) && (step.Tick? || step.DoInstall? || step.DoSpawnFails? || step.DoExit?)
    ensures Accounted(Apply(p, config, step))
  {
    QuietStaysAccounted(p, Apply(p, config, step));
  }

  lemma {:induction false} RunStaysAccounted(p: Pool, config: Config, steps: seq<Step>)
    requires Sound(p, config) && Accounted(p)
    ensures Accounted(Run(p, config, steps))
    decreases |steps|
  {
    if steps != [] {
      StepIsSound(p, config, steps[0]);
      StepStaysAccounted(p, config, steps[0]);
      RunStaysAccounted(Apply(p, config, steps[0]), config, steps[1..]);
    }
  }

  /**
   In every run a port is taken exactly if a worker that may be running has it - installed, being stopped,
   or dropped - or a spawn has it.  No port is lost in any other way, and none is free while in use.
   */
  lemma TakenPortsAreInUse(config: Config, steps: seq<Step>, port: int)
    ensures var p := Run(EMPTY, config, steps);
      PortTaken(p, port) <==> (exists w :: Alive(p, w) && p.info[w].port == port) || ReservedFor(p, port)
  {
    assert Sound(EMPTY, config) && Accounted(EMPTY);
    RunIsSound(EMPTY, config, steps);
    RunStaysAccounted(EMPTY, config, steps);
    TakenExactly(Run(EMPTY, config, steps), port);
  }

  lemma TakenExactly(p: Pool, port: int)
    requires Shape(p) && Accounted(p)
    ensures PortTaken(p, port) <==> (exists w :: Alive(p, w) && p.info[w].port == port) || ReservedFor(p, port)
  {
    if port in p.retiring {
      assert RetiringFor(p, port);
      var w :| w in p.stopping && w in p.info && p.info[w].port == port;
      assert Alive(p, w);
    }
    if exists k | k in p.workers && p.workers[k] in p.info :: p.info[p.workers[k]].port == port {
      var k :| k in p.workers && p.workers[k] in p.info && p.info[p.workers[k]].port == port;
      assert InPool(p, p.workers[k]) && Alive(p, p.workers[k]);
    }
    if exists w :: Alive(p, w) && p.info[w].port == port {
      var w :| Alive(p, w) && p.info[w].port == port;
      if w in p.stopping { assert StoppingOk(p, w); } else { assert p.workers[p.info[w].key] == w; }
    }
    if ReservedFor(p, port) {
      var k :| k in p.spawns && p.spawns[k].port == port;
      assert SpawnOk(p, k);
    }
  }

  // ---- when ports are free again ----

  /** The task that spawned a worker has not left the map yet. */
  predicate SpawnLingers(p: Pool, w: nat) { exists k | k in p.spawns :: p.spawns[k].phase == Installed(w) }

  /** Once a removed worker has stopped, its port is free, unless the task that spawned it is still there. */
  lemma FreedPort(p: Pool, q: Pool, w: nat)
    requires Shape(p) && Accounted(p) && w in p.stopping && w in p.info
    requires q.workers == p.workers && q.info == p.info && q.reserved == p.reserved
    requires q.retiring == p.retiring - {p.info[w].port}
    ensures PortTaken(q, p.info[w].port) <==> SpawnLingers(p, w)
  {
    var port := p.info[w].port;
    assert StoppingOk(p, w) && Alive(p, w);
    forall k | k in p.workers ensures p.workers[k] in p.info && p.info[p.workers[k]].port != port {
      assert InPool(p, p.workers[k]) && Alive(p, p.workers[k]);
    }
    if port in p.reserved {
      assert ReservedFor(p, port);
      var k :| k in p.spawns && p.spawns[k].port == port;
      assert p.spawns[k].phase == Installed(w);
    }
    if SpawnLingers(p, w) {
      var k :| k in p.spawns && p.spawns[k].phase == Installed(w);
      assert SpawnOk(p, k);
    }
  }

  /**
   Once the displaced worker's stop has ended it is forgotten and gives up its port, however it ended;
   the spawn goes on if the stop succeeded, and is broken otherwise.
   */
  lemma StopOfDisplaced(p: Pool, key: string, failed: bool)
    requires Shape(p) && Accounted(p) && key in p.spawns && p.spawns[key].phase.Evicting?
    ensures
      var w, next := p.spawns[key].phase.victim, VictimStopped(p, key, failed);
      && w in p.info && w in p.stopping && next.stopping == p.stopping - {w}
      && (PortTaken(next, p.info[w].port) <==> SpawnLingers(p, w))
      && next.spawns == p.spawns[key := Spawn(p.spawns[key].port, if failed then Broken else Starting)]
      && next == p.(spawns := next.spawns, retiring := next.retiring, stopping := next.stopping)
  {
    assert SpawnOk(p, key);
    var w := p.spawns[key].phase.victim;
    assert StoppingOk(p, w);
    FreedPort(p, VictimStopped(p, key, failed), w);
  }

  /** The same for a worker that a completion or the idle loop retired. */
  lemma StopOfRetired(p: Pool, w: nat)
    requires Shape(p) && Accounted(p) && w in p.stopping && p.stopping[w] == ByTask
    ensures w in p.info && Stopped(p, w).stopping == p.stopping - {w}
    ensures PortTaken(Stopped(p, w), p.info[w].port) <==> SpawnLingers(p, w)
    ensures Stopped(p, w) == p.(retiring := Stopped(p, w).retiring, stopping := Stopped(p, w).stopping)
  {
    assert StoppingOk(p, w);
    FreedPort(p, Stopped(p, w), w);
  }

  /** Only the task that was to stop a worker forgets it. */
  lemma NobodyElseStops(p: Pool, w: nat)
    requires w !in p.stopping || p.stopping[w] != ByTask
    ensures Stopped(p, w) == p
  {}

  /** A spawn that has made way installs a worker of its own: new, alive, unheld, and on the spawn's port. */
  lemma InstallOutcome(p: Pool, key: string, id: nat)
    requires Shape(p) && key in p.spawns && p.spawns[key].phase.Starting? && id !in p.info
    ensures var next := Install(p, key, id);
      && InPool(next, id) && HeldBy(next, id) == HeldBy(p, id)
      && next.info == p.info[id := Worker(key, p.spawns[key].port, false, p.clock, 0, false)]
      && next == p.(workers := p.workers[key := id], info := next.info,
                    spawns := p.spawns[key := Spawn(p.spawns[key].port, Installed(id))])
  {}

  lemma FailedStartOutcome(p: Pool, key: string)
    requires key in p.spawns && p.spawns[key].phase.Starting?
    ensures SpawnFails(p, key) == p.(spawns := p.spawns[key := Spawn(p.spawns[key].port, Broken)])
  {}

  /** The end of a spawn's task leaves its port to the worker that it installed, if that has not stopped. */
  lemma SpawnEndOutcome(p: Pool, key: string)
    requires Shape(p) && Accounted(p) && key in p.spawns
    requires p.spawns[key].phase.Installed? || p.spawns[key].phase.Broken?
    ensures var spawn, next := p.spawns[key], FinishSpawn(p, key);
      && next == p.(spawns := p.spawns - {key}, reserved := next.reserved)
      && (PortTaken(next, spawn.port) <==> spawn.phase.Installed? && Alive(p, spawn.phase.worker))
  {
    var spawn, next := p.spawns[key], FinishSpawn(p, key);
    assert SpawnOk(p, key);
    if spawn.phase.Installed? && Alive(p, spawn.phase.worker) {
      var w := spawn.phase.worker;
      if w in p.stopping { assert StoppingOk(p, w); } else { assert p.workers[p.info[w].key] == w; }
    }
    if PortTaken(next, spawn.port) {
      SomeoneHas(p, next, spawn.port);
      var w :| Alive(p, w) && p.info[w].port == spawn.port;
      assert spawn.phase == Installed(w);
    }
  }

  lemma SomeoneHas(p: Pool, next: Pool, port: int)
    requires Shape(p) && Accounted(p) && PortTaken(next, port) && port !in next.reserved
    requires next.retiring == p.retiring && next.workers == p.workers && next.info == p.info
    ensures exists w :: Alive(p, w) && p.info[w].port == port
  {
    if port in p.retiring {
      assert RetiringFor(p, port);
      var w :| w in p.stopping && w in p.info && p.info[w].port == port;
      assert Alive(p, w);
    } else {
      var k :| k in p.workers && p.workers[k] in p.info && p.info[p.workers[k]].port == port;
      assert InPool(p, p.workers[k]) && Alive(p, p.workers[k]);
    }
  }

  // ---- completions and idle workers ----

  /**
   A finished request lets go of its own worker, which counts as used now; a worker that is ending leaves
   the pool with its last request, to be stopped, and no other worker is touched.
   */
  lemma FinishOutcome(p: Pool, config: Config, request: int, terminated: bool)
    requires Sound(p, config) && request in p.requests
    ensures
      var w, q := p.requests[request], FinishRequest(p, request, terminated);
      && w in p.info && w in q.info && q.requests == p.requests - {request}
      && q.info == p.info[w := p.info[w].(active := p.info[w].active - 1, lastUsed := p.clock,
                                          terminal := p.info[w].terminal || terminated)]
      && (if q.info[w].terminal && HeldBy(p, w) == {request} && InPool(p, w)
          then q.workers == p.workers - {p.info[w].key} && q.stopping == p.stopping[w := ByTask]
          else q.workers == p.workers && q.stopping == p.stopping)
  {
    LastIsOnly(p, request, p.requests[request]);
    FinishMeans(p, request, terminated);
  }

  /** What a finished request does, told by the number of requests that its worker had. */
  lemma FinishMeans(p: Pool, request: int, terminated: bool)
    requires KeysOk(p) && request in p.requests && p.requests[request] in p.info
    requires p.info[p.requests[request]].active > 0
    ensures
      var w, q := p.requests[request], FinishRequest(p, request, terminated);
      && w in q.info && q.requests == p.requests - {request}
      && q.info == p.info[w := p.info[w].(active := p.info[w].active - 1, lastUsed := p.clock,
                                          terminal := p.info[w].terminal || terminated)]
      && (if q.info[w].terminal && p.info[w].active == 1 && InPool(p, w)
          then q.workers == p.workers - {p.info[w].key} && q.stopping == p.stopping[w := ByTask]
          else q.workers == p.workers && q.stopping == p.stopping)
  {}

  lemma LastIsOnly(p: Pool, request: int, w: nat)
    requires CountsOk(p) && request in p.requests && p.requests[request] == w
    ensures w in p.info && p.info[w].active > 0 && (p.info[w].active == 1 <==> HeldBy(p, w) == {request})
  {
    assert CountOk(p, w) && request in HeldBy(p, w);
    assert |HeldBy(p, w)| > 0;
    if |HeldBy(p, w)| == 1 { OnlyHolder(p, request, w); }
  }

  lemma OnlyHolder(p: Pool, request: int, w: nat)
    requires request in HeldBy(p, w) && |HeldBy(p, w)| == 1
    ensures HeldBy(p, w) == {request}
  {
    assert HeldBy(p, w) == (HeldBy(p, w) - {request}) + {request};
    assert |HeldBy(p, w) - {request}| == 0;
  }

  /** Idle retirement removes exactly the workers that no request holds and that were not used for long enough. */
  lemma RetiredExactly(p: Pool, config: Config, w: nat)
    requires Sound(p, config) && InPool(p, w)
    ensures
      var q := RetireIdle(p, config);
      if HeldBy(p, w) == {} && p.info[w].lastUsed < p.clock - config.idleSeconds then
        !InPool(q, w) && w in q.stopping && q.stopping[w] == ByTask && p.info[w].port in q.retiring
      else InPool(q, w) && w !in q.stopping
  {
    IdleIsUnheld(p, w);
    var key := p.info[w].key;
    assert w in p.stopping ==> StoppingOk(p, w);
    assert forall k | k in p.workers && p.workers[k] == w :: k == key;
    if Overdue(p, config, key) {
      assert key in OverdueKeys(p, config) && w in RetiredWorkers(p, OverdueKeys(p, config));
    }
  }
}
