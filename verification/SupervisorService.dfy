/** The worker manager: worker objects, changed in place in sections under one lock. */
module SupervisorService {
  import opened Tables
  import opened Supervisor

  class WorkerProcess {
    const id: nat
    const key: string
    const port: int
    var exited: bool
    var lastUsed: int
    var activeRequests: nat
    var terminalRequested: bool

    function Info(): Worker
      reads this
    {
      Worker(key, port, exited, lastUsed, activeRequests, terminalRequested)
    }

    constructor (id: nat, key: string, port: int, now: int)
      ensures this.id == id && Info() == Worker(key, port, false, now, 0, false)
    {
      this.id, this.key, this.port := id, key, port;
      exited, lastUsed, activeRequests, terminalRequested := false, now, 0, false;
    }
  }

  class WorkerManager {
    const config: Config
    var clock: int
    var workers: map<string, WorkerProcess>
    var spawnTasks: map<string, Spawn>
    var retiringPorts: set<int>
    var reservedPorts: set<int>
    // Every worker ever made, and the pool that the fields and those workers stand for.
    ghost var made: map<nat, WorkerProcess>
    ghost var pool: Pool

    ghost predicate Valid()
      reads this, made.Values
    {
      && pool.clock == clock && pool.spawns == spawnTasks
      && pool.retiring == retiringPorts && pool.reserved == reservedPorts
      && made.Keys == pool.info.Keys && workers.Keys == pool.workers.Keys
      && (forall id | id in made :: made[id].id == id && pool.info[id] == made[id].Info())
      && (forall k | k in workers ::
            workers[k].key == k && pool.workers[k] == workers[k].id
            && workers[k].id in made && made[workers[k].id] == workers[k])
    }

    constructor (config: Config)
      ensures Valid() && pool == EMPTY && this.config == config
    {
      this.config := config;
      clock, workers, spawnTasks, retiringPorts, reservedPorts := 0, map[], map[], {}, {};
      made, pool := map[], EMPTY;
    }

    lemma PortsAgree()
      requires Valid()
      ensures (set k | k in workers :: workers[k].port) + retiringPorts + reservedPorts == UsedPorts(pool)
    {
      assert forall k | k in workers :: pool.info[pool.workers[k]].port == workers[k].port;
    }

    /** The first port that no worker, spawn or stopping worker uses. */
    method NextPort() returns (port: Option<int>)
      requires Valid()
      ensures port == FirstFree(config.firstPort, PORT_RANGE, UsedPorts(pool))
    {
      var used := (set k | k in workers :: workers[k].port) + retiringPorts + reservedPorts;
      PortsAgree();
      port := FirstUnused(config.firstPort, PORT_RANGE, used);
    }

    static method FirstUnused(first: int, count: nat, used: set<int>) returns (port: Option<int>)
      ensures port == FirstFree(first, count, used)
    {
      var value := first;
      while value < first + count
        invariant first <= value <= first + count
        invariant FirstFree(value, first + count - value, used) == FirstFree(first, count, used)
      {
        if value !in used {
          return Some(value);
        }
        value := value + 1;
      }
      return None;
    }

    /** The least recently used worker without requests, if there is one. */
    method LeastRecentlyUsed() returns (victim: Option<string>)
      requires Valid()
      ensures victim.None? ==> NoneIdle(pool)
      ensures victim.Some? ==> victim.value in workers && LeastRecent(pool, victim.value)
    {
      victim := None;
      var todo := workers.Keys;
      while exists k :: k in todo
        invariant todo <= workers.Keys
        invariant victim.Some? ==> victim.value in workers && workers[victim.value].activeRequests == 0
        invariant forall k | k in workers && k !in todo && workers[k].activeRequests == 0 ::
          victim.Some? && workers[victim.value].lastUsed <= workers[k].lastUsed
        decreases todo
      {
        var k :| k in todo;
        if workers[k].activeRequests == 0
          && (victim.None? || workers[k].lastUsed < workers[victim.value].lastUsed) {
          victim := Some(k);
        }
        todo := todo - {k};
      }
    }

    /** A worker leaves the pool, keeping its port until it has stopped. */
    method Remove(k: string, ghost stopper: Stopper) returns (removed: WorkerProcess)
      requires Valid() && k in workers
      modifies this`workers, this`retiringPorts, this`pool
      ensures Valid() && removed == old(workers[k]) && workers == old(workers) - {k}
      ensures pool == Pop(old(pool), k, stopper)
    {
      removed := workers[k];
      workers := workers - {k};
      retiringPorts := retiringPorts + {removed.port};
      pool := Pop(pool, k, stopper);
    }

    /** Reserves a port and starts the task that will stop the displaced worker and spawn. */
    method StartSpawnTask(key: string, evicted: Option<nat>) returns (answer: Answer)
      requires Valid()
      modifies this`spawnTasks, this`reservedPorts, this`pool
      ensures Valid() && GetResult(pool, answer) == StartSpawn(old(pool), config, key, evicted)
    {
      var port := NextPort();
      if port.None? {
        return Full;
      }
      reservedPorts := reservedPorts + {port.value};
      spawnTasks := spawnTasks[key := Spawn(port.value, if evicted.Some? then Evicting(evicted.value) else Starting)];
      pool := StartSpawn(pool, config, key, evicted).pool;
      return Await;
    }

    /** A lookup that finds its worker refreshes it, and may take a request on it. */
    method Touch(worker: WorkerProcess, ghost request: Option<int>, reserve: bool)
      requires Valid() && worker.id in made && made[worker.id] == worker && (reserve <==> request.Some?)
      modifies this`pool, worker
      ensures Valid()
      ensures var p := old(pool);
        pool == p.(
          info := p.info[worker.id := p.info[worker.id].(lastUsed := p.clock,
            active := p.info[worker.id].active + if request.Some? then 1 else 0)],
          requests := if request.Some? then p.requests[request.value := worker.id] else p.requests)
    {
      assert forall id | id in made && id != worker.id :: made[id] != worker;
      worker.lastUsed := clock;
      if reserve {
        worker.activeRequests := worker.activeRequests + 1;
      }
      pool := pool.(info := pool.info[worker.id := worker.Info()],
                    requests := if request.Some? then pool.requests[request.value := worker.id] else pool.requests);
    }

    /** Displaces the least recently used idle worker. */
    method Displace() returns (evicted: Option<nat>, ghost victim: string)
      requires Valid()
      modifies this`workers, this`retiringPorts, this`pool
      ensures Valid()
      ensures evicted.None? ==> NoneIdle(pool) && pool == old(pool)
      ensures evicted.Some? ==> LeastRecent(old(pool), victim)
      ensures evicted.Some? ==> pool == Pop(old(pool), victim, Nobody)
      ensures evicted.Some? ==> evicted.value == old(pool).workers[victim]
    {
      var candidate := LeastRecentlyUsed();
      if candidate.None? {
        return None, "";
      }
      victim := candidate.value;
      var displaced := Remove(candidate.value, Nobody);
      evicted := Some(displaced.id);
    }

    /** At capacity, displaces an idle worker and starts a spawn that will stop it. */
    method DisplaceAndSpawn(key: string, ghost stale: Option<nat>) returns (answer: Answer, ghost victim: string)
      requires Valid() && AtCapacity(pool, config)
      modifies this`workers, this`spawnTasks, this`retiringPorts, this`reservedPorts, this`pool
      ensures Valid() && Displaceable(old(pool), victim)
      ensures GetResult(pool, answer) == MakeRoom(old(pool), config, key, stale, victim)
    {
      var evicted;
      evicted, victim := Displace();
      if evicted.None? {
        return Full, victim;
      }
      answer := StartSpawnTask(key, evicted);
    }

    lemma SizesAgree()
      requires Valid()
      ensures |workers| == |pool.workers| && |spawnTasks| == |pool.spawns|
    {}

    /** Displaces a worker if the pool is full, then starts a spawn. */
    method MakeRoomAndSpawn(key: string, stale: Option<nat>) returns (answer: Answer, ghost victim: string)
      requires Valid()
      modifies this`workers, this`spawnTasks, this`retiringPorts, this`reservedPorts, this`pool
      ensures Valid()
      ensures AtCapacity(old(pool), config) ==> Displaceable(old(pool), victim)
      ensures GetResult(pool, answer) == MakeRoom(old(pool), config, key, stale, victim)
    {
      victim := key;
      SizesAgree();
      if |workers| + |spawnTasks| >= config.maxWorkers {
        answer, victim := DisplaceAndSpawn(key, stale);
      } else {
        answer := StartSpawnTask(key, stale);
      }
    }

    /** A worker whose process is dead leaves the pool. */
    method DropStale(key: string) returns (stale: Option<nat>)
      requires Valid()
      modifies this`workers, this`retiringPorts, this`pool
      ensures Valid() && pool == WithoutStale(old(pool), key)
      ensures stale == if Stale(old(pool), key) then Some(old(pool).workers[key]) else None
    {
      stale := None;
      if key in workers {
        var worker := workers[key];
        if worker.exited && !worker.terminalRequested {
          var removed := Remove(key, Nobody);
          stale := Some(removed.id);
        }
      }
    }

    /** One section of a lookup. */
    method GetWorker(key: string, ghost request: Option<int>, reserve: bool)
      returns (answer: Answer, ghost victim: string)
      requires Valid() && (reserve <==> request.Some?)
      modifies this, if key in workers then {workers[key]} else {}
      ensures Valid() && Chosen(old(pool), config, key, victim)
      ensures GetResult(pool, answer) == Get(old(pool), config, key, request, victim)
    {
      if key in workers {
        var worker := workers[key];
        GetWithWorker(pool, config, key, request, key);
        if worker.terminalRequested {
          return Terminating, key;
        }
        if !worker.exited {
          Touch(worker, request, reserve);
          return Got(worker.id), key;
        }
      }
      answer, victim := DropAndSpawn(key, request);
    }

    /** Without a usable worker: drops a dead one, then waits for a spawn or starts one. */
    method DropAndSpawn(key: string, ghost request: Option<int>) returns (answer: Answer, ghost victim: string)
      requires Valid() && (key in workers ==> Stale(pool, key))
      modifies this`workers, this`spawnTasks, this`retiringPorts, this`reservedPorts, this`pool
      ensures Valid() && Chosen(old(pool), config, key, victim)
      ensures GetResult(pool, answer) == Get(old(pool), config, key, request, victim)
    {
      ghost var p := pool;
      var stale := DropStale(key);
      answer, victim := JoinOrSpawn(key, stale);
      GetWithoutWorker(p, config, key, request, victim);
    }

    /** Waits for the key's spawn if there is one, and otherwise starts one. */
    method JoinOrSpawn(key: string, stale: Option<nat>) returns (answer: Answer, ghost victim: string)
      requires Valid()
      modifies this`workers, this`spawnTasks, this`retiringPorts, this`reservedPorts, this`pool
      ensures Valid()
      ensures key !in old(pool).spawns && AtCapacity(old(pool), config) ==> Displaceable(old(pool), victim)
      ensures GetResult(pool, answer) ==
        if key in old(pool).spawns then GetResult(old(pool), Await)
        else MakeRoom(old(pool), config, key, stale, victim)
    {
      if key in spawnTasks {
        return Await, key;
      }
      answer, victim := MakeRoomAndSpawn(key, stale);
    }

    /** The displaced worker's stop has ended. */
    method EvictedStopped(key: string, victim: WorkerProcess, failed: bool)
      requires Valid() && key in spawnTasks && spawnTasks[key].phase == Evicting(victim.id)
      requires victim.id in made && made[victim.id] == victim
      modifies this`spawnTasks, this`retiringPorts, this`pool
      ensures Valid() && pool == VictimStopped(old(pool), key, failed)
    {
      retiringPorts := retiringPorts - {victim.port};
      spawnTasks := spawnTasks[key := spawnTasks[key].(phase := if failed then Broken else Starting)];
      pool := VictimStopped(pool, key, failed);
    }

    /** The spawn installs its worker. */
    method InstallWorker(key: string, id: nat) returns (worker: WorkerProcess)
      requires Valid() && key in spawnTasks && spawnTasks[key].phase.Starting? && id !in made
      modifies this`workers, this`spawnTasks, this`made, this`pool
      ensures Valid() && pool == Install(old(pool), key, id)
      ensures fresh(worker) && worker.id == id && key in workers && workers[key] == worker
    {
      worker := new WorkerProcess(id, key, spawnTasks[key].port, clock);
      workers := workers[key := worker];
      spawnTasks := spawnTasks[key := spawnTasks[key].(phase := Installed(id))];
      made := made[id := worker];
      pool := Install(pool, key, id);
    }

    /** The spawn task's last section. */
    method EndSpawn(key: string)
      requires Valid() && key in spawnTasks && (spawnTasks[key].phase.Installed? || spawnTasks[key].phase.Broken?)
      modifies this`spawnTasks, this`reservedPorts, this`pool
      ensures Valid() && pool == FinishSpawn(old(pool), key)
    {
      reservedPorts := reservedPorts - {spawnTasks[key].port};
      spawnTasks := spawnTasks - {key};
      pool := FinishSpawn(pool, key);
    }

    /** A finished request lets go of its worker. */
    method LetGo(worker: WorkerProcess, ghost request: int, terminalSucceeded: bool)
      requires Valid() && worker.id in made && made[worker.id] == worker && worker.activeRequests > 0
      modifies this`pool, worker
      ensures Valid()
      ensures worker.activeRequests == old(worker.activeRequests) - 1
      ensures worker.terminalRequested == (old(worker.terminalRequested) || terminalSucceeded)
      ensures var p := old(pool);
        pool == p.(
          info := p.info[worker.id := p.info[worker.id].(active := p.info[worker.id].active - 1, lastUsed := p.clock,
            terminal := p.info[worker.id].terminal || terminalSucceeded)],
          requests := p.requests - {request})
    {
      assert forall id | id in made && id != worker.id :: made[id] != worker;
      worker.activeRequests := worker.activeRequests - 1;
      worker.lastUsed := clock;
      if terminalSucceeded {
        worker.terminalRequested := true;
      }
      pool := pool.(info := pool.info[worker.id := worker.Info()], requests := pool.requests - {request});
    }

    /** The last section of a completion; true if the caller must stop the worker it has retired. */
    method EndRequest(worker: WorkerProcess, ghost request: int, terminalSucceeded: bool) returns (retiring: bool)
      requires Valid() && worker.id in made && made[worker.id] == worker && worker.activeRequests > 0
      requires request in pool.requests && pool.requests[request] == worker.id
      modifies this`workers, this`retiringPorts, this`pool, worker
      ensures Valid() && pool == FinishRequest(old(pool), request, terminalSucceeded)
      ensures retiring <==> pool.workers != old(pool).workers
    {
      ghost var p := pool;
      LetGo(worker, request, terminalSucceeded);
      FinishFollowsLetGo(p, request, terminalSucceeded, pool);
      retiring := worker.terminalRequested && worker.activeRequests == 0
        && worker.key in workers && workers[worker.key] == worker;
      assert worker.key in workers ==> (workers[worker.key] == worker <==> pool.workers[worker.key] == worker.id);
      if retiring {
        var _ := Remove(worker.key, ByTask);
      }
    }

    /** One worker that has been idle too long leaves the pool. */
    method RetireOne(k: string, expired: seq<WorkerProcess>, ghost p: Pool, ghost done: set<string>)
      returns (all: seq<WorkerProcess>)
      requires Valid() && HasKeys(p, done + {k}) && k !in done && pool == Retired(p, done)
      requires k in workers && Ids(expired) == RetiredWorkers(p, done)
      modifies this`workers, this`retiringPorts, this`pool
      ensures Valid() && pool == Retired(p, done + {k})
      ensures workers == old(workers) - {k}
      ensures Ids(all) == RetiredWorkers(p, done + {k}) && |all| == |expired| + 1
    {
      RetiredAdvances(p, done, k);
      assert pool.workers[k] == workers[k].id && pool.workers == p.workers - done;
      var removed := Remove(k, ByTask);
      IdsGrow(p, expired, done, k, removed);
      all := expired + [removed];
    }

    /** The keys of the workers that have been idle too long. */
    method FindExpired() returns (expired: set<string>)
      requires Valid()
      ensures expired == OverdueKeys(pool, config) && expired <= workers.Keys
      ensures HasKeys(pool, expired)
    {
      expired := set k | k in workers && workers[k].activeRequests == 0
        && workers[k].lastUsed < clock - config.idleSeconds;
    }

    /** Removes the workers of some keys, one at a time. */
    method RetireKeys(keys: set<string>) returns (expired: seq<WorkerProcess>)
      requires Valid() && HasKeys(pool, keys) && keys <= workers.Keys
      modifies this`workers, this`retiringPorts, this`pool
      ensures Valid() && pool == Retired(old(pool), keys)
      ensures Ids(expired) == RetiredWorkers(old(pool), keys) && |expired| == |keys|
    {
      ghost var p := pool;
      expired := [];
      var todo := keys;
      NoneRetired(p, keys);
      while todo != {}
        invariant todo <= keys && todo <= workers.Keys
        invariant Valid() && pool == Retired(p, keys - todo)
        invariant Ids(expired) == RetiredWorkers(p, keys - todo) && |expired| == |keys - todo|
        decreases todo
      {
        var k :| k in todo;
        SetMoves(keys, todo, k);
        expired := RetireOne(k, expired, p, keys - todo);
        todo := todo - {k};
      }
      AllRetired(keys);
    }

    /** Removes every worker that has been idle too long; the caller stops them. */
    method RetireExpired() returns (expired: seq<WorkerProcess>)
      requires Valid()
      modifies this`workers, this`retiringPorts, this`pool
      ensures Valid() && pool == RetireIdle(old(pool), config)
      ensures Ids(expired) == RetiredWorkers(old(pool), OverdueKeys(old(pool), config))
      ensures |expired| == |OverdueKeys(old(pool), config)|
    {
      var overdue := FindExpired();
      expired := RetireKeys(overdue);
    }
  }

  /** A lookup that finds no usable worker drops a dead one, then waits for a spawn or starts one. */
  lemma GetWithoutWorker(p: Pool, config: Config, key: string, request: Option<int>, victim: string)
    requires key in p.workers && p.workers[key] in p.info ==> Stale(p, key)
    requires key in p.workers ==> p.workers[key] in p.info
    requires var q := WithoutStale(p, key);
      key !in q.spawns && AtCapacity(q, config) ==> Displaceable(q, victim)
    ensures Chosen(p, config, key, victim)
    ensures var q := WithoutStale(p, key);
      Get(p, config, key, request, victim) ==
        if key in q.spawns then GetResult(q, Await)
        else MakeRoom(q, config, key, if Stale(p, key) then Some(p.workers[key]) else None, victim)
  {}

  /** A lookup that finds a usable worker refreshes it. */
  lemma GetWithWorker(p: Pool, config: Config, key: string, request: Option<int>, victim: string)
    requires key in p.workers && p.workers[key] in p.info
    ensures !Stale(p, key) ==> Chosen(p, config, key, victim)
    ensures var w, worker := p.workers[key], p.info[p.workers[key]];
      && (worker.terminal ==> Get(p, config, key, request, victim) == GetResult(p, Terminating))
      && (!worker.terminal && !worker.exited ==>
            Get(p, config, key, request, victim) == GetResult(
              p.(info := p.info[w := worker.(lastUsed := p.clock,
                   active := worker.active + if request.Some? then 1 else 0)],
                 requests := if request.Some? then p.requests[request.value := w] else p.requests), Got(w)))
  {}

  /** Once its request has let go of a worker, a completion only has to see whether to retire it. */
  lemma FinishFollowsLetGo(p: Pool, request: int, terminated: bool, q: Pool)
    requires request in p.requests && p.requests[request] in p.info && p.info[p.requests[request]].active > 0
    requires var w := p.requests[request];
      q == p.(
        info := p.info[w := p.info[w].(active := p.info[w].active - 1, lastUsed := p.clock,
          terminal := p.info[w].terminal || terminated)],
        requests := p.requests - {request})
    ensures var w, worker := p.requests[request], q.info[p.requests[request]];
      FinishRequest(p, request, terminated) ==
        if worker.terminal && worker.active == 0 && worker.key in q.workers && q.workers[worker.key] == w
        then Pop(q, worker.key, ByTask) else q
  {}

  ghost function Ids(ws: seq<WorkerProcess>): set<nat> { set w | w in ws :: w.id }

  lemma IdsGrow(p: Pool, ws: seq<WorkerProcess>, done: set<string>, k: string, w: WorkerProcess)
    requires k in p.workers && p.workers[k] == w.id && Ids(ws) == RetiredWorkers(p, done)
    ensures Ids(ws + [w]) == RetiredWorkers(p, done + {k})
  {
    assert Ids(ws + [w]) == Ids(ws) + {w.id};
    assert RetiredWorkers(p, done + {k}) == RetiredWorkers(p, done) + {w.id};
  }

  lemma SetMoves(keys: set<string>, todo: set<string>, k: string)
    requires k in todo && todo <= keys
    ensures keys - (todo - {k}) == keys - todo + {k} && |keys - (todo - {k})| == |keys - todo| + 1
  {}

  lemma AllRetired(keys: set<string>)
    ensures keys - {} == keys
  {}

  ghost predicate HasKeys(p: Pool, keys: set<string>) {
    forall k | k in keys :: k in p.workers && p.workers[k] in p.info
  }

  /** The pool after some overdue workers have been removed. */
  ghost function Retired(p: Pool, keys: set<string>): Pool
    requires HasKeys(p, keys)
  {
    p.(workers := p.workers - keys,
       retiring := p.retiring + (set k | k in keys :: p.info[p.workers[k]].port),
       stopping := map w | w in p.stopping.Keys + RetiredWorkers(p, keys) ::
         if w in RetiredWorkers(p, keys) then ByTask else p.stopping[w])
  }

  lemma NoneRetired(p: Pool, keys: set<string>)
    requires HasKeys(p, keys)
    ensures keys - keys == {} && Retired(p, keys - keys) == p && RetiredWorkers(p, keys - keys) == {}
  {}

  lemma RetiredAdvances(p: Pool, keys: set<string>, k: string)
    requires HasKeys(p, keys + {k}) && k !in keys
    ensures k in Retired(p, keys).workers && p.workers[k] in Retired(p, keys).info
    ensures Pop(Retired(p, keys), k, ByTask) == Retired(p, keys + {k})
  {}
}
