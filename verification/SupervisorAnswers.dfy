/** What the answers of a lookup mean, and what each section of the pool does. */
module SupervisorAnswers {
  import opened Tables
  import opened Supervisor
  import opened SupervisorInvariant

  // ---- the answers of a lookup ----

  /** The worker of a key can take a request. */
  predicate Usable(p: Pool, key: string) {
    && key in p.workers && p.workers[key] in p.info
    && !p.info[p.workers[key]].exited && !p.info[p.workers[key]].terminal
  }

  predicate Ending(p: Pool, key: string) {
    key in p.workers && p.workers[key] in p.info && p.info[p.workers[key]].terminal
  }

  /** A worker in the pool, one that is being stopped, or a spawn has the port. */
  predicate PortTaken(p: Pool, port: int) {
    || port in p.retiring || port in p.reserved
    || exists k | k in p.workers && p.workers[k] in p.info :: p.info[p.workers[k]].port == port
  }

  predicate NoPortFree(p: Pool, config: Config) {
    forall port | config.firstPort <= port && port < config.firstPort + 1000 :: PortTaken(p, port)
  }

  /** The pool's workers but that of a key. */
  function Others(p: Pool, key: string): map<string, nat> { p.workers - {key} }

  predicate IsFull(p: Pool, config: Config, key: string) {
    |Others(p, key)| + |p.spawns| >= config.maxWorkers
  }

  predicate Busy(p: Pool, k: string) { k in p.workers && p.workers[k] in p.info && p.info[p.workers[k]].active > 0 }

  predicate OthersBusy(p: Pool, key: string) { forall k | k in Others(p, key) :: Busy(p, k) }

  lemma TakenMeans(p: Pool, port: int)
    ensures PortTaken(p, port) <==> port in UsedPorts(p)
  {}

  lemma FreeMeans(p: Pool, config: Config)
    ensures NoPortFree(p, config) <==> FirstFree(config.firstPort, PORT_RANGE, UsedPorts(p)).None?
  {
    forall port ensures PortTaken(p, port) <==> port in UsedPorts(p) { TakenMeans(p, port); }
    var free := FirstFree(config.firstPort, PORT_RANGE, UsedPorts(p));
    if free.Some? { assert !PortTaken(p, free.value); }
  }

  /** A worker that leaves the pool keeps its port. */
  lemma PopTakesNoPort(p: Pool, k: string, stopper: Stopper)
    requires k in p.workers && p.workers[k] in p.info
    ensures UsedPorts(Pop(p, k, stopper)) == UsedPorts(p)
  {
    var q := Pop(p, k, stopper);
    forall port ensures port in UsedPorts(q) <==> port in UsedPorts(p) {
      TakenMeans(p, port);
      TakenMeans(q, port);
      if PortTaken(p, port) && port !in p.retiring && port !in p.reserved {
        var j :| j in p.workers && p.workers[j] in p.info && p.info[p.workers[j]].port == port;
        assert j == k || j in q.workers;
      }
    }
  }

  lemma WithoutStaleIs(p: Pool, key: string)
    requires KeysOk(p) && !Usable(p, key) && !Ending(p, key)
    ensures var q := WithoutStale(p, key);
      && q.workers == Others(p, key) && q.spawns == p.spawns && q.info == p.info
      && UsedPorts(q) == UsedPorts(p)
  {
    if Stale(p, key) {
      PopTakesNoPort(p, key, Nobody);
    } else {
      assert key !in p.workers && p.workers - {key} == p.workers;
    }
  }

  lemma LookupFindsWorker(p: Pool, config: Config, key: string, request: Option<int>, victim: string)
    requires KeysOk(p) && (Usable(p, key) || Ending(p, key))
    ensures Chosen(p, config, key, victim)
    ensures Ending(p, key) ==> Get(p, config, key, request, victim) == GetResult(p, Terminating)
    ensures Usable(p, key) ==>
      var w := p.workers[key];
      var taken := if request.Some? then 1 else 0;
      Get(p, config, key, request, victim) == GetResult(
        p.(info := p.info[w := p.info[w].(lastUsed := p.clock, active := p.info[w].active + taken)],
           requests := if request.Some? then p.requests[request.value := w] else p.requests),
        Got(w))
  {}

  lemma MakeRoomAnswers(q: Pool, config: Config, key: string, stale: Option<nat>, victim: string)
    requires KeysOk(q) && key !in q.workers && key !in q.spawns && (AtCapacity(q, config) ==> Displaceable(q, victim))
    ensures var r := MakeRoom(q, config, key, stale, victim);
      && (r.answer == Full <==>
            (AtCapacity(q, config) && NoneIdle(q)) || FirstFree(config.firstPort, PORT_RANGE, UsedPorts(q)).None?)
      && (r.answer == Full || r.answer == Await)
      && (r.answer == Await <==> key in r.pool.spawns)
  {
    if AtCapacity(q, config) && !NoneIdle(q) { PopTakesNoPort(q, victim, Nobody); }
  }

  /**
   The worker given out is the key's own, alive and not ending; a caller is told that the conversation is
   ending exactly if its worker is; waits only where a spawn of the key runs; and is turned away exactly
   if there is no worker of the key to use and none being spawned, and either the pool is full of other
   workers that are all busy or no port is free.
   */
  lemma AnswersMean(p: Pool, config: Config, key: string, request: Option<int>, victim: string)
    requires KeysOk(p) && Chosen(p, config, key, victim)
    ensures
      var r := Get(p, config, key, request, victim);
      && (r.answer.Got? <==> Usable(p, key)) && (r.answer.Got? ==> r.answer.worker == p.workers[key])
      && (r.answer == Terminating <==> Ending(p, key))
      && (r.answer == Await ==> key in r.pool.spawns)
      && (r.answer == Full <==>
            && !Usable(p, key) && !Ending(p, key) && key !in p.spawns
            && ((IsFull(p, config, key) && OthersBusy(p, key)) || NoPortFree(p, config)))
  {
    if Usable(p, key) || Ending(p, key) {
      LookupFindsWorker(p, config, key, request, victim);
    } else {
      WithoutStaleIs(p, key);
      var q := WithoutStale(p, key);
      FreeMeans(p, config);
      IdleMeans(p, q, key);
      if key !in q.spawns {
        MakeRoomAnswers(q, config, key, if Stale(p, key) then Some(p.workers[key]) else None, victim);
      }
    }
  }

  lemma IdleMeans(p: Pool, q: Pool, key: string)
    requires KeysOk(p) && q.workers == Others(p, key) && q.info == p.info
    ensures NoneIdle(q) <==> OthersBusy(p, key)
    ensures KeysOk(q)
  {}

  lemma LookupMakesRoom(p: Pool, config: Config, key: string, request: Option<int>, victim: string)
    requires KeysOk(p) && Chosen(p, config, key, victim)
    requires !Usable(p, key) && !Ending(p, key) && key !in p.spawns
    ensures var q := WithoutStale(p, key);
      && (AtCapacity(q, config) <==> IsFull(p, config, key)) && (AtCapacity(q, config) ==> Displaceable(q, victim))
      && Get(p, config, key, request, victim)
           == MakeRoom(q, config, key, if Stale(p, key) then Some(p.workers[key]) else None, victim)
  {
    WithoutStaleIs(p, key);
  }

  lemma MakeRoomWorkers(q: Pool, config: Config, key: string, stale: Option<nat>, victim: string)
    requires AtCapacity(q, config) ==> Displaceable(q, victim)
    ensures MakeRoom(q, config, key, stale, victim).pool.workers ==
      if AtCapacity(q, config) && !NoneIdle(q) then q.workers - {victim} else q.workers
  {}

  lemma MakeRoomSpawns(q: Pool, config: Config, key: string, stale: Option<nat>, victim: string)
    requires (AtCapacity(q, config) ==> Displaceable(q, victim)) && key !in q.spawns
    requires MakeRoom(q, config, key, stale, victim).answer == Await
    ensures
      var spawns := MakeRoom(q, config, key, stale, victim).pool.spawns;
      var free := FirstFree(config.firstPort, PORT_RANGE, UsedPorts(q));
      && free.Some? && spawns == q.spawns[key := Spawn(free.value,
           if AtCapacity(q, config) then Evicting(q.workers[victim])
           else if stale.Some? then Evicting(stale.value) else Starting)]
  {
    if AtCapacity(q, config) { PopTakesNoPort(q, victim, Nobody); }
  }

  lemma TakenIsHeld(p: Pool, q: Pool, w: nat, request: Option<int>, v: nat)
    requires request.Some? ==> request.value !in p.requests
    requires q.requests == if request.Some? then p.requests[request.value := w] else p.requests
    ensures HeldBy(q, v) == HeldBy(p, v) + if request.Some? && v == w then {request.value} else {}
  {}

  /** The worker given out was used just now, and has one request more if one was asked for. */
  lemma GivenWorkerIsHeld(p: Pool, config: Config, key: string, request: Option<int>, victim: string, v: nat)
    requires KeysOk(p) && Usable(p, key) && (request.Some? ==> request.value !in p.requests)
    ensures Chosen(p, config, key, victim)
    ensures
      var w, q := p.workers[key], Get(p, config, key, request, victim).pool;
      && w in q.info && q.info[w].lastUsed == p.clock
      && q == p.(info := p.info[w := q.info[w]], requests := q.requests)
      && HeldBy(q, v) == HeldBy(p, v) + if request.Some? && v == w then {request.value} else {}
  {
    LookupFindsWorker(p, config, key, request, victim);
    TakenIsHeld(p, Get(p, config, key, request, victim).pool, p.workers[key], request, v);
  }

  /**
   Room is made only in a full pool, by the worker that was used least recently among those that no
   request holds; and every other worker stays.
   */
  lemma LeastRecentMakesRoom(p: Pool, config: Config, key: string, request: Option<int>, victim: string)
    requires Sound(p, config) && Chosen(p, config, key, victim)
    requires !Usable(p, key) && !Ending(p, key) && key !in p.spawns
    ensures
      var q := Get(p, config, key, request, victim).pool;
      if IsFull(p, config, key) && !OthersBusy(p, key) then
        && victim in Others(p, key) && p.workers[victim] in p.info && HeldBy(p, p.workers[victim]) == {}
        && q.workers == Others(p, key) - {victim}
        && (forall k | k in Others(p, key) && HeldBy(p, p.workers[k]) == {} ::
              p.info[p.workers[victim]].lastUsed <= p.info[p.workers[k]].lastUsed)
      else q.workers == Others(p, key)
  {
    var q := WithoutStale(p, key);
    WithoutStaleIs(p, key);
    IdleMeans(p, q, key);
    LookupMakesRoom(p, config, key, request, victim);
    MakeRoomWorkers(q, config, key, if Stale(p, key) then Some(p.workers[key]) else None, victim);
    if IsFull(p, config, key) && !OthersBusy(p, key) {
      VictimIsLeastRecent(p, q, victim);
    }
  }

  lemma VictimIsLeastRecent(p: Pool, q: Pool, victim: string)
    requires KeysOk(p) && CountsOk(p) && q.info == p.info && q.workers.Keys <= p.workers.Keys
    requires (forall k | k in q.workers :: q.workers[k] == p.workers[k]) && LeastRecent(q, victim)
    ensures victim in q.workers && p.workers[victim] in p.info && HeldBy(p, p.workers[victim]) == {}
    ensures forall k | k in q.workers && HeldBy(p, p.workers[k]) == {} ::
      p.info[p.workers[victim]].lastUsed <= p.info[p.workers[k]].lastUsed
  {
    forall k | k in q.workers ensures Idle(q, k) <==> HeldBy(p, p.workers[k]) == {} { IdleIsUnheld(p, p.workers[k]); }
  }

  lemma IdleIsUnheld(p: Pool, w: nat)
    requires CountsOk(p) && w in p.info
    ensures p.info[w].active == 0 <==> HeldBy(p, w) == {}
  {
    assert CountOk(p, w);
  }

  /** A new spawn gets the lowest free port, and waits for the last worker that had to make way for it. */
  lemma SpawnWaitsForDisplaced(p: Pool, config: Config, key: string, request: Option<int>, victim: string)
    requires KeysOk(p) && Chosen(p, config, key, victim)
    requires !Usable(p, key) && !Ending(p, key) && key !in p.spawns
    requires Get(p, config, key, request, victim).answer == Await
    ensures
      var spawns := Get(p, config, key, request, victim).pool.spawns;
      && key in spawns && spawns == p.spawns[key := spawns[key]] && (IsFull(p, config, key) ==> victim in p.workers)
      && !PortTaken(p, spawns[key].port)
      && (forall port | config.firstPort <= port && port < spawns[key].port :: PortTaken(p, port))
      && spawns[key].phase ==
           if IsFull(p, config, key) then Evicting(p.workers[victim])
           else if key in p.workers then Evicting(p.workers[key])
           else Starting
  {
    var q := WithoutStale(p, key);
    WithoutStaleIs(p, key);
    LookupMakesRoom(p, config, key, request, victim);
    MakeRoomSpawns(q, config, key, if Stale(p, key) then Some(p.workers[key]) else None, victim);
    forall other ensures PortTaken(p, other) <==> other in UsedPorts(p) { TakenMeans(p, other); }
  }
}
