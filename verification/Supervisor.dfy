/**
 The agent supervisor's worker pool.  Each step is one section under the manager's lock, or an
 event outside it (a process exits, a spawn fails, a stop ends).  Workers are known by identity.
 */
module Supervisor {
  import opened Tables

  datatype Worker = Worker(key: string, port: int, exited: bool, lastUsed: int, active: nat, terminal: bool)

  /** How far a spawn task has come; `Evicting` still has to stop the worker it displaces. */
  datatype Phase = Evicting(victim: nat) | Starting | Installed(worker: nat) | Broken

  datatype Spawn = Spawn(port: int, phase: Phase)

  /** Who will stop a worker that has left the pool. */
  datatype Stopper = ByTask | BySpawn(key: string) | Nobody

  datatype Pool = Pool(
    clock: int,
    workers: map<string, nat>,
    info: map<nat, Worker>,
    spawns: map<string, Spawn>,
    retiring: set<int>,
    reserved: set<int>,
    stopping: map<nat, Stopper>,
    requests: map<int, nat>)

  datatype Config = Config(maxWorkers: nat, firstPort: int, idleSeconds: nat)

  const PORT_RANGE: nat := 1000

  // ---- ports ----

  function UsedPorts(p: Pool): set<int> {
    (set k | k in p.workers && p.workers[k] in p.info :: p.info[p.workers[k]].port) + p.retiring + p.reserved
  }

  /** The first free port of a range. */
  function FirstFree(first: int, count: nat, used: set<int>): (port: Option<int>)
    ensures port.Some? ==> port.value !in used && first <= port.value < first + count
    ensures port.Some? ==> forall q | first <= q < port.value :: q in used
    ensures port.None? ==> forall q | first <= q < first + count :: q in used
    decreases count
  {
    if count == 0 then None
    else if first !in used then Some(first)
    else FirstFree(first + 1, count - 1, used)
  }

  // ---- getting a worker ----

  predicate Idle(p: Pool, k: string) { k in p.workers && p.workers[k] in p.info && p.info[p.workers[k]].active == 0 }

  predicate NoneIdle(p: Pool) { forall k | k in p.workers :: !Idle(p, k) }

  /** An installed idle worker that was used no later than any other. */
  predicate LeastRecent(p: Pool, k: string) {
    Idle(p, k) && forall j | j in p.workers && Idle(p, j) ::
      p.info[p.workers[k]].lastUsed <= p.info[p.workers[j]].lastUsed
  }

  /** A worker leaves the pool; its port stays taken until it has stopped. */
  function Pop(p: Pool, k: string, stopper: Stopper): Pool
    requires k in p.workers && p.workers[k] in p.info
  {
    var w := p.workers[k];
    p.(workers := p.workers - {k}, retiring := p.retiring + {p.info[w].port}, stopping := p.stopping[w := stopper])
  }

  datatype Answer = Got(worker: nat) | Terminating | Full | Await

  datatype GetResult = GetResult(pool: Pool, answer: Answer)

  predicate Stale(p: Pool, k: string) {
    k in p.workers && p.workers[k] in p.info && p.info[p.workers[k]].exited && !p.info[p.workers[k]].terminal
  }

  function WithoutStale(p: Pool, k: string): Pool {
    if Stale(p, k) then Pop(p, k, Nobody) else p
  }

  /** Makes room for a spawn and starts it; only the last worker displaced is handed to it. */
  function StartSpawn(p: Pool, config: Config, key: string, evicted: Option<nat>): GetResult {
    match FirstFree(config.firstPort, PORT_RANGE, UsedPorts(p))
    case None => GetResult(p, Full)
    case Some(port) =>
      var started := p.(reserved := p.reserved + {port});
      match evicted
      case None => GetResult(started.(spawns := p.spawns[key := Spawn(port, Starting)]), Await)
      case Some(w) =>
        GetResult(started.(spawns := p.spawns[key := Spawn(port, Evicting(w))],
                           stopping := p.stopping[w := BySpawn(key)]), Await)
  }

  /** Whether a section of `_get` has to displace a worker. */
  predicate NeedsRoom(p: Pool, config: Config, key: string) {
    var q := WithoutStale(p, key);
    key !in q.workers && key !in q.spawns && AtCapacity(q, config)
  }

  predicate AtCapacity(p: Pool, config: Config) { |p.workers| + |p.spawns| >= config.maxWorkers }

  predicate Displaceable(p: Pool, victim: string) { NoneIdle(p) || LeastRecent(p, victim) }

  /** At capacity an idle worker is displaced, and the spawn will stop that one. */
  function MakeRoom(p: Pool, config: Config, key: string, stale: Option<nat>, victim: string): GetResult
    requires AtCapacity(p, config) ==> Displaceable(p, victim)
  {
    if !AtCapacity(p, config) then StartSpawn(p, config, key, stale)
    else if NoneIdle(p) then GetResult(p, Full)
    else StartSpawn(Pop(p, victim, Nobody), config, key, Some(p.workers[victim]))
  }

  /** The displaced worker is the least recently used idle one; which of several is left open. */
  predicate Chosen(p: Pool, config: Config, key: string, victim: string) {
    NeedsRoom(p, config, key) ==> Displaceable(WithoutStale(p, key), victim)
  }

  /** One section of `_get`. */
  function Get(p: Pool, config: Config, key: string, request: Option<int>, victim: string): GetResult
    requires Chosen(p, config, key, victim)
  {
    if key in p.workers && p.workers[key] in p.info && !Stale(p, key) then
      var w := p.workers[key];
      if p.info[w].terminal then GetResult(p, Terminating)
      else
        var used := p.info[w].(lastUsed := p.clock, active := p.info[w].active + if request.Some? then 1 else 0);
        GetResult(p.(info := p.info[w := used],
                     requests := if request.Some? then p.requests[request.value := w] else p.requests), Got(w))
    else
      var q := WithoutStale(p, key);
      if key in q.spawns || key in q.workers then GetResult(q, Await)
      else MakeRoom(q, config, key, if Stale(p, key) then Some(p.workers[key]) else None, victim)
  }

  // ---- a spawn task ----

  /** The displaced worker has stopped. */
  function VictimStopped(p: Pool, key: string, failed: bool): Pool {
    if key in p.spawns && p.spawns[key].phase.Evicting? && p.spawns[key].phase.victim in p.info then
      var w := p.spawns[key].phase.victim;
      p.(spawns := p.spawns[key := p.spawns[key].(phase := if failed then Broken else Starting)],
         retiring := p.retiring - {p.info[w].port}, stopping := p.stopping - {w})
    else p
  }

  /** The spawned worker is installed under its key. */
  function Install(p: Pool, key: string, id: nat): Pool {
    if key in p.spawns && p.spawns[key].phase.Starting? && id !in p.info then
      p.(spawns := p.spawns[key := p.spawns[key].(phase := Installed(id))],
         workers := p.workers[key := id],
         info := p.info[id := Worker(key, p.spawns[key].port, false, p.clock, 0, false)])
    else p
  }

  function SpawnFails(p: Pool, key: string): Pool {
    if key in p.spawns && p.spawns[key].phase.Starting?
    then p.(spawns := p.spawns[key := p.spawns[key].(phase := Broken)])
    else p
  }

  /** The task's last section: it leaves the map and gives its port back. */
  function FinishSpawn(p: Pool, key: string): Pool {
    if key in p.spawns && (p.spawns[key].phase.Installed? || p.spawns[key].phase.Broken?)
    then p.(spawns := p.spawns - {key}, reserved := p.reserved - {p.spawns[key].port})
    else p
  }

  // ---- completions ----

  /** The last section of a completion: the last finisher of a terminating worker retires it. */
  function FinishRequest(p: Pool, request: int, terminated: bool): Pool {
    if request in p.requests && p.requests[request] in p.info && p.info[p.requests[request]].active > 0 then
      var w := p.requests[request];
      var worker := p.info[w].(active := p.info[w].active - 1, lastUsed := p.clock,
                               terminal := p.info[w].terminal || terminated);
      var q := p.(info := p.info[w := worker], requests := p.requests - {request});
      if worker.terminal && worker.active == 0 && worker.key in q.workers && q.workers[worker.key] == w
      then Pop(q, worker.key, ByTask) else q
    else p
  }

  // ---- idle retirement ----

  predicate Overdue(p: Pool, config: Config, k: string) {
    Idle(p, k) && p.info[p.workers[k]].lastUsed < p.clock - config.idleSeconds
  }

  function OverdueKeys(p: Pool, config: Config): set<string> { set k | k in p.workers && Overdue(p, config, k) }

  function RetiredWorkers(p: Pool, keys: set<string>): set<nat> { set k | k in keys && k in p.workers :: p.workers[k] }

  function RetireIdle(p: Pool, config: Config): Pool {
    var keys := OverdueKeys(p, config);
    p.(workers := p.workers - keys,
       retiring := p.retiring + (set k | k in keys :: p.info[p.workers[k]].port),
       stopping := map w | w in p.stopping.Keys + RetiredWorkers(p, keys) ::
         if w in RetiredWorkers(p, keys) then ByTask else p.stopping[w])
  }

  /** A worker retired by a completion or by the idle loop has stopped. */
  function Stopped(p: Pool, w: nat): Pool {
    if w in p.stopping && p.stopping[w].ByTask? && w in p.info
    then p.(retiring := p.retiring - {p.info[w].port}, stopping := p.stopping - {w})
    else p
  }

  // ---- runs ----

  datatype Step =
    | Tick(seconds: nat)
    | DoGet(key: string, request: Option<int>, victim: string)
    | DoVictimStopped(key: string, failed: bool)
    | DoInstall(key: string, id: nat)
    | DoSpawnFails(key: string)
    | DoFinishSpawn(key: string)
    | DoFinishRequest(finished: int, terminated: bool)
    | DoRetireIdle
    | DoStopped(w: nat)
    | DoExit(w: nat)

  /** A completion is new when it asks for a worker. */
  function Apply(p: Pool, config: Config, step: Step): Pool {
    match step
    case Tick(seconds) => p.(clock := p.clock + seconds)
    case DoGet(key, request, victim) =>
      if (request.Some? && request.value in p.requests) || !Chosen(p, config, key, victim) then p
      else Get(p, config, key, request, victim).pool
    case DoVictimStopped(key, failed) => VictimStopped(p, key, failed)
    case DoInstall(key, id) => Install(p, key, id)
    case DoSpawnFails(key) => SpawnFails(p, key)
    case DoFinishSpawn(key) => FinishSpawn(p, key)
    case DoFinishRequest(finished, terminated) => FinishRequest(p, finished, terminated)
    case DoRetireIdle => RetireIdle(p, config)
    case DoStopped(w) => Stopped(p, w)
    case DoExit(w) => if w in p.info then p.(info := p.info[w := p.info[w].(exited := true)]) else p
  }

  function Run(p: Pool, config: Config, steps: seq<Step>): Pool
    decreases |steps|
  {
    if steps == [] then p else Run(Apply(p, config, steps[0]), config, steps[1..])
  }

  const EMPTY: Pool := Pool(0, map[], map[], map[], {}, {}, map[], map[])
}
