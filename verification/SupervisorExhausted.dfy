/** A run in which dropped workers hold every port, so that a lookup drops a live one. */
module SupervisorExhausted {
  import opened Tables
  import opened Supervisor
  import opened SupervisorInvariant
  import opened SupervisorDropped

  /** Nothing runs in the pool, and its first ports stay taken. */
  predicate Leaked(p: Pool, config: Config, n: nat) {
    && p.workers == map[] && p.spawns == map[] && p.reserved == {}
    && p.retiring == Ports(config, n) && forall id | id in p.info :: id < n
  }

  function Ports(config: Config, n: nat): (ports: set<int>)
    ensures forall port :: port in ports <==> config.firstPort <= port < config.firstPort + n
  {
    if n == 0 then {} else Ports(config, n - 1) + {config.firstPort + n - 1}
  }

  lemma NextIsFree(config: Config, n: nat, count: nat)
    ensures FirstFree(config.firstPort, count, Ports(config, n))
      == if n < count then Some(config.firstPort + n) else None
  {
    if n < count {
      assert config.firstPort + n !in Ports(config, n);
    }
  }

  /** A step after a run, from the states that they reach. */
  lemma Follow(p: Pool, config: Config, steps: seq<Step>, q: Pool, step: Step, r: Pool)
    requires Run(p, config, steps) == q && Apply(q, config, step) == r
    ensures Run(p, config, steps + [step]) == r
  {
    RunThen(p, config, steps, step);
  }

  // ---- one worker spawned ----

  function Spawning(p: Pool, config: Config, key: string, n: nat): Pool {
    p.(spawns := map[key := Spawn(config.firstPort + n, Starting)], reserved := {config.firstPort + n})
  }

  /** The worker is installed, its spawn task still in the map. */
  function Spawned(p: Pool, config: Config, key: string, n: nat, exited: bool): Pool {
    p.(workers := map[key := n], info := p.info[n := Worker(key, config.firstPort + n, exited, p.clock, 0, false)],
       spawns := map[key := Spawn(config.firstPort + n, Installed(n))], reserved := {config.firstPort + n})
  }

  function SpawnSteps(key: string, n: nat): seq<Step> { [] + [DoGet(key, None, key)] + [DoInstall(key, n)] }

  lemma LeakedPorts(p: Pool, config: Config, n: nat)
    requires Leaked(p, config, n)
    ensures UsedPorts(p) == Ports(config, n)
  {}

  lemma LookupStarts(p: Pool, config: Config, key: string, n: nat)
    requires Leaked(p, config, n) && n < PORT_RANGE
    ensures StartSpawn(p, config, key, None).pool == Spawning(p, config, key, n)
  {
    LeakedPorts(p, config, n);
    NextIsFree(config, n, PORT_RANGE);
  }

  lemma LookupSpawns(p: Pool, config: Config, key: string, n: nat)
    requires config.maxWorkers == 1 && Leaked(p, config, n) && n < PORT_RANGE
    ensures Apply(p, config, DoGet(key, None, key)) == Spawning(p, config, key, n)
  {
    assert WithoutStale(p, key) == p && !AtCapacity(p, config);
    LookupStarts(p, config, key, n);
  }

  lemma InstallSpawns(p: Pool, config: Config, key: string, n: nat)
    requires Leaked(p, config, n)
    ensures Apply(Spawning(p, config, key, n), config, DoInstall(key, n)) == Spawned(p, config, key, n, false)
  {}

  lemma SpawnRun(p: Pool, config: Config, key: string, n: nat)
    requires config.maxWorkers == 1 && Leaked(p, config, n) && n < PORT_RANGE
    ensures Run(p, config, SpawnSteps(key, n)) == Spawned(p, config, key, n, false)
  {
    var spawning := Spawning(p, config, key, n);
    LookupSpawns(p, config, key, n);
    Follow(p, config, [], p, DoGet(key, None, key), spawning);
    InstallSpawns(p, config, key, n);
    Follow(p, config, [] + [DoGet(key, None, key)], spawning, DoInstall(key, n), Spawned(p, config, key, n, false));
  }

  // ---- one worker dropped ----

  function DeadSteps(key: string, n: nat): seq<Step> { SpawnSteps(key, n) + [DoExit(n)] }

  /** The worker dies before its spawn task has left the map, and a lookup drops it. */
  function LeakSteps(key: string, n: nat): seq<Step> {
    DeadSteps(key, n) + [DoGet(key, None, key)] + [DoFinishSpawn(key)]
  }

  function Leak(p: Pool, config: Config, key: string, n: nat): Pool {
    p.(info := p.info[n := Worker(key, config.firstPort + n, true, p.clock, 0, false)],
       retiring := p.retiring + {config.firstPort + n}, stopping := p.stopping[n := Nobody])
  }

  lemma WorkerDies(p: Pool, config: Config, key: string, n: nat)
    ensures Apply(Spawned(p, config, key, n, false), config, DoExit(n)) == Spawned(p, config, key, n, true)
  {}

  lemma DeadRun(p: Pool, config: Config, key: string, n: nat)
    requires config.maxWorkers == 1 && Leaked(p, config, n) && n < PORT_RANGE
    ensures Run(p, config, DeadSteps(key, n)) == Spawned(p, config, key, n, true)
  {
    SpawnRun(p, config, key, n);
    WorkerDies(p, config, key, n);
    Follow(p, config, SpawnSteps(key, n), Spawned(p, config, key, n, false), DoExit(n),
           Spawned(p, config, key, n, true));
  }

  function DeadAndDropped(p: Pool, config: Config, key: string, n: nat): Pool {
    Leak(p, config, key, n).(
      spawns := map[key := Spawn(config.firstPort + n, Installed(n))], reserved := {config.firstPort + n})
  }

  lemma DeadIsLeaked(p: Pool, config: Config, key: string, n: nat)
    requires Leaked(p, config, n)
    ensures Apply(Spawned(p, config, key, n, true), config, DoGet(key, None, key)) == DeadAndDropped(p, config, key, n)
  {
    var dead := Spawned(p, config, key, n, true);
    assert dead.workers - {key} == p.workers;
    assert WithoutStale(dead, key) == DeadAndDropped(p, config, key, n);
    assert !NeedsRoom(dead, config, key);
  }

  lemma SpawnLeaves(p: Pool, config: Config, key: string, n: nat)
    requires Leaked(p, config, n)
    ensures Apply(DeadAndDropped(p, config, key, n), config, DoFinishSpawn(key)) == Leak(p, config, key, n)
  {
    assert DeadAndDropped(p, config, key, n).spawns - {key} == p.spawns;
  }

  lemma LeakRun(p: Pool, config: Config, key: string, n: nat)
    requires config.maxWorkers == 1 && Leaked(p, config, n) && n < PORT_RANGE
    ensures Run(p, config, LeakSteps(key, n)) == Leak(p, config, key, n)
  {
    var dead, dropped := Spawned(p, config, key, n, true), DeadAndDropped(p, config, key, n);
    DeadRun(p, config, key, n);
    DeadIsLeaked(p, config, key, n);
    Follow(p, config, DeadSteps(key, n), dead, DoGet(key, None, key), dropped);
    SpawnLeaves(p, config, key, n);
    Follow(p, config, DeadSteps(key, n) + [DoGet(key, None, key)], dropped, DoFinishSpawn(key),
           Leak(p, config, key, n));
  }

  // ---- every port taken ----

  function LeakAll(key: string, n: nat): seq<Step> {
    if n == 0 then [] else LeakAll(key, n - 1) + LeakSteps(key, n - 1)
  }

  lemma {:induction false} RunJoined(p: Pool, config: Config, first: seq<Step>, rest: seq<Step>)
    ensures Run(p, config, first + rest) == Run(Run(p, config, first), config, rest)
    decreases |first|
  {
    if first == [] {
      assert first + rest == rest;
    } else {
      RunJoined(Apply(p, config, first[0]), config, first[1..], rest);
      assert (first + rest)[1..] == first[1..] + rest;
    }
  }

  lemma LeakTakesPort(p: Pool, config: Config, key: string, n: nat)
    requires Leaked(p, config, n)
    ensures Leaked(Leak(p, config, key, n), config, n + 1)
  {}

  lemma LeakOneMore(start: Pool, config: Config, steps: seq<Step>, key: string, n: nat)
    requires config.maxWorkers == 1 && Leaked(Run(start, config, steps), config, n) && n < PORT_RANGE
    ensures Leaked(Run(start, config, steps + LeakSteps(key, n)), config, n + 1)
  {
    var p := Run(start, config, steps);
    RunJoined(start, config, steps, LeakSteps(key, n));
    LeakRun(p, config, key, n);
    LeakTakesPort(p, config, key, n);
  }

  lemma {:induction false} PortsLeak(start: Pool, config: Config, key: string, n: nat)
    requires config.maxWorkers == 1 && Leaked(start, config, 0) && n <= PORT_RANGE
    ensures Leaked(Run(start, config, LeakAll(key, n)), config, n)
  {
    if n > 0 {
      PortsLeak(start, config, key, n - 1);
      LeakOneMore(start, config, LeakAll(key, n - 1), key, n - 1);
    }
  }

  /** All ports but the last leak; a worker settles on the last. */
  const LAST: nat := PORT_RANGE - 1

  function SettleSteps(key: string, n: nat): seq<Step> { SpawnSteps(key, n) + [DoFinishSpawn(key)] }

  function Settled(p: Pool, config: Config, key: string, n: nat): Pool {
    p.(workers := map[key := n], info := p.info[n := Worker(key, config.firstPort + n, false, p.clock, 0, false)])
  }

  lemma WorkerSettles(p: Pool, config: Config, key: string, n: nat)
    requires Leaked(p, config, n)
    ensures Apply(Spawned(p, config, key, n, false), config, DoFinishSpawn(key)) == Settled(p, config, key, n)
  {
    assert Spawned(p, config, key, n, false).spawns - {key} == p.spawns;
  }

  lemma SettleRun(p: Pool, config: Config, key: string, n: nat)
    requires config.maxWorkers == 1 && Leaked(p, config, n) && n < PORT_RANGE
    ensures Run(p, config, SettleSteps(key, n)) == Settled(p, config, key, n)
  {
    SpawnRun(p, config, key, n);
    WorkerSettles(p, config, key, n);
    Follow(p, config, SpawnSteps(key, n), Spawned(p, config, key, n, false), DoFinishSpawn(key),
           Settled(p, config, key, n));
  }

  function FullSteps(key: string): seq<Step> { LeakAll(key, LAST) + SettleSteps(key, LAST) }

  lemma FullRun(config: Config, key: string) returns (p: Pool)
    requires config.maxWorkers == 1
    ensures Leaked(p, config, LAST) && Run(EMPTY, config, FullSteps(key)) == Settled(p, config, key, LAST)
  {
    PortsLeak(EMPTY, config, key, LAST);
    p := Run(EMPTY, config, LeakAll(key, LAST));
    RunJoined(EMPTY, config, LeakAll(key, LAST), SettleSteps(key, LAST));
    SettleRun(p, config, key, LAST);
  }

  // ---- the displaced worker ----

  lemma OtherNeedsRoom(p: Pool, config: Config, key: string, other: string, n: nat)
    requires config.maxWorkers == 1 && key != other && Leaked(p, config, n)
    ensures var q := Settled(p, config, key, n);
      KeysOk(q) && WithoutStale(q, other) == q && NeedsRoom(q, config, other) && Idle(q, key) && LeastRecent(q, key)
  {
    var q := Settled(p, config, key, n);
    assert WithoutStale(q, other) == q && |q.workers| == 1;
  }

  lemma NoPortIsLeft(p: Pool, config: Config, key: string, n: nat)
    requires Leaked(p, config, n)
    ensures UsedPorts(Pop(Settled(p, config, key, n), key, Nobody)) == Ports(config, n + 1)
  {
    var q := Pop(Settled(p, config, key, n), key, Nobody);
    assert q.workers == map[];
    assert UsedPorts(q) == q.retiring;
  }

  /** A lookup that finds no port once it has displaced a worker leaves it at that. */
  lemma NothingStarts(p: Pool, config: Config, key: string, victim: string)
    requires KeysOk(p) && WithoutStale(p, key) == p && NeedsRoom(p, config, key) && LeastRecent(p, victim)
    requires FirstFree(config.firstPort, PORT_RANGE, UsedPorts(Pop(p, victim, Nobody))).None?
    ensures Get(p, config, key, None, victim).pool == Pop(p, victim, Nobody)
  {
    assert Get(p, config, key, None, victim)
      == StartSpawn(Pop(p, victim, Nobody), config, key, Some(p.workers[victim]));
  }

  lemma SettledIsDropped(p: Pool, config: Config, key: string, other: string, n: nat)
    requires config.maxWorkers == 1 && key != other && Leaked(p, config, n) && n + 1 == PORT_RANGE
    ensures var q := Apply(Settled(p, config, key, n), config, DoGet(other, None, key));
      && key !in q.workers && n in q.info && !q.info[n].exited
      && n in q.stopping && q.stopping[n] == Nobody && q.info[n].port in q.retiring
  {
    var settled := Settled(p, config, key, n);
    OtherNeedsRoom(p, config, key, other, n);
    NoPortIsLeft(p, config, key, n);
    NextIsFree(config, n + 1, PORT_RANGE);
    NothingStarts(settled, config, other, key);
    assert Apply(settled, config, DoGet(other, None, key)) == Pop(settled, key, Nobody);
  }

  /**
   With room for one: once every other port has leaked, a lookup of another key displaces the one
   live worker, finds no port for the spawn that would stop it, and drops it, still running.
   */
  lemma LiveWorkerIsDropped(config: Config, key: string, other: string)
    requires config.maxWorkers == 1 && key != other
    ensures var p := Run(EMPTY, config, FullSteps(key));
      key in p.workers && p.workers[key] == LAST && LAST in p.info && !p.info[LAST].exited
    ensures var p := Run(EMPTY, config, FullSteps(key) + [DoGet(other, None, key)]);
      && key !in p.workers && LAST in p.info && !p.info[LAST].exited
      && LAST in p.stopping && p.stopping[LAST] == Nobody && p.info[LAST].port in p.retiring
  {
    var p := FullRun(config, key);
    RunThen(EMPTY, config, FullSteps(key), DoGet(other, None, key));
    SettledIsDropped(p, config, key, other, LAST);
  }
}
