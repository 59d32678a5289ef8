/** Runs of the job protocol: a claim that nothing disturbs, and heartbeats that come too late. */
module RoomJobsRevival {
  import opened Tables
  import opened RoomJobs
  import opened RoomJobsLeases

  lemma {:induction false} RunConcat(s: State, config: Config, first: seq<Step>, rest: seq<Step>)
    ensures Run(s, config, first + rest) == Run(Run(s, config, first), config, rest)
    decreases |first|
  {
    if first == [] {
      assert first + rest == rest;
    } else {
      RunConcat(Apply(s, config, first[0]), config, first[1..], rest);
      assert (first + rest)[1..] == first[1..] + rest;
    }
  }

  lemma RunOne(s: State, config: Config, step: Step)
    ensures Run(s, config, [step]) == Apply(s, config, step)
  {
    assert [step][1..] == [];
  }

  // ---- a claim that nothing disturbs ----

  /** A claim up to its uncommitted write. */
  function WriteSteps(c: int, worker: string, id: string): seq<Step> {
    [DoPick(c, worker, id)] + ([DoLock(c)] + ([DoCount(c)] + [DoWrite(c)]))
  }

  function ClaimSteps(c: int, worker: string, id: string): seq<Step> { WriteSteps(c, worker, id) + [DoCommit(c)] }

  /** No claim is under way. */
  predicate Calm(s: State) { s.claims == map[] && s.locks == map[] }

  function PickedClaim(s: State, worker: string, id: string, phase: Phase): Claim
    requires id in s.jobs
  {
    Claim(phase, worker, s.clock, id, s.jobs[id].room, s.jobs[id].status)
  }

  function InClaim(s: State, c: int, worker: string, id: string, phase: Phase): State
    requires id in s.jobs
  {
    s.(claims := map[c := PickedClaim(s, worker, id, phase)],
       locks := if phase == Picked then map[] else map[s.jobs[id].room := c])
  }

  lemma ClaimAdvances(s: State, config: Config, c: int, worker: string, id: string)
    requires Calm(s) && Claimable(s, config, id)
    ensures Apply(s, config, DoPick(c, worker, id)) == InClaim(s, c, worker, id, Picked)
    ensures Apply(InClaim(s, c, worker, id, Picked), config, DoLock(c)) == InClaim(s, c, worker, id, Locked)
    ensures Apply(InClaim(s, c, worker, id, Locked), config, DoCount(c)) == InClaim(s, c, worker, id, Counted)
    ensures Apply(InClaim(s, c, worker, id, Counted), config, DoWrite(c)) == InClaim(s, c, worker, id, Written)
  {}

  lemma UndisturbedWrite(s: State, config: Config, c: int, worker: string, id: string)
    requires Calm(s) && Claimable(s, config, id)
    ensures Run(s, config, WriteSteps(c, worker, id)) == InClaim(s, c, worker, id, Written)
  {
    ClaimAdvances(s, config, c, worker, id);
    RunConcat(s, config, [DoPick(c, worker, id)], [DoLock(c)] + ([DoCount(c)] + [DoWrite(c)]));
    RunOne(s, config, DoPick(c, worker, id));
    var s1 := InClaim(s, c, worker, id, Picked);
    RunConcat(s1, config, [DoLock(c)], [DoCount(c)] + [DoWrite(c)]);
    RunOne(s1, config, DoLock(c));
    var s2 := InClaim(s, c, worker, id, Locked);
    RunConcat(s2, config, [DoCount(c)], [DoWrite(c)]);
    RunOne(s2, config, DoCount(c));
    RunOne(InClaim(s, c, worker, id, Counted), config, DoWrite(c));
  }

  lemma ClaimCommits(s: State, config: Config, c: int, worker: string, id: string)
    requires Calm(s) && id in s.jobs
    ensures Apply(InClaim(s, c, worker, id, Written), config, DoCommit(c)) ==
      s.(jobs := s.jobs[id := ClaimedJob(s.jobs[id], PickedClaim(s, worker, id, Written), config.leaseSeconds)])
  {
    var t := InClaim(s, c, worker, id, Written);
    assert t.claims - {c} == map[] && t.locks - {s.jobs[id].room} == map[];
  }

  /** Undisturbed, the five steps of a claim take any claimable job, and leave no lock behind. */
  lemma UndisturbedClaimSucceeds(s: State, config: Config, c: int, worker: string, id: string)
    requires Calm(s) && Claimable(s, config, id)
    ensures Run(s, config, ClaimSteps(c, worker, id)) ==
      s.(jobs := s.jobs[id := ClaimedJob(s.jobs[id], PickedClaim(s, worker, id, Written), config.leaseSeconds)])
  {
    RunConcat(s, config, WriteSteps(c, worker, id), [DoCommit(c)]);
    UndisturbedWrite(s, config, c, worker, id);
    RunOne(InClaim(s, c, worker, id, Written), config, DoCommit(c));
    ClaimCommits(s, config, c, worker, id);
  }

  // ---- two jobs, and the lease of the first run out ----

  function QueuedJob(room: string): Job { Job(room, Queued, 0, 1, 0, 0, None, None, false, false, None) }

  function Leased(room: string, worker: string, until: int): Job {
    Job(room, Running, 1, 1, 0, 0, Some(worker), Some(until), false, false, None)
  }

  function TwoJobs(clock: int, a: Job, b: Job): State {
    State(clock, map["a" := a, "b" := b], map[], map[], map[])
  }

  function QueueTwo(room: string): seq<Step> { [DoEnqueue("a", room, 1)] + [DoEnqueue("b", room, 1)] }

  /** Two jobs are queued, the first is claimed, and a wait outlasts its lease. */
  function LapsingSteps(config: Config, room: string): seq<Step> {
    QueueTwo(room) + (ClaimSteps(1, "w1", "a") + [Tick(config.leaseSeconds + 1)])
  }

  /** The room after the wait, the first job's lease running until the time given. */
  function Waited(config: Config, room: string, until: int): State {
    TwoJobs(config.leaseSeconds + 1, Leased(room, "w1", until), QueuedJob(room))
  }

  lemma QueueRun(config: Config, room: string)
    ensures Run(EMPTY, config, QueueTwo(room)) == TwoJobs(0, QueuedJob(room), QueuedJob(room))
  {
    RunConcat(EMPTY, config, [DoEnqueue("a", room, 1)], [DoEnqueue("b", room, 1)]);
    RunOne(EMPTY, config, DoEnqueue("a", room, 1));
    RunOne(Apply(EMPTY, config, DoEnqueue("a", room, 1)), config, DoEnqueue("b", room, 1));
  }

  lemma FirstClaim(config: Config, room: string)
    requires config.perRoom == 1
    ensures Run(TwoJobs(0, QueuedJob(room), QueuedJob(room)), config, ClaimSteps(1, "w1", "a"))
      == TwoJobs(0, Leased(room, "w1", config.leaseSeconds), QueuedJob(room))
  {
    var s := TwoJobs(0, QueuedJob(room), QueuedJob(room));
    assert LiveIn(s.jobs, room, 0) == {};
    UndisturbedClaimSucceeds(s, config, 1, "w1", "a");
  }

  lemma LapsingRun(config: Config, room: string)
    requires config.perRoom == 1
    ensures Run(EMPTY, config, LapsingSteps(config, room)) == Waited(config, room, config.leaseSeconds)
  {
    var claim, wait := ClaimSteps(1, "w1", "a"), [Tick(config.leaseSeconds + 1)];
    RunConcat(EMPTY, config, QueueTwo(room), claim + wait);
    QueueRun(config, room);
    RunConcat(TwoJobs(0, QueuedJob(room), QueuedJob(room)), config, claim, wait);
    FirstClaim(config, room);
    RunOne(TwoJobs(0, Leased(room, "w1", config.leaseSeconds), QueuedJob(room)), config, Tick(config.leaseSeconds + 1));
  }

  lemma SecondIsClaimable(config: Config, room: string)
    requires config.perRoom == 1
    ensures Calm(Waited(config, room, config.leaseSeconds))
    ensures Claimable(Waited(config, room, config.leaseSeconds), config, "b")
    ensures var s := Waited(config, room, config.leaseSeconds); LiveIn(s.jobs, room, s.clock) == {}
  {
    var s := Waited(config, room, config.leaseSeconds);
    assert LiveIn(s.jobs, room, s.clock) == {};
  }

  // ---- a late heartbeat after the other claim ----

  /** The other job takes the room's only slot. */
  function LateSteps(config: Config, room: string): seq<Step> {
    LapsingSteps(config, room) + ClaimSteps(2, "w2", "b")
  }

  function TakenOver(config: Config, room: string): State {
    var now := config.leaseSeconds + 1;
    TwoJobs(now, Leased(room, "w1", config.leaseSeconds), Leased(room, "w2", now + config.leaseSeconds))
  }

  lemma SecondClaim(config: Config, room: string)
    requires config.perRoom == 1
    ensures Run(Waited(config, room, config.leaseSeconds), config, ClaimSteps(2, "w2", "b")) == TakenOver(config, room)
  {
    SecondIsClaimable(config, room);
    UndisturbedClaimSucceeds(Waited(config, room, config.leaseSeconds), config, 2, "w2", "b");
  }

  /**
   For every lease length: a run from the empty queue in which a room with one slot has one live
   lease, until the heartbeat of the job whose lease ran out gives it a second.
   */
  lemma LateHeartbeatBreaksBound(config: Config, room: string)
    requires config.perRoom == 1
    ensures var s := Run(EMPTY, config, LateSteps(config, room));
      && LiveIn(s.jobs, room, s.clock) == {"b"} && !Timely(s, config, DoHeartbeat("w1", "a"))
      && LiveIn(Apply(s, config, DoHeartbeat("w1", "a")).jobs, room, s.clock) == {"a", "b"}
  {
    RunConcat(EMPTY, config, LapsingSteps(config, room), ClaimSteps(2, "w2", "b"));
    LapsingRun(config, room);
    SecondClaim(config, room);
    var s := TakenOver(config, room);
    assert LiveIn(s.jobs, room, s.clock) == {"b"};
    HeartbeatLeases(s, config, "w1", "a", room);
  }

  // ---- a late heartbeat before the other claim commits ----

  /** The other job's claim has counted the free slot and written its row, but not committed. */
  function EarlySteps(config: Config, room: string): seq<Step> {
    LapsingSteps(config, room) + WriteSteps(2, "w2", "b")
  }

  function Uncommitted(config: Config, room: string, until: int): State {
    InClaim(Waited(config, room, until), 2, "w2", "b", Written)
  }

  lemma EarlyRun(config: Config, room: string)
    requires config.perRoom == 1
    ensures Run(EMPTY, config, EarlySteps(config, room)) == Uncommitted(config, room, config.leaseSeconds)
  {
    RunConcat(EMPTY, config, LapsingSteps(config, room), WriteSteps(2, "w2", "b"));
    LapsingRun(config, room);
    SecondIsClaimable(config, room);
    UndisturbedWrite(Waited(config, room, config.leaseSeconds), config, 2, "w2", "b");
  }

  lemma Renewed(config: Config, room: string)
    ensures Apply(Uncommitted(config, room, config.leaseSeconds), config, DoHeartbeat("w1", "a"))
      == Uncommitted(config, room, 2 * config.leaseSeconds + 1)
  {
    assert !RowLocked(Uncommitted(config, room, config.leaseSeconds), "a");
  }

  /**
   For every lease length: a run from the empty queue in which the heartbeat of a job whose lease ran
   out finds its room's only slot free, and the claim that had counted that slot then commits.
   */
  lemma LateHeartbeatBeforeCommit(config: Config, room: string)
    requires config.perRoom == 1
    ensures
      var s := Run(EMPTY, config, EarlySteps(config, room));
      var renewed := Apply(s, config, DoHeartbeat("w1", "a"));
      && LiveIn(s.jobs, room, s.clock) == {} && LiveIn(renewed.jobs, room, s.clock) == {"a"}
      && LiveIn(Apply(renewed, config, DoCommit(2)).jobs, room, s.clock) == {"a", "b"}
  {
    EarlyRun(config, room);
    Renewed(config, room);
    ClaimCommits(Waited(config, room, 2 * config.leaseSeconds + 1), config, 2, "w2", "b");
  }
}
