/** The per-room bound without timely heartbeats: exactly when it holds, step by step and over whole runs. */
module RoomJobsBound {
  import opened RoomJobs
  import opened RoomJobsLeases
  import opened RoomJobsOutcomes

  /** A claim remembers the room of a job that exists. */
  ghost predicate RoomsAgree(s: State) {
    forall c | c in s.claims :: s.claims[c].job in s.jobs && s.jobs[s.claims[c].job].room == s.claims[c].room
  }

  lemma ClaimKeepsJob(s: State, config: Config, step: Step, c: int)
    requires RoomsAgree(s) && c in Apply(s, config, step).claims
    ensures var claim := Apply(s, config, step).claims[c];
      claim.job in s.jobs && s.jobs[claim.job].room == claim.room
  {}

  lemma StepKeepsRooms(s: State, config: Config, step: Step)
    requires Orderly(s) && RoomsAgree(s)
    ensures RoomsAgree(Apply(s, config, step))
  {
    var next := Apply(s, config, step);
    forall c | c in next.claims
      ensures next.claims[c].job in next.jobs && next.jobs[next.claims[c].job].room == next.claims[c].room
    {
      ClaimKeepsJob(s, config, step, c);
      StepProgresses(s, config, step, next.claims[c].job);
    }
  }

  // ---- one step ----

  predicate HasSlot(s: State, config: Config, room: string) { |LiveIn(s.jobs, room, s.clock)| < config.perRoom }

  /** What a step must meet to keep every room within its limit: only heartbeats and commits can fail to. */
  predicate KeepsBound(s: State, config: Config, step: Step) {
    match step
    case DoHeartbeat(_, id) =>
      Extends(s, config, step) && !InTime(s, id) ==> HasSlot(s, config, s.jobs[id].room)
    case DoCommit(c) =>
      c in s.claims && s.claims[c].phase == Written ==>
        HasSlot(s, config, s.claims[c].room) || s.claims[c].now + config.leaseSeconds < s.clock
    case _ => true
  }

  /** Exactly when a heartbeat that extends a lease keeps the bound: it is in time, or its room has a slot. */
  lemma HeartbeatKeepsBoundExactly(s: State, config: Config, worker: string, id: string)
    requires Bounded(s, config) && Heartbeat(s, config, worker, id) != s && JobOk(s.jobs[id])
    ensures Bounded(Heartbeat(s, config, worker, id), config)
      <==> InTime(s, id) || HasSlot(s, config, s.jobs[id].room)
  {
    var next := Heartbeat(s, config, worker, id);
    RoomAfterHeartbeat(s, config, worker, id);
    forall room | room != s.jobs[id].room ensures |LiveIn(next.jobs, room, next.clock)| <= config.perRoom {
      HeartbeatLeases(s, config, worker, id, room);
      assert LiveIn(next.jobs, room, next.clock) == LiveIn(s.jobs, room, s.clock);
    }
  }

  /** A commit adds its own lease to its room, unless that lease is over already. */
  lemma CommitLeases(s: State, config: Config, c: int, room: string)
    requires Orderly(s) && RoomsAgree(s) && c in s.claims && s.claims[c].phase == Written
    ensures var next, claim := Commit(s, config, c), s.claims[c];
      && claim.job !in LiveIn(s.jobs, room, s.clock)
      && LiveIn(next.jobs, room, next.clock) == LiveIn(s.jobs, room, s.clock)
           + if room == claim.room && claim.now + config.leaseSeconds >= s.clock then {claim.job} else {}
  {
    assert ClaimOrderly(s, c);
  }

  /** Exactly when a commit keeps the bound: its room has a slot, or its lease is over already. */
  lemma CommitKeepsBoundExactly(s: State, config: Config, c: int)
    requires Orderly(s) && RoomsAgree(s) && Bounded(s, config) && c in s.claims && s.claims[c].phase == Written
    ensures Bounded(Commit(s, config, c), config)
      <==> HasSlot(s, config, s.claims[c].room) || s.claims[c].now + config.leaseSeconds < s.clock
  {
    var next, claim := Commit(s, config, c), s.claims[c];
    CommitLeases(s, config, c, claim.room);
    forall room | room != claim.room ensures |LiveIn(next.jobs, room, next.clock)| <= config.perRoom {
      CommitLeases(s, config, c, room);
    }
  }

  /** Every other step leaves no room with more live leases. */
  lemma OtherStepsAddNoLease(s: State, config: Config, step: Step)
    requires !step.DoHeartbeat? && !step.DoCommit?
    ensures NoNewLeases(s, Apply(s, config, step))
  {}

  /** Exactly when a step keeps every room within its limit. */
  lemma StepKeepsBoundExactly(s: State, config: Config, step: Step)
    requires Orderly(s) && RoomsAgree(s) && Bounded(s, config)
    ensures Bounded(Apply(s, config, step), config) <==> KeepsBound(s, config, step)
  {
    var next := Apply(s, config, step);
    if step.DoHeartbeat? {
      if next != s {
        assert JobOk(s.jobs[step.id]);
        HeartbeatKeepsBoundExactly(s, config, step.worker, step.id);
      }
    } else if step.DoCommit? {
      if step.c in s.claims && s.claims[step.c].phase == Written {
        CommitKeepsBoundExactly(s, config, step.c);
      } else {
        assert next == s;
      }
    } else {
      OtherStepsAddNoLease(s, config, step);
      forall room ensures |LiveIn(next.jobs, room, next.clock)| <= config.perRoom { FewerLeases(s, next, room); }
    }
  }

  // ---- runs ----

  ghost predicate BoundedThroughout(s: State, config: Config, steps: seq<Step>)
    decreases |steps|
  {
    Bounded(s, config) && (steps == [] || BoundedThroughout(Apply(s, config, steps[0]), config, steps[1..]))
  }

  predicate KeepsBoundThroughout(s: State, config: Config, steps: seq<Step>)
    decreases |steps|
  {
    steps == []
    || (KeepsBound(s, config, steps[0]) && KeepsBoundThroughout(Apply(s, config, steps[0]), config, steps[1..]))
  }

  lemma {:induction false} BoundHoldsExactly(s: State, config: Config, steps: seq<Step>)
    requires Orderly(s) && RoomsAgree(s) && Bounded(s, config)
    ensures BoundedThroughout(s, config, steps) <==> KeepsBoundThroughout(s, config, steps)
    decreases |steps|
  {
    if steps != [] {
      StepKeepsBoundExactly(s, config, steps[0]);
      StepIsOrderly(s, config, steps[0]);
      StepKeepsRooms(s, config, steps[0]);
      if KeepsBound(s, config, steps[0]) {
        BoundHoldsExactly(Apply(s, config, steps[0]), config, steps[1..]);
      }
    }
  }

  /**
   All along a run from an empty queue no room has more live leases than its limit, if and only if
   each heartbeat that extends a lease is in time or finds a slot, and each claim that commits finds
   a slot or comes when its own lease is over.
   */
  lemma RoomsKeepTheirLimitExactly(config: Config, steps: seq<Step>)
    ensures BoundedThroughout(EMPTY, config, steps) <==> KeepsBoundThroughout(EMPTY, config, steps)
  {
    assert forall room :: LiveIn(EMPTY.jobs, room, EMPTY.clock) == {};
    BoundHoldsExactly(EMPTY, config, steps);
  }

  /** With timely heartbeats alone, every claim that commits finds its slot. */
  lemma {:induction false} TimelyRunsKeepTheBound(s: State, config: Config, steps: seq<Step>)
    requires Safe(s, config) && config.Valid() && TimelyThroughout(s, config, steps)
    ensures BoundedThroughout(s, config, steps)
    decreases |steps|
  {
    if steps != [] {
      StepIsSafe(s, config, steps[0]);
      TimelyRunsKeepTheBound(Apply(s, config, steps[0]), config, steps[1..]);
    }
  }
}
