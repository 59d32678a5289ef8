/** Cached panels: one per campaign and audience, valid for one revision and one authorization epoch. */
module PanelProjections {
  import opened Tables
  import opened Epochs

  const SCHEMA_VERSION: int := 1

  datatype Panel = Panel(revision: int, epoch: int, schema: int, payload: string, updatedAt: int)

  /** A panel's audience is one principal of the campaign, so panels and memberships share their keys. */
  datatype World = World(db: Db, panels: map<Key, Panel>, clock: int)

  predicate Young(w: World, panel: Panel, maxAge: Option<nat>) {
    maxAge.None? || panel.updatedAt >= w.clock - maxAge.value
  }

  function Load(w: World, key: Key, revision: int, epoch: int, maxAge: Option<nat>): Option<string> {
    if key in w.panels && w.panels[key].revision == revision && w.panels[key].epoch == epoch
      && w.panels[key].schema == SCHEMA_VERSION && Young(w, w.panels[key], maxAge)
    then Some(w.panels[key].payload) else None
  }

  predicate Same(p: Panel, revision: int, epoch: int, payload: string) {
    p.revision == revision && p.epoch == epoch && p.schema == SCHEMA_VERSION && p.payload == payload
  }

  /** A row that is overwritten with the values it has is not written, so it keeps its age. */
  function Put(w: World, key: Key, revision: int, epoch: int, payload: string): World {
    if key in w.panels && Same(w.panels[key], revision, epoch, payload) then w
    else w.(panels := w.panels[key := Panel(revision, epoch, SCHEMA_VERSION, payload, w.clock)])
  }

  predicate Covers(key: Key, campaign: string, audience: Option<string>) {
    key.campaign == campaign && (audience.Some? ==> key.user == audience.value)
  }

  function Invalidate(w: World, campaign: string, audience: Option<string>): World {
    w.(panels := map k | k in w.panels && !Covers(k, campaign, audience) :: w.panels[k])
  }

  // ---- runs ----

  datatype Step =
    | Tick(seconds: nat)
    | DoFlush(candidates: seq<Candidate>)
    | DoPut(key: Key, revision: int, epoch: int, payload: string)
    | DoInvalidate(campaign: string, audience: Option<string>)

  ghost function Apply(w: World, step: Step): World {
    match step
    case Tick(seconds) => w.(clock := w.clock + seconds)
    case DoFlush(cs) => if Flushable(w.db, cs) then w.(db := Flush(w.db, cs)) else w
    case DoPut(key, revision, epoch, payload) => Put(w, key, revision, epoch, payload)
    case DoInvalidate(campaign, audience) => Invalidate(w, campaign, audience)
  }

  ghost function Run(w: World, steps: seq<Step>): World
    decreases |steps|
  {
    if steps == [] then w else Apply(Run(w, steps[..|steps| - 1]), steps[|steps| - 1])
  }

  /** The last panel put under a key, unless it has been invalidated since. */
  function LastPut(steps: seq<Step>, key: Key): Option<Step>
    ensures LastPut(steps, key).Some? ==> LastPut(steps, key).value.DoPut? && LastPut(steps, key).value.key == key
    decreases |steps|
  {
    if steps == [] then None
    else
      var last := steps[|steps| - 1];
      if last.DoPut? && last.key == key then Some(last)
      else if last.DoInvalidate? && Covers(key, last.campaign, last.audience) then None
      else LastPut(steps[..|steps| - 1], key)
  }

  /** The table holds what was put last. */
  lemma {:induction false} PanelIsLastPut(w: World, steps: seq<Step>, key: Key)
    requires w.panels == map[]
    ensures var panels := Run(w, steps).panels;
      && (key in panels <==> LastPut(steps, key).Some?)
      && (key in panels ==> Same(panels[key], LastPut(steps, key).value.revision, LastPut(steps, key).value.epoch,
                                 LastPut(steps, key).value.payload))
    decreases |steps|
  {
    if steps != [] {
      PanelIsLastPut(w, steps[..|steps| - 1], key);
    }
  }

  ghost predicate Positive(db: Db) { forall k | k in db.members :: db.members[k].epoch >= 1 }

  lemma StepKeepsEpochs(w: World, step: Step)
    requires Positive(w.db)
    ensures Positive(Apply(w, step).db)
    ensures forall key | key in w.db.members ::
      key in Apply(w, step).db.members && Apply(w, step).db.members[key].epoch >= w.db.members[key].epoch
  {
    if step.DoFlush? && Flushable(w.db, step.candidates) {
      forall key | key in w.db.members
        ensures key in Apply(w, step).db.members
        ensures Apply(w, step).db.members[key].epoch >= w.db.members[key].epoch
      {
        EpochRisesOnce(w.db, step.candidates, key);
      }
      forall key | key in Apply(w, step).db.members ensures Apply(w, step).db.members[key].epoch >= 1 {
        EpochsStayPositive(w.db, step.candidates, key);
      }
    }
  }

  /** Over a run, epochs stay positive, and no member's epoch ever falls. */
  lemma {:induction false} EpochsNeverFall(w: World, steps: seq<Step>, more: seq<Step>)
    requires Positive(w.db)
    ensures Positive(Run(w, steps).db)
    ensures forall key | key in Run(w, steps).db.members ::
      key in Run(w, steps + more).db.members
      && Run(w, steps + more).db.members[key].epoch >= Run(w, steps).db.members[key].epoch
    decreases |steps| + |more|
  {
    if more == [] {
      assert steps + more == steps;
      if steps != [] {
        EpochsNeverFall(w, steps[..|steps| - 1], []);
        StepKeepsEpochs(Run(w, steps[..|steps| - 1]), steps[|steps| - 1]);
      }
    } else {
      var n := |more| - 1;
      EpochsNeverFall(w, steps, more[..n]);
      assert (steps + more)[..|steps + more| - 1] == steps + more[..n];
      EpochsNeverFall(w, steps + more[..n], []);
      StepKeepsEpochs(Run(w, steps + more[..n]), more[n]);
    }
  }

  /**
   Once a flush has changed what a member may see, no panel put under an epoch that was in force
   before is ever loaded for the member again, whatever is flushed, put or invalidated later: a
   panel that loads was put under a later epoch, with the payload and revision asked for.
   */
  lemma StalePanelIsNeverLoaded(
    w: World, before: seq<Step>, cs: seq<Candidate>, after: seq<Step>, key: Key, revision: int, maxAge: Option<nat>)
    requires w.panels == map[] && Positive(w.db)
    requires key in Run(w, before).db.members && Flushable(Run(w, before).db, cs)
    requires Noticed(Run(w, before).db, cs, key)
    requires key in Flush(Run(w, before).db, cs).members
    requires AccessOf(Flush(Run(w, before).db, cs), key) != AccessOf(Run(w, before).db, key)
    ensures
      var steps := before + [DoFlush(cs)] + after;
      var end := Run(w, steps);
      && key in end.db.members
      && var loaded := Load(end, key, revision, end.db.members[key].epoch, maxAge);
         loaded.Some? ==> LastPut(steps, key).Some?
                          && LastPut(steps, key).value.epoch > Run(w, before).db.members[key].epoch
                          && LastPut(steps, key).value.revision == revision
                          && LastPut(steps, key).value.payload == loaded.value
  {
    var flushed := before + [DoFlush(cs)];
    EpochsNeverFall(w, before, []);
    assert flushed[..|flushed| - 1] == before;
    EpochFollowsAccess(Run(w, before).db, cs, key);
    EpochsNeverFall(w, flushed, after);
    PanelIsLastPut(w, flushed + after, key);
  }

  /**
   A panel put under the epoch in force stops loading with a flush that changes the member's access,
   exactly when the flush notices the change: the epochs protect no more than that.
   */
  lemma FlushRetiresPanelExactly(w: World, cs: seq<Candidate>, key: Key, revision: int, payload: string)
    requires key in w.db.members && w.db.members[key].epoch >= 1 && Flushable(w.db, cs)
    requires key in Flush(w.db, cs).members && AccessOf(Flush(w.db, cs), key) != AccessOf(w.db, key)
    ensures
      var put := Put(w, key, revision, w.db.members[key].epoch, payload);
      var end := Apply(put, DoFlush(cs));
      Load(end, key, revision, end.db.members[key].epoch, None) ==
        if Noticed(w.db, cs, key) then None else Some(payload)
  {
    EpochFollowsAccess(w.db, cs, key);
    EpochRisesOnce(w.db, cs, key);
  }

  /**
   In every run, with no limit of age, what loads is exactly what was put last for that revision
   and epoch and not invalidated since.
   */
  lemma LoadIsLastPut(w: World, steps: seq<Step>, key: Key, revision: int, epoch: int)
    requires w.panels == map[]
    ensures Load(Run(w, steps), key, revision, epoch, None) ==
      match LastPut(steps, key)
      case None => None
      case Some(put) => if put.revision == revision && put.epoch == epoch then Some(put.payload) else None
  {
    PanelIsLastPut(w, steps, key);
  }

  /** A row that repeats what it holds is not written; it is too old if it was written too long ago. */
  predicate TooOld(panel: Panel, now: int, maxAge: Option<nat>) {
    maxAge.Some? && panel.updatedAt + maxAge.value < now
  }

  /** With a limit of age a panel just put still loads, unless it repeats a row that is already too old. */
  lemma LoadAfterPut(w: World, key: Key, revision: int, epoch: int, payload: string, maxAge: Option<nat>)
    ensures Load(Put(w, key, revision, epoch, payload), key, revision, epoch, maxAge) ==
      if key in w.panels && Same(w.panels[key], revision, epoch, payload) && TooOld(w.panels[key], w.clock, maxAge)
      then None else Some(payload)
  {}

  /** A panel put anew loads, under the revision and epoch it was put for, as long as the limit of age. */
  lemma LoadWhileYoung(
      w: World, key: Key, revision: int, epoch: int, payload: string, seconds: nat, maxAge: nat, asked: int, at: int)
    requires key !in w.panels || !Same(w.panels[key], revision, epoch, payload)
    ensures Load(Put(w, key, revision, epoch, payload).(clock := w.clock + seconds), key, asked, at, Some(maxAge)) ==
      if asked == revision && at == epoch && seconds <= maxAge then Some(payload) else None
  {}

  /** Invalidation removes the panels of one campaign, or of one member of it, and leaves the others. */
  lemma InvalidationOutcome(w: World, campaign: string, audience: Option<string>, key: Key)
    ensures var next := Invalidate(w, campaign, audience);
      && next == w.(panels := next.panels)
      && (key in next.panels <==>
            key in w.panels && !(key.campaign == campaign && (audience == None || audience == Some(key.user))))
      && (key in next.panels ==> next.panels[key] == w.panels[key])
  {}
}
