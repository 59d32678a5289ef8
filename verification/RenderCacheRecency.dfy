/** The order of the entries: by last hit or store, in every run. */
module RenderCacheRecency {
  import opened RenderCache
  import opened RenderCacheInvariant

  /** The entry that a step uses or stores. */
  function Touches(c: Cache, bounds: Bounds, step: Step): seq<string> {
    match step
    case DoLookup(key, id) => if id !in c.renders && Fresh(c, bounds, key) then [key] else []
    case DoStore(id) =>
      if id in c.renders && c.renders[id].phase.Rendered? && !c.renders[id].cancelled
        && c.renders[id].phase.size <= bounds.maxBytes
      then [c.renders[id].key] else []
    case _ => []
  }

  function Log(c: Cache, bounds: Bounds, steps: seq<Step>): seq<string>
    decreases |steps|
  {
    if steps == [] then []
    else Touches(c, bounds, steps[0]) + Log(Apply(c, bounds, steps[0]), bounds, steps[1..])
  }

  /** When a key was last touched; 0 if never. */
  function LastTouch(log: seq<string>, key: string): (t: nat)
    ensures t <= |log|
    decreases |log|
  {
    if log == [] then 0
    else if log[|log| - 1] == key then |log|
    else LastTouch(log[..|log| - 1], key)
  }

  ghost predicate InOrder(entries: seq<Item>, log: seq<string>) {
    && (forall i | 0 <= i < |entries| :: LastTouch(log, entries[i].key) > 0)
    && (forall i, j | 0 <= i < j < |entries| :: LastTouch(log, entries[i].key) < LastTouch(log, entries[j].key))
  }

  lemma TouchLast(log: seq<string>, key: string, other: string)
    ensures LastTouch(log + [key], other) == if other == key then |log| + 1 else LastTouch(log, other)
  {}

  lemma DropKeepsOrder(entries: seq<Item>, i: nat, log: seq<string>)
    requires i <= |entries| && InOrder(entries, log)
    ensures InOrder(Drop(entries, i), log)
  {}

  lemma MoveToEndKeepsOrder(entries: seq<Item>, item: Item, log: seq<string>)
    requires InOrder(entries, log) && DistinctKeys(entries)
    ensures InOrder(Drop(entries, IndexOf(entries, item.key)) + [item], log + [item.key])
  {
    var i := IndexOf(entries, item.key);
    var rest := Drop(entries, i);
    DropKeepsOrder(entries, i, log);
    DropThenAppend(entries, item);
    forall k | 0 <= k < |rest|
      ensures LastTouch(log + [item.key], rest[k].key) == LastTouch(log, rest[k].key)
    {
      assert (rest + [item])[k] == rest[k] && (rest + [item])[|rest|] == item;
      TouchLast(log, item.key, rest[k].key);
    }
    TouchLast(log, item.key, item.key);
  }

  lemma SuffixKeepsOrder(entries: seq<Item>, n: nat, log: seq<string>)
    requires n <= |entries| && InOrder(entries, log)
    ensures InOrder(entries[n..], log)
  {
    assert forall j | 0 <= j < |entries[n..]| :: entries[n..][j] == entries[n + j];
  }

  lemma TrimmedInOrder(entries: seq<Item>, item: Item, bounds: Bounds, log: seq<string>)
    requires bounds.Valid() && item.size <= bounds.maxBytes
    requires InOrder(entries, log) && DistinctKeys(entries)
    ensures InOrder(Trim(Drop(entries, IndexOf(entries, item.key)) + [item], bounds), log + [item.key])
  {
    var replaced := Drop(entries, IndexOf(entries, item.key)) + [item];
    MoveToEndKeepsOrder(entries, item, log);
    var n := TrimDropsShortestPrefix(replaced, bounds);
    SuffixKeepsOrder(replaced, n, log + [item.key]);
  }

  lemma StoreKeepsOrder(c: Cache, bounds: Bounds, id: nat, log: seq<string>)
    requires bounds.Valid() && Bounded(c, bounds) && InOrder(c.entries, log)
    ensures InOrder(Store(c, bounds, id).entries, log + Touches(c, bounds, DoStore(id)))
  {
    if Touches(c, bounds, DoStore(id)) == [] {
      assert log + [] == log;
    } else {
      var r := c.renders[id];
      TrimmedInOrder(c.entries, Item(r.key, r.phase.size, r.phase.at), bounds, log);
    }
  }

  lemma StepKeepsOrder(c: Cache, bounds: Bounds, step: Step, log: seq<string>)
    requires bounds.Valid() && Bounded(c, bounds) && InOrder(c.entries, log)
    ensures InOrder(Apply(c, bounds, step).entries, log + Touches(c, bounds, step))
  {
    if step.DoLookup? && step.id !in c.renders {
      var i := IndexOf(c.entries, step.key);
      if Fresh(c, bounds, step.key) {
        MoveToEndKeepsOrder(c.entries, c.entries[i], log);
      } else {
        DropKeepsOrder(c.entries, i, log);
        assert log + [] == log;
      }
    } else if step.DoStore? {
      StoreKeepsOrder(c, bounds, step.id, log);
    } else {
      assert log + [] == log;
    }
  }

  lemma {:induction false} RunKeepsOrder(c: Cache, bounds: Bounds, steps: seq<Step>, log: seq<string>)
    requires bounds.Valid() && Sound(c, bounds) && InOrder(c.entries, log)
    ensures InOrder(Run(c, bounds, steps).entries, log + Log(c, bounds, steps))
    decreases |steps|
  {
    if steps == [] {
      assert log + [] == log;
    } else {
      var d, touched := Apply(c, bounds, steps[0]), Touches(c, bounds, steps[0]);
      StepIsSound(c, bounds, steps[0]);
      StepKeepsOrder(c, bounds, steps[0], log);
      RunKeepsOrder(d, bounds, steps[1..], log + touched);
      assert log + touched + Log(d, bounds, steps[1..]) == log + Log(c, bounds, steps);
    }
  }

  /** In every run the entries stand in the order of their last hit or store. */
  lemma EntriesStandInOrderOfUse(bounds: Bounds, steps: seq<Step>)
    requires bounds.Valid()
    ensures InOrder(Run(EMPTY, bounds, steps).entries, Log(EMPTY, bounds, steps))
  {
    RunKeepsOrder(EMPTY, bounds, steps, []);
    assert [] + Log(EMPTY, bounds, steps) == Log(EMPTY, bounds, steps);
  }
}
