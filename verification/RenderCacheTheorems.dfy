/** What holds of the render cache in every run. */
module RenderCacheTheorems {
  import opened RenderCache
  import opened RenderCacheInvariant

  /** In every run from an empty cache the byte count is exact and both bounds hold. */
  lemma CacheStaysBounded(bounds: Bounds, steps: seq<Step>)
    requires bounds.Valid()
    ensures var c := Run(EMPTY, bounds, steps);
      c.total == Bytes(c.entries) <= bounds.maxBytes && |c.entries| <= bounds.maxEntries
  {
    RunIsSound(EMPTY, bounds, steps);
  }

  /** No two renders that have not been cancelled are ever in flight for the same key. */
  lemma OneRenderPerKey(bounds: Bounds, steps: seq<Step>, a: nat, b: nat)
    requires bounds.Valid()
    requires var c := Run(EMPTY, bounds, steps);
      a in c.renders && b in c.renders && c.renders[a].key == c.renders[b].key
    ensures var c := Run(EMPTY, bounds, steps);
      !c.renders[a].cancelled && !c.renders[b].cancelled ==> a == b
  {
    RunIsSound(EMPTY, bounds, steps);
  }

  /** A lookup during a run answers with an entry of the cache that is never older than the TTL. */
  lemma HitsAreFresh(bounds: Bounds, steps: seq<Step>, key: string, id: nat)
    requires bounds.Valid()
    ensures
      var c := Run(EMPTY, bounds, steps);
      var (d, answer) := (Lookup(c, bounds, key, id).cache, Lookup(c, bounds, key, id).answer);
      && (answer.Hit? ==> answer.item in c.entries && answer.item.key == key
                          && 0 <= c.clock - answer.item.at <= bounds.ttl
                          && d.entries[|d.entries| - 1] == answer.item)
      && (!answer.Hit? ==> forall e | e in d.entries :: e.key != key)
      && (answer.Started? ==> key !in c.inflight)
  {
    RunIsSound(EMPTY, bounds, steps);
    var c := Run(EMPTY, bounds, steps);
    var i := IndexOf(c.entries, key);
    assert forall j | 0 <= j < |Drop(c.entries, i)| :: Drop(c.entries, i)[j] == c.entries[if j < i then j else j + 1];
  }

  /** A stored render becomes the most recent entry and survives its own trimming; what fits stays. */
  lemma StoredRenderSurvives(c: Cache, bounds: Bounds, id: nat)
    requires bounds.Valid() && Bounded(c, bounds)
    requires id in c.renders && c.renders[id].phase.Rendered? && !c.renders[id].cancelled
    ensures
      var r := c.renders[id];
      var item := Item(r.key, r.phase.size, r.phase.at);
      var kept := Store(c, bounds, id).entries;
      if r.phase.size > bounds.maxBytes then kept == c.entries
      else kept != [] && kept[|kept| - 1] == item && IndexOf(kept, r.key) == |kept| - 1
  {
    var r := c.renders[id];
    if r.phase.size <= bounds.maxBytes {
      var item := Item(r.key, r.phase.size, r.phase.at);
      DropThenAppend(c.entries, item);
      var n := TrimDropsShortestPrefix(Drop(c.entries, IndexOf(c.entries, r.key)) + [item], bounds);
    }
  }
}
