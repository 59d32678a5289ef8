/** The render cache object: its fields are changed in place, in sections under its lock. */
module RenderCacheService {
  import opened RenderCache
  import opened RenderCacheInvariant

  class CombatRenderCache {
    const bounds: Bounds
    var entries: seq<Item>
    var inflight: map<string, nat>
    var totalBytes: int
    // The event loop's clock and its running render tasks.
    var clock: int
    var tasks: map<nat, Render>

    ghost function View(): Cache
      reads this
    {
      Cache(clock, entries, totalBytes, inflight, tasks)
    }

    ghost predicate Valid()
      reads this
    {
      bounds.Valid() && Sound(View(), bounds)
    }

    constructor (bounds: Bounds)
      requires bounds.Valid()
      ensures Valid() && View() == EMPTY && this.bounds == bounds
    {
      this.bounds := bounds;
      entries, inflight, totalBytes, clock, tasks := [], map[], 0, 0, map[];
    }

    method Position(key: string) returns (i: nat)
      ensures i == IndexOf(entries, key)
    {
      i := 0;
      while i < |entries| && entries[i].key != key
        invariant i <= |entries|
        invariant IndexOf(entries, key) == i + IndexOf(entries[i..], key)
      {
        i := i + 1;
      }
    }

    /** The entry under a key leaves the cache, with its bytes. */
    method PopEntry(key: string)
      modifies this`entries, this`totalBytes
      ensures var i := IndexOf(old(entries), key);
        entries == Drop(old(entries), i) && totalBytes == old(totalBytes) - SizeAt(old(entries), i)
    {
      var i := Position(key);
      if i < |entries| {
        totalBytes := totalBytes - entries[i].size;
        entries := entries[..i] + entries[i + 1..];
      }
    }

    /** The locked section of a lookup. */
    method Get(key: string, id: nat) returns (answer: Answer)
      requires Valid() && id !in tasks
      modifies this
      ensures Valid() && LookupResult(View(), answer) == Lookup(old(View()), bounds, key, id)
    {
      StepIsSound(View(), bounds, DoLookup(key, id));
      var i := Position(key);
      if i < |entries| && clock - entries[i].at <= bounds.ttl {
        var cached := entries[i];
        entries := entries[..i] + entries[i + 1..] + [cached];
        return Hit(cached);
      }
      PopEntry(key);
      if key in inflight {
        return Joined(inflight[key]);
      }
      tasks := tasks[id := Render(key, Rendering, false)];
      inflight := inflight[key := id];
      return Started(id);
    }

    /** The locked section that keeps a render, and makes room for it. */
    method Keep(id: nat)
      requires Valid() && id in tasks && tasks[id].phase.Rendered? && !tasks[id].cancelled
      modifies this
      ensures Valid() && View() == Store(old(View()), bounds, id)
    {
      ghost var target := Apply(View(), bounds, DoStore(id));
      StepIsSound(View(), bounds, DoStore(id));
      var r := tasks[id];
      tasks := tasks[id := r.(phase := Ending)];
      if r.phase.size > bounds.maxBytes {
        assert View() == target;
        return;
      }
      Replace(Item(r.key, r.phase.size, r.phase.at));
      EvictOldest();
      assert View() == target;
    }

    /** An item takes the place of its key's entry, as the newest. */
    method Replace(item: Item)
      requires totalBytes == Bytes(entries)
      modifies this`entries, this`totalBytes
      ensures entries == Drop(old(entries), IndexOf(old(entries), item.key)) + [item]
      ensures totalBytes == Bytes(entries)
    {
      DropWeighs(entries, IndexOf(entries, item.key));
      PopEntry(item.key);
      AppendWeighs(entries, item);
      entries := entries + [item];
      totalBytes := totalBytes + item.size;
    }

    /** The eviction loop: it stops at one entry at the latest. */
    method EvictOldest()
      requires totalBytes == Bytes(entries)
      modifies this`entries, this`totalBytes
      ensures entries == Trim(old(entries), bounds) && totalBytes == Bytes(entries)
    {
      while (|entries| > bounds.maxEntries || totalBytes > bounds.maxBytes) && |entries| > 1
        invariant totalBytes == Bytes(entries)
        invariant Trim(entries, bounds) == Trim(old(entries), bounds)
        decreases |entries|
      {
        DropWeighs(entries, 0);
        assert Drop(entries, 0) == entries[1..];
        totalBytes := totalBytes - entries[0].size;
        entries := entries[1..];
      }
    }

    /** The locked section that ends every render. */
    method EndRender(id: nat)
      requires Valid() && id in tasks && (tasks[id].phase.Ending? || tasks[id].cancelled)
      modifies this
      ensures Valid() && View() == Withdraw(old(View()), id)
    {
      StepIsSound(View(), bounds, DoWithdraw(id));
      var key := tasks[id].key;
      if key in inflight && inflight[key] == id {
        inflight := inflight - {key};
      }
      tasks := tasks - {id};
    }

    /** Cancels the given renders, one after the other. */
    method CancelAll(flying: set<nat>)
      requires flying <= tasks.Keys
      modifies this`tasks
      ensures tasks == map id | id in old(tasks) ::
        if id in flying then old(tasks)[id].(cancelled := true) else old(tasks)[id]
    {
      ghost var before := tasks;
      var todo := flying;
      while exists id :: id in todo
        invariant todo <= flying && tasks.Keys == before.Keys
        invariant forall id | id in before && id in flying - todo :: tasks[id] == before[id].(cancelled := true)
        invariant forall id | id in before && id !in flying - todo :: tasks[id] == before[id]
        decreases todo
      {
        var id :| id in todo;
        tasks := tasks[id := tasks[id].(cancelled := true)];
        todo := todo - {id};
      }
    }

    /** Empties the cache and cancels every render in flight. */
    method CloseAll()
      requires Valid()
      modifies this
      ensures Valid() && View() == Close(old(View()))
    {
      StepIsSound(View(), bounds, DoClose);
      ghost var c := View();
      var flying := inflight.Values;
      assert forall id :: id in flying <==> exists k :: k in c.inflight && c.inflight[k] == id;
      inflight, entries, totalBytes := map[], [], 0;
      CancelAll(flying);
      assert tasks == Close(c).renders;
    }
  }
}
