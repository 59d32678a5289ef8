/**
 The combat render cache: bounded in entries and bytes, least recently used first, with one render
 in flight per key.  Each step is a section under the cache's lock, or a change outside it.
 */
module RenderCache {
  import opened Tables

  datatype Item = Item(key: string, size: nat, at: int)

  datatype Phase = Rendering | Rendered(size: nat, at: int) | Ending

  datatype Render = Render(key: string, phase: Phase, cancelled: bool)

  /** `entries` runs from the least to the most recently used. */
  datatype Cache = Cache(
    clock: int, entries: seq<Item>, total: int, inflight: map<string, nat>, renders: map<nat, Render>)

  datatype Bounds = Bounds(maxEntries: nat, maxBytes: nat, ttl: nat)
  {
    predicate Valid() { maxEntries >= 1 && maxBytes >= 1 && ttl >= 1 }
  }

  function Bytes(entries: seq<Item>): int { SumBy(entries, (i: Item) => i.size) }

  function IndexOf(entries: seq<Item>, key: string): (i: nat)
    ensures i <= |entries|
    ensures i < |entries| ==> entries[i].key == key
    ensures forall j | 0 <= j < i :: entries[j].key != key
  {
    if entries == [] || entries[0].key == key then 0 else 1 + IndexOf(entries[1..], key)
  }

  function Drop(entries: seq<Item>, i: nat): seq<Item>
    requires i <= |entries|
  {
    if i == |entries| then entries else entries[..i] + entries[i + 1..]
  }

  function SizeAt(entries: seq<Item>, i: nat): nat
    requires i <= |entries|
  {
    if i == |entries| then 0 else entries[i].size
  }

  // ---- looking up ----

  datatype Answer = Hit(item: Item) | Started(render: nat) | Joined(render: nat)

  datatype LookupResult = LookupResult(cache: Cache, answer: Answer)

  predicate Fresh(c: Cache, bounds: Bounds, key: string) {
    var i := IndexOf(c.entries, key);
    i < |c.entries| && c.clock - c.entries[i].at <= bounds.ttl
  }

  /** A fresh entry is returned and moves to the end; otherwise a render is joined or started. */
  function Lookup(c: Cache, bounds: Bounds, key: string, id: nat): LookupResult {
    var i := IndexOf(c.entries, key);
    if Fresh(c, bounds, key) then
      LookupResult(c.(entries := Drop(c.entries, i) + [c.entries[i]]), Hit(c.entries[i]))
    else
      var d := c.(entries := Drop(c.entries, i), total := c.total - SizeAt(c.entries, i));
      if key in c.inflight then LookupResult(d, Joined(c.inflight[key]))
      else LookupResult(d.(inflight := c.inflight[key := id],
                           renders := c.renders[id := Render(key, Rendering, false)]), Started(id))
  }

  // ---- storing ----

  predicate TooMuch(entries: seq<Item>, bounds: Bounds) {
    |entries| > bounds.maxEntries || Bytes(entries) > bounds.maxBytes
  }

  /** Least recently used entries go while a bound is exceeded and more than one entry is left. */
  function Trim(entries: seq<Item>, bounds: Bounds): seq<Item>
    decreases |entries|
  {
    if TooMuch(entries, bounds) && |entries| > 1 then Trim(entries[1..], bounds) else entries
  }

  /** A finished render is stored, unless it is too large to keep at all. */
  function Store(c: Cache, bounds: Bounds, id: nat): Cache {
    if id in c.renders && c.renders[id].phase.Rendered? && !c.renders[id].cancelled then
      var r := c.renders[id];
      var ended := c.(renders := c.renders[id := r.(phase := Ending)]);
      if r.phase.size > bounds.maxBytes then ended
      else
        var kept := Trim(Drop(c.entries, IndexOf(c.entries, r.key)) + [Item(r.key, r.phase.size, r.phase.at)], bounds);
        ended.(entries := kept, total := Bytes(kept))
    else c
  }

  // ---- the life of a render ----

  function FinishRendering(c: Cache, id: nat, size: nat): Cache {
    if id in c.renders && c.renders[id].phase.Rendering? && !c.renders[id].cancelled
    then c.(renders := c.renders[id := c.renders[id].(phase := Rendered(size, c.clock))])
    else c
  }

  function FailRendering(c: Cache, id: nat): Cache {
    if id in c.renders && c.renders[id].phase.Rendering?
    then c.(renders := c.renders[id := c.renders[id].(phase := Ending)])
    else c
  }

  /** The last section of a render: it withdraws itself, and only itself, from the flight table. */
  function Withdraw(c: Cache, id: nat): Cache {
    if id in c.renders && (c.renders[id].phase.Ending? || c.renders[id].cancelled) then
      var key := c.renders[id].key;
      c.(inflight := if key in c.inflight && c.inflight[key] == id then c.inflight - {key} else c.inflight,
         renders := c.renders - {id})
    else c
  }

  /** Closing empties the cache and cancels every render in the flight table. */
  function Close(c: Cache): Cache {
    c.(entries := [], total := 0, inflight := map[],
       renders := map id | id in c.renders ::
         if exists k | k in c.inflight :: c.inflight[k] == id then c.renders[id].(cancelled := true)
         else c.renders[id])
  }

  // ---- runs ----

  datatype Step =
    | Tick(seconds: nat)
    | DoLookup(key: string, id: nat)
    | DoFinishRendering(id: nat, size: nat)
    | DoFailRendering(id: nat)
    | DoStore(id: nat)
    | DoWithdraw(id: nat)
    | DoClose

  /** A render that a lookup starts is a new one. */
  function Apply(c: Cache, bounds: Bounds, step: Step): Cache {
    match step
    case Tick(seconds) => c.(clock := c.clock + seconds)
    case DoLookup(key, id) => if id in c.renders then c else Lookup(c, bounds, key, id).cache
    case DoFinishRendering(id, size) => FinishRendering(c, id, size)
    case DoFailRendering(id) => FailRendering(c, id)
    case DoStore(id) => Store(c, bounds, id)
    case DoWithdraw(id) => Withdraw(c, id)
    case DoClose => Close(c)
  }

  function Run(c: Cache, bounds: Bounds, steps: seq<Step>): Cache
    decreases |steps|
  {
    if steps == [] then c else Run(Apply(c, bounds, steps[0]), bounds, steps[1..])
  }

  const EMPTY: Cache := Cache(0, [], 0, map[], map[])
}
