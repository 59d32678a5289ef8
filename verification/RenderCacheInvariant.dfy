/** What every section of the render cache keeps: exact bytes, both bounds, time and single flight. */
module RenderCacheInvariant {
  import opened Tables
  import opened RenderCache

  ghost predicate DistinctKeys(entries: seq<Item>) {
    forall i, j | 0 <= i < j < |entries| :: entries[i].key != entries[j].key
  }

  ghost predicate Bounded(c: Cache, bounds: Bounds) {
    && c.total == Bytes(c.entries)
    && |c.entries| <= bounds.maxEntries && c.total <= bounds.maxBytes
    && DistinctKeys(c.entries)
  }

  ghost predicate NotAfter(entries: seq<Item>, clock: int) { forall i | 0 <= i < |entries| :: entries[i].at <= clock }

  /** Nothing in the cache was rendered in the future. */
  ghost predicate Timely(c: Cache) {
    && NotAfter(c.entries, c.clock)
    && (forall id | id in c.renders && c.renders[id].phase.Rendered? :: c.renders[id].phase.at <= c.clock)
  }

  /** The flight table holds exactly the renders that have not been cancelled. */
  ghost predicate SingleFlight(c: Cache) {
    && (forall key | key in c.inflight ::
          c.inflight[key] in c.renders && c.renders[c.inflight[key]].key == key
          && !c.renders[c.inflight[key]].cancelled)
    && (forall id | id in c.renders && !c.renders[id].cancelled ::
          c.renders[id].key in c.inflight && c.inflight[c.renders[id].key] == id)
  }

  ghost predicate Sound(c: Cache, bounds: Bounds) { Bounded(c, bounds) && Timely(c) && SingleFlight(c) }

  lemma DropWeighs(entries: seq<Item>, i: nat)
    requires i <= |entries|
    ensures Bytes(Drop(entries, i)) == Bytes(entries) - SizeAt(entries, i)
  {
    if i < |entries| {
      var size := (e: Item) => e.size;
      assert entries == entries[..i] + [entries[i]] + entries[i + 1..];
      SumConcat(entries[..i] + [entries[i]], entries[i + 1..], size);
      SumConcat(entries[..i], entries[i + 1..], size);
      SumAppend(entries[..i], entries[i], size);
    }
  }

  lemma AppendWeighs(entries: seq<Item>, item: Item)
    ensures Bytes(entries + [item]) == Bytes(entries) + item.size
  {}

  /** Once its key is dropped, an item can be appended. */
  lemma DropThenAppend(entries: seq<Item>, item: Item)
    requires DistinctKeys(entries)
    ensures DistinctKeys(Drop(entries, IndexOf(entries, item.key)) + [item])
  {}

  /**
   Trimming drops a shortest sufficient prefix.  As long as the newest entry fits on its own, both
   bounds hold afterwards, so keeping at least one entry never leaves an overflow, and the newest
   entry survives.
   */
  lemma {:induction false} TrimDropsShortestPrefix(entries: seq<Item>, bounds: Bounds) returns (n: nat)
    requires bounds.Valid() && entries != [] && entries[|entries| - 1].size <= bounds.maxBytes
    ensures n < |entries| && Trim(entries, bounds) == entries[n..]
    ensures !TooMuch(Trim(entries, bounds), bounds)
    ensures forall m | 0 <= m < n :: TooMuch(entries[m..], bounds)
    decreases |entries|
  {
    if |entries| == 1 {
      OneFits(entries, bounds);
      n := 0;
    } else if TooMuch(entries, bounds) {
      n := TrimDropsShortestPrefix(entries[1..], bounds);
      n := n + 1;
      assert entries[1..][n - 1..] == entries[n..];
      forall m | 0 <= m < n ensures TooMuch(entries[m..], bounds) {
        if m == 0 {
          assert entries[0..] == entries;
        } else {
          assert entries[m..] == entries[1..][m - 1..];
        }
      }
    } else {
      n := 0;
    }
  }

  lemma OneFits(entries: seq<Item>, bounds: Bounds)
    requires bounds.Valid() && |entries| == 1 && entries[0].size <= bounds.maxBytes
    ensures !TooMuch(entries, bounds)
  {
    assert entries == [] + [entries[0]];
    AppendWeighs([], entries[0]);
  }

  /** Moving an entry to the end changes neither the bytes nor the keys. */
  lemma MoveToEnd(entries: seq<Item>, key: string)
    requires DistinctKeys(entries) && IndexOf(entries, key) < |entries|
    ensures var i := IndexOf(entries, key);
      var moved := Drop(entries, i) + [entries[i]];
      |moved| == |entries| && Bytes(moved) == Bytes(entries) && DistinctKeys(moved)
  {
    var i := IndexOf(entries, key);
    DropWeighs(entries, i);
    AppendWeighs(Drop(entries, i), entries[i]);
    DropThenAppend(entries, entries[i]);
  }

  lemma DropKeepsKeys(entries: seq<Item>, i: nat)
    requires i <= |entries| && DistinctKeys(entries)
    ensures |Drop(entries, i)| <= |entries| && DistinctKeys(Drop(entries, i))
  {}

  lemma LookupKeepsBounds(c: Cache, bounds: Bounds, key: string, id: nat)
    requires Bounded(c, bounds)
    ensures Bounded(Lookup(c, bounds, key, id).cache, bounds)
  {
    if Fresh(c, bounds, key) {
      MoveToEnd(c.entries, key);
    } else {
      DropWeighs(c.entries, IndexOf(c.entries, key));
      DropKeepsKeys(c.entries, IndexOf(c.entries, key));
    }
  }

  lemma StoreKeepsBounds(c: Cache, bounds: Bounds, id: nat)
    requires bounds.Valid() && Bounded(c, bounds)
    ensures Bounded(Store(c, bounds, id), bounds)
  {
    if Store(c, bounds, id).entries != c.entries {
      var r := c.renders[id];
      var item := Item(r.key, r.phase.size, r.phase.at);
      var entries := Drop(c.entries, IndexOf(c.entries, r.key)) + [item];
      DropThenAppend(c.entries, item);
      var n := TrimDropsShortestPrefix(entries, bounds);
    }
  }

  lemma DropKeepsTime(entries: seq<Item>, i: nat, clock: int)
    requires i <= |entries| && NotAfter(entries, clock)
    ensures NotAfter(Drop(entries, i), clock)
  {}

  lemma {:induction false} TrimKeepsTime(entries: seq<Item>, bounds: Bounds, clock: int)
    requires NotAfter(entries, clock)
    ensures NotAfter(Trim(entries, bounds), clock)
    decreases |entries|
  {
    if TooMuch(entries, bounds) && |entries| > 1 {
      TrimKeepsTime(entries[1..], bounds, clock);
    }
  }

  lemma StoreKeepsTimely(c: Cache, bounds: Bounds, id: nat)
    requires Timely(c)
    ensures Timely(Store(c, bounds, id))
  {
    if Store(c, bounds, id).entries != c.entries {
      var r := c.renders[id];
      var rest := Drop(c.entries, IndexOf(c.entries, r.key));
      DropKeepsTime(c.entries, IndexOf(c.entries, r.key), c.clock);
      TrimKeepsTime(rest + [Item(r.key, r.phase.size, r.phase.at)], bounds, c.clock);
    }
  }

  lemma LookupKeepsTimely(c: Cache, bounds: Bounds, key: string, id: nat)
    requires Timely(c)
    ensures Timely(Lookup(c, bounds, key, id).cache)
  {}

  lemma StepKeepsTimely(c: Cache, bounds: Bounds, step: Step)
    requires Timely(c)
    ensures Timely(Apply(c, bounds, step))
  {
    match step
    case DoStore(id) => StoreKeepsTimely(c, bounds, id);
    case DoLookup(key, id) => LookupKeepsTimely(c, bounds, key, id);
    case _ =>
  }

  lemma StepKeepsSingleFlight(c: Cache, bounds: Bounds, step: Step)
    requires SingleFlight(c)
    ensures SingleFlight(Apply(c, bounds, step))
  {
    match step
    case DoLookup(key, id) => if id !in c.renders { LookupKeepsSingleFlight(c, bounds, key, id); }
    case DoStore(id) => StoreKeepsSingleFlight(c, bounds, id);
    case DoWithdraw(id) => WithdrawKeepsSingleFlight(c, id);
    case DoClose => CloseCancelsAll(c);
    case _ =>
  }

  lemma LookupKeepsSingleFlight(c: Cache, bounds: Bounds, key: string, id: nat)
    requires SingleFlight(c) && id !in c.renders
    ensures SingleFlight(Lookup(c, bounds, key, id).cache)
  {}

  lemma StoreKeepsSingleFlight(c: Cache, bounds: Bounds, id: nat)
    requires SingleFlight(c)
    ensures SingleFlight(Store(c, bounds, id))
  {}

  lemma WithdrawKeepsSingleFlight(c: Cache, id: nat)
    requires SingleFlight(c)
    ensures SingleFlight(Withdraw(c, id))
  {}

  lemma CloseCancelsAll(c: Cache)
    requires SingleFlight(c)
    ensures SingleFlight(Close(c)) && forall id | id in Close(c).renders :: Close(c).renders[id].cancelled
  {}

  /** Every section keeps the byte count exact, both bounds, the order of time and single flight. */
  lemma StepIsSound(c: Cache, bounds: Bounds, step: Step)
    requires bounds.Valid() && Sound(c, bounds)
    ensures Sound(Apply(c, bounds, step), bounds)
  {
    StepKeepsTimely(c, bounds, step);
    StepKeepsSingleFlight(c, bounds, step);
    match step
    case DoLookup(key, id) => LookupKeepsBounds(c, bounds, key, id);
    case DoStore(id) => StoreKeepsBounds(c, bounds, id);
    case _ =>
  }

  lemma {:induction false} RunIsSound(c: Cache, bounds: Bounds, steps: seq<Step>)
    requires bounds.Valid() && Sound(c, bounds)
    ensures Sound(Run(c, bounds, steps), bounds)
    decreases |steps|
  {
    if steps != [] {
      StepIsSound(c, bounds, steps[0]);
      RunIsSound(Apply(c, bounds, steps[0]), bounds, steps[1..]);
    }
  }
}
