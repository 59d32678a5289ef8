/** What lookups of the render cache answer, and what becomes of a render. */
module RenderCacheAnswers {
  import opened RenderCache
  import opened RenderCacheInvariant

  /** The entries of other keys, in their order. */
  function OtherKeys(entries: seq<Item>, key: string): seq<Item> {
    if entries == [] then []
    else if entries[0].key == key then OtherKeys(entries[1..], key)
    else [entries[0]] + OtherKeys(entries[1..], key)
  }

  lemma {:induction false} NoneOfKey(entries: seq<Item>, key: string)
    requires forall e | e in entries :: e.key != key
    ensures OtherKeys(entries, key) == entries
  {
    if entries != [] {
      assert entries[0] in entries;
      NoneOfKey(entries[1..], key);
    }
  }

  lemma {:induction false} DropLeavesOthers(entries: seq<Item>, key: string)
    requires DistinctKeys(entries)
    ensures Drop(entries, IndexOf(entries, key)) == OtherKeys(entries, key)
    ensures forall e | e in OtherKeys(entries, key) :: e.key != key
  {
    if entries != [] {
      if entries[0].key == key {
        forall e | e in entries[1..] ensures e.key != key {
          var k :| 0 <= k < |entries| - 1 && entries[1..][k] == e;
          assert entries[k + 1] == e;
        }
        NoneOfKey(entries[1..], key);
      } else {
        DropLeavesOthers(entries[1..], key);
        DropBehind(entries, IndexOf(entries[1..], key));
      }
    }
  }

  lemma DropBehind(entries: seq<Item>, i: nat)
    requires entries != [] && i <= |entries| - 1
    ensures Drop(entries, i + 1) == [entries[0]] + Drop(entries[1..], i)
  {}

  lemma {:induction false} OthersThen(entries: seq<Item>, item: Item)
    ensures OtherKeys(entries + [item], item.key) == OtherKeys(entries, item.key)
    decreases |entries|
  {
    if entries == [] {
      assert [] + [item] == [item];
    } else {
      assert (entries + [item])[1..] == entries[1..] + [item];
      OthersThen(entries[1..], item);
    }
  }

  /** An entry of the key that is not older than it may be. */
  predicate Serves(c: Cache, bounds: Bounds, key: string, item: Item) {
    item in c.entries && item.key == key && c.clock <= item.at + bounds.ttl
  }

  lemma ServedIsFresh(c: Cache, bounds: Bounds, key: string)
    requires DistinctKeys(c.entries)
    ensures Fresh(c, bounds, key) <==> exists item :: Serves(c, bounds, key, item)
    ensures Fresh(c, bounds, key) ==> Serves(c, bounds, key, c.entries[IndexOf(c.entries, key)])
    ensures forall item | Serves(c, bounds, key, item) ::
      IndexOf(c.entries, key) < |c.entries| && item == c.entries[IndexOf(c.entries, key)]
  {
    forall item | Serves(c, bounds, key, item)
      ensures IndexOf(c.entries, key) < |c.entries| && item == c.entries[IndexOf(c.entries, key)]
    {
      var k :| 0 <= k < |c.entries| && c.entries[k] == item;
      assert IndexOf(c.entries, key) <= k;
    }
    if Fresh(c, bounds, key) { assert Serves(c, bounds, key, c.entries[IndexOf(c.entries, key)]); }
  }

  /**
   A lookup is answered with the key's entry exactly if it is fresh enough, and that becomes the last one;
   else the key's entry goes, and the caller joins the render in flight, or starts one if there is none.
   The entries of other keys stay, in their order.
   */
  lemma LookupAnswersExactly(c: Cache, bounds: Bounds, key: string, id: nat)
    requires Bounded(c, bounds)
    ensures
      var answer, next := Lookup(c, bounds, key, id).answer, Lookup(c, bounds, key, id).cache;
      && OtherKeys(next.entries, key) == OtherKeys(c.entries, key)
      && (answer.Hit? <==> exists item :: Serves(c, bounds, key, item))
      && (answer.Hit? ==>
            && Serves(c, bounds, key, answer.item)
            && next == c.(entries := OtherKeys(c.entries, key) + [answer.item]))
      && (!answer.Hit? ==>
            && next.entries == OtherKeys(c.entries, key) && next.clock == c.clock
            && answer == (if key in c.inflight then Joined(c.inflight[key]) else Started(id))
            && (key in c.inflight ==> next.inflight == c.inflight && next.renders == c.renders)
            && (key !in c.inflight ==>
                  next.inflight == c.inflight[key := id]
                  && next.renders == c.renders[id := Render(key, Rendering, false)]))
  {
    ServedIsFresh(c, bounds, key);
    DropLeavesOthers(c.entries, key);
    NoneOfKey(OtherKeys(c.entries, key), key);
    if Fresh(c, bounds, key) { OthersThen(OtherKeys(c.entries, key), c.entries[IndexOf(c.entries, key)]); }
  }

  /**
   A finished render that was not cancelled is stored behind the entries of other keys, as many of which
   make way as must, oldest in use first; one too large on its own, or cancelled, leaves the entries alone.
   */
  lemma StoredExactly(c: Cache, bounds: Bounds, id: nat) returns (n: nat)
    requires bounds.Valid() && Bounded(c, bounds) && id in c.renders && c.renders[id].phase.Rendered?
    ensures
      var r, next := c.renders[id], Store(c, bounds, id);
      var all := OtherKeys(c.entries, r.key) + [Item(r.key, r.phase.size, r.phase.at)];
      if r.cancelled then next == c
      else
        && next.renders == c.renders[id := r.(phase := Ending)] && next.inflight == c.inflight
        && (r.phase.size > bounds.maxBytes ==> next.entries == c.entries && next.total == c.total)
        && (r.phase.size <= bounds.maxBytes ==>
              && n < |all| && next.entries == all[n..]
              && forall m | 0 <= m < n :: |all[m..]| > bounds.maxEntries || Bytes(all[m..]) > bounds.maxBytes)
  {
    var r := c.renders[id];
    n := 0;
    if !r.cancelled && r.phase.size <= bounds.maxBytes {
      DropLeavesOthers(c.entries, r.key);
      var item := Item(r.key, r.phase.size, r.phase.at);
      DropThenAppend(c.entries, item);
      n := TrimDropsShortestPrefix(Drop(c.entries, IndexOf(c.entries, r.key)) + [item], bounds);
    }
  }

  /**
   A render that finishes, and is stored after some wait, is served for as long as its age since it
   finished is within bounds, and not after.
   */
  lemma ServedFromFinish(c: Cache, bounds: Bounds, id: nat, size: nat, wait: nat, later: nat, next: nat)
    requires bounds.Valid() && Bounded(c, bounds) && id in c.renders && size <= bounds.maxBytes
    requires c.renders[id].phase.Rendering? && !c.renders[id].cancelled
    ensures
      var finished := FinishRendering(c, id, size);
      var stored := Store(finished.(clock := c.clock + wait), bounds, id);
      var answer := Lookup(stored.(clock := c.clock + wait + later), bounds, c.renders[id].key, next).answer;
      answer.Hit? <==> wait + later <= bounds.ttl
  {
    var finished := FinishRendering(c, id, size).(clock := c.clock + wait);
    var n := StoredExactly(finished, bounds, id);
    StoreKeepsBounds(finished, bounds, id);
    var stored, key := Store(finished, bounds, id).(clock := c.clock + wait + later), c.renders[id].key;
    var item := Item(key, size, c.clock);
    assert stored.entries[|stored.entries| - 1] == item;
    LookupAnswersExactly(stored, bounds, key, next);
    ServedIsFresh(stored, bounds, key);
    assert item in stored.entries;
    forall other | other in stored.entries && other.key == key ensures other == item {
      var k :| 0 <= k < |stored.entries| && stored.entries[k] == other;
    }
  }

  /** A render that has ended, or was cancelled, leaves the flight table if it is there, and no other does. */
  lemma WithdrawalOutcome(c: Cache, id: nat)
    requires SingleFlight(c) && id in c.renders
    ensures
      var r, next := c.renders[id], Withdraw(c, id);
      if r.phase.Ending? || r.cancelled then
        && next == c.(inflight := next.inflight, renders := c.renders - {id})
        && next.inflight == if r.cancelled then c.inflight else c.inflight - {r.key}
      else next == c
  {}

  /** A render that fails stores nothing and comes to its end. */
  lemma FailureOutcome(c: Cache, bounds: Bounds, id: nat)
    requires id in c.renders && c.renders[id].phase.Rendering?
    ensures FailRendering(c, id)
      == c.(renders := c.renders[id := Render(c.renders[id].key, Ending, c.renders[id].cancelled)])
    ensures Store(FailRendering(c, id), bounds, id) == FailRendering(c, id)
  {}

  /** Closing leaves nothing stored or in flight, and whatever was in flight can store nothing any more. */
  lemma ClosingOutcome(c: Cache, bounds: Bounds, id: nat)
    requires SingleFlight(c)
    ensures Close(c).entries == [] && Close(c).total == 0 && Close(c).inflight == map[]
    ensures id in c.renders ==> id in Close(c).renders && Close(c).renders[id] == c.renders[id].(cancelled := true)
    ensures Store(Close(c), bounds, id) == Close(c)
  {
    if id in c.renders && !c.renders[id].cancelled { assert c.inflight[c.renders[id].key] == id; }
  }
}
