/** What becomes of each workspace when the store is pruned, and when a workspace is prepared. */
module WorkspaceFates {
  import opened Tables
  import opened TreeWalk
  import opened WorkspaceStore
  import opened WorkspacePruning

  function Find(store: seq<Entry>, id: string): Option<Content> {
    if store == [] then None
    else if store[0].id == id then Some(store[0].content)
    else Find(store[1..], id)
  }

  function AfterAttempt(c: Option<Content>): Option<Content> {
    match c
    case None => None
    case Some(content) => Attempt(content)
  }

  lemma {:induction false} FindIsStored(store: seq<Entry>, id: string)
    ensures Find(store, id).Some? ==> Entry(id, Find(store, id).value) in store
    ensures Find(store, id).None? ==> forall e | e in store :: e.id != id
  {
    if store != [] {
      FindIsStored(store[1..], id);
    }
  }

  lemma FindOnly(store: seq<Entry>, e: Entry)
    requires DistinctIds(store) && e in store
    ensures Find(store, e.id) == Some(e.content)
  {}

  // ---- one deletion at a time ----

  lemma {:induction false} DeleteAddsNothing(store: seq<Entry>, id: string, e: Entry)
    requires e in Delete(store, id)
    ensures exists prior :: prior in store && prior.id == e.id
  {
    if store[0].id == e.id {
      assert store[0] in store;
    } else {
      DeleteAddsNothing(store[1..], id, e);
      var o :| o in store[1..] && o.id == e.id;
      assert o in store;
    }
  }

  lemma {:induction false} DeleteKeepsDistinct(store: seq<Entry>, id: string)
    requires DistinctIds(store)
    ensures DistinctIds(Delete(store, id))
  {
    if store != [] {
      DeleteKeepsDistinct(store[1..], id);
      forall e | e in Delete(store[1..], id) ensures e.id != store[0].id {
        DeleteAddsNothing(store[1..], id, e);
      }
    }
  }

  /** A deletion concerns the named entry only. */
  lemma {:induction false} DeleteFate(store: seq<Entry>, id: string, other: string)
    requires DistinctIds(store)
    ensures Find(Delete(store, id), other)
      == if other == id then AfterAttempt(Find(store, id)) else Find(store, other)
  {
    if store != [] {
      DeleteFate(store[1..], id, other);
      if store[0].id == id == other {
        FindIsStored(store[1..], id);
        var rest := Delete(store[1..], id);
        assert Delete(store, id) == LeftOf(store[0]) + rest;
        assert Find(rest, id).None?;
        assert LeftOf(store[0]) == [] ==> Delete(store, id) == rest;
      } else if store[0].id == id {
        var rest := Delete(store[1..], id);
        assert LeftOf(store[0]) != [] ==> Delete(store, id)[1..] == rest;
        assert LeftOf(store[0]) == [] ==> Delete(store, id) == rest;
      } else {
        assert Delete(store, id)[1..] == Delete(store[1..], id);
      }
    }
  }

  ghost predicate NoRepeats(ids: seq<string>) { forall i, j | 0 <= i < j < |ids| :: ids[i] != ids[j] }

  lemma {:induction false} DeleteAllFate(store: seq<Entry>, ids: seq<string>, id: string)
    requires DistinctIds(store) && NoRepeats(ids)
    ensures DistinctIds(DeleteAll(store, ids))
    ensures Find(DeleteAll(store, ids), id)
      == if id in ids then AfterAttempt(Find(store, id)) else Find(store, id)
    decreases |ids|
  {
    if ids != [] {
      DeleteKeepsDistinct(store, ids[0]);
      DeleteFate(store, ids[0], id);
      DeleteAllFate(Delete(store, ids[0]), ids[1..], id);
    }
  }

  // ---- the sweep ----

  predicate Chosen(store: seq<Entry>, id: string, protected: set<string>, choice: Choice) {
    Find(store, id).Some? && Matches(Entry(id, Find(store, id).value), protected, choice)
  }

  lemma DistinctStaysDistinct(s: seq<Entry>, t: seq<Entry>)
    requires DistinctIds(s) && multiset(s) == multiset(t)
    ensures DistinctIds(t)
  {
    forall i, j | 0 <= i < j < |t| ensures t[i].id != t[j].id {
      if t[i].id == t[j].id {
        assert t[i] in multiset(s) && t[j] in multiset(s);
        assert t[i] == t[j];
        assert t == t[..i] + [t[i]] + t[i + 1..j] + [t[j]] + t[j + 1..];
        assert multiset(t)[t[i]] >= 2;
        TwiceMeansTwo(s, t[i]);
      }
    }
  }

  lemma {:induction false} TwiceMeansTwo(s: seq<Entry>, e: Entry)
    requires DistinctIds(s)
    ensures multiset(s)[e] <= 1
  {
    if s != [] {
      assert s == [s[0]] + s[1..];
      TwiceMeansTwo(s[1..], e);
      if e == s[0] {
        assert e !in s[1..];
        assert e !in multiset(s[1..]);
      }
    }
  }

  lemma DoomedHasNoRepeats(store: seq<Entry>, protected: set<string>, choice: Choice)
    requires DistinctIds(store)
    ensures NoRepeats(Doomed(store, protected, choice))
  {
    var picked := Pick(store, protected, choice);
    PickKeepsDistinct(store, protected, choice);
    SortKeepsEntries(picked);
    DistinctStaysDistinct(picked, SortByUse(picked));
  }

  lemma SortedIsPicked(store: seq<Entry>, protected: set<string>, choice: Choice, e: Entry)
    ensures e in SortByUse(Pick(store, protected, choice)) <==> e in store && Matches(e, protected, choice)
  {
    var picked := Pick(store, protected, choice);
    SortKeepsEntries(picked);
    PickedAreStored(store, protected, choice, e);
    assert e in SortByUse(picked) <==> e in multiset(SortByUse(picked));
  }

  lemma DoomedAreChosen(store: seq<Entry>, protected: set<string>, choice: Choice, id: string)
    requires DistinctIds(store)
    ensures id in Doomed(store, protected, choice) <==> Chosen(store, id, protected, choice)
  {
    var sorted := SortByUse(Pick(store, protected, choice));
    FindIsStored(store, id);
    if id in Ids(sorted) {
      var i :| 0 <= i < |sorted| && Ids(sorted)[i] == id;
      SortedIsPicked(store, protected, choice, sorted[i]);
      FindOnly(store, sorted[i]);
    }
    if Chosen(store, id, protected, choice) {
      SortedIsPicked(store, protected, choice, Entry(id, Find(store, id).value));
      var i :| 0 <= i < |sorted| && sorted[i] == Entry(id, Find(store, id).value);
      assert Ids(sorted)[i] == id;
    }
  }

  /** Deleting a list made from an earlier scan tries exactly the entries chosen then. */
  lemma DoomedFate(scanned: seq<Entry>, store: seq<Entry>, protected: set<string>, choice: Choice, id: string)
    requires DistinctIds(scanned) && DistinctIds(store)
    ensures var after := DeleteAll(store, Doomed(scanned, protected, choice));
      && DistinctIds(after)
      && Find(after, id) == if Chosen(scanned, id, protected, choice) then AfterAttempt(Find(store, id))
                            else Find(store, id)
  {
    DoomedHasNoRepeats(scanned, protected, choice);
    DoomedAreChosen(scanned, protected, choice, id);
    DeleteAllFate(store, Doomed(scanned, protected, choice), id);
  }

  /**
   A sweep tries to delete exactly the unprotected workspaces that are terminal, and those unused
   for the whole time to live; one that is both is tried again if the first attempt failed.
   */
  lemma SweptFate(store: seq<Entry>, protected: set<string>, limits: Limits, now: int, id: string)
    requires DistinctIds(store)
    ensures DistinctIds(Swept(store, protected, limits, now))
    ensures
      var unused := UnusedSince(now - limits.ttlSeconds);
      var before := Find(store, id);
      var once := if Chosen(store, id, protected, Ended) then AfterAttempt(before) else before;
      var twice := if Chosen(store, id, protected, unused) then AfterAttempt(once) else once;
      Find(Swept(store, protected, limits, now), id) == twice
  {
    DoomedFate(store, store, protected, Ended, id);
    DoomedFate(store, DeleteAll(store, Doomed(store, protected, Ended)), protected,
               UnusedSince(now - limits.ttlSeconds), id);
  }

  // ---- what pruning leaves alone ----

  /** Entries that no pruning touches: protected ones and those the service never registered. */
  predicate Untouchable(store: seq<Entry>, protected: set<string>, id: string) {
    id in protected || Find(store, id).None? || Find(store, id).value.record.None?
  }

  lemma {:induction false} EvictKeeps(
    store: seq<Entry>, protected: set<string>, slots: nat, limits: Limits, id: string)
    requires DistinctIds(store) && Untouchable(store, protected, id)
    ensures DistinctIds(Evict(store, protected, slots, limits).store)
    ensures Find(Evict(store, protected, slots, limits).store, id) == Find(store, id)
    decreases |store|
  {
    var c := Candidates(store, protected);
    if Over(store, slots, limits) && c != [] {
      CandidateIsStored(store, protected, 0);
      FindOnly(store, c[0]);
      DeleteFate(store, c[0].id, id);
      DeleteKeepsDistinct(store, c[0].id);
      if Removable(c[0]) {
        DeleteShrinks(store, c[0].id);
        EvictKeeps(Delete(store, c[0].id), protected, slots, limits, id);
      }
    }
  }

  /** Pruning never changes a protected workspace or an unregistered entry, even when it gives up. */
  lemma PruningSparesProtected(
    store: seq<Entry>, protected: set<string>, slots: nat, limits: Limits, now: int, id: string)
    requires DistinctIds(store) && Untouchable(store, protected, id)
    ensures DistinctIds(Prune(store, protected, slots, limits, now).store)
    ensures Find(Prune(store, protected, slots, limits, now).store, id) == Find(store, id)
  {
    SweptFate(store, protected, limits, now, id);
    EvictKeeps(Swept(store, protected, limits, now), protected, slots, limits, id);
  }

  lemma CandidatesAreListed(store: seq<Entry>, protected: set<string>, e: Entry)
    requires e in store && Matches(e, protected, Anything)
    ensures e.id in IdSet(Candidates(store, protected))
  {
    PickedAreStored(store, protected, Anything, e);
    SortKeepsEntries(Pick(store, protected, Anything));
    assert e in multiset(Candidates(store, protected));
  }

  /** When pruning returns, both caps hold, with the requested slots still free. */
  lemma PruningMeetsCaps(store: seq<Entry>, protected: set<string>, slots: nat, limits: Limits, now: int)
    requires DistinctIds(store)
    ensures var outcome := Prune(store, protected, slots, limits, now);
      outcome.Within? <==>
        |outcome.store| + slots <= limits.maxWorkspaces && Bytes(outcome.store) <= limits.maxBytes && !outcome.Stuck?
    ensures var outcome := Prune(store, protected, slots, limits, now);
      outcome.Full? ==> forall e | e in outcome.store :: !Matches(e, protected, Anything)
  {
    var swept := Swept(store, protected, limits, now);
    SweptFate(store, protected, limits, now, "");
    var n := EvictionTakesShortestPrefix(swept, protected, slots, limits);
    var outcome := Evict(swept, protected, slots, limits);
    if outcome.Full? {
      var c := Candidates(swept, protected);
      assert c[..n] == c;
      forall e | e in outcome.store ensures !Matches(e, protected, Anything) {
        WithoutMembers(swept, IdSet(c), e);
        if Matches(e, protected, Anything) {
          CandidatesAreListed(swept, protected, e);
        }
      }
    }
  }

  // ---- preparing a workspace ----

  datatype Prepared = Ready(store: seq<Entry>) | Refused(store: seq<Entry>)

  datatype Times = Times(first: int, made: int, touched: int, last: int)

  function Touched(store: seq<Entry>, id: string, now: int): seq<Entry> {
    if store == [] then []
    else if store[0].id == id && Registered(store[0]) then
      var record := store[0].content.record.value;
      [Entry(id, store[0].content.(record := Some(record.(state := Active, lastUsed := now))))] + store[1..]
    else [store[0]] + Touched(store[1..], id, now)
  }

  /** The entry that a new workspace directory becomes: its tree and how it will be removed are inputs. */
  function Made(id: string, tree: Node, removal: Removal, now: int): Entry {
    Entry(id, Content(Some(Record(Active, now, now)), tree, removal))
  }

  predicate IsRegistered(store: seq<Entry>, id: string) {
    Find(store, id).Some? && Find(store, id).value.record.Some?
  }

  function Prepare(
    store: seq<Entry>, id: string, protected: set<string>, limits: Limits, times: Times, tree: Node, removal: Removal)
    : Prepared
  {
    var first := Prune(store, protected + {id}, if IsRegistered(store, id) then 0 else 1, limits, times.first);
    if !first.Within? then Refused(first.store)
    else if Find(first.store, id).Some? && !IsRegistered(store, id) then Refused(first.store)
    else
      var created := Find(first.store, id).None?;
      var store2 := if created then first.store + [Made(id, tree, removal, times.made)] else first.store;
      var last := Prune(Touched(store2, id, times.touched), protected + {id}, 0, limits, times.last);
      if last.Within? then Ready(last.store)
      else Refused(if created then Delete(last.store, id) else last.store)
  }

  lemma {:induction false} TouchedFate(store: seq<Entry>, id: string, now: int, other: string)
    requires DistinctIds(store)
    ensures DistinctIds(Touched(store, id, now))
    ensures Find(Touched(store, id, now), other)
      == if other == id && IsRegistered(store, id)
         then var c := Find(store, id).value;
           Some(c.(record := Some(c.record.value.(state := Active, lastUsed := now))))
         else Find(store, other)
  {
    TouchedKeepsIds(store, id, now);
    if store != [] {
      TouchedFate(store[1..], id, now, other);
    }
  }

  lemma {:induction false} TouchedKeepsIds(store: seq<Entry>, id: string, now: int)
    ensures |Touched(store, id, now)| == |store|
    ensures forall i | 0 <= i < |store| :: Touched(store, id, now)[i].id == store[i].id
  {
    if store != [] {
      TouchedKeepsIds(store[1..], id, now);
    }
  }

  lemma {:induction false} FindAppended(store: seq<Entry>, e: Entry, other: string)
    requires DistinctIds(store) && Find(store, e.id).None?
    ensures DistinctIds(store + [e])
    ensures Find(store + [e], other) == if other == e.id then Some(e.content) else Find(store, other)
  {
    FindIsStored(store, e.id);
    if store != [] {
      assert (store + [e])[1..] == store[1..] + [e];
      FindAppended(store[1..], e, other);
    }
  }

  /** The store just before the second pruning of a preparation. */
  lemma SecondPruning(
    store: seq<Entry>, id: string, protected: set<string>, limits: Limits, times: Times, tree: Node, removal: Removal,
    first: Outcome, other: string) returns (ready: seq<Entry>)
    requires DistinctIds(store)
    requires first == Prune(store, protected + {id}, if IsRegistered(store, id) then 0 else 1, limits, times.first)
    requires first.Within? && (Find(first.store, id).Some? ==> IsRegistered(store, id))
    ensures DistinctIds(ready)
    ensures ready == Touched(if Find(first.store, id).None?
                             then first.store + [Made(id, tree, removal, times.made)] else first.store,
                             id, times.touched)
    ensures IsRegistered(ready, id) && Find(ready, id).value.record.value.state == Active
    ensures Find(ready, id).value.record.value.lastUsed == times.touched
    ensures Find(first.store, id).None? ==>
      Find(ready, id).value.tree == tree && Find(ready, id).value.removal == removal
    ensures other != id && other in protected ==> Find(ready, other) == Find(store, other)
  {
    PruningSparesProtected(store, protected + {id}, if IsRegistered(store, id) then 0 else 1, limits, times.first, id);
    var store2 := first.store;
    if Find(first.store, id).None? {
      var made := Made(id, tree, removal, times.made);
      FindAppended(first.store, made, id);
      FindAppended(first.store, made, other);
      store2 := first.store + [made];
    }
    if other in protected {
      PruningSparesProtected(
        store, protected + {id}, if IsRegistered(store, id) then 0 else 1, limits, times.first, other);
    }
    TouchedFate(store2, id, times.touched, id);
    TouchedFate(store2, id, times.touched, other);
    ready := Touched(store2, id, times.touched);
  }

  /** A prepared workspace is registered, active and just used; both caps hold; protected ones stay. */
  lemma PreparedWorkspaceIsReady(
    store: seq<Entry>, id: string, protected: set<string>, limits: Limits, times: Times, tree: Node, removal: Removal,
    other: string)
    requires DistinctIds(store)
    requires Prepare(store, id, protected, limits, times, tree, removal).Ready?
    ensures var after := Prepare(store, id, protected, limits, times, tree, removal).store;
      && |after| <= limits.maxWorkspaces && Bytes(after) <= limits.maxBytes
      && IsRegistered(after, id)
      && Find(after, id).value.record.value.state == Active
      && Find(after, id).value.record.value.lastUsed == times.touched
      && (other != id && other in protected ==> Find(after, other) == Find(store, other))
  {
    var first := Prune(store, protected + {id}, if IsRegistered(store, id) then 0 else 1, limits, times.first);
    var ready := SecondPruning(store, id, protected, limits, times, tree, removal, first, other);
    PruningMeetsCaps(ready, protected + {id}, 0, limits, times.last);
    PruningSparesProtected(ready, protected + {id}, 0, limits, times.last, id);
    if other in protected {
      PruningSparesProtected(ready, protected + {id}, 0, limits, times.last, other);
    }
  }

  /**
   A refused preparation leaves no trace of a workspace it had to create, provided that the new
   directory can be removed, and it always keeps a workspace that was registered before.
   */
  lemma RefusedPreparationRollsBack(
    store: seq<Entry>, id: string, protected: set<string>, limits: Limits, times: Times, tree: Node, removal: Removal)
    requires DistinctIds(store)
    requires Prepare(store, id, protected, limits, times, tree, removal).Refused?
    ensures var after := Prepare(store, id, protected, limits, times, tree, removal).store;
      && (Find(store, id).None? && Plain(tree) && SafeBelow(tree) && removal.Clean? ==> Find(after, id).None?)
      && (IsRegistered(store, id) ==> IsRegistered(after, id))
      && (Find(store, id).Some? && !IsRegistered(store, id) ==> Find(after, id) == Find(store, id))
  {
    var first := Prune(store, protected + {id}, if IsRegistered(store, id) then 0 else 1, limits, times.first);
    PruningSparesProtected(store, protected + {id}, if IsRegistered(store, id) then 0 else 1, limits, times.first, id);
    if first.Within? && (Find(first.store, id).Some? ==> IsRegistered(store, id)) {
      var ready := SecondPruning(store, id, protected, limits, times, tree, removal, first, id);
      PruningSparesProtected(ready, protected + {id}, 0, limits, times.last, id);
      DeleteFate(Prune(ready, protected + {id}, 0, limits, times.last).store, id, id);
    }
  }
}
