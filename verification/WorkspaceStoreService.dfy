/** The workspace directory, changed in place by the supervisor. */
module WorkspaceStoreService {
  import opened Tables
  import opened TreeWalk
  import opened WorkspaceStore
  import opened WorkspaceFates

  datatype Snapshot = Snapshot(records: seq<Entry>, totalBytes: nat, unknownEntries: nat, unknownBytes: nat)

  /** One pass over the directory: registered workspaces apart from everything else. */
  method Scan(entries: seq<Entry>) returns (snapshot: Snapshot)
    ensures snapshot.records == Pick(entries, {}, Anything)
    ensures |snapshot.records| + snapshot.unknownEntries == |entries|
    ensures snapshot.totalBytes == Bytes(entries)
    ensures snapshot.totalBytes == Bytes(snapshot.records) + snapshot.unknownBytes
  {
    var records, unknown, unknownBytes, recordBytes: nat := [], 0, 0, 0;
    for i := 0 to |entries|
      invariant records == Pick(entries[..i], {}, Anything)
      invariant |records| + unknown == i
      invariant recordBytes == Bytes(records) && recordBytes + unknownBytes == Bytes(entries[..i])
    {
      var e := entries[i];
      assert entries[..i + 1] == entries[..i] + [e];
      PickAppend(entries[..i], e);
      SumAppend(entries[..i], e, (f: Entry) => Size(f));
      var size := MeasureEntry(e);
      if Registered(e) {
        SumAppend(records, e, (f: Entry) => Size(f));
        records := records + [e];
        recordBytes := recordBytes + size;
      } else {
        unknown := unknown + 1;
        unknownBytes := unknownBytes + size;
      }
    }
    assert entries[..|entries|] == entries;
    snapshot := Snapshot(records, recordBytes + unknownBytes, unknown, unknownBytes);
  }

  lemma {:induction false} PickAppend(s: seq<Entry>, e: Entry)
    ensures Pick(s + [e], {}, Anything) == Pick(s, {}, Anything) + if Registered(e) then [e] else []
  {
    if s != [] {
      assert (s + [e])[1..] == s[1..] + [e];
      PickAppend(s[1..], e);
    }
  }

  /** The bytes an entry takes, found by walking its tree. */
  method MeasureEntry(e: Entry) returns (size: nat)
    ensures size == Size(e)
  {
    if Registered(e) || (e.content.tree.kind.Folder? && !LinkLike(e.content.tree)) {
      size := DirectorySize(e.content.tree);
    } else {
      size := OwnSize(e.content.tree);
    }
  }

  /** Deleting the entry at a position is deleting it by name. */
  lemma {:induction false} DeleteAt(store: seq<Entry>, i: nat)
    requires DistinctIds(store) && i < |store|
    ensures Delete(store, store[i].id) == store[..i] + LeftOf(store[i]) + store[i + 1..]
  {
    if i == 0 {
      DeleteAbsent(store[1..], store[0].id);
    } else {
      DeleteAt(store[1..], i - 1);
      assert store[..i] == [store[0]] + store[1..][..i - 1];
    }
  }

  lemma {:induction false} DeleteAbsent(store: seq<Entry>, id: string)
    requires forall e | e in store :: e.id != id
    ensures Delete(store, id) == store
  {
    if store != [] {
      DeleteAbsent(store[1..], id);
    }
  }

  datatype PruneError = NoError | CapacityFull | CleanupFailed

  function OutcomeOf(entries: seq<Entry>, error: PruneError): Outcome {
    match error
    case NoError => Within(entries)
    case CapacityFull => Full(entries)
    case CleanupFailed => Stuck(entries)
  }

  class WorkspaceDirectory {
    const limits: Limits
    var entries: seq<Entry>

    ghost predicate Valid()
      reads this
    {
      DistinctIds(entries)
    }

    constructor (limits: Limits, entries: seq<Entry>)
      requires DistinctIds(entries)
      ensures Valid() && this.entries == entries && this.limits == limits
    {
      this.limits, this.entries := limits, entries;
    }

    method Locate(id: string) returns (i: nat)
      requires Valid()
      ensures i <= |entries|
      ensures i < |entries| ==> entries[i].id == id && Find(entries, id) == Some(entries[i].content)
      ensures i == |entries| ==> Find(entries, id).None? && forall e | e in entries :: e.id != id
    {
      i := 0;
      while i < |entries| && entries[i].id != id
        invariant i <= |entries| && forall j | 0 <= j < i :: entries[j].id != id
      {
        i := i + 1;
      }
      FindIsStored(entries, id);
    }

    /** Deletes a registered workspace whose tree is safe; true only if it is gone. */
    method DeleteRegistered(id: string) returns (deleted: bool)
      requires Valid()
      modifies this
      ensures Valid() && entries == Delete(old(entries), id)
      ensures deleted <==> old(Find(entries, id)).Some? && AfterAttempt(old(Find(entries, id))).None?
    {
      DeleteKeepsDistinct(entries, id);
      var i := Locate(id);
      if i == |entries| {
        DeleteAbsent(entries, id);
        return false;
      }
      DeleteAt(entries, i);
      var content := entries[i].content;
      var same := entries == entries[..i] + [entries[i]] + entries[i + 1..];
      assert same;
      if content.record.None? {
        return false;
      }
      var safe := SafeToDelete(content.tree);
      if !safe {
        return false;
      }
      match content.removal {
        case Clean =>
          entries := entries[..i] + entries[i + 1..];
          deleted := true;
        case Partial(left) =>
          entries := entries[..i] + [Entry(id, left)] + entries[i + 1..];
          deleted := false;
      }
    }

    /** Tries to delete every listed workspace, whatever becomes of the others. */
    method DeleteListed(ids: seq<string>)
      requires Valid()
      modifies this
      ensures Valid() && entries == DeleteAll(old(entries), ids)
    {
      var i := 0;
      while i < |ids|
        invariant i <= |ids| && Valid()
        invariant DeleteAll(entries, ids[i..]) == DeleteAll(old(entries), ids)
      {
        var _ := DeleteRegistered(ids[i]);
        i := i + 1;
      }
    }

    /** Brings the store within its caps, keeping the protected workspaces. */
    method PruneStore(protected: set<string>, slots: nat, now: int) returns (error: PruneError)
      requires Valid()
      modifies this
      ensures Valid() && OutcomeOf(entries, error) == Prune(old(entries), protected, slots, limits, now)
    {
      var start := entries;
      DeleteListed(Doomed(start, protected, Ended));
      DeleteListed(Doomed(start, protected, UnusedSince(now - limits.ttlSeconds)));
      error := EvictUntilWithin(protected, slots);
    }

    /** Evicts the least recently used workspace until both caps hold. */
    method EvictUntilWithin(protected: set<string>, slots: nat) returns (error: PruneError)
      requires Valid()
      modifies this
      ensures Valid() && OutcomeOf(entries, error) == Evict(old(entries), protected, slots, limits)
    {
      while true
        invariant Valid()
        invariant Evict(entries, protected, slots, limits) == Evict(old(entries), protected, slots, limits)
        decreases |entries|
      {
        var snapshot := Scan(entries);
        var countOver := |snapshot.records| + snapshot.unknownEntries + slots > limits.maxWorkspaces;
        var bytesOver := snapshot.totalBytes > limits.maxBytes;
        if !countOver && !bytesOver {
          return NoError;
        }
        var candidates := SortByUse(Pick(entries, protected, Anything));
        if candidates == [] {
          return CapacityFull;
        }
        assert candidates[0] in entries by {
          SortKeepsEntries(Pick(entries, protected, Anything));
          assert candidates[0] in multiset(candidates);
          PickedAreStored(entries, protected, Anything, candidates[0]);
        }
        FindOnly(entries, candidates[0]);
        DeleteShrinks(entries, candidates[0].id);
        var deleted := DeleteRegistered(candidates[0].id);
        if !deleted {
          return CleanupFailed;
        }
      }
    }

    /** Rewrites a registered workspace's marker: active, used now. */
    method Touch(id: string, now: int)
      requires Valid()
      modifies this
      ensures Valid() && entries == Touched(old(entries), id, now)
    {
      TouchedFate(entries, id, now, id);
      var i := Locate(id);
      TouchedAt(entries, id, now, i);
      if i < |entries| && Registered(entries[i]) {
        var record := entries[i].content.record.value;
        var touched := record.(state := Active, lastUsed := now);
        entries := entries[i := Entry(id, entries[i].content.(record := Some(touched)))];
      }
    }

    /** Makes sure a workspace exists, is marked as in use, and the store stays within its caps. */
    method PrepareWorkspace(id: string, protected: set<string>, times: Times, tree: Node, removal: Removal)
      returns (ready: bool)
      requires Valid()
      modifies this
      ensures Valid()
      ensures Prepare(old(entries), id, protected, limits, times, tree, removal)
        == if ready then Ready(entries) else Refused(entries)
    {
      var i := Locate(id);
      var registered := i < |entries| && Registered(entries[i]);
      var error := PruneStore(protected + {id}, if registered then 0 else 1, times.first);
      if error != NoError {
        return false;
      }
      i := Locate(id);
      var created := i == |entries|;
      if !created && !registered {
        return false;
      }
      ready := CreateAndEnforce(id, created, protected, times, tree, removal);
    }

    /** Creates the directory if need be, marks it, and rolls it back if the store no longer fits. */
    method CreateAndEnforce(
      id: string, created: bool, protected: set<string>, times: Times, tree: Node, removal: Removal)
      returns (ready: bool)
      requires Valid() && (created <==> Find(entries, id).None?)
      modifies this
      ensures Valid()
      ensures
        var store2 := if created then old(entries) + [Made(id, tree, removal, times.made)] else old(entries);
        var last := Prune(Touched(store2, id, times.touched), protected + {id}, 0, limits, times.last);
        if last.Within? then ready && entries == last.store
        else !ready && entries == if created then Delete(last.store, id) else last.store
    {
      if created {
        FindAppended(entries, Made(id, tree, removal, times.made), id);
        entries := entries + [Made(id, tree, removal, times.made)];
      }
      Touch(id, times.touched);
      var error := PruneStore(protected + {id}, 0, times.last);
      if error == NoError {
        return true;
      }
      if created {
        var _ := DeleteRegistered(id);
      }
      return false;
    }
  }

  lemma {:induction false} TouchedAt(store: seq<Entry>, id: string, now: int, i: nat)
    requires DistinctIds(store) && i <= |store|
    requires i < |store| ==> store[i].id == id
    requires i == |store| ==> forall e | e in store :: e.id != id
    ensures Touched(store, id, now) ==
      if i < |store| && Registered(store[i])
      then store[i := Entry(id, store[i].content.(record :=
             Some(store[i].content.record.value.(state := Active, lastUsed := now))))]
      else store
  {
    if store != [] {
      if i == 0 {
        if !Registered(store[0]) {
          TouchedAt(store[1..], id, now, |store| - 1);
        }
      } else {
        TouchedAt(store[1..], id, now, i - 1);
      }
    }
  }
}
