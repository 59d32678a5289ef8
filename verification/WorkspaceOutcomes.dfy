/** What pruning and preparation do to a workspace, told by its marker and its tree. */
module WorkspaceOutcomes {
  import opened Tables
  import opened TreeWalk
  import opened WorkspaceStore
  import opened WorkspacePruning
  import opened WorkspaceFates

  // ---- deletion ----

  /** The service's own workspace, a real directory without links or mounts and readable all through. */
  ghost predicate MayBeDeleted(c: Content) { c.record.Some? && c.tree.kind.Folder? && PlainEverywhere(c.tree) }

  lemma AttemptMeans(c: Content)
    ensures Attempt(c) == if !MayBeDeleted(c) then Some(c) else if c.removal.Clean? then None else Some(c.removal.left)
  {
    if c.tree.kind.Folder? { DeletableExactly(c.tree); }
  }

  /**
   A deletion removes the named workspace exactly if it is registered and nothing in it is a link, a mount
   or unreadable; a removal that breaks off leaves what it leaves.  No other entry is touched.
   */
  lemma DeletionOutcome(store: seq<Entry>, id: string, other: string)
    requires DistinctIds(store)
    ensures Find(store, id).None? || !MayBeDeleted(Find(store, id).value)
      ==> Find(Delete(store, id), id) == Find(store, id)
    ensures Find(store, id).Some? && MayBeDeleted(Find(store, id).value) ==>
      Find(Delete(store, id), id)
        == match Find(store, id).value.removal { case Clean => None case Partial(left) => Some(left) }
    ensures other != id ==> Find(Delete(store, id), other) == Find(store, other)
  {
    DeleteFate(store, id, id);
    DeleteFate(store, id, other);
    if Find(store, id).Some? { AttemptMeans(Find(store, id).value); }
  }

  // ---- the sweep ----

  /** A sweep wants an unprotected workspace gone: its conversation is over, or it was unused for too long. */
  predicate IsDoomed(c: Content, id: string, protected: set<string>, limits: Limits, now: int) {
    && c.record.Some? && id !in protected
    && (c.record.value.state == Terminal || now - c.record.value.lastUsed >= limits.ttlSeconds)
  }

  /** A sweep removes what is doomed, if it can be removed, and leaves alone what is not. */
  lemma SweepOutcome(store: seq<Entry>, protected: set<string>, limits: Limits, now: int, id: string)
    requires DistinctIds(store) && Find(store, id).Some?
    ensures
      var c, after := Find(store, id).value, Find(Swept(store, protected, limits, now), id);
      && (!IsDoomed(c, id, protected, limits, now) ==> after == Some(c))
      && (IsDoomed(c, id, protected, limits, now) && !MayBeDeleted(c) ==> after == Some(c))
      && (IsDoomed(c, id, protected, limits, now) && MayBeDeleted(c) && c.removal.Clean? ==> after == None)
  {
    SweptFate(store, protected, limits, now, id);
    AttemptMeans(Find(store, id).value);
  }

  // ---- eviction ----

  /** What eviction may take: a registered workspace that is not protected. */
  predicate Evictable(e: Entry, protected: set<string>) { e.content.record.Some? && e.id !in protected }

  /** Whatever eviction took was registered, unprotected, and used no later than anything it could still take. */
  lemma EvictedWereUsedEarlier(
    store: seq<Entry>, protected: set<string>, slots: nat, limits: Limits, gone: Entry, kept: Entry)
    requires DistinctIds(store) && gone in store && kept in store
    requires Find(Evict(store, protected, slots, limits).store, gone.id).None?
    requires kept in Evict(store, protected, slots, limits).store && Evictable(kept, protected)
    ensures Evictable(gone, protected)
    ensures gone.content.record.value.lastUsed <= kept.content.record.value.lastUsed
  {
    var outcome := Evict(store, protected, slots, limits);
    var n := EvictionTakesShortestPrefix(store, protected, slots, limits);
    var i := GoneIsListed(store, protected, slots, limits, outcome, n, gone);
    var j := KeptIsListedLater(store, protected, slots, limits, outcome, n, kept);
    ListedInOrder(store, protected, i, j);
  }

  lemma ListedInOrder(store: seq<Entry>, protected: set<string>, i: nat, j: nat)
    requires i <= j < |Candidates(store, protected)|
    ensures var a, b := Candidates(store, protected)[i], Candidates(store, protected)[j];
      Evictable(a, protected) && Evictable(b, protected)
      && a.content.record.value.lastUsed <= b.content.record.value.lastUsed
  {
    CandidateIsStored(store, protected, i);
    CandidateIsStored(store, protected, j);
    if i < j { SortIsSorted(Pick(store, protected, Anything)); }
  }

  lemma GoneIsListed(
    store: seq<Entry>, protected: set<string>, slots: nat, limits: Limits, outcome: Outcome, n: nat, gone: Entry)
    returns (i: nat)
    requires DistinctIds(store) && gone in store && EndsAfter(store, protected, slots, limits, outcome, n)
    requires Find(outcome.store, gone.id).None?
    ensures i <= n && i < |Candidates(store, protected)| && Candidates(store, protected)[i] == gone
  {
    var c := Candidates(store, protected);
    var left := WorkspacePruning.Remaining(store, protected, n);
    WithoutMembers(store, IdSet(c[..n]), gone);
    if gone in left {
      WithoutKeepsDistinct(store, IdSet(c[..n]));
      FindOnly(left, gone);
      assert outcome.Stuck?;
      DeleteFate(left, c[n].id, gone.id);
      assert c[n].id == gone.id;
      i := n;
      CandidateIsStored(store, protected, n);
      SameId(store, c[n], gone);
    } else {
      var e :| e in c[..n] && e.id == gone.id;
      i :| 0 <= i < n && c[i] == e;
      CandidateIsStored(store, protected, i);
      SameId(store, c[i], gone);
    }
  }

  lemma SameId(store: seq<Entry>, a: Entry, b: Entry)
    requires DistinctIds(store) && a in store && b in store && a.id == b.id
    ensures a == b
  {}

  lemma KeptIsListedLater(
    store: seq<Entry>, protected: set<string>, slots: nat, limits: Limits, outcome: Outcome, n: nat, kept: Entry)
    returns (j: nat)
    requires DistinctIds(store) && kept in store && EndsAfter(store, protected, slots, limits, outcome, n)
    requires kept in outcome.store && Evictable(kept, protected)
    ensures n <= j < |Candidates(store, protected)| && Candidates(store, protected)[j] == kept
  {
    var c := Candidates(store, protected);
    CandidatesAreListed(store, protected, kept);
    var e :| e in c && e.id == kept.id;
    j :| 0 <= j < |c| && c[j] == e;
    CandidateIsStored(store, protected, j);
    SameId(store, c[j], kept);
    if j < n {
      assert c[j] in c[..n];
      forall e | e in WorkspacePruning.Remaining(store, protected, n) ensures e.id != kept.id {
        WithoutMembers(store, IdSet(c[..n]), e);
      }
      if outcome.Stuck? { NothingComesBack(WorkspacePruning.Remaining(store, protected, n), c[n].id, kept); }
    }
  }

  /** What a broken-off eviction leaves under a name was there before under that name. */
  lemma NothingComesBack(left: seq<Entry>, id: string, kept: Entry)
    requires forall e | e in left :: e.id != kept.id
    ensures kept !in Delete(left, id)
  {
    if kept in Delete(left, id) { DeleteAddsNothing(left, id, kept); }
  }

  // ---- sizes ----

  /** A real directory counts for the files and links reached in it, anything else for its own size. */
  lemma SizeOutcome(e: Entry)
    ensures
      var tree := e.content.tree;
      Size(e) ==
        if e.content.record.Some? || (tree.kind.Folder? && tree.stats && !tree.junction) then
          SumBy(Reached(tree), (m: Node) => OwnSize(m))
        else match tree.kind
          case File(size) => if tree.stats then size else 0
          case Symlink(size) => if tree.stats then size else 0
          case _ => 0
  {
    SizeCountsReached(e.content.tree);
  }

  // ---- preparation ----

  /** A workspace prepared for the first time is the new one; one prepared again keeps when it was created. */
  lemma PreparedRecord(
    store: seq<Entry>, id: string, protected: set<string>, limits: Limits, times: Times, tree: Node, removal: Removal)
    requires DistinctIds(store)
    requires Prepare(store, id, protected, limits, times, tree, removal).Ready?
    ensures var after := Prepare(store, id, protected, limits, times, tree, removal).store;
      && Find(after, id).Some?
      && (Find(store, id).None? ==>
            Find(after, id).value == Content(Some(Record(Active, times.made, times.touched)), tree, removal))
      && (Find(store, id).Some? ==>
            var c := Find(store, id).value;
            c.record.Some? && Find(after, id).value
              == c.(record := Some(Record(Active, c.record.value.created, times.touched))))
  {
    var slots := if IsRegistered(store, id) then 0 else 1;
    var first := Prune(store, protected + {id}, slots, limits, times.first);
    PruningSparesProtected(store, protected + {id}, slots, limits, times.first, id);
    var made := Made(id, tree, removal, times.made);
    if Find(first.store, id).None? { FindAppended(first.store, made, id); }
    var ready := if Find(first.store, id).None? then first.store + [made] else first.store;
    TouchedFate(ready, id, times.touched, id);
    PruningSparesProtected(Touched(ready, id, times.touched), protected + {id}, 0, limits, times.last, id);
  }

  /** A full store in which nothing may be evicted refuses a new workspace before creating it. */
  lemma FullStoreRefuses(
    store: seq<Entry>, id: string, protected: set<string>, limits: Limits, times: Times, tree: Node, removal: Removal)
    requires DistinctIds(store) && Find(store, id).None? && |store| >= limits.maxWorkspaces
    requires forall e | e in store :: e.content.record.None? || e.id in protected
    ensures Prepare(store, id, protected, limits, times, tree, removal) == Refused(store)
  {
    NothingToPrune(store, protected + {id}, 1, limits, times.first);
  }

  lemma NothingToPrune(store: seq<Entry>, protected: set<string>, slots: nat, limits: Limits, now: int)
    requires forall e | e in store :: e.content.record.None? || e.id in protected
    requires |store| + slots > limits.maxWorkspaces
    ensures Prune(store, protected, slots, limits, now) == Full(store)
  {
    NothingMatches(store, protected, Anything);
    NothingMatches(store, protected, Ended);
    NothingMatches(store, protected, UnusedSince(now - limits.ttlSeconds));
  }

  lemma {:induction false} NothingMatches(store: seq<Entry>, protected: set<string>, choice: Choice)
    requires forall e | e in store :: e.content.record.None? || e.id in protected
    ensures Pick(store, protected, choice) == []
  {
    if store != [] {
      assert store[0] in store;
      NothingMatches(store[1..], protected, choice);
    }
  }
}
