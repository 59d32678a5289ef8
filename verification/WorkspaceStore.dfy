/**
 The directory of hosted workspaces and how it is pruned.  An entry carries what a removal of its
 tree would leave behind, so every way in which removals can fail is one of the inputs.
 */
module WorkspaceStore {
  import opened Tables
  import opened TreeWalk

  datatype State = Active | Idle | Terminal

  /** A valid service marker. */
  datatype Record = Record(state: State, created: int, lastUsed: int)

  datatype Content = Content(record: Option<Record>, tree: Node, removal: Removal)

  datatype Removal = Clean | Partial(left: Content)

  datatype Entry = Entry(id: string, content: Content)

  datatype Limits = Limits(maxWorkspaces: nat, maxBytes: nat, ttlSeconds: nat)

  predicate Registered(e: Entry) { e.content.record.Some? }

  function LastUsed(e: Entry): int { if Registered(e) then e.content.record.value.lastUsed else 0 }

  function Size(e: Entry): nat {
    if Registered(e) || (e.content.tree.kind.Folder? && !LinkLike(e.content.tree)) then SizeBelow(e.content.tree)
    else OwnSize(e.content.tree)
  }

  function Bytes(store: seq<Entry>): int { SumBy(store, (e: Entry) => Size(e)) }

  ghost predicate DistinctIds(store: seq<Entry>) {
    forall i, j | 0 <= i < j < |store| :: store[i].id != store[j].id
  }

  // ---- one deletion ----

  /** What an attempt to delete an entry leaves of it. */
  function Attempt(c: Content): Option<Content> {
    if c.record.None? || !(Plain(c.tree) && SafeBelow(c.tree)) then Some(c)
    else match c.removal
      case Clean => None
      case Partial(left) => Some(left)
  }

  predicate Removable(e: Entry) { Attempt(e.content).None? }

  function LeftOf(e: Entry): seq<Entry> {
    match Attempt(e.content)
    case None => []
    case Some(left) => [Entry(e.id, left)]
  }

  function Delete(store: seq<Entry>, id: string): seq<Entry> {
    if store == [] then []
    else (if store[0].id == id then LeftOf(store[0]) else [store[0]]) + Delete(store[1..], id)
  }

  function DeleteAll(store: seq<Entry>, ids: seq<string>): seq<Entry>
    decreases |ids|
  {
    if ids == [] then store else DeleteAll(Delete(store, ids[0]), ids[1..])
  }

  // ---- choosing what to delete ----

  datatype Choice = Anything | Ended | UnusedSince(time: int)

  /** Whether an entry may be deleted for a reason: registered, not protected, and the reason holds. */
  predicate Matches(e: Entry, protected: set<string>, choice: Choice) {
    && Registered(e) && e.id !in protected
    && match choice
       case Anything => true
       case Ended => e.content.record.value.state == Terminal
       case UnusedSince(time) => LastUsed(e) <= time
  }

  function Pick(store: seq<Entry>, protected: set<string>, choice: Choice): seq<Entry> {
    if store == [] then []
    else if Matches(store[0], protected, choice) then [store[0]] + Pick(store[1..], protected, choice)
    else Pick(store[1..], protected, choice)
  }

  /** The first of the entries used least recently. */
  function Earliest(s: seq<Entry>): (m: nat)
    requires s != []
    ensures m < |s|
    ensures forall i | 0 <= i < |s| :: LastUsed(s[m]) <= LastUsed(s[i])
    ensures forall i | 0 <= i < m :: LastUsed(s[m]) < LastUsed(s[i])
  {
    if |s| == 1 then 0
    else
      var m := Earliest(s[1..]) + 1;
      if LastUsed(s[0]) <= LastUsed(s[m]) then 0 else m
  }

  /** A stable sort by time of last use. */
  function SortByUse(s: seq<Entry>): (sorted: seq<Entry>)
    ensures |sorted| == |s|
    decreases |s|
  {
    if s == [] then []
    else var m := Earliest(s); [s[m]] + SortByUse(s[..m] + s[m + 1..])
  }

  function Ids(s: seq<Entry>): (ids: seq<string>)
    ensures |ids| == |s| && forall i | 0 <= i < |s| :: ids[i] == s[i].id
  {
    if s == [] then [] else [s[0].id] + Ids(s[1..])
  }

  function Doomed(store: seq<Entry>, protected: set<string>, choice: Choice): seq<string> {
    Ids(SortByUse(Pick(store, protected, choice)))
  }

  // ---- pruning ----

  /** Terminal workspaces go first, then those unused for too long; both lists are made beforehand. */
  function Swept(store: seq<Entry>, protected: set<string>, limits: Limits, now: int): seq<Entry> {
    DeleteAll(DeleteAll(store, Doomed(store, protected, Ended)),
              Doomed(store, protected, UnusedSince(now - limits.ttlSeconds)))
  }

  predicate Over(store: seq<Entry>, slots: nat, limits: Limits) {
    |store| + slots > limits.maxWorkspaces || Bytes(store) > limits.maxBytes
  }

  datatype Outcome = Within(store: seq<Entry>) | Full(store: seq<Entry>) | Stuck(store: seq<Entry>)

  lemma {:induction false} DeleteShrinks(store: seq<Entry>, id: string)
    ensures |Delete(store, id)| <= |store|
    ensures (exists e :: e in store && e.id == id && Removable(e)) ==> |Delete(store, id)| < |store|
  {
    if store != [] {
      DeleteShrinks(store[1..], id);
    }
  }

  lemma {:induction false} PickedAreStored(store: seq<Entry>, protected: set<string>, choice: Choice, e: Entry)
    ensures e in Pick(store, protected, choice) <==> e in store && Matches(e, protected, choice)
  {
    if store != [] {
      PickedAreStored(store[1..], protected, choice, e);
    }
  }

  /** The least recently used entry that may go, deleted one at a time until the store fits. */
  function Evict(store: seq<Entry>, protected: set<string>, slots: nat, limits: Limits): Outcome
    decreases |store|
  {
    var candidates := SortByUse(Pick(store, protected, Anything));
    if !Over(store, slots, limits) then Within(store)
    else if candidates == [] then Full(store)
    else if !Removable(candidates[0]) then Stuck(Delete(store, candidates[0].id))
    else
      assert candidates[0] in store by { PickedAreStored(store, protected, Anything, candidates[0]); }
      DeleteShrinks(store, candidates[0].id);
      Evict(Delete(store, candidates[0].id), protected, slots, limits)
  }

  function Prune(store: seq<Entry>, protected: set<string>, slots: nat, limits: Limits, now: int): Outcome {
    Evict(Swept(store, protected, limits, now), protected, slots, limits)
  }

  // ---- the sort ----

  function UsedAt(s: seq<Entry>, time: int): seq<Entry> {
    if s == [] then [] else (if LastUsed(s[0]) == time then [s[0]] else []) + UsedAt(s[1..], time)
  }

  lemma {:induction false} UsedAtConcat(a: seq<Entry>, b: seq<Entry>, time: int)
    ensures UsedAt(a + b, time) == UsedAt(a, time) + UsedAt(b, time)
  {
    if a == [] {
      assert a + b == b;
    } else {
      var head := if LastUsed(a[0]) == time then [a[0]] else [];
      UsedAtConcat(a[1..], b, time);
      assert UsedAt(a + b, time) == head + (UsedAt(a[1..], time) + UsedAt(b, time)) by {
        assert (a + b)[0] == a[0] && (a + b)[1..] == a[1..] + b;
      }
    }
  }

  lemma {:induction false} UsedLater(s: seq<Entry>, time: int)
    requires forall i | 0 <= i < |s| :: LastUsed(s[i]) > time
    ensures UsedAt(s, time) == []
  {
    if s != [] {
      UsedLater(s[1..], time);
    }
  }

  lemma {:induction false} SortKeepsEntries(s: seq<Entry>)
    ensures multiset(SortByUse(s)) == multiset(s)
    decreases |s|
  {
    if s != [] {
      var m := Earliest(s);
      assert s == s[..m] + [s[m]] + s[m + 1..];
      SortKeepsEntries(s[..m] + s[m + 1..]);
    }
  }

  lemma {:induction false} SortIsSorted(s: seq<Entry>)
    ensures forall i, j | 0 <= i < j < |s| :: LastUsed(SortByUse(s)[i]) <= LastUsed(SortByUse(s)[j])
    decreases |s|
  {
    if s != [] {
      var m := Earliest(s);
      var rest := s[..m] + s[m + 1..];
      SortIsSorted(rest);
      SortKeepsEntries(rest);
      forall j | 0 <= j < |rest| ensures LastUsed(s[m]) <= LastUsed(SortByUse(rest)[j]) {
        assert SortByUse(rest)[j] in multiset(SortByUse(rest));
        assert SortByUse(rest)[j] in rest;
      }
    }
  }

  lemma UsedAtSplit(s: seq<Entry>, m: nat, time: int)
    requires m < |s|
    ensures UsedAt(s, time) == UsedAt(s[..m], time) + UsedAt([s[m]], time) + UsedAt(s[m + 1..], time)
  {
    assert s == s[..m] + [s[m]] + s[m + 1..];
    UsedAtConcat(s[..m] + [s[m]], s[m + 1..], time);
    UsedAtConcat(s[..m], [s[m]], time);
  }

  lemma FirstOfItsTime(s: seq<Entry>, m: nat, time: int)
    requires s != [] && m == Earliest(s)
    ensures UsedAt([s[m]], time) + UsedAt(s[..m], time) == UsedAt(s[..m], time) + UsedAt([s[m]], time)
  {
    if LastUsed(s[m]) == time {
      UsedLater(s[..m], time);
    } else {
      assert UsedAt([s[m]], time) == [];
    }
  }

  /** Entries last used at the same time keep their order. */
  lemma {:induction false} SortIsStable(s: seq<Entry>, time: int)
    ensures UsedAt(SortByUse(s), time) == UsedAt(s, time)
    decreases |s|
  {
    if s != [] {
      var m := Earliest(s);
      var first, before, after := UsedAt([s[m]], time), UsedAt(s[..m], time), UsedAt(s[m + 1..], time);
      var rest := s[..m] + s[m + 1..];
      calc {
        UsedAt(SortByUse(s), time);
        { UsedAtConcat([s[m]], SortByUse(rest), time); }
        first + UsedAt(SortByUse(rest), time);
        { SortIsStable(rest, time); UsedAtConcat(s[..m], s[m + 1..], time); }
        first + (before + after);
        (first + before) + after;
        { FirstOfItsTime(s, m, time); }
        before + first + after;
        { UsedAtSplit(s, m, time); }
        UsedAt(s, time);
      }
    }
  }
}
