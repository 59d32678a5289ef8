/** What pruning deletes and what it leaves. */
module WorkspacePruning {
  import opened WorkspaceStore

  function Without(s: seq<Entry>, gone: set<string>): seq<Entry> {
    if s == [] then []
    else if s[0].id in gone then Without(s[1..], gone)
    else [s[0]] + Without(s[1..], gone)
  }

  function IdSet(s: seq<Entry>): set<string> { set e | e in s :: e.id }

  /** The entries that may be evicted, least recently used first. */
  function Candidates(store: seq<Entry>, protected: set<string>): seq<Entry> {
    SortByUse(Pick(store, protected, Anything))
  }

  /** The store without its first `n` candidates. */
  function Remaining(store: seq<Entry>, protected: set<string>, n: nat): seq<Entry>
    requires n <= |Candidates(store, protected)|
  {
    Without(store, IdSet(Candidates(store, protected)[..n]))
  }

  // ---- removing entries by name ----

  lemma {:induction false} WithoutMembers(s: seq<Entry>, gone: set<string>, e: Entry)
    ensures e in Without(s, gone) <==> e in s && e.id !in gone
  {
    if s != [] {
      WithoutMembers(s[1..], gone, e);
    }
  }

  lemma {:induction false} WithoutAbsent(s: seq<Entry>, gone: set<string>)
    requires forall e | e in s :: e.id !in gone
    ensures Without(s, gone) == s
  {
    if s != [] {
      WithoutAbsent(s[1..], gone);
    }
  }

  lemma {:induction false} WithoutConcat(a: seq<Entry>, b: seq<Entry>, gone: set<string>)
    ensures Without(a + b, gone) == Without(a, gone) + Without(b, gone)
  {
    if a == [] {
      assert a + b == b;
    } else {
      assert (a + b)[1..] == a[1..] + b;
      WithoutConcat(a[1..], b, gone);
    }
  }

  lemma {:induction false} WithoutTwice(s: seq<Entry>, a: set<string>, b: set<string>)
    ensures Without(Without(s, a), b) == Without(s, a + b)
  {
    if s != [] {
      WithoutTwice(s[1..], a, b);
      if s[0].id !in a {
        WithoutConcat([s[0]], Without(s[1..], a), b);
      }
    }
  }

  lemma {:induction false} WithoutOne(s: seq<Entry>, m: nat)
    requires DistinctIds(s) && m < |s|
    ensures Without(s, {s[m].id}) == s[..m] + s[m + 1..]
  {
    if m == 0 {
      WithoutAbsent(s[1..], {s[0].id});
    } else {
      WithoutOne(s[1..], m - 1);
      assert s[..m] == [s[0]] + s[1..][..m - 1];
    }
  }

  lemma {:induction false} WithoutKeepsDistinct(s: seq<Entry>, gone: set<string>)
    requires DistinctIds(s)
    ensures DistinctIds(Without(s, gone))
  {
    if s != [] {
      WithoutKeepsDistinct(s[1..], gone);
      forall e | e in Without(s[1..], gone) ensures e.id != s[0].id {
        WithoutMembers(s[1..], gone, e);
      }
    }
  }

  lemma {:induction false} PickWithout(s: seq<Entry>, gone: set<string>, protected: set<string>, choice: Choice)
    ensures Pick(Without(s, gone), protected, choice) == Without(Pick(s, protected, choice), gone)
  {
    if s != [] {
      PickWithout(s[1..], gone, protected, choice);
      if Matches(s[0], protected, choice) {
        WithoutConcat([s[0]], Pick(s[1..], protected, choice), gone);
      }
    }
  }

  lemma {:induction false} PickKeepsDistinct(s: seq<Entry>, protected: set<string>, choice: Choice)
    requires DistinctIds(s)
    ensures DistinctIds(Pick(s, protected, choice))
  {
    if s != [] {
      PickKeepsDistinct(s[1..], protected, choice);
      forall e | e in Pick(s[1..], protected, choice) ensures e.id != s[0].id {
        PickedAreStored(s[1..], protected, choice, e);
      }
    }
  }

  lemma {:induction false} DeleteIsWithout(store: seq<Entry>, id: string)
    requires forall e | e in store && e.id == id :: Removable(e)
    ensures Delete(store, id) == Without(store, {id})
  {
    if store != [] {
      DeleteIsWithout(store[1..], id);
    }
  }

  lemma CandidateIsStored(store: seq<Entry>, protected: set<string>, i: nat)
    requires i < |Candidates(store, protected)|
    ensures var e := Candidates(store, protected)[i]; e in store && Matches(e, protected, Anything)
  {
    var picked := Pick(store, protected, Anything);
    SortKeepsEntries(picked);
    assert Candidates(store, protected)[i] in multiset(SortByUse(picked));
    PickedAreStored(store, protected, Anything, Candidates(store, protected)[i]);
  }

  /** Once the first candidate is gone, the others follow in the same order. */
  lemma CandidatesAdvance(store: seq<Entry>, protected: set<string>)
    requires DistinctIds(store) && Candidates(store, protected) != []
    ensures var c := Candidates(store, protected);
      Candidates(Without(store, {c[0].id}), protected) == c[1..]
  {
    var picked := Pick(store, protected, Anything);
    PickKeepsDistinct(store, protected, Anything);
    WithoutOne(picked, Earliest(picked));
    PickWithout(store, {picked[Earliest(picked)].id}, protected, Anything);
  }

  lemma RemainingAdvances(store: seq<Entry>, protected: set<string>, m: nat)
    requires DistinctIds(store) && m < |Candidates(store, protected)|
    ensures var c := Candidates(store, protected);
      var next := Without(store, {c[0].id});
      m <= |Candidates(next, protected)| && Remaining(next, protected, m) == Remaining(store, protected, m + 1)
  {
    var c := Candidates(store, protected);
    CandidatesAdvance(store, protected);
    WithoutTwice(store, {c[0].id}, IdSet(c[1..][..m]));
    assert c[..m + 1] == [c[0]] + c[1..][..m];
    assert {c[0].id} + IdSet(c[1..][..m]) == IdSet(c[..m + 1]);
  }

  // ---- eviction takes a shortest sufficient prefix ----

  /** What it means for an eviction to end after exactly `n` deletions. */
  ghost predicate EndsAfter(
    store: seq<Entry>, protected: set<string>, slots: nat, limits: Limits, outcome: Outcome, n: nat)
  {
    var c := Candidates(store, protected);
    && n <= |c|
    && (forall i | 0 <= i < n :: Removable(c[i]))
    && (forall m | 0 <= m < n :: Over(Remaining(store, protected, m), slots, limits))
    && match outcome
       case Within(final) => final == Remaining(store, protected, n) && !Over(final, slots, limits)
       case Full(final) => n == |c| && final == Remaining(store, protected, n) && Over(final, slots, limits)
       case Stuck(final) =>
         && n < |c| && Over(Remaining(store, protected, n), slots, limits)
         && !Removable(c[n]) && final == Delete(Remaining(store, protected, n), c[n].id)
  }

  lemma EndsAtOnce(store: seq<Entry>, protected: set<string>, slots: nat, limits: Limits)
    requires var c := Candidates(store, protected);
      !Over(store, slots, limits) || c == [] || !Removable(c[0])
    ensures EndsAfter(store, protected, slots, limits, Evict(store, protected, slots, limits), 0)
  {
    assert IdSet(Candidates(store, protected)[..0]) == {};
    WithoutAbsent(store, {});
  }

  lemma OneMoreDeletion(store: seq<Entry>, protected: set<string>, slots: nat, limits: Limits, outcome: Outcome, n: nat)
    requires DistinctIds(store) && Candidates(store, protected) != []
    requires Over(store, slots, limits) && Removable(Candidates(store, protected)[0])
    requires EndsAfter(Without(store, {Candidates(store, protected)[0].id}), protected, slots, limits, outcome, n)
    ensures EndsAfter(store, protected, slots, limits, outcome, n + 1)
  {
    var c := Candidates(store, protected);
    CandidatesAdvance(store, protected);
    forall m | 0 <= m < n + 1 ensures Over(Remaining(store, protected, m), slots, limits) {
      if m == 0 {
        assert IdSet(c[..0]) == {};
        WithoutAbsent(store, {});
      } else {
        RemainingAdvances(store, protected, m - 1);
      }
    }
    forall i | 0 <= i < n + 1 ensures Removable(c[i]) {
      if i > 0 {
        assert c[i] == c[1..][i - 1];
      }
    }
    RemainingAdvances(store, protected, n);
  }

  /**
   Eviction deletes the shortest prefix of the unprotected workspaces, least recently used first,
   that brings the store within its caps.  It gives up only when none is left or the next one
   cannot be removed.
   */
  lemma {:induction false} EvictionTakesShortestPrefix(
    store: seq<Entry>, protected: set<string>, slots: nat, limits: Limits) returns (n: nat)
    requires DistinctIds(store)
    ensures EndsAfter(store, protected, slots, limits, Evict(store, protected, slots, limits), n)
    decreases |store|
  {
    var c := Candidates(store, protected);
    if !Over(store, slots, limits) || c == [] || !Removable(c[0]) {
      EndsAtOnce(store, protected, slots, limits);
      n := 0;
    } else {
      CandidateIsStored(store, protected, 0);
      DeleteIsWithout(store, c[0].id);
      DeleteShrinks(store, c[0].id);
      WithoutKeepsDistinct(store, {c[0].id});
      n := EvictionTakesShortestPrefix(Without(store, {c[0].id}), protected, slots, limits);
      OneMoreDeletion(store, protected, slots, limits, Evict(store, protected, slots, limits), n);
      n := n + 1;
    }
  }

  /** Eviction succeeds exactly when some removable prefix of the candidates is enough. */
  lemma EvictionSucceedsExactly(store: seq<Entry>, protected: set<string>, slots: nat, limits: Limits)
    requires DistinctIds(store)
    ensures Evict(store, protected, slots, limits).Within? <==>
      exists n: nat | n <= |Candidates(store, protected)| ::
        (forall i | 0 <= i < n :: Removable(Candidates(store, protected)[i])) &&
        !Over(Remaining(store, protected, n), slots, limits)
  {
    var last := EvictionTakesShortestPrefix(store, protected, slots, limits);
    var outcome := Evict(store, protected, slots, limits);
    forall n: nat | n <= |Candidates(store, protected)|
      ensures !outcome.Within? ==>
        Over(Remaining(store, protected, n), slots, limits) ||
        exists i :: 0 <= i < n && !Removable(Candidates(store, protected)[i])
    {
      if !outcome.Within? && n > last {
        assert !Removable(Candidates(store, protected)[last]);
      }
    }
  }
}
