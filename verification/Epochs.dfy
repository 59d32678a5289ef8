/**
 Authorization epochs: what one session flush does to campaign memberships.  A candidate is a new
 or dirty row of the session, with its new values.
 */
module Epochs {
  import opened Tables

  datatype Key = Key(campaign: string, user: string)

  datatype Member = Member(role: string, status: string, receipt: string)

  datatype MemberRow = MemberRow(member: Member, epoch: int)

  datatype Grants = Grants(canControl: bool, canViewPrivate: bool, status: string, receipt: string)

  datatype Binding = Binding(scope: Key, grants: Grants)

  datatype Db = Db(members: map<Key, MemberRow>, bindings: map<string, Binding>)

  datatype Candidate =
    | NewMember(key: Key, member: Member, epoch: Option<int>)
    | DirtyMember(key: Key, member: Member)
    | NewBinding(id: string, binding: Binding)
    | DirtyBinding(id: string, binding: Binding)

  datatype Notice = AccessChanged(key: Key, epoch: int) | BindingChanged(scope: Key)

  datatype RowId = OfMember(key: Key) | OfBinding(id: string)

  function Target(c: Candidate): RowId {
    match c
    case NewMember(key, _, _) => OfMember(key)
    case DirtyMember(key, _) => OfMember(key)
    case NewBinding(id, _) => OfBinding(id)
    case DirtyBinding(id, _) => OfBinding(id)
  }

  predicate Has(db: Db, row: RowId) {
    match row
    case OfMember(key) => key in db.members
    case OfBinding(id) => id in db.bindings
  }

  predicate IsNew(c: Candidate) { c.NewMember? || c.NewBinding? }

  /** A session holds each row once; new rows are absent from the database, dirty ones present. */
  ghost predicate Flushable(db: Db, cs: seq<Candidate>) {
    && (forall i, j | 0 <= i < j < |cs| :: Target(cs[i]) != Target(cs[j]))
    && (forall i | 0 <= i < |cs| :: Has(db, Target(cs[i])) <==> !IsNew(cs[i]))
    && (forall i | 0 <= i < |cs| && cs[i].DirtyBinding? && cs[i].id in db.bindings ::
          cs[i].binding.scope.campaign == db.bindings[cs[i].id].scope.campaign)
  }

  function Max(a: int, b: int): int { if a < b then b else a }

  // ---- the pass over the candidates ----

  datatype Pass = Pass(db: Db, memberScopes: set<Key>, bindingScopes: set<Key>, notices: seq<Notice>)

  function Visit(p: Pass, c: Candidate): Pass {
    match c
    case NewMember(key, member, given) =>
      var row := MemberRow(member, Max(1, if given.Some? then given.value else 0));
      p.(db := p.db.(members := p.db.members[key := row]),
         memberScopes := p.memberScopes + {key}, notices := p.notices + [AccessChanged(key, row.epoch)])
    case DirtyMember(key, member) =>
      if key in p.db.members && p.db.members[key].member != member then
        var row := MemberRow(member, Max(1, p.db.members[key].epoch) + 1);
        p.(db := p.db.(members := p.db.members[key := row]),
           memberScopes := p.memberScopes + {key}, notices := p.notices + [AccessChanged(key, row.epoch)])
      else p
    case NewBinding(id, binding) =>
      p.(db := p.db.(bindings := p.db.bindings[id := binding]),
         bindingScopes := p.bindingScopes + {binding.scope}, notices := p.notices + [BindingChanged(binding.scope)])
    case DirtyBinding(id, binding) =>
      if id in p.db.bindings && p.db.bindings[id] != binding then
        p.(db := p.db.(bindings := p.db.bindings[id := binding]),
           bindingScopes := p.bindingScopes + {binding.scope}, notices := p.notices + [BindingChanged(binding.scope)])
      else p
  }

  function VisitAll(p: Pass, cs: seq<Candidate>): Pass {
    if cs == [] then p else Visit(VisitAll(p, cs[..|cs| - 1]), cs[|cs| - 1])
  }

  function Begin(db: Db): Pass { Pass(db, {}, {}, []) }

  /** Memberships whose bindings alone changed get one more epoch. */
  function Raise(members: map<Key, MemberRow>, scopes: set<Key>): map<Key, MemberRow> {
    map k | k in members ::
      if k in scopes then members[k].(epoch := Max(1, members[k].epoch + 1)) else members[k]
  }

  function Flush(db: Db, cs: seq<Candidate>): Db {
    var p := VisitAll(Begin(db), cs);
    p.db.(members := Raise(p.db.members, p.bindingScopes - p.memberScopes))
  }

  // ---- what the pass sees ----

  predicate ChangesMember(db: Db, c: Candidate, key: Key) {
    || (c.NewMember? && c.key == key)
    || (c.DirtyMember? && c.key == key && key in db.members && db.members[key].member != c.member)
  }

  predicate ChangesBinding(db: Db, c: Candidate, key: Key) {
    || (c.NewBinding? && c.binding.scope == key)
    || (c.DirtyBinding? && c.binding.scope == key && c.id in db.bindings && db.bindings[c.id] != c.binding)
  }

  ghost predicate MemberChanged(db: Db, cs: seq<Candidate>, key: Key) {
    exists i :: 0 <= i < |cs| && ChangesMember(db, cs[i], key)
  }

  ghost predicate BindingTouched(db: Db, cs: seq<Candidate>, key: Key) {
    exists i :: 0 <= i < |cs| && ChangesBinding(db, cs[i], key)
  }

  /** Rows that no candidate names are as they were. */
  lemma {:induction false} UnnamedRowsStay(db: Db, cs: seq<Candidate>, row: RowId)
    requires forall i | 0 <= i < |cs| :: Target(cs[i]) != row
    ensures var after := VisitAll(Begin(db), cs).db;
      match row
      case OfMember(key) => (key in after.members <==> key in db.members)
                            && (key in db.members ==> after.members[key] == db.members[key])
      case OfBinding(id) => (id in after.bindings <==> id in db.bindings)
                            && (id in db.bindings ==> after.bindings[id] == db.bindings[id])
    decreases |cs|
  {
    if cs != [] {
      UnnamedRowsStay(db, cs[..|cs| - 1], row);
    }
  }

  lemma FlushablePrefix(db: Db, cs: seq<Candidate>)
    requires Flushable(db, cs) && cs != []
    ensures Flushable(db, cs[..|cs| - 1])
    ensures forall i | 0 <= i < |cs| - 1 :: Target(cs[i]) != Target(cs[|cs| - 1])
  {}

  /** One more candidate changes something exactly if it does so for the row as loaded. */
  lemma LastIsJudgedAsLoaded(db: Db, cs: seq<Candidate>, key: Key)
    requires Flushable(db, cs) && cs != []
    ensures MemberChanged(db, cs, key) <==>
      MemberChanged(db, cs[..|cs| - 1], key) || ChangesMember(db, cs[|cs| - 1], key)
    ensures BindingTouched(db, cs, key) <==>
      BindingTouched(db, cs[..|cs| - 1], key) || ChangesBinding(db, cs[|cs| - 1], key)
  {}

  /** The sets that the pass collects. */
  lemma {:induction false} ScopesAreCollected(db: Db, cs: seq<Candidate>, key: Key)
    requires Flushable(db, cs)
    ensures var p := VisitAll(Begin(db), cs);
      && (key in p.memberScopes <==> MemberChanged(db, cs, key))
      && (key in p.bindingScopes <==> BindingTouched(db, cs, key))
    decreases |cs|
  {
    if cs != [] {
      var n := |cs| - 1;
      FlushablePrefix(db, cs);
      ScopesAreCollected(db, cs[..n], key);
      LastIsJudgedAsLoaded(db, cs, key);
      UnnamedRowsStay(db, cs[..n], Target(cs[n]));
    }
  }

  /** One visit raises a membership's epoch exactly if it changes the row as loaded. */
  lemma VisitRaises(db: Db, p: Pass, c: Candidate, key: Key)
    requires key in db.members && key in p.db.members && !(c.NewMember? && c.key == key)
    requires Target(c) == OfMember(key) ==> p.db.members[key] == db.members[key]
    ensures var after := Visit(p, c).db.members;
      key in after && after[key].epoch ==
        if ChangesMember(db, c, key) then Max(1, db.members[key].epoch) + 1 else p.db.members[key].epoch
  {}

  /** The epoch that the pass itself gives a membership that existed before. */
  lemma {:induction false} PassEpoch(db: Db, cs: seq<Candidate>, key: Key)
    requires Flushable(db, cs) && key in db.members
    ensures var after := VisitAll(Begin(db), cs).db.members;
      key in after && after[key].epoch ==
        if MemberChanged(db, cs, key) then Max(1, db.members[key].epoch) + 1 else db.members[key].epoch
    decreases |cs|
  {
    if cs != [] {
      var n := |cs| - 1;
      FlushablePrefix(db, cs);
      PassEpoch(db, cs[..n], key);
      LastIsJudgedAsLoaded(db, cs, key);
      UnnamedRowsStay(db, cs[..n], Target(cs[n]));
      assert Has(db, Target(cs[n])) <==> !IsNew(cs[n]);
      VisitRaises(db, VisitAll(Begin(db), cs[..n]), cs[n], key);
    }
  }

  /**
   A flush raises an existing membership's epoch once if its own tracked fields changed or a binding
   in its scope did, however many of them changed, and leaves every other epoch alone.
   */
  lemma EpochRisesOnce(db: Db, cs: seq<Candidate>, key: Key)
    requires Flushable(db, cs) && key in db.members
    ensures key in Flush(db, cs).members
    ensures Flush(db, cs).members[key].epoch ==
      if MemberChanged(db, cs, key) then Max(1, db.members[key].epoch) + 1
      else if BindingTouched(db, cs, key) then Max(1, db.members[key].epoch + 1)
      else db.members[key].epoch
    ensures db.members[key].epoch >= 1 ==>
      Flush(db, cs).members[key].epoch == db.members[key].epoch +
        if MemberChanged(db, cs, key) || BindingTouched(db, cs, key) then 1 else 0
  {
    PassEpoch(db, cs, key);
    ScopesAreCollected(db, cs, key);
  }

  // ---- what a user may see ----

  datatype Access = Access(member: Member, bindings: map<string, Grants>)

  /** What decides which panel a member may see: the membership and the member's bindings. */
  function AccessOf(db: Db, key: Key): Access
    requires key in db.members
  {
    Access(db.members[key].member, map id | id in db.bindings && db.bindings[id].scope == key :: db.bindings[id].grants)
  }

  /** A binding is handed from this user to another. */
  ghost predicate MovesAway(db: Db, cs: seq<Candidate>, key: Key) {
    exists i :: 0 <= i < |cs| && cs[i].DirtyBinding? && cs[i].id in db.bindings
                && db.bindings[cs[i].id].scope == key && cs[i].binding.scope != key
  }

  /** A row after the pass: as its only candidate says. */
  lemma {:induction false} NamedRowAfter(db: Db, cs: seq<Candidate>, i: nat)
    requires Flushable(db, cs) && i < |cs|
    ensures var after := VisitAll(Begin(db), cs).db;
      match cs[i]
      case NewMember(key, member, _) => key in after.members && after.members[key].member == member
      case DirtyMember(key, member) => key in after.members && after.members[key].member == member
      case NewBinding(id, binding) => id in after.bindings && after.bindings[id] == binding
      case DirtyBinding(id, binding) => id in after.bindings && after.bindings[id] == binding
    decreases |cs|
  {
    var n := |cs| - 1;
    FlushablePrefix(db, cs);
    if i < n {
      NamedRowAfter(db, cs[..n], i);
      assert Target(cs[i]) != Target(cs[n]);
    } else {
      UnnamedRowsStay(db, cs[..n], Target(cs[n]));
    }
  }

  predicate Names(cs: seq<Candidate>, row: RowId) { exists i | 0 <= i < |cs| :: Target(cs[i]) == row }

  lemma MemberAfter(db: Db, cs: seq<Candidate>, key: Key)
    requires Flushable(db, cs) && key in db.members
    ensures key in Flush(db, cs).members
    ensures Flush(db, cs).members[key].member != db.members[key].member <==> MemberChanged(db, cs, key)
  {
    PassEpoch(db, cs, key);
    if Names(cs, OfMember(key)) {
      var i :| 0 <= i < |cs| && Target(cs[i]) == OfMember(key);
      NamedRowAfter(db, cs, i);
      assert MemberChanged(db, cs, key) <==> ChangesMember(db, cs[i], key);
    } else {
      UnnamedRowsStay(db, cs, OfMember(key));
    }
  }

  /** What a flush does to one binding. */
  lemma BindingAfter(db: Db, cs: seq<Candidate>, id: string)
    requires Flushable(db, cs)
    ensures var after := Flush(db, cs).bindings;
      if Names(cs, OfBinding(id)) then
        exists i | 0 <= i < |cs| :: Target(cs[i]) == OfBinding(id) && id in after && after[id] == cs[i].binding
      else (id in after <==> id in db.bindings) && (id in db.bindings ==> after[id] == db.bindings[id])
  {
    if Names(cs, OfBinding(id)) {
      var i :| 0 <= i < |cs| && Target(cs[i]) == OfBinding(id);
      NamedRowAfter(db, cs, i);
    } else {
      UnnamedRowsStay(db, cs, OfBinding(id));
    }
  }

  lemma TouchedMeansDifferent(db: Db, cs: seq<Candidate>, key: Key)
    requires Flushable(db, cs) && key in db.members && key in Flush(db, cs).members
    requires BindingTouched(db, cs, key)
    ensures AccessOf(Flush(db, cs), key).bindings != AccessOf(db, key).bindings
  {
    var i :| 0 <= i < |cs| && ChangesBinding(db, cs[i], key);
    NamedRowAfter(db, cs, i);
    var before, after := AccessOf(db, key).bindings, AccessOf(Flush(db, cs), key).bindings;
    assert cs[i].id in after && after[cs[i].id] == cs[i].binding.grants;
    if cs[i].id in before {
      assert db.bindings[cs[i].id].grants != cs[i].binding.grants;
    }
  }

  lemma UntouchedMeansSame(db: Db, cs: seq<Candidate>, key: Key)
    requires Flushable(db, cs) && key in db.members && key in Flush(db, cs).members
    requires !BindingTouched(db, cs, key) && !MovesAway(db, cs, key)
    ensures AccessOf(Flush(db, cs), key).bindings == AccessOf(db, key).bindings
  {
    var flushed := Flush(db, cs).bindings;
    forall id
      ensures id in flushed && flushed[id].scope == key <==> id in db.bindings && db.bindings[id].scope == key
      ensures id in flushed && flushed[id].scope == key ==> id in db.bindings && flushed[id] == db.bindings[id]
    {
      BindingAfter(db, cs, id);
      if Names(cs, OfBinding(id)) {
        var i :| 0 <= i < |cs| && Target(cs[i]) == OfBinding(id) && id in flushed && flushed[id] == cs[i].binding;
        assert !ChangesBinding(db, cs[i], key);
      }
    }
  }

  lemma MovedMeansDifferent(db: Db, cs: seq<Candidate>, key: Key)
    requires Flushable(db, cs) && key in db.members && key in Flush(db, cs).members
    requires MovesAway(db, cs, key)
    ensures AccessOf(Flush(db, cs), key).bindings != AccessOf(db, key).bindings
  {
    var i :| 0 <= i < |cs| && cs[i].DirtyBinding? && cs[i].id in db.bindings
      && db.bindings[cs[i].id].scope == key && cs[i].binding.scope != key;
    NamedRowAfter(db, cs, i);
    assert cs[i].id in AccessOf(db, key).bindings && cs[i].id !in AccessOf(Flush(db, cs), key).bindings;
  }

  /** The epoch rises by one if what the member may see has changed, and stays otherwise. */
  predicate EpochTracksAccess(db: Db, next: Db, key: Key)
    requires key in db.members && key in next.members
  {
    next.members[key].epoch == db.members[key].epoch + if AccessOf(next, key) != AccessOf(db, key) then 1 else 0
  }

  /** The flush does not take a binding away from the member without changing anything else of theirs. */
  ghost predicate Noticed(db: Db, cs: seq<Candidate>, key: Key) {
    !MovesAway(db, cs, key) || MemberChanged(db, cs, key) || BindingTouched(db, cs, key)
  }

  /**
   Exactly when a member's epoch follows what the member may see: unless a binding is handed to
   someone else while neither the membership nor another of the member's bindings changes.
   */
  lemma EpochFollowsAccess(db: Db, cs: seq<Candidate>, key: Key)
    requires Flushable(db, cs) && key in db.members && db.members[key].epoch >= 1
    ensures key in Flush(db, cs).members
    ensures EpochTracksAccess(db, Flush(db, cs), key) <==> Noticed(db, cs, key)
  {
    EpochRisesOnce(db, cs, key);
    MemberAfter(db, cs, key);
    if BindingTouched(db, cs, key) {
      TouchedMeansDifferent(db, cs, key);
    } else if MovesAway(db, cs, key) {
      MovedMeansDifferent(db, cs, key);
    } else {
      UntouchedMeansSame(db, cs, key);
    }
  }

  /** The failing case, for every binding: handed over alone, it changes its former user's access unnoticed. */
  lemma HandedOverBindingGoesUnnoticed(db: Db, id: string, user: string)
    requires id in db.bindings && db.bindings[id].scope in db.members
    requires db.bindings[id].scope.user != user
    ensures
      var key := db.bindings[id].scope;
      var cs := [DirtyBinding(id, db.bindings[id].(scope := key.(user := user)))];
      && Flushable(db, cs) && !Noticed(db, cs, key) && key in Flush(db, cs).members
      && AccessOf(Flush(db, cs), key) != AccessOf(db, key)
      && Flush(db, cs).members[key].epoch == db.members[key].epoch
  {
    var key := db.bindings[id].scope;
    var cs := [DirtyBinding(id, db.bindings[id].(scope := key.(user := user)))];
    assert cs[0].DirtyBinding? && Flushable(db, cs) && MovesAway(db, cs, key);
    assert !ChangesMember(db, cs[0], key) && !ChangesBinding(db, cs[0], key);
    EpochRisesOnce(db, cs, key);
    MovedMeansDifferent(db, cs, key);
  }

  /** A flush never lowers an epoch, and gives every new membership a positive one. */
  lemma EpochsStayPositive(db: Db, cs: seq<Candidate>, key: Key)
    requires Flushable(db, cs) && key in Flush(db, cs).members
    requires key in db.members ==> db.members[key].epoch >= 1
    ensures Flush(db, cs).members[key].epoch >= 1
    ensures key in db.members ==> Flush(db, cs).members[key].epoch >= db.members[key].epoch
  {
    if key in db.members {
      EpochRisesOnce(db, cs, key);
    } else {
      NewEpochIsPositive(db, cs, key);
    }
  }

  lemma {:induction false} NewEpochIsPositive(db: Db, cs: seq<Candidate>, key: Key)
    requires key !in db.members && key in VisitAll(Begin(db), cs).db.members
    ensures VisitAll(Begin(db), cs).db.members[key].epoch >= 1
    decreases |cs|
  {
    if cs != [] {
      if key in VisitAll(Begin(db), cs[..|cs| - 1]).db.members {
        NewEpochIsPositive(db, cs[..|cs| - 1], key);
      }
    }
  }

  // ---- notices ----

  lemma {:induction false} NoticesAreOfScopes(db: Db, cs: seq<Candidate>, n: Notice)
    requires Flushable(db, cs) && n in VisitAll(Begin(db), cs).notices && n.AccessChanged?
    ensures var p := VisitAll(Begin(db), cs);
      n.key in p.memberScopes && n.key in p.db.members && p.db.members[n.key].epoch == n.epoch
      && Names(cs, OfMember(n.key))
    decreases |cs|
  {
    if cs != [] {
      var last := |cs| - 1;
      FlushablePrefix(db, cs);
      UnnamedRowsStay(db, cs[..last], Target(cs[last]));
      if n in VisitAll(Begin(db), cs[..last]).notices {
        NoticesAreOfScopes(db, cs[..last], n);
        var i :| 0 <= i < last && Target(cs[..last][i]) == OfMember(n.key);
        assert Target(cs[i]) == OfMember(n.key);
      } else {
        assert Target(cs[last]) == OfMember(n.key);
      }
    }
  }

  /** An access notice carries the epoch that the membership has when the flush is over. */
  lemma NoticeCarriesFinalEpoch(db: Db, cs: seq<Candidate>, n: Notice)
    requires Flushable(db, cs) && n in VisitAll(Begin(db), cs).notices && n.AccessChanged?
    ensures n.key in Flush(db, cs).members && Flush(db, cs).members[n.key].epoch == n.epoch
  {
    NoticesAreOfScopes(db, cs, n);
  }
}
