/** Which notices a flush sends. */
module EpochNotices {
  import opened Tables
  import opened Epochs

  function AccessNotice(key: Key): Notice -> int { (n: Notice) => if n.AccessChanged? && n.key == key then 1 else 0 }

  function BindingNotice(scope: Key): Notice -> int {
    (n: Notice) => if n.BindingChanged? && n.scope == scope then 1 else 0
  }

  /** Candidates that give a binding of the scope another value, or make one. */
  function Touches(db: Db, scope: Key): Candidate -> int {
    (c: Candidate) => if ChangesBinding(db, c, scope) then 1 else 0
  }

  /** A notice is counted for its own key alone. */
  lemma OneNotice(notices: seq<Notice>, n: Notice, key: Key)
    ensures SumBy(notices + [n], AccessNotice(key))
      == SumBy(notices, AccessNotice(key)) + if n.AccessChanged? && n.key == key then 1 else 0
    ensures SumBy(notices + [n], BindingNotice(key))
      == SumBy(notices, BindingNotice(key)) + if n.BindingChanged? && n.scope == key then 1 else 0
  {
    SumAppend(notices, n, AccessNotice(key));
    SumAppend(notices, n, BindingNotice(key));
  }

  /** The candidate's row is as it was loaded. */
  ghost predicate AsLoaded(db: Db, p: Pass, c: Candidate) {
    match c
    case DirtyMember(key, _) => key in p.db.members && key in db.members && p.db.members[key] == db.members[key]
    case DirtyBinding(id, _) => id in p.db.bindings && id in db.bindings && p.db.bindings[id] == db.bindings[id]
    case _ => true
  }

  /** Whether the candidate's row is new or changed. */
  predicate Writes(db: Db, c: Candidate) {
    match c
    case DirtyMember(key, member) => key in db.members && db.members[key].member != member
    case DirtyBinding(id, binding) => id in db.bindings && db.bindings[id] != binding
    case _ => true
  }

  lemma VisitNotice(db: Db, p: Pass, c: Candidate)
    requires AsLoaded(db, p, c)
    ensures !Writes(db, c) ==> Visit(p, c).notices == p.notices
    ensures Writes(db, c) ==>
      |Visit(p, c).notices| == |p.notices| + 1
      && var n := Visit(p, c).notices[|p.notices|];
         Visit(p, c).notices == p.notices + [n]
         && match c
            case NewMember(key, _, _) => n.AccessChanged? && n.key == key
            case DirtyMember(key, _) => n.AccessChanged? && n.key == key
            case NewBinding(_, binding) => n == BindingChanged(binding.scope)
            case DirtyBinding(_, binding) => n == BindingChanged(binding.scope)
  {}

  /** What one visit sends. */
  lemma VisitSends(db: Db, p: Pass, c: Candidate, key: Key)
    requires AsLoaded(db, p, c)
    ensures SumBy(Visit(p, c).notices, AccessNotice(key))
      == SumBy(p.notices, AccessNotice(key)) + if ChangesMember(db, c, key) then 1 else 0
    ensures SumBy(Visit(p, c).notices, BindingNotice(key))
      == SumBy(p.notices, BindingNotice(key)) + Touches(db, key)(c)
  {
    VisitNotice(db, p, c);
    if Writes(db, c) {
      OneNotice(p.notices, Visit(p, c).notices[|p.notices|], key);
    }
  }

  /**
   A flush sends exactly one access notice for each membership that is new or changed, and one binding
   notice, under its new owner, for each binding that is new or changed; and none for any other.
   */
  lemma {:induction false} NoticesAreSent(db: Db, cs: seq<Candidate>, key: Key)
    requires Flushable(db, cs)
    ensures var notices := VisitAll(Begin(db), cs).notices;
      && SumBy(notices, AccessNotice(key)) == (if MemberChanged(db, cs, key) then 1 else 0)
      && SumBy(notices, BindingNotice(key)) == SumBy(cs, Touches(db, key))
    decreases |cs|
  {
    if cs != [] {
      var n := |cs| - 1;
      FlushablePrefix(db, cs);
      NoticesAreSent(db, cs[..n], key);
      LastIsAsLoaded(db, cs);
      VisitSends(db, VisitAll(Begin(db), cs[..n]), cs[n], key);
      LastIsJudgedAsLoaded(db, cs, key);
      OnlyOneChanges(db, cs, key);
    }
  }

  lemma LastIsAsLoaded(db: Db, cs: seq<Candidate>)
    requires Flushable(db, cs) && cs != []
    ensures AsLoaded(db, VisitAll(Begin(db), cs[..|cs| - 1]), cs[|cs| - 1])
  {
    var n := |cs| - 1;
    FlushablePrefix(db, cs);
    UnnamedRowsStay(db, cs[..n], Target(cs[n]));
    assert Has(db, Target(cs[n])) <==> !IsNew(cs[n]);
  }

  lemma OnlyOneChanges(db: Db, cs: seq<Candidate>, key: Key)
    requires Flushable(db, cs) && cs != []
    ensures ChangesMember(db, cs[|cs| - 1], key) ==> !MemberChanged(db, cs[..|cs| - 1], key)
  {}

  /** A new membership has the epoch that it was given, or the first one if it was given none that is positive. */
  lemma NewMembershipEpoch(db: Db, cs: seq<Candidate>, i: nat)
    requires Flushable(db, cs) && i < |cs| && cs[i].NewMember?
    ensures cs[i].key in Flush(db, cs).members
    ensures Flush(db, cs).members[cs[i].key] ==
      MemberRow(cs[i].member, if cs[i].epoch.Some? && cs[i].epoch.value > 1 then cs[i].epoch.value else 1)
  {
    NewRowAfter(db, cs, i);
    ScopesAreCollected(db, cs, cs[i].key);
    assert ChangesMember(db, cs[i], cs[i].key);
  }

  lemma {:induction false} NewRowAfter(db: Db, cs: seq<Candidate>, i: nat)
    requires Flushable(db, cs) && i < |cs| && cs[i].NewMember?
    ensures var after := VisitAll(Begin(db), cs).db.members;
      cs[i].key in after && after[cs[i].key] ==
        MemberRow(cs[i].member, if cs[i].epoch.Some? && cs[i].epoch.value > 1 then cs[i].epoch.value else 1)
    decreases |cs|
  {
    var n := |cs| - 1;
    FlushablePrefix(db, cs);
    if i < n {
      NewRowAfter(db, cs[..n], i);
      assert Target(cs[i]) != Target(cs[n]);
    }
  }
}
