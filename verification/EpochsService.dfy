/** The flush listener and the panel table, changing rows in place. */
module EpochsService {
  import opened Tables
  import opened Epochs
  import opened PanelProjections

  class FlushSession {
    var members: map<Key, MemberRow>
    var bindings: map<string, Binding>
    var outbox: seq<Notice>

    ghost function Contents(): Db
      reads this
    {
      Db(members, bindings)
    }

    constructor (members: map<Key, MemberRow>, bindings: map<string, Binding>)
      ensures Contents() == Db(members, bindings) && outbox == []
    {
      this.members, this.bindings, outbox := members, bindings, [];
    }

    /** One new or dirty row: its own change, the scopes it changes, and the entry it leads to. */
    method VisitCandidate(c: Candidate, memberScopes: set<Key>, bindingScopes: set<Key>, entries: seq<Notice>)
      returns (memberScopes': set<Key>, bindingScopes': set<Key>, entries': seq<Notice>)
      modifies this`members, this`bindings
      ensures Pass(Contents(), memberScopes', bindingScopes', entries')
        == Visit(Pass(old(Contents()), memberScopes, bindingScopes, entries), c)
    {
      memberScopes', bindingScopes', entries' := memberScopes, bindingScopes, entries;
      match c {
        case NewMember(key, member, given) =>
          var epoch := Max(1, if given.Some? then given.value else 0);
          members := members[key := MemberRow(member, epoch)];
          memberScopes', entries' := memberScopes + {key}, entries + [AccessChanged(key, epoch)];
        case DirtyMember(key, member) =>
          if key in members && members[key].member != member {
            var epoch := Max(1, members[key].epoch);
            epoch := epoch + 1;
            members := members[key := MemberRow(member, epoch)];
            memberScopes', entries' := memberScopes + {key}, entries + [AccessChanged(key, epoch)];
          }
        case NewBinding(id, binding) =>
          bindings := bindings[id := binding];
          bindingScopes', entries' := bindingScopes + {binding.scope}, entries + [BindingChanged(binding.scope)];
        case DirtyBinding(id, binding) =>
          if id in bindings && bindings[id] != binding {
            bindings := bindings[id := binding];
            bindingScopes', entries' := bindingScopes + {binding.scope}, entries + [BindingChanged(binding.scope)];
          }
      }
    }

    /** Raises the epoch of every membership in the scopes, one at a time. */
    method RaiseScopes(scopes: set<Key>)
      modifies this`members
      ensures members == Raise(old(members), scopes)
    {
      ghost var before := members;
      var todo := scopes;
      while exists k :: k in todo
        invariant todo <= scopes && members.Keys == before.Keys
        invariant forall k | k in before && k in scopes - todo ::
          members[k] == before[k].(epoch := Max(1, before[k].epoch + 1))
        invariant forall k | k in before && k !in scopes - todo :: members[k] == before[k]
        decreases todo
      {
        var k :| k in todo;
        if k in members {
          members := members[k := members[k].(epoch := Max(1, members[k].epoch + 1))];
        }
        todo := todo - {k};
      }
    }

    /** The listener: a pass over the candidates, then the memberships whose bindings alone changed. */
    method BeforeFlush(candidates: seq<Candidate>)
      modifies this
      ensures Contents() == Flush(old(Contents()), candidates)
      ensures outbox == old(outbox) + VisitAll(Begin(old(Contents())), candidates).notices
    {
      var memberScopes, bindingScopes: set<Key>, entries: seq<Notice> := {}, {}, [];
      for i := 0 to |candidates|
        invariant outbox == old(outbox)
        invariant Pass(Contents(), memberScopes, bindingScopes, entries)
          == VisitAll(Begin(old(Contents())), candidates[..i])
      {
        assert candidates[..i + 1][..i] == candidates[..i];
        memberScopes, bindingScopes, entries := VisitCandidate(candidates[i], memberScopes, bindingScopes, entries);
      }
      assert candidates[..|candidates|] == candidates;
      RaiseScopes(bindingScopes - memberScopes);
      outbox := outbox + entries;
    }
  }

  class PanelTable {
    var panels: map<Key, Panel>
    var clock: int

    ghost function View(db: Db): World
      reads this
    {
      World(db, panels, clock)
    }

    constructor ()
      ensures panels == map[] && clock == 0
    {
      panels, clock := map[], 0;
    }

    method LoadPanel(key: Key, revision: int, epoch: int, maxAge: Option<nat>, ghost db: Db)
      returns (payload: Option<string>)
      ensures payload == Load(View(db), key, revision, epoch, maxAge)
    {
      if key !in panels {
        return None;
      }
      var item := panels[key];
      if item.revision != revision || item.epoch != epoch || item.schema != SCHEMA_VERSION {
        return None;
      }
      if maxAge.Some? && item.updatedAt < clock - maxAge.value {
        return None;
      }
      return Some(item.payload);
    }

    method StorePanel(key: Key, revision: int, epoch: int, payload: string, ghost db: Db)
      modifies this`panels
      ensures View(db) == Put(old(View(db)), key, revision, epoch, payload)
    {
      var item := if key in panels then panels[key] else Panel(revision, epoch, SCHEMA_VERSION, payload, clock);
      var written := item.(revision := revision, epoch := epoch, schema := SCHEMA_VERSION, payload := payload);
      if written != item || key !in panels {
        panels := panels[key := written.(updatedAt := clock)];
      }
    }

    /** Deletes one campaign's panels, or one audience's; returns how many there were. */
    method InvalidatePanels(campaign: string, audience: Option<string>, ghost db: Db) returns (count: nat)
      modifies this`panels
      ensures View(db) == Invalidate(old(View(db)), campaign, audience)
      ensures count == |old(panels)| - |panels|
    {
      var doomed := set k | k in panels && Covers(k, campaign, audience);
      assert |panels.Keys| == |panels|;
      assert (panels - doomed).Keys == panels.Keys - doomed;
      count := |doomed|;
      panels := panels - doomed;
      assert |panels.Keys| == |panels|;
    }
  }
}
