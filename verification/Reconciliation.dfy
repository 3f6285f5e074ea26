/** Recovery plans, and the state of all nodes after they are applied. */
module Reconciliation {
  import opened Recovery

  // ----- plans ----------------------------------------------------------------------------------------

  datatype Plan = Plan(updates: seq<Modification>, deletes: seq<Modification>)

  predicate Ascending(ms: seq<Modification>) {
    forall i, j :: 0 <= i < j < |ms| ==> ms[i].id < ms[j].id
  }

  /** One record per id. */
  predicate UniqueIds(my: seq<Modification>) {
    forall i, j :: 0 <= i < |my| && 0 <= j < |my| && my[i].id == my[j].id ==> i == j
  }

  /** The local record already says what the snapshots together say. */
  ghost predicate InSync(m: Modification, s: Records) {
    m.status == COMPLETED && m.persisted == AnyPersisted(s, m.id) && IsSerial(s, m.id, m.serial)
  }

  /** u is what the snapshots together say about id. */
  ghost predicate IsRollForward(u: Modification, id: int, s: Records) {
    && u.id == id && u.status == COMPLETED && u.persisted == AnyPersisted(s, id) && IsSerial(s, id, u.serial)
    && exists q :: q in s && q.id == id && q.status == COMPLETED && u.request == q.request && u.input == q.input
  }

  ghost predicate NeedsUpdate(m: Modification, s: Records) {
    AnyCompleted(s, m.id) && !InSync(m, s)
  }

  ghost predicate NeedsDelete(m: Modification, s: Records) {
    Holds(s, m.id) && !AnyCompleted(s, m.id)
  }

  /** The plan for the local records whose ids satisfy `scope`. */
  ghost predicate IsPlanFor(plan: Plan, my: seq<Modification>, s: Records, scope: int -> bool) {
    && Ascending(plan.updates) && Ascending(plan.deletes)
    && (forall d :: d in plan.deletes <==> d in my && scope(d.id) && NeedsDelete(d, s))
    && (forall u :: u in plan.updates ==>
          && scope(u.id) && IsRollForward(u, u.id, s)
          && exists m :: m in my && m.id == u.id && NeedsUpdate(m, s))
    && (forall m :: m in my && scope(m.id) && NeedsUpdate(m, s) ==> exists u :: u in plan.updates && u.id == m.id)
  }

  ghost predicate IsPlan(plan: Plan, my: seq<Modification>, s: Records) {
    IsPlanFor(plan, my, s, _ => true)
  }

  method Find(my: seq<Modification>, id: int) returns (r: Option<Modification>)
    ensures r.Some? ==> r.value in my && r.value.id == id
    ensures r.None? ==> forall m :: m in my ==> m.id != id
  {
    for i := 0 to |my|
      invariant forall j :: 0 <= j < i ==> my[j].id != id
    {
      if my[i].id == id {
        return Some(my[i]);
      }
    }
    return None;
  }

  /** What is planned for the local copy of one group. */
  datatype Action = Update(u: Modification) | Delete(d: Modification) | Keep

  ghost predicate IsAction(action: Action, local: Option<Modification>, id: int, s: Records) {
    match action
    case Update(u) => local.Some? && NeedsUpdate(local.value, s) && IsRollForward(u, id, s)
    case Delete(d) => local == Some(d) && NeedsDelete(d, s)
    case Keep => local.Some? ==> !NeedsUpdate(local.value, s) && !NeedsDelete(local.value, s)
  }

  method Decide(group: Group, local: Option<Modification>, ghost s: Records) returns (action: Action)
    requires OwnGroup(group) && ConsistentAt(Elements(group.mods), group.id)
    requires (local.Some? ==> local.value.id == group.id)
    requires forall m :: m in group.mods <==> m in s && m.id == group.id
    ensures IsAction(action, local, group.id, s)
  {
    var mods := group.mods;
    assert mods[0] in mods;
    var anyCompleted := exists i :: 0 <= i < |mods| && mods[i].status == COMPLETED;
    var allInProgress := forall i :: 0 <= i < |mods| ==> mods[i].status == IN_PROGRESS;
    var anyPersisted := exists i :: 0 <= i < |mods| && mods[i].persisted;
    assert anyCompleted <==> AnyCompleted(s, group.id) by { CompletedIn(mods, group.id, s); }
    assert anyPersisted <==> AnyPersisted(s, group.id) by { PersistedIn(mods, group.id, s); }
    assert allInProgress <==> !anyCompleted by { OnlyTwoStates(mods, group.id); }
    if allInProgress {
      if local.Some? {
        assert Holds(s, group.id);
        return Delete(local.value);
      }
      return Keep;
    }
    var serial := FirstSerial(mods);
    SerialOf(mods, group.id, s);
    if local.None? {
      return Keep;
    }
    assert local.value.serial == serial <==> IsSerial(s, group.id, local.value.serial) by {
      SerialEither(mods, group.id, s, local.value.serial);
    }
    if local.value.status != COMPLETED || local.value.persisted != anyPersisted || local.value.serial != serial {
      var first := FirstCompleted(mods, serial);
      action := Update(first.(status := COMPLETED, persisted := anyPersisted, serial := serial));
      return;
    }
    return Keep;
  }

  lemma CompletedIn(mods: seq<Modification>, id: int, s: Records)
    requires forall m :: m in mods <==> m in s && m.id == id
    ensures (exists i :: 0 <= i < |mods| && mods[i].status == COMPLETED) <==> AnyCompleted(s, id)
  {
    if AnyCompleted(s, id) {
      var m :| m in s && m.id == id && m.status == COMPLETED;
      assert m in mods;
    }
    if i :| 0 <= i < |mods| && mods[i].status == COMPLETED {
      assert mods[i] in mods;
    }
  }

  lemma PersistedIn(mods: seq<Modification>, id: int, s: Records)
    requires forall m :: m in mods <==> m in s && m.id == id
    ensures (exists i :: 0 <= i < |mods| && mods[i].persisted) <==> AnyPersisted(s, id)
  {
    if AnyPersisted(s, id) {
      var m :| m in s && m.id == id && m.persisted;
      assert m in mods;
    }
    if i :| 0 <= i < |mods| && mods[i].persisted {
      assert mods[i] in mods;
    }
  }

  lemma OnlyTwoStates(mods: seq<Modification>, id: int)
    requires mods != [] && ConsistentAt(Elements(mods), id) && forall m :: m in mods ==> m.id == id
    ensures (forall i :: 0 <= i < |mods| ==> mods[i].status == IN_PROGRESS)
       <==> !exists i :: 0 <= i < |mods| && mods[i].status == COMPLETED
  {
    assert forall i :: 0 <= i < |mods| ==> mods[i] in Elements(mods) && KnownStatus(mods[i]);
    assert mods[0].status == IN_PROGRESS || mods[0].status == COMPLETED;
    assert IN_PROGRESS[0] != COMPLETED[0];
  }

  lemma SerialOf(mods: seq<Modification>, id: int, s: Records)
    requires forall m :: m in mods <==> m in s && m.id == id
    ensures IsSerial(s, id, FirstSerial(mods))
  {
    FirstSerialFound(mods);
  }

  lemma SerialEither(mods: seq<Modification>, id: int, s: Records, x: Option<int>)
    requires ConsistentAt(Elements(mods), id) && forall m :: m in mods <==> m in s && m.id == id
    ensures x == FirstSerial(mods) <==> IsSerial(s, id, x)
  {
    SerialOf(mods, id, s);
    assert ConsistentAt(s, id);
    if IsSerial(s, id, x) {
      SerialUnique(s, id, x, FirstSerial(mods));
    }
  }

  // ----- comparing ---------------------------------------------------------------------------------------

  /** The ids of the first n groups. */
  ghost function Among(gs: seq<Group>, n: nat): (scope: int -> bool)
    requires n <= |gs|
  {
    id => exists j :: 0 <= j < n && gs[j].id == id
  }

  lemma NextGroup(plan: Plan, next: Plan, my: seq<Modification>, s: Records, gs: seq<Group>, n: nat,
                  local: Option<Modification>, action: Action)
    requires Grouped(gs) && n < |gs| && UniqueIds(my) && IsPlanFor(plan, my, s, Among(gs, n))
    requires IsAction(action, local, gs[n].id, s)
    requires local.Some? ==> local.value in my && local.value.id == gs[n].id
    requires local.None? ==> forall m :: m in my ==> m.id != gs[n].id
    requires next == Plan(plan.updates + (if action.Update? then [action.u] else []),
                          plan.deletes + (if action.Delete? then [action.d] else []))
    ensures IsPlanFor(next, my, s, Among(gs, n + 1))
  {
    var done, now := Among(gs, n), Among(gs, n + 1);
    assert forall id :: now(id) <==> done(id) || id == gs[n].id;
    assert !done(gs[n].id);
    assert forall m :: m in my && m.id == gs[n].id ==> local.Some? && m == local.value by {
      OnlyLocal(my, local, gs[n].id);
    }
    AscendingNext(plan, next, my, s, gs, n, action, local);
    forall m | m in my && now(m.id) && NeedsUpdate(m, s)
      ensures exists u :: u in next.updates && u.id == m.id
    {
      if done(m.id) {
        var u :| u in plan.updates && u.id == m.id;
        assert u in next.updates;
      } else {
        assert action.u in next.updates;
      }
    }
  }

  lemma OnlyLocal(my: seq<Modification>, local: Option<Modification>, id: int)
    requires UniqueIds(my)
    requires local.Some? ==> local.value in my && local.value.id == id
    requires local.None? ==> forall m :: m in my ==> m.id != id
    ensures forall m :: m in my && m.id == id ==> local.Some? && m == local.value
  {
  }

  lemma AscendingAppend(ms: seq<Modification>, x: Modification)
    requires Ascending(ms) && forall m :: m in ms ==> m.id < x.id
    ensures Ascending(ms + [x])
  {
  }

  lemma EarlierIds(plan: Plan, my: seq<Modification>, s: Records, gs: seq<Group>, n: nat)
    requires Grouped(gs) && n < |gs| && IsPlanFor(plan, my, s, Among(gs, n))
    ensures (forall u :: u in plan.updates ==> u.id < gs[n].id) && (forall d :: d in plan.deletes ==> d.id < gs[n].id)
  {
    forall u | u in plan.updates
      ensures u.id < gs[n].id
    {
      assert Among(gs, n)(u.id);
    }
    forall d | d in plan.deletes
      ensures d.id < gs[n].id
    {
      assert Among(gs, n)(d.id);
    }
  }

  lemma AscendingNext(plan: Plan, next: Plan, my: seq<Modification>, s: Records, gs: seq<Group>, n: nat, action: Action,
                      local: Option<Modification>)
    requires Grouped(gs) && n < |gs| && IsPlanFor(plan, my, s, Among(gs, n)) && IsAction(action, local, gs[n].id, s)
    requires local.Some? ==> local.value.id == gs[n].id
    requires next == Plan(plan.updates + (if action.Update? then [action.u] else []),
                          plan.deletes + (if action.Delete? then [action.d] else []))
    ensures Ascending(next.updates) && Ascending(next.deletes)
  {
    EarlierIds(plan, my, s, gs, n);
    if action.Update? {
      AscendingAppend(plan.updates, action.u);
    } else {
      assert next.updates == plan.updates;
    }
    if action.Delete? {
      AscendingAppend(plan.deletes, action.d);
    } else {
      assert next.deletes == plan.deletes;
    }
  }

  ghost predicate ConsistentUpTo(gs: seq<Group>, s: Records, n: nat) {
    n <= |gs| && forall i :: 0 <= i < n ==> ConsistentAt(s, gs[i].id)
  }

  lemma ConsistentGroups(gs: seq<Group>, s: Records)
    requires Grouped(gs) && (forall x :: InGroups(gs, x) <==> x in s) && ConsistentUpTo(gs, s, |gs|)
    ensures Consistent(s)
  {
    forall m | m in s
      ensures ConsistentAt(s, m.id)
    {
      assert Holds(s, m.id);
      GroupsCover(gs, s, m.id);
    }
  }

  lemma ContradictedGroup(s: Records, id: int)
    requires !ConsistentAt(s, id)
    ensures !Consistent(s)
  {
  }

  /** Updates and deletes for the local node, in the order of ids; refused exactly when some copies
      contradict each other. */
  method CompareModifications(my: seq<Modification>, all: seq<seq<Modification>>) returns (r: Outcome<Plan>)
    requires UniqueIds(my)
    ensures r.Planned? <==> Consistent(Union(all))
    ensures r.Planned? ==> IsPlan(r.plan, my, Union(all))
  {
    ghost var s := Union(all);
    var gs := GroupAll(all);
    var plan := Plan([], []);
    for n := 0 to |gs|
      invariant IsPlanFor(plan, my, s, Among(gs, n)) && ConsistentUpTo(gs, s, n)
    {
      var ok, next := HandleGroup(gs, n, my, plan, s);
      if !ok {
        ContradictedGroup(s, gs[n].id);
        return Refused;
      }
      plan := next;
    }
    ConsistentGroups(gs, s);
    WholePlan(plan, my, s, gs);
    return Planned(plan);
  }

  method HandleGroup(gs: seq<Group>, n: nat, my: seq<Modification>, plan: Plan, ghost s: Records)
    returns (ok: bool, next: Plan)
    requires Grouped(gs) && (forall x :: InGroups(gs, x) <==> x in s) && n < |gs| && UniqueIds(my)
    requires IsPlanFor(plan, my, s, Among(gs, n))
    ensures ok <==> ConsistentAt(s, gs[n].id)
    ensures ok ==> IsPlanFor(next, my, s, Among(gs, n + 1))
  {
    GroupAgrees(gs, s, n);
    assert OwnGroup(gs[n]);
    next := plan;
    ok := CheckConsistency(gs[n]);
    if ok {
      var local := Find(my, gs[n].id);
      ExactGroup(gs, s, n);
      var action := Decide(gs[n], local, s);
      next := Plan(plan.updates + (if action.Update? then [action.u] else []),
                   plan.deletes + (if action.Delete? then [action.d] else []));
      NextGroup(plan, next, my, s, gs, n, local, action);
    }
  }

  lemma ExactGroup(gs: seq<Group>, s: Records, n: nat)
    requires Grouped(gs) && (forall x :: InGroups(gs, x) <==> x in s) && n < |gs|
    ensures forall m :: m in gs[n].mods <==> m in s && m.id == gs[n].id
  {
    forall m
      ensures m in gs[n].mods <==> m in s && m.id == gs[n].id
    {
      GroupIsExact(gs, s, n, m);
    }
  }

  lemma WholePlan(plan: Plan, my: seq<Modification>, s: Records, gs: seq<Group>)
    requires Grouped(gs) && (forall x :: InGroups(gs, x) <==> x in s) && IsPlanFor(plan, my, s, Among(gs, |gs|))
    ensures IsPlan(plan, my, s)
  {
    forall m: Modification | Holds(s, m.id)
      ensures Among(gs, |gs|)(m.id)
    {
      GroupsCover(gs, s, m.id);
    }
    assert forall m: Modification :: AnyCompleted(s, m.id) ==> Holds(s, m.id);
  }
}
